/** The probe binary: how a process is configured and the label patch each tick writes (cmd/probe/main.go). */
module Probe {
  import opened Options
  import opened ControlPlanes
  import opened Names
  import opened Targets
  import Text

  datatype Runner =
    Runner(cluster: string, node: string, provision: Option<TargetConfig>, bmc: Option<TargetConfig>) {

    function Of(kind: Kind): Option<TargetConfig> { if kind.Bmc? then bmc else provision }

    predicate WellFormed() {
      (provision.Some? ==> provision.value.WellFormed()) && (bmc.Some? ==> bmc.value.WellFormed())
    }
  }

  // ----- runnerFromEnv -----

  datatype Env =
    Env(cluster: string, node: string, intervalSeconds: string, provision: TargetEnv, bmc: TargetEnv) {
    function Of(kind: Kind): TargetEnv { if kind.Bmc? then bmc else provision }
  }

  /** A positive number of seconds that fits a time.Duration. */
  predicate ValidInterval(s: string) {
    s == "" ||
    (Text.Atoi(s).Some? && 0 < Text.Atoi(s).value && Text.Atoi(s).value <= Text.INT64_MAX / 1_000_000_000)
  }

  /** In seconds, from one up to what a time.Duration holds; left out is fine, other spellings are read as numbers. */
  lemma IntervalIff(n: int)
    requires Targets.Int64(n)
    ensures ValidInterval("") && (ValidInterval(Text.Decimal(n)) <==> 1 <= n <= 9_223_372_036)
  {
    Text.AtoiInvertsDecimal(n);
    DecimalNonEmpty(n);
    hide Text.Atoi, Text.Decimal;
  }

  /** The process refuses to start without a cluster, a node, a sane interval or any target. */
  method RunnerFromEnv(lib: Library, algorithm: string, env: Env) returns (r: Option<Runner>)
    requires Faithful(lib)
    ensures r.Some? <==>
      && env.cluster != "" && env.node != "" && ValidInterval(env.intervalSeconds)
      && (RunnerTarget(lib, algorithm, env.provision).Some? || RunnerTarget(lib, algorithm, env.bmc).Some?)
    ensures r.Some? ==>
      && r.value.cluster == env.cluster && r.value.node == env.node
      && forall kind :: r.value.Of(kind) == RunnerTarget(lib, algorithm, env.Of(kind))
  {
    if env.cluster == "" || env.node == "" || !ValidInterval(env.intervalSeconds) {
      return None;
    }
    var targets := [ParseTarget(lib, algorithm, env.provision), ParseTarget(lib, algorithm, env.bmc)];
    var injected := [env.provision.revision, env.bmc.revision];
    ghost var parsed := targets;
    for i := 0 to 2
      invariant |targets| == 2
      invariant forall j :: i <= j < 2 ==> targets[j] == parsed[j]
      invariant forall j :: 0 <= j < i ==>
        targets[j] == RunnerTarget(lib, algorithm, env.Of(if j == 0 then Provision else Bmc))
    {
      if targets[i].Some? && injected[i] != targets[i].value.revision {
        targets := targets[i := Some(targets[i].value.(check := None))];
      }
    }
    if targets[0].None? && targets[1].None? {
      return None;
    }
    r := Some(Runner(env.cluster, env.node, targets[0], targets[1]));
  }

  // ----- runOnce -----

  /** A passing check attests its revision; a failing one clears the attestation in the same patch. */
  function KindPatch(r: Runner, kind: Kind, host: Host): Labels
    requires r.WellFormed()
  {
    match r.Of(kind)
    case None => map[]
    case Some(t) =>
      map[ReadyLabel(r.cluster, kind) := if t.Verdict(host) then "true" else "false",
          RevisionLabel(r.cluster, kind) := if t.Verdict(host) then t.revision else ""]
  }

  function Patch(r: Runner, host: Host): Labels
    requires r.WellFormed()
  {
    KindPatch(r, Provision, host) + KindPatch(r, Bmc, host)
  }

  /** A label patch sets the given keys and leaves every other label alone; a missing node is an error. */
  function PatchNode(nodes: map<string, Labels>, node: string, patch: Labels): map<string, Labels> {
    if node in nodes then nodes[node := nodes[node] + patch] else nodes
  }

  /** The Node objects of the API server. */
  class NodeApi {
    var nodes: map<string, Labels>

    constructor ()
      ensures nodes == map[]
    {
      nodes := map[];
    }
  }

  /** One tick: both targets are evaluated and written in a single patch, which may be refused. */
  method RunOnce(r: Runner, host: Host, api: NodeApi, refused: bool) returns (ok: bool)
    requires r.WellFormed()
    modifies api
    ensures ok <==> (r.provision.None? && r.bmc.None?) || (!refused && r.node in old(api.nodes))
    ensures api.nodes == if ok then PatchNode(old(api.nodes), r.node, Patch(r, host)) else old(api.nodes)
  {
    hide ReadyLabel, RevisionLabel, Passes;
    var labels: Labels := map[];
    var kinds := [Provision, Bmc];
    for i := 0 to 2
      invariant labels == if i == 0 then map[] else if i == 1 then KindPatch(r, Provision, host) else Patch(r, host)
    {
      var kind := kinds[i];
      var target := r.Of(kind);
      if target.Some? {
        var passed := target.value.Verdict(host);
        labels := labels[ReadyLabel(r.cluster, kind) := if passed then "true" else "false"];
        var revision := if passed then target.value.revision else "";
        labels := labels[RevisionLabel(r.cluster, kind) := revision];
      }
      if i == 0 { assert labels == KindPatch(r, Provision, host); }
      else { assert labels == KindPatch(r, Provision, host) + KindPatch(r, Bmc, host); }
    }
    assert r.provision.Some? ==> ReadyLabel(r.cluster, Provision) in labels;
    assert r.bmc.Some? ==> ReadyLabel(r.cluster, Bmc) in labels;
    if |labels| == 0 {
      assert r.node in api.nodes ==> api.nodes[r.node] + Patch(r, host) == api.nodes[r.node];
      return true;
    }
    if refused || r.node !in api.nodes {
      return false;
    }
    api.nodes := PatchNode(api.nodes, r.node, labels);
    return true;
  }

  /** What a tick leaves on the node it patches, and that it writes nothing but this cluster's own labels. */
  lemma PatchEffect(r: Runner, host: Host, labels: Labels, kind: Kind)
    requires r.WellFormed()
    ensures Patch(r, host).Keys <= ProbeLabels(r.cluster)
    ensures r.Of(kind).None? ==> RevisionLabel(r.cluster, kind) !in Patch(r, host)
    ensures r.Of(kind).Some? ==>
      var t := r.Of(kind).value;
      var after := labels + Patch(r, host);
      && ReadyLabel(r.cluster, kind) in after && RevisionLabel(r.cluster, kind) in after
      && after[RevisionLabel(r.cluster, kind)] == (if t.Verdict(host) then t.revision else "")
      && (after[ReadyLabel(r.cluster, kind)] == "true" <==> t.Verdict(host))
  {
    forall k: Kind, l: Kind
      ensures ReadyLabel(r.cluster, k) != RevisionLabel(r.cluster, l)
      ensures RevisionLabel(r.cluster, k) == RevisionLabel(r.cluster, l) ==> k == l
      ensures ReadyLabel(r.cluster, k) == ReadyLabel(r.cluster, l) ==> k == l
    {
      LabelsInjective(r.cluster, k, r.cluster, l);
    }
    hide ReadyLabel, RevisionLabel;
  }
}
