/**
 Where CoreDHCP may run: node selectors, their life in a server-side-applied DaemonSet, the tally of probed nodes and
 the CoreDHCP pass (internal/reconcilers/helpers.go, networkprobe.go and coredhcp.go).
 */
module Placement {
  import opened Options
  import opened ControlPlanes
  import opened Names
  import opened Targets
  import Text

  // ----- helpers.go -----

  function TargetOf(spec: Spec, kind: Kind): Target { ProbeConfig(spec.networkProbe.Of(kind)) }

  function CurrentRevision(lib: Library, spec: Spec, kind: Kind): string
    requires Faithful(lib)
  {
    Revision(lib, ALGORITHM_VERSION, TargetOf(spec, kind))
  }

  function EffectiveNodeSelector(lib: Library, spec: Spec, kind: Kind): Labels
    requires Faithful(lib)
  {
    if spec.networkProbe.enabled then
      map[ReadyLabel(spec.clusterName, kind) := "true",
          RevisionLabel(spec.clusterName, kind) := CurrentRevision(lib, spec, kind)]
    else if kind.Provision? then spec.coreDHCPSelector
    else spec.magellanSelector
  }

  datatype Condition = Condition(ready: bool, observedGeneration: nat)

  predicate GateReady(lib: Library, spec: Spec, generation: nat, condition: Option<Condition>, kind: Kind)
    requires Faithful(lib)
  {
    !spec.networkProbe.enabled ||
    (&& condition.Some? && condition.value.ready && condition.value.observedGeneration == generation
     && spec.networkProbe.intervalSeconds >= 0 && Valid(lib, TargetOf(spec, kind)))
  }

  /** With probing off the gate is open; with it, it takes a ready report on this generation and a usable target. */
  lemma GateReadyIff(lib: Library, spec: Spec, generation: nat, condition: Option<Condition>, kind: Kind)
    requires Faithful(lib)
    ensures !spec.networkProbe.enabled ==> GateReady(lib, spec, generation, condition, kind)
    ensures spec.networkProbe.enabled ==>
      var t := if kind.Provision? then spec.networkProbe.provision else spec.networkProbe.bmc;
      GateReady(lib, spec, generation, condition, kind) <==>
        && condition == Some(Condition(true, generation)) && 0 <= spec.networkProbe.intervalSeconds
        && t.Some? && Usable(lib, t.value)
  {
    var t := spec.networkProbe.Of(kind);
    if t.Some? {
      ValidIffUsable(lib, t.value);
    }
    hide Valid, Usable;
    assert t.None? ==> !Valid(lib, ProbeConfig(t)) by {
      EmptyTargetInvalid(lib);
    }
  }

  lemma EmptyTargetInvalid(lib: Library)
    requires Faithful(lib)
    ensures !Valid(lib, ProbeConfig(None))
  {
  }

  // ----- the DaemonSet's nodeSelector under server-side apply -----

  /** The reconciler's own field manager, and the second one that only restricts the selector. */
  datatype Manager = Main | Gate

  /** The live selector with the keys each field manager owns; `foreign` are keys owned by anyone else. */
  datatype DaemonSet = DaemonSet(selector: Labels, main: set<string>, gate: set<string>, foreign: set<string>) {

    ghost predicate Owned() { selector.Keys == main + gate + foreign }

    /**
     A forced apply: the desired keys take the desired values, a manager that held another value loses the key, and keys
     the manager no longer applies go away unless someone else owns them.
     */
    function Apply(m: Manager, desired: Labels): DaemonSet {
      var seized := set k | k in desired && k in selector && selector[k] != desired[k];
      var mine := if m.Main? then main else gate;
      var others := foreign + if m.Main? then gate else main;
      var live := (selector - (mine - desired.Keys - others)) + desired;
      if m.Main? then DaemonSet(live, desired.Keys, gate - seized, foreign - seized)
      else DaemonSet(live, main - seized, desired.Keys, foreign - seized)
    }
  }

  /** A selector that demands all of `desired` is one that `desired`, read as a selector, matches. */
  predicate Covers(selector: Labels, desired: Labels) { Matches(desired, selector) }

  /** After an apply the live selector demands at least what was applied: it can only be narrower. */
  lemma ApplyCovers(ds: DaemonSet, m: Manager, desired: Labels, labels: Labels)
    ensures Covers(ds.Apply(m, desired).selector, desired)
    ensures Matches(ds.Apply(m, desired).selector, labels) ==> Matches(desired, labels)
  {
    var live := ds.Apply(m, desired).selector;
    assert forall k :: k in desired ==> k in live && live[k] == desired[k];
  }

  lemma ApplyOwned(ds: DaemonSet, m: Manager, desired: Labels)
    requires ds.Owned()
    ensures ds.Apply(m, desired).Owned()
  {
  }

  /**
   The early restriction takes a key from the main manager exactly when it sets that key to another value, as it does
   with an outdated revision; every other key of the main manager stays its own, with its value.
   */
  lemma GateKeepsMain(ds: DaemonSet, desired: Labels, k: string)
    requires ds.Owned() && k in ds.main
    ensures k in ds.Apply(Gate, desired).main <==> !(k in desired && ds.selector[k] != desired[k])
    ensures k in ds.Apply(Gate, desired).selector
    ensures ds.Apply(Gate, desired).selector[k] == if k in desired then desired[k] else ds.selector[k]
  {
  }

  /** Whoever applies owns exactly what it applied; others, the gate and outsiders alike, lose what it changed. */
  lemma ApplyTakes(ds: DaemonSet, m: Manager, desired: Labels, k: string)
    ensures var after := ds.Apply(m, desired);
            var changed := k in desired && k in ds.selector && ds.selector[k] != desired[k];
            && (if m.Main? then after.main else after.gate) == desired.Keys
            && (m.Main? ==> (k in after.gate <==> k in ds.gate && !changed))
            && (m.Gate? ==> (k in after.main <==> k in ds.main && !changed))
            && (k in after.foreign <==> k in ds.foreign && !changed)
  {
  }

  /** A complete pass leaves exactly the effective selector, apart from keys that other managers own. */
  lemma CompletePassExact(ds: DaemonSet, desired: Labels)
    requires ds.Owned()
    ensures var after := ds.Apply(Gate, desired).Apply(Main, desired);
            && after.selector.Keys == desired.Keys + after.foreign
            && Covers(after.selector, desired)
            && (ds.foreign == {} ==> after.selector == desired)
  {
    var mid := ds.Apply(Gate, desired);
    var after := mid.Apply(Main, desired);
    ApplyOwned(ds, Gate, desired);
    ApplyOwned(mid, Main, desired);
    ApplyCovers(mid, Main, desired, map[]);
    assert after.gate <= desired.Keys;
  }

  // ----- networkprobe.go -----

  function Lookup(labels: Labels, key: string): string { if key in labels then labels[key] else "" }

  /** The test the tally applies to one node. */
  predicate Eligible(lib: Library, spec: Spec, kind: Kind, labels: Labels)
    requires Faithful(lib)
  {
    && Lookup(labels, ReadyLabel(spec.clusterName, kind)) == "true"
    && Lookup(labels, RevisionLabel(spec.clusterName, kind)) == CurrentRevision(lib, spec, kind)
    && Valid(lib, TargetOf(spec, kind))
  }

  /** With probing on and a valid target, the tally and the node selector pick the same nodes. */
  lemma EligibleIffMatched(lib: Library, spec: Spec, kind: Kind, labels: Labels)
    requires Faithful(lib) && spec.networkProbe.enabled
    ensures Eligible(lib, spec, kind, labels)
            <==> Valid(lib, TargetOf(spec, kind)) && Matches(EffectiveNodeSelector(lib, spec, kind), labels)
  {
    hide ReadyLabel, RevisionLabel, Revision, Valid;
    var sel := EffectiveNodeSelector(lib, spec, kind);
    LabelsInjective(spec.clusterName, kind, spec.clusterName, kind);
    assert ReadyLabel(spec.clusterName, kind) in sel && RevisionLabel(spec.clusterName, kind) in sel;
  }

  /** With probing on, the selector asks for the ready label and the revision of the current target. */
  lemma ProbingSelector(lib: Library, spec: Spec, kind: Kind, labels: Labels)
    requires Faithful(lib) && spec.networkProbe.enabled
    ensures var ready, revision := ReadyLabel(spec.clusterName, kind), RevisionLabel(spec.clusterName, kind);
            Matches(EffectiveNodeSelector(lib, spec, kind), labels) <==>
              && ready in labels && labels[ready] == "true" && revision in labels
              && labels[revision] == Revision(lib, ALGORITHM_VERSION, ProbeConfig(spec.networkProbe.Of(kind)))
  {
    LabelsInjective(spec.clusterName, kind, spec.clusterName, kind);
    hide ReadyLabel, RevisionLabel, Revision, Faithful, ProbeConfig;
    var sel := EffectiveNodeSelector(lib, spec, kind);
    assert ReadyLabel(spec.clusterName, kind) in sel && RevisionLabel(spec.clusterName, kind) in sel;
  }

  /** With probing off, each kind has the selector the spec gives for it. */
  lemma PlainSelectors(lib: Library, spec: Spec)
    requires Faithful(lib) && !spec.networkProbe.enabled
    ensures EffectiveNodeSelector(lib, spec, Provision) == spec.coreDHCPSelector
    ensures EffectiveNodeSelector(lib, spec, Bmc) == spec.magellanSelector
  {
  }

  type NodeList = seq<(string, Labels)>

  predicate DistinctNames(items: NodeList) {
    forall i, j :: 0 <= i < j < |items| ==> items[i].0 != items[j].0
  }

  ghost predicate Listed(lib: Library, spec: Spec, kind: Kind, items: NodeList, name: string)
    requires Faithful(lib)
  {
    exists i :: 0 <= i < |items| && items[i].0 == name && Eligible(lib, spec, kind, items[i].1)
  }

  /** The sorted names of the eligible nodes. */
  ghost predicate IsTally(lib: Library, spec: Spec, kind: Kind, items: NodeList, names: seq<string>)
    requires Faithful(lib)
  {
    Text.StrictlySorted(names) && forall n :: n in names <==> Listed(lib, spec, kind, items, n)
  }

  method Tally(lib: Library, spec: Spec, kind: Kind, items: NodeList) returns (names: seq<string>)
    requires Faithful(lib) && DistinctNames(items)
    ensures IsTally(lib, spec, kind, items, names)
  {
    hide Eligible;
    var found: seq<string> := [];
    for i := 0 to |items|
      invariant Text.Distinct(found)
      invariant forall n :: n in found <==> Listed(lib, spec, kind, items[..i], n)
    {
      assert items[..i + 1] == items[..i] + [items[i]];
      assert forall n :: Listed(lib, spec, kind, items[..i + 1], n) <==>
        Listed(lib, spec, kind, items[..i], n) || (n == items[i].0 && Eligible(lib, spec, kind, items[i].1)) by {
        TallyExtends(lib, spec, kind, items, i);
      }
      if Eligible(lib, spec, kind, items[i].1) {
        assert items[i].0 !in found;
        found := found + [items[i].0];
      }
    }
    assert items[..|items|] == items;
    names := Text.Sort(found);
    Text.SortSorts(found);
  }

  lemma TallyExtends(lib: Library, spec: Spec, kind: Kind, items: NodeList, i: nat)
    requires Faithful(lib) && i < |items|
    ensures forall n :: Listed(lib, spec, kind, items[..i + 1], n) <==>
      Listed(lib, spec, kind, items[..i], n) || (n == items[i].0 && Eligible(lib, spec, kind, items[i].1))
  {
    hide Eligible;
    var before, after := items[..i], items[..i + 1];
    forall n | Listed(lib, spec, kind, before, n) ensures Listed(lib, spec, kind, after, n) {
      var j :| 0 <= j < |before| && before[j].0 == n && Eligible(lib, spec, kind, before[j].1);
      assert after[j] == before[j];
    }
    forall n | Listed(lib, spec, kind, after, n)
      ensures Listed(lib, spec, kind, before, n) || (n == items[i].0 && Eligible(lib, spec, kind, items[i].1))
    {
      var j :| 0 <= j < |after| && after[j].0 == n && Eligible(lib, spec, kind, after[j].1);
      if j < i { assert before[j] == after[j]; }
    }
    assert after[i] == items[i];
  }

  predicate ProbeReady(spec: Spec, provisionNodes: bool, bmcNodes: bool) {
    var probe := spec.networkProbe;
    && (probe.provision.None? || provisionNodes)
    && (probe.bmc.None? || bmcNodes)
    && (probe.provision.Some? || probe.bmc.Some?)
    && probe.intervalSeconds >= 0
  }

  /** A report is ready when each configured target has a node, at least one is configured and the interval is sane. */
  lemma ProbeReadyIff(spec: Spec, provisionNodes: bool, bmcNodes: bool)
    ensures ProbeReady(spec, provisionNodes, bmcNodes) <==>
      && 0 <= spec.networkProbe.intervalSeconds
      && match (spec.networkProbe.provision, spec.networkProbe.bmc)
         case (None, None) => false
         case (Some(_), None) => provisionNodes
         case (None, Some(_)) => bmcNodes
         case (Some(_), Some(_)) => provisionNodes && bmcNodes
  {
  }

  /** The in-memory status a pass works on; the controller writes it back at the end. */
  class Status {
    var probe: Option<Condition>
    var provisionNodes: seq<string>
    var bmcNodes: seq<string>

    constructor (condition: Option<Condition>)
      ensures probe == condition && provisionNodes == [] && bmcNodes == []
    {
      probe, provisionNodes, bmcNodes := condition, [], [];
    }
  }

  /** Outcome of the API calls of one network-probe pass. */
  datatype ProbeApi = ProbeApi(applyFails: bool, readFails: bool, numberReady: nat, listFails: bool, nodes: NodeList)

  /** The condition is always stamped with the generation of the spec it was computed from. */
  method ReconcileNetworkProbe(lib: Library, spec: Spec, generation: nat, api: ProbeApi, status: Status)
    returns (err: bool)
    requires Faithful(lib) && DistinctNames(api.nodes)
    modifies status
    ensures err <==>
      spec.networkProbe.enabled && (api.applyFails || api.readFails || (api.numberReady > 0 && api.listFails))
    ensures err ==>
      && status.probe == old(status.probe)
      && status.provisionNodes == old(status.provisionNodes) && status.bmcNodes == old(status.bmcNodes)
    ensures !err ==> status.probe.Some? && status.probe.value.observedGeneration == generation
    ensures !err && !spec.networkProbe.enabled ==>
      status.probe.value.ready && status.provisionNodes == [] && status.bmcNodes == []
    ensures !err && spec.networkProbe.enabled && api.numberReady == 0 ==>
      !status.probe.value.ready && status.provisionNodes == [] && status.bmcNodes == []
    ensures !err && spec.networkProbe.enabled && api.numberReady > 0 ==>
      && IsTally(lib, spec, Provision, api.nodes, status.provisionNodes)
      && IsTally(lib, spec, Bmc, api.nodes, status.bmcNodes)
      && (status.probe.value.ready <==> ProbeReady(spec, status.provisionNodes != [], status.bmcNodes != []))
  {
    if !spec.networkProbe.enabled {
      status.provisionNodes, status.bmcNodes := [], [];
      status.probe := Some(Condition(true, generation));
      return false;
    }
    if api.applyFails || api.readFails {
      return true;
    }
    if api.numberReady == 0 {
      status.provisionNodes, status.bmcNodes := [], [];
      status.probe := Some(Condition(false, generation));
      return false;
    }
    if api.listFails {
      return true;
    }
    status.provisionNodes := Tally(lib, spec, Provision, api.nodes);
    status.bmcNodes := Tally(lib, spec, Bmc, api.nodes);
    var ready := ProbeReady(spec, status.provisionNodes != [], status.bmcNodes != []);
    status.probe := Some(Condition(ready, generation));
    return false;
  }

  /**
   A ready report for a provision target names at least one node, and names exactly the nodes the selector matches.
   */
  lemma ReadyReportIsSelection(lib: Library, spec: Spec, items: NodeList, names: seq<string>, bmc: bool)
    requires Faithful(lib) && spec.networkProbe.enabled && spec.networkProbe.provision.Some?
    requires IsTally(lib, spec, Provision, items, names) && ProbeReady(spec, names != [], bmc)
    ensures names != [] && Valid(lib, TargetOf(spec, Provision))
    ensures forall n :: n in names <==>
      exists i :: 0 <= i < |items| && items[i].0 == n &&
        Matches(EffectiveNodeSelector(lib, spec, Provision), items[i].1)
  {
    hide Eligible, Valid, Matches, EffectiveNodeSelector;
    forall labels ensures Eligible(lib, spec, Provision, labels)
      <==> Valid(lib, TargetOf(spec, Provision)) && Matches(EffectiveNodeSelector(lib, spec, Provision), labels)
    {
      EligibleIffMatched(lib, spec, Provision, labels);
    }
    assert names[0] in names;
    assert Valid(lib, TargetOf(spec, Provision));
  }

  // ----- coredhcp.go -----

  function Restricted(ds: Option<DaemonSet>, selector: Labels): Option<DaemonSet> {
    match ds
    case None => None
    case Some(d) => Some(d.Apply(Gate, selector))
  }

  function Deployed(ds: Option<DaemonSet>, selector: Labels): Option<DaemonSet> {
    match ds
    case None => Some(DaemonSet(selector, selector.Keys, {}, {}))
    case Some(d) => Some(d.Apply(Main, selector))
  }

  datatype Rollout = Rollout(
    observedGeneration: int, generation: int, desired: int, ready: int, updated: int, available: int, misscheduled: int)

  predicate FullyReady(r: Rollout) {
    && r.observedGeneration >= r.generation && r.desired > 0
    && r.ready == r.desired && r.updated == r.desired && r.available == r.desired && r.misscheduled == 0
  }

  datatype ConfigSource = Resolved | Unavailable | Unreadable

  /** Outcome of the API calls of one CoreDHCP pass, in call order; `rollout` is absent when the object is not found. */
  datatype DhcpApi = DhcpApi(
    getFails: bool, restrictFails: bool, config: ConfigSource, configMapFails: bool, applyFails: bool,
    statusFails: bool, rollout: Option<Rollout>)

  datatype DhcpResult = Disabled | Failed | WaitingForProbe | ConfigUnavailable | Provisioning | Ready

  /** Where the pass stops. */
  function DhcpOutcome(spec: Spec, present: bool, gate: bool, api: DhcpApi): DhcpResult {
    if !spec.coreDHCPEnabled then Disabled
    else if api.getFails || (present && api.restrictFails) then Failed
    else if !gate then WaitingForProbe
    else if api.config.Unreadable? then Failed
    else if api.config.Unavailable? then ConfigUnavailable
    else if api.configMapFails || api.applyFails || api.statusFails then Failed
    else if api.rollout.Some? && FullyReady(api.rollout.value) then Ready
    else Provisioning
  }

  /** An error is reported exactly when a call on the way to the first gate that closes fails. */
  lemma FailedOutcomeIff(spec: Spec, present: bool, gate: bool, api: DhcpApi)
    ensures DhcpOutcome(spec, present, gate, api).Disabled? <==> !spec.coreDHCPEnabled
    ensures DhcpOutcome(spec, present, gate, api).Failed? <==>
      && spec.coreDHCPEnabled
      && (|| api.getFails || (present && api.restrictFails)
          || (gate && api.config.Unreadable?)
          || (gate && api.config.Resolved? && (api.configMapFails || api.applyFails || api.statusFails)))
  {
  }

  /** The two gates, in order: eligible nodes first, then the config source. */
  lemma WaitingOutcomeIff(spec: Spec, present: bool, gate: bool, api: DhcpApi)
    ensures var outcome := DhcpOutcome(spec, present, gate, api);
            var restricted := spec.coreDHCPEnabled && !api.getFails && !(present && api.restrictFails);
            && (outcome.WaitingForProbe? <==> restricted && !gate)
            && (outcome.ConfigUnavailable? <==> restricted && gate && api.config.Unavailable?)
  {
  }

  /** Ready is reported exactly for a current and complete rollout, behind every gate. */
  lemma ReadyOutcomeIff(spec: Spec, present: bool, gate: bool, api: DhcpApi)
    ensures DhcpOutcome(spec, present, gate, api).Ready? <==>
      && spec.coreDHCPEnabled && gate && api.config.Resolved?
      && !api.getFails && !(present && api.restrictFails)
      && !api.configMapFails && !api.applyFails && !api.statusFails
      && api.rollout.Some?
      && var r := api.rollout.value;
         && r.generation <= r.observedGeneration && r.misscheduled == 0
         && 0 < r.desired == r.ready == r.updated == r.available
  {
  }

  /** What the pass leaves behind. */
  function DhcpState(spec: Spec, ds: Option<DaemonSet>, selector: Labels, gate: bool, api: DhcpApi): Option<DaemonSet> {
    if !spec.coreDHCPEnabled || api.getFails || (ds.Some? && api.restrictFails) then ds
    else if gate && api.config.Resolved? && !api.configMapFails && !api.applyFails then
      Deployed(Restricted(ds, selector), selector)
    else Restricted(ds, selector)
  }

  class DaemonSetApi {
    var daemonSet: Option<DaemonSet>

    constructor (ds: Option<DaemonSet>)
      ensures daemonSet == ds
    {
      daemonSet := ds;
    }
  }

  /**
   The selector of an existing DaemonSet is restricted before any gate can return, and the main apply comes last. The
   second clause is the safety of a pass: unless it failed, whatever DaemonSet is live demands the effective selector.
   The third is that a pass past all gates leaves one.
   */
  method ReconcileCoreDHCP(lib: Library, spec: Spec, generation: nat, condition: Option<Condition>, api: DhcpApi,
                           cluster: DaemonSetApi)
    returns (result: DhcpResult)
    requires Faithful(lib)
    modifies cluster
    ensures result ==
      DhcpOutcome(spec, old(cluster.daemonSet).Some?, GateReady(lib, spec, generation, condition, Provision), api)
    ensures result !in {Disabled, Failed} && cluster.daemonSet.Some? ==>
      Covers(cluster.daemonSet.value.selector, EffectiveNodeSelector(lib, spec, Provision))
    ensures result in {Provisioning, Ready} ==>
      && cluster.daemonSet.Some?
      && (old(cluster.daemonSet).None? ==>
            cluster.daemonSet.value.selector == EffectiveNodeSelector(lib, spec, Provision))
    ensures cluster.daemonSet ==
      DhcpState(spec, old(cluster.daemonSet), EffectiveNodeSelector(lib, spec, Provision),
                GateReady(lib, spec, generation, condition, Provision), api)
  {
    hide EffectiveNodeSelector, GateReady;
    if !spec.coreDHCPEnabled {
      return Disabled;
    }
    var selector := EffectiveNodeSelector(lib, spec, Provision);
    var ok := RestrictExistingSelection(selector, api, cluster);
    if !ok {
      return Failed;
    }
    if !GateReady(lib, spec, generation, condition, Provision) {
      return WaitingForProbe;
    }
    if api.config.Unreadable? {
      return Failed;
    }
    if api.config.Unavailable? {
      return ConfigUnavailable;
    }
    if api.configMapFails || api.applyFails {
      return Failed;
    }
    if cluster.daemonSet.Some? {
      ApplyCovers(cluster.daemonSet.value, Main, selector, map[]);
    }
    cluster.daemonSet := Deployed(cluster.daemonSet, selector);
    if api.statusFails {
      return Failed;
    }
    if api.rollout.Some? && FullyReady(api.rollout.value) {
      return Ready;
    }
    return Provisioning;
  }

  method RestrictExistingSelection(selector: Labels, api: DhcpApi, cluster: DaemonSetApi) returns (ok: bool)
    modifies cluster
    ensures ok <==> !api.getFails && !(old(cluster.daemonSet).Some? && api.restrictFails)
    ensures cluster.daemonSet == if ok then Restricted(old(cluster.daemonSet), selector) else old(cluster.daemonSet)
    ensures ok && cluster.daemonSet.Some? ==> Covers(cluster.daemonSet.value.selector, selector)
  {
    if api.getFails {
      return false;
    }
    if cluster.daemonSet.None? {
      return true;
    }
    if api.restrictFails {
      return false;
    }
    ApplyCovers(cluster.daemonSet.value, Gate, selector, map[]);
    cluster.daemonSet := Some(cluster.daemonSet.value.Apply(Gate, selector));
    return true;
  }
}
