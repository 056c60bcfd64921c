/**
 Network-probe attestation and CoreDHCP placement as one step system. Probes of any version and configuration, legacy
 probes, other clusters, spec edits and the operator's own steps interleave freely; each operator pass works on the
 snapshot of the spec it began with, one API call at a time. A call may fail, and a pass may be cut short between any
 two; a pass that stops at an error, or at an unavailable config source, still writes the status it has computed so
 far.
 */
module Protocol {
  import opened Options
  import opened ControlPlanes
  import opened Names
  import opened Targets
  import opened Probe
  import opened Placement

  /** A tick that wrote a revision label: the probe's version, its environment, and the host it inspected. */
  datatype Attestation = Attestation(algorithm: string, env: TargetEnv, host: Host)

  ghost function Written(lib: Library, a: Attestation): string
    requires Faithful(lib)
  {
    match RunnerTarget(lib, a.algorithm, a.env)
    case None => ""
    case Some(t) => if t.Verdict(a.host) then t.revision else ""
  }

  /** Evaluated directly, the provision target of `spec` is valid and passes on the attesting host. */
  ghost predicate Vouches(lib: Library, spec: Spec, a: Attestation)
    requires Faithful(lib)
  {
    var target := TargetOf(spec, Provision);
    Valid(lib, target) && Passes(CheckOf(lib, target), a.host)
  }

  datatype Pc = AtProbe | AtRestrict | AtDeploy | AtStatus

  /**
   An operator pass in flight; `report` is its node list, with the attestation each node carried when it was listed.
   */
  datatype Pass =
    Pass(spec: Spec, generation: nat, pc: Pc, condition: Option<Condition>, report: map<string, Attestation>)

  /**
   `last` and `restrictedFor` are history: the latest revision-writing tick per node and kind, and the spec whose
   selector the DaemonSet was last given.
   */
  datatype State = State(
    nodes: map<string, Labels>, last: map<(string, Kind), Attestation>,
    spec: Spec, generation: nat, condition: Option<Condition>, report: map<string, Attestation>,
    daemonSet: Option<DaemonSet>, restrictedFor: Option<Spec>, pass: Option<Pass>)

  /** `Failure`: this sub-reconciler or one before it returns an error. */
  datatype ProbeOutcome = Failure | NoPodReady | NodesListed

  /** What happens at nodes. */
  datatype Event =
    | Tick(node: string, algorithm: string, provision: TargetEnv, bmc: TargetEnv, host: Host)
    | LegacyTick(node: string, kind: Kind, ready: bool)
    | OtherPatch(node: string, patch: Labels)
    | Join(node: string, labels: Labels)
    | Leave(node: string)

  /** What the operator does. */
  datatype Action =
    | Begin
    | ProbeStep(outcome: ProbeOutcome)
    | RestrictStep(ok: bool)
    | DeployStep(ok: bool)
    | StatusStep(ok: bool)
    | Crash

  datatype Step =
    | AtNode(event: Event)
    | ByOperator(action: Action)
    | Edit(spec: Spec)
    | OutsideDaemonSetChange(ds: Option<DaemonSet>)

  ghost function RunnerOf(lib: Library, cluster: string, e: Event): (r: Runner)
    requires Faithful(lib) && e.Tick?
    ensures r.WellFormed()
  {
    Runner(cluster, e.node, RunnerTarget(lib, e.algorithm, e.provision), RunnerTarget(lib, e.algorithm, e.bmc))
  }

  ghost function Attest(last: map<(string, Kind), Attestation>, r: Runner, e: Event): map<(string, Kind), Attestation>
    requires e.Tick?
  {
    var a := if r.provision.Some?
             then last[(e.node, Provision) := Attestation(e.algorithm, e.provision, e.host)] else last;
    if r.bmc.Some? then a[(e.node, Bmc) := Attestation(e.algorithm, e.bmc, e.host)] else a
  }

  ghost predicate EligibleNow(lib: Library, s: State, spec: Spec, kind: Kind, n: string)
    requires Faithful(lib)
  {
    n in s.nodes && (n, kind) in s.last && Eligible(lib, spec, kind, s.nodes[n])
  }

  ghost function AfterProbe(lib: Library, s: State, p: Pass, outcome: ProbeOutcome): (q: Pass)
    requires Faithful(lib)
    ensures q.spec == p.spec && q.generation == p.generation && (q.pc == AtRestrict || q == p.(pc := AtStatus))
    ensures q.pc.AtRestrict? ==> q.condition.Some? && q.condition.value.observedGeneration == p.generation
  {
    if outcome.Failure? then p.(pc := AtStatus)
    else if !p.spec.networkProbe.enabled then
      p.(pc := AtRestrict, condition := Some(Condition(true, p.generation)), report := map[])
    else if outcome.NoPodReady? then
      p.(pc := AtRestrict, condition := Some(Condition(false, p.generation)), report := map[])
    else
      var report := map n | n in s.nodes && EligibleNow(lib, s, p.spec, Provision, n) :: s.last[(n, Provision)];
      var bmc := exists n :: EligibleNow(lib, s, p.spec, Bmc, n);
      var ready := ProbeReady(p.spec, report != map[], bmc);
      p.(pc := AtRestrict, condition := Some(Condition(ready, p.generation)), report := report)
  }

  /** Events at a node that does not exist, and patches that would touch the probe's labels, do nothing. */
  ghost function NodeNext(lib: Library, s: State, e: Event): (s': State)
    requires Faithful(lib)
    ensures s' == s.(nodes := s'.nodes, last := s'.last)
  {
    var cluster := s.spec.clusterName;
    match e
    case Tick(node, _, _, _, host) =>
      if node !in s.nodes then s
      else
        var r := RunnerOf(lib, cluster, e);
        s.(nodes := PatchNode(s.nodes, node, Patch(r, host)), last := Attest(s.last, r, e))
    case LegacyTick(node, kind, ready) =>
      s.(nodes := PatchNode(s.nodes, node, map[ReadyLabel(cluster, kind) := if ready then "true" else "false"]))
    case OtherPatch(node, patch) =>
      if patch.Keys !! ProbeLabels(cluster) then s.(nodes := PatchNode(s.nodes, node, patch)) else s
    case Join(node, labels) =>
      if node !in s.nodes && labels.Keys !! ProbeLabels(cluster) then s.(nodes := s.nodes[node := labels]) else s
    case Leave(node) => s.(nodes := s.nodes - {node})
  }

  /** Actions out of turn do nothing. */
  ghost function OperatorNext(lib: Library, s: State, a: Action): State
    requires Faithful(lib)
  {
    if a.Begin? then
      if s.pass.None? then s.(pass := Some(Pass(s.spec, s.generation, AtProbe, s.condition, s.report))) else s
    else if a.Crash? then s.(pass := None)
    else if s.pass.None? then s
    else
      var p := s.pass.value;
      if a.ProbeStep? && p.pc.AtProbe? then s.(pass := Some(AfterProbe(lib, s, p, a.outcome)))
      else if a.RestrictStep? && p.pc.AtRestrict? then AfterRestrict(lib, s, p, a.ok)
      else if a.DeployStep? && p.pc.AtDeploy? then AfterDeploy(lib, s, p, a.ok)
      else if a.StatusStep? && p.pc.AtStatus? then
        if a.ok then s.(condition := p.condition, report := p.report, pass := None) else s.(pass := None)
      else s
  }

  ghost function AfterRestrict(lib: Library, s: State, p: Pass, ok: bool): (s': State)
    requires Faithful(lib)
    ensures s' == s.(daemonSet := s'.daemonSet, restrictedFor := s'.restrictedFor, pass := s'.pass)
    ensures s'.restrictedFor == s.restrictedFor || s'.restrictedFor == Some(p.spec)
    ensures s'.pass.Some? ==> s'.pass == Some(p.(pc := s'.pass.value.pc)) && s'.pass.value.pc in {AtDeploy, AtStatus}
    ensures s'.pass.Some? && s'.pass.value.pc.AtDeploy? ==>
      GateReady(lib, p.spec, p.generation, p.condition, Provision)
  {
    if !p.spec.coreDHCPEnabled then s.(pass := Some(p.(pc := AtStatus)))
    else if !ok then s.(pass := Some(p.(pc := AtStatus)))
    else
      var gate := GateReady(lib, p.spec, p.generation, p.condition, Provision);
      s.(daemonSet := Restricted(s.daemonSet, EffectiveNodeSelector(lib, p.spec, Provision)),
         restrictedFor := Some(p.spec), pass := Some(p.(pc := if gate then AtDeploy else AtStatus)))
  }

  ghost function AfterDeploy(lib: Library, s: State, p: Pass, ok: bool): (s': State)
    requires Faithful(lib)
    ensures s' == s.(daemonSet := s'.daemonSet, restrictedFor := s'.restrictedFor, pass := s'.pass)
    ensures s'.restrictedFor == s.restrictedFor || s'.restrictedFor == Some(p.spec)
    ensures s'.pass.Some? ==> s'.pass == Some(p.(pc := s'.pass.value.pc)) && s'.pass.value.pc == AtStatus
  {
    if !ok then s.(pass := Some(p.(pc := AtStatus)))
    else
      s.(daemonSet := Deployed(s.daemonSet, EffectiveNodeSelector(lib, p.spec, Provision)),
         restrictedFor := Some(p.spec), pass := Some(p.(pc := AtStatus)))
  }

  ghost function Next(lib: Library, s: State, step: Step): State
    requires Faithful(lib)
  {
    match step
    case AtNode(e) => NodeNext(lib, s, e)
    case ByOperator(a) => OperatorNext(lib, s, a)
    case Edit(spec) =>
      if spec.clusterName == s.spec.clusterName then s.(spec := spec, generation := s.generation + 1) else s
    case OutsideDaemonSetChange(ds) => s.(daemonSet := ds, restrictedFor := None)
  }

  ghost function Run(lib: Library, s: State, steps: seq<Step>): State
    requires Faithful(lib)
    decreases |steps|
  {
    if steps == [] then s else Run(lib, Next(lib, s, steps[0]), steps[1..])
  }

  // ----- the invariant -----

  /** A revision label is what the node's latest revision-writing tick wrote. */
  ghost predicate LabelsAttested(lib: Library, s: State)
    requires Faithful(lib)
  {
    forall n, k: Kind :: n in s.nodes && RevisionLabel(s.spec.clusterName, k) in s.nodes[n] ==>
      (n, k) in s.last && s.nodes[n][RevisionLabel(s.spec.clusterName, k)] == Written(lib, s.last[(n, k)])
  }

  ghost predicate SelectorCovers(lib: Library, s: State)
    requires Faithful(lib)
  {
    && (s.restrictedFor.Some? ==> s.restrictedFor.value.clusterName == s.spec.clusterName)
    && (s.restrictedFor.Some? && s.daemonSet.Some? ==>
          Covers(s.daemonSet.value.selector, EffectiveNodeSelector(lib, s.restrictedFor.value, Provision)))
  }

  /**
   A ready condition computed for `generation` of a spec with a provision target lists nodes, all of them vouched for.
   */
  ghost predicate ReportSound(lib: Library, spec: Spec, generation: nat, c: Option<Condition>,
      report: map<string, Attestation>)
    requires Faithful(lib)
  {
    c.Some? && c.value.ready && c.value.observedGeneration == generation
    && spec.networkProbe.enabled && spec.networkProbe.provision.Some? ==>
      report != map[] && forall n :: n in report ==> Vouches(lib, spec, report[n])
  }

  ghost predicate PassSound(lib: Library, s: State)
    requires Faithful(lib)
  {
    && ReportSound(lib, s.spec, s.generation, s.condition, s.report)
    && (s.condition.Some? ==> s.condition.value.observedGeneration <= s.generation)
    && (s.pass.Some? ==>
          var p := s.pass.value;
          && p.spec.clusterName == s.spec.clusterName
          && p.generation <= s.generation && (p.generation == s.generation ==> p.spec == s.spec)
          && (p.condition.Some? ==> p.condition.value.observedGeneration <= p.generation)
          && (p.pc in {AtRestrict, AtDeploy} ==>
              p.condition.Some? && p.condition.value.observedGeneration == p.generation)
          && (p.pc.AtDeploy? ==> GateReady(lib, p.spec, p.generation, p.condition, Provision))
          && ReportSound(lib, p.spec, p.generation, p.condition, p.report))
  }

  ghost predicate Inv(lib: Library, s: State)
    requires Faithful(lib)
  {
    LabelsAttested(lib, s) && SelectorCovers(lib, s) && PassSound(lib, s)
  }

  // ----- one node -----

  /** The revision label as a cached verdict: a node that carries the current revision passes the current target. */
  lemma LabelVouches(lib: Library, s: State, spec: Spec, n: string)
    requires Faithful(lib) && CollisionFree(lib) && LabelsAttested(lib, s)
    requires spec.clusterName == s.spec.clusterName
    requires n in s.nodes && RevisionLabel(s.spec.clusterName, Provision) in s.nodes[n]
    requires s.nodes[n][RevisionLabel(s.spec.clusterName, Provision)] == CurrentRevision(lib, spec, Provision)
    ensures (n, Provision) in s.last && Vouches(lib, spec, s.last[(n, Provision)])
    ensures s.last[(n, Provision)].algorithm == ALGORITHM_VERSION
  {
    hide Revision, RevisionLabel, Passes;
    var a := s.last[(n, Provision)];
    assert Written(lib, a) != "";
    var t := UsableTarget(lib, a.algorithm, a.env);
    SameRevision(lib, TargetOf(spec, Provision), a.algorithm, t);
  }

  lemma SameRevision(lib: Library, current: Target, algorithm: string, t: Target)
    requires Faithful(lib) && CollisionFree(lib) && Valid(lib, t)
    requires Revision(lib, ALGORITHM_VERSION, current) == Revision(lib, algorithm, t)
    ensures algorithm == ALGORITHM_VERSION && Valid(lib, current) && CheckOf(lib, current) == CheckOf(lib, t)
  {
    hide CheckOf, Valid, Revision;
    RevisionExact(lib, ALGORITHM_VERSION, current, algorithm, t);
  }

  lemma MatchedCarriesRevision(lib: Library, spec: Spec, selector: Labels, labels: Labels)
    requires Faithful(lib) && spec.networkProbe.enabled
    requires Covers(selector, EffectiveNodeSelector(lib, spec, Provision)) && Matches(selector, labels)
    ensures RevisionLabel(spec.clusterName, Provision) in labels
    ensures labels[RevisionLabel(spec.clusterName, Provision)] == CurrentRevision(lib, spec, Provision)
  {
    hide ReadyLabel, RevisionLabel, CurrentRevision;
    var key := RevisionLabel(spec.clusterName, Provision);
    assert key in EffectiveNodeSelector(lib, spec, Provision);
    assert key in selector;
  }

  /**
   Safety of placement, in every state of the invariant: once the DaemonSet was given the selector of a probing spec,
   each node its live selector matches has, as its latest revision-writing patch, a check by a probe of the current
   algorithm on a host on which that spec's target, evaluated directly, is valid and passes.
   */
  lemma SelectedNodesPassed(lib: Library, s: State, n: string)
    requires Faithful(lib) && CollisionFree(lib) && Inv(lib, s)
    requires s.daemonSet.Some? && s.restrictedFor.Some? && s.restrictedFor.value.networkProbe.enabled
    requires n in s.nodes && Matches(s.daemonSet.value.selector, s.nodes[n])
    ensures (n, Provision) in s.last
    ensures Vouches(lib, s.restrictedFor.value, s.last[(n, Provision)])
    ensures s.last[(n, Provision)].algorithm == ALGORITHM_VERSION
  {
    hide Vouches, CurrentRevision, RevisionLabel, Matches, Covers, EffectiveNodeSelector;
    MatchedCarriesRevision(lib, s.restrictedFor.value, s.daemonSet.value.selector, s.nodes[n]);
    LabelVouches(lib, s, s.restrictedFor.value, n);
  }

  // ----- every step keeps the invariant -----

  lemma TickKeepsLabel(lib: Library, s: State, e: Event, n: string, k: Kind)
    requires Faithful(lib) && LabelsAttested(lib, s) && e.Tick? && e.node in s.nodes && n in s.nodes
    requires RevisionLabel(s.spec.clusterName, k) in NodeNext(lib, s, e).nodes[n]
    ensures var s' := NodeNext(lib, s, e);
            (n, k) in s'.last && s'.nodes[n][RevisionLabel(s.spec.clusterName, k)] == Written(lib, s'.last[(n, k)])
  {
    hide Faithful, RevisionLabel, ReadyLabel, Patch, Passes;
    if n == e.node {
      PatchEffect(RunnerOf(lib, s.spec.clusterName, e), e.host, s.nodes[n], k);
    }
  }

  lemma TickKeepsLabels(lib: Library, s: State, e: Event)
    requires Faithful(lib) && LabelsAttested(lib, s) && e.Tick?
    ensures LabelsAttested(lib, NodeNext(lib, s, e))
  {
    hide Faithful, RevisionLabel, Patch, Written;
    var s', c := NodeNext(lib, s, e), s.spec.clusterName;
    if e.node in s.nodes {
      forall n, k: Kind | n in s'.nodes && RevisionLabel(c, k) in s'.nodes[n]
        ensures (n, k) in s'.last && s'.nodes[n][RevisionLabel(c, k)] == Written(lib, s'.last[(n, k)])
      {
        TickKeepsLabel(lib, s, e, n, k);
      }
    }
  }

  lemma PatchKeepsLabels(lib: Library, s: State, node: string, patch: Labels)
    requires Faithful(lib) && LabelsAttested(lib, s)
    requires forall k: Kind :: RevisionLabel(s.spec.clusterName, k) !in patch
    ensures LabelsAttested(lib, s.(nodes := PatchNode(s.nodes, node, patch)))
  {
    hide RevisionLabel, Written;
  }

  lemma RevisionLabelsReserved(cluster: string)
    ensures forall k: Kind :: RevisionLabel(cluster, k) in ProbeLabels(cluster)
    ensures forall j: Kind, k: Kind :: ReadyLabel(cluster, j) != RevisionLabel(cluster, k)
  {
    forall j: Kind, k: Kind ensures ReadyLabel(cluster, j) != RevisionLabel(cluster, k) {
      LabelsInjective(cluster, j, cluster, k);
    }
    hide RevisionLabel, ReadyLabel;
  }

  lemma EventKeepsLabels(lib: Library, s: State, e: Event)
    requires Faithful(lib) && LabelsAttested(lib, s)
    ensures LabelsAttested(lib, NodeNext(lib, s, e))
  {
    hide Faithful, RevisionLabel, ReadyLabel, Written, Patch, ProbeLabels;
    var c := s.spec.clusterName;
    RevisionLabelsReserved(c);
    match e
    case Tick(_, _, _, _, _) => TickKeepsLabels(lib, s, e);
    case LegacyTick(node, kind, ready) =>
      PatchKeepsLabels(lib, s, node, map[ReadyLabel(c, kind) := if ready then "true" else "false"]);
    case OtherPatch(node, patch) =>
      if patch.Keys !! ProbeLabels(c) {
        PatchKeepsLabels(lib, s, node, patch);
      }
    case Join(node, labels) =>
    case Leave(node) =>
  }

  lemma OperatorFrame(lib: Library, s: State, a: Action)
    requires Faithful(lib)
    ensures var s' := OperatorNext(lib, s, a);
            s'.nodes == s.nodes && s'.last == s.last && s'.spec == s.spec && s'.generation == s.generation
  {
    hide Faithful, AfterProbe, AfterRestrict, AfterDeploy, GateReady;
  }

  lemma StepKeepsLabels(lib: Library, s: State, step: Step)
    requires Faithful(lib) && LabelsAttested(lib, s)
    ensures LabelsAttested(lib, Next(lib, s, step))
  {
    hide Faithful, NodeNext, OperatorNext, RevisionLabel, Written;
    if step.AtNode? {
      EventKeepsLabels(lib, s, step.event);
    } else if step.ByOperator? {
      OperatorFrame(lib, s, step.action);
    }
  }

  lemma RestrictKeepsSelector(lib: Library, s: State, p: Pass, ok: bool)
    requires Faithful(lib) && SelectorCovers(lib, s) && p.spec.clusterName == s.spec.clusterName
    ensures SelectorCovers(lib, AfterRestrict(lib, s, p, ok))
  {
    hide Faithful, EffectiveNodeSelector, GateReady, Covers, Matches, DaemonSet.Apply;
    if s.daemonSet.Some? {
      ApplyCovers(s.daemonSet.value, Gate, EffectiveNodeSelector(lib, p.spec, Provision), map[]);
    }
  }

  lemma DeployKeepsSelector(lib: Library, s: State, p: Pass, ok: bool)
    requires Faithful(lib) && SelectorCovers(lib, s) && p.spec.clusterName == s.spec.clusterName
    ensures SelectorCovers(lib, AfterDeploy(lib, s, p, ok))
  {
    hide Faithful, EffectiveNodeSelector, Covers, Matches, DaemonSet.Apply;
    var desired := EffectiveNodeSelector(lib, p.spec, Provision);
    if s.daemonSet.Some? {
      ApplyCovers(s.daemonSet.value, Main, desired, map[]);
    } else {
      CoversItself(desired);
    }
  }

  lemma ActionKeepsSelector(lib: Library, s: State, a: Action)
    requires Faithful(lib) && SelectorCovers(lib, s)
    requires s.pass.Some? ==> s.pass.value.spec.clusterName == s.spec.clusterName
    ensures SelectorCovers(lib, OperatorNext(lib, s, a))
  {
    hide Faithful, EffectiveNodeSelector, GateReady, AfterProbe, AfterRestrict, AfterDeploy, Covers;
    if s.pass.Some? && a.RestrictStep? {
      RestrictKeepsSelector(lib, s, s.pass.value, a.ok);
    } else if s.pass.Some? && a.DeployStep? {
      DeployKeepsSelector(lib, s, s.pass.value, a.ok);
    }
  }

  lemma StepKeepsSelector(lib: Library, s: State, step: Step)
    requires Faithful(lib) && SelectorCovers(lib, s) && PassSound(lib, s)
    ensures SelectorCovers(lib, Next(lib, s, step))
  {
    hide Faithful, NodeNext, OperatorNext, EffectiveNodeSelector, GateReady, ReportSound, Covers;
    if step.ByOperator? {
      ActionKeepsSelector(lib, s, step.action);
    }
  }

  lemma CoversItself(selector: Labels)
    ensures Covers(selector, selector)
  {
  }

  /** The list of a pass: every node on it was vouched for when it was listed. */
  lemma ListedNodesVouched(lib: Library, s: State, p: Pass, outcome: ProbeOutcome)
    requires Faithful(lib) && CollisionFree(lib) && LabelsAttested(lib, s)
    requires p.spec.clusterName == s.spec.clusterName
    ensures var q := AfterProbe(lib, s, p, outcome);
            q.pc.AtRestrict? ==> ReportSound(lib, p.spec, p.generation, q.condition, q.report)
  {
    hide Vouches, Eligible;
    var q := AfterProbe(lib, s, p, outcome);
    if p.spec.networkProbe.enabled && outcome.NodesListed? {
      forall n | n in q.report ensures Vouches(lib, p.spec, q.report[n]) {
        EligibleCarriesRevision(lib, p.spec, s.nodes[n]);
        LabelVouches(lib, s, p.spec, n);
      }
    }
  }

  lemma EligibleCarriesRevision(lib: Library, spec: Spec, labels: Labels)
    requires Faithful(lib) && Eligible(lib, spec, Provision, labels)
    ensures RevisionLabel(spec.clusterName, Provision) in labels
    ensures labels[RevisionLabel(spec.clusterName, Provision)] == CurrentRevision(lib, spec, Provision)
  {
    hide RevisionLabel, ReadyLabel, Valid;
  }

  lemma ActionKeepsPass(lib: Library, s: State, a: Action)
    requires Faithful(lib) && CollisionFree(lib) && LabelsAttested(lib, s) && PassSound(lib, s)
    ensures PassSound(lib, OperatorNext(lib, s, a))
  {
    hide Faithful, CollisionFree, GateReady, LabelsAttested, Vouches, AfterProbe, AfterRestrict, AfterDeploy;
    if s.pass.Some? && a.ProbeStep? {
      ListedNodesVouched(lib, s, s.pass.value, a.outcome);
    }
  }

  lemma StepKeepsPass(lib: Library, s: State, step: Step)
    requires Faithful(lib) && CollisionFree(lib) && LabelsAttested(lib, s) && PassSound(lib, s)
    ensures PassSound(lib, Next(lib, s, step))
  {
    hide Faithful, NodeNext, OperatorNext, GateReady, Vouches;
    if step.ByOperator? {
      ActionKeepsPass(lib, s, step.action);
    }
  }

  lemma StepKeepsInv(lib: Library, s: State, step: Step)
    requires Faithful(lib) && CollisionFree(lib) && Inv(lib, s)
    ensures Inv(lib, Next(lib, s, step))
  {
    hide LabelsAttested, SelectorCovers, PassSound, Next;
    StepKeepsLabels(lib, s, step);
    StepKeepsSelector(lib, s, step);
    StepKeepsPass(lib, s, step);
  }

  // ----- runs -----

  /** A fresh start: no revision labels of this cluster yet, an arbitrary DaemonSet, no stored report. */
  ghost predicate Init(s: State) {
    && (forall n, k: Kind :: n in s.nodes ==> RevisionLabel(s.spec.clusterName, k) !in s.nodes[n])
    && s.condition.None? && s.restrictedFor.None? && s.pass.None?
  }

  lemma {:induction false} RunKeepsInv(lib: Library, s: State, steps: seq<Step>)
    requires Faithful(lib) && CollisionFree(lib) && Inv(lib, s)
    ensures Inv(lib, Run(lib, s, steps))
    decreases |steps|
  {
    hide Inv, Next;
    if steps != [] {
      StepKeepsInv(lib, s, steps[0]);
      RunKeepsInv(lib, Next(lib, s, steps[0]), steps[1..]);
    }
  }

  /** Placement is safe in every reachable state of every interleaving. */
  lemma PlacementSafe(lib: Library, s0: State, steps: seq<Step>, n: string)
    requires Faithful(lib) && CollisionFree(lib) && Init(s0)
    requires var s := Run(lib, s0, steps);
             && s.daemonSet.Some? && s.restrictedFor.Some? && s.restrictedFor.value.networkProbe.enabled
             && n in s.nodes && Matches(s.daemonSet.value.selector, s.nodes[n])
    ensures var s := Run(lib, s0, steps);
            && (n, Provision) in s.last && Vouches(lib, s.restrictedFor.value, s.last[(n, Provision)])
            && s.last[(n, Provision)].algorithm == ALGORITHM_VERSION
  {
    assert Inv(lib, s0);
    hide Inv, Run, Matches, Vouches;
    RunKeepsInv(lib, s0, steps);
    SelectedNodesPassed(lib, Run(lib, s0, steps), n);
  }

  /**
   The same in the fields of the target and the host: each placed node was checked, at its latest revision-writing tick,
   on a host that meets the provision target of the spec CoreDHCP was last restricted for.
   */
  lemma PlacedNodesMeetTarget(lib: Library, s0: State, steps: seq<Step>, n: string)
    requires Faithful(lib) && CollisionFree(lib) && Init(s0)
    requires var s := Run(lib, s0, steps);
             && s.daemonSet.Some? && s.restrictedFor.Some? && s.restrictedFor.value.networkProbe.enabled
             && n in s.nodes && Matches(s.daemonSet.value.selector, s.nodes[n])
    ensures var s := Run(lib, s0, steps);
            var target := s.restrictedFor.value.networkProbe.provision;
            target.Some? && (n, Provision) in s.last && Meets(lib, target.value, s.last[(n, Provision)].host)
  {
    var s := Run(lib, s0, steps);
    PlacementSafe(lib, s0, steps, n);
    hide Run, Matches, Meets;
    VouchedMeets(lib, s.restrictedFor.value, s.last[(n, Provision)]);
  }

  lemma VouchedMeets(lib: Library, spec: Spec, a: Attestation)
    requires Faithful(lib)
    ensures Vouches(lib, spec, a) <==>
      spec.networkProbe.provision.Some? && Meets(lib, spec.networkProbe.provision.value, a.host)
  {
    hide Passes, Meets;
    if spec.networkProbe.provision.Some? {
      PassesIffMeets(lib, spec.networkProbe.provision.value, a.host);
    }
  }

  /**
   The DHCP gate opens only on a report for the same generation that lists at least one node, and each was checked on a
   host that meets the spec's provision target.
   */
  lemma GateOpensOnVouchedNodes(lib: Library, s0: State, steps: seq<Step>)
    requires Faithful(lib) && CollisionFree(lib) && Init(s0)
    requires var s := Run(lib, s0, steps); s.pass.Some? && s.pass.value.pc.AtDeploy?
    ensures var p := Run(lib, s0, steps).pass.value;
            var target := p.spec.networkProbe.provision;
            p.spec.networkProbe.enabled ==>
              && target.Some? && Usable(lib, target.value)
              && p.condition == Some(Condition(true, p.generation))
              && p.report != map[] && forall n :: n in p.report ==> Meets(lib, target.value, p.report[n].host)
  {
    assert Inv(lib, s0);
    RunKeepsInv(lib, s0, steps);
    var p := Run(lib, s0, steps).pass.value;
    hide Run, Vouches, Meets, GateReady, Usable;
    GateReadyIff(lib, p.spec, p.generation, p.condition, Provision);
    forall a: Attestation ensures Vouches(lib, p.spec, a) <==>
      p.spec.networkProbe.provision.Some? && Meets(lib, p.spec.networkProbe.provision.value, a.host) {
      VouchedMeets(lib, p.spec, a);
    }
  }

  ghost predicate Disturbs(step: Step) { step.Edit? || step.OutsideDaemonSetChange? }

  ghost predicate PassIsCurrent(s: State) {
    s.pass.Some? ==> s.pass.value.spec == s.spec && s.pass.value.generation == s.generation
  }

  /** A restriction under the current spec lasts until the spec or the DaemonSet is changed from outside. */
  lemma {:induction false} RestrictionLasts(lib: Library, s: State, steps: seq<Step>)
    requires Faithful(lib) && s.restrictedFor == Some(s.spec) && PassIsCurrent(s)
    requires forall i :: 0 <= i < |steps| ==> !Disturbs(steps[i])
    ensures Run(lib, s, steps).restrictedFor == Some(s.spec) && Run(lib, s, steps).spec == s.spec
    decreases |steps|
  {
    hide Faithful, Next;
    if steps != [] {
      RestrictionStepLasts(lib, s, steps[0]);
      RestrictionLasts(lib, Next(lib, s, steps[0]), steps[1..]);
    }
  }

  lemma RestrictionStepLasts(lib: Library, s: State, step: Step)
    requires Faithful(lib) && !Disturbs(step)
    requires s.restrictedFor == Some(s.spec) && PassIsCurrent(s)
    ensures var s' := Next(lib, s, step);
            s'.restrictedFor == Some(s.spec) && s'.spec == s.spec && PassIsCurrent(s')
  {
    hide Faithful, NodeNext, OperatorNext;
    if step.ByOperator? {
      RestrictionActionLasts(lib, s, step.action);
    }
  }

  lemma RestrictionActionLasts(lib: Library, s: State, a: Action)
    requires Faithful(lib) && s.restrictedFor == Some(s.spec) && PassIsCurrent(s)
    ensures var s' := OperatorNext(lib, s, a);
            s'.restrictedFor == Some(s.spec) && s'.spec == s.spec && PassIsCurrent(s')
  {
    OperatorFrame(lib, s, a);
    var s' := OperatorNext(lib, s, a);
    assert s'.pass.Some? && s.pass.Some? ==>
        s'.pass.value.spec == s.pass.value.spec && s'.pass.value.generation == s.pass.value.generation by {
      hide Faithful, AfterProbe, AfterRestrict, AfterDeploy, GateReady;
    }
    hide Faithful, AfterProbe, AfterRestrict, AfterDeploy, GateReady;
  }

  /** An error-free restriction step of a pass on the current spec establishes it, whatever the gates decide next. */
  lemma PassRestricts(lib: Library, s: State)
    requires Faithful(lib) && Inv(lib, s)
    requires s.pass.Some? && s.pass.value.pc.AtRestrict? && s.pass.value.generation == s.generation
    requires s.spec.coreDHCPEnabled
    ensures Next(lib, s, ByOperator(RestrictStep(true))).restrictedFor == Some(s.spec)
  {
    hide EffectiveNodeSelector, GateReady, LabelsAttested, SelectorCovers, ReportSound, Restricted;
  }

  lemma {:induction false} RunApp(lib: Library, s: State, a: seq<Step>, b: seq<Step>)
    requires Faithful(lib)
    ensures Run(lib, s, a + b) == Run(lib, Run(lib, s, a), b)
    decreases |a|
  {
    hide Faithful, Next;
    if a == [] {
      assert a + b == b;
    } else {
      assert (a + b)[0] == a[0] && (a + b)[1..] == a[1..] + b;
      RunApp(lib, Next(lib, s, a[0]), a[1..], b);
    }
  }

  /** A pass on the current spec is about to restrict CoreDHCP, with probing on. */
  ghost predicate RestrictsNow(s: State) {
    && s.spec.coreDHCPEnabled && s.spec.networkProbe.enabled
    && s.pass.Some? && s.pass.value.pc.AtRestrict? && s.pass.value.generation == s.generation
  }

  lemma RestrictedHere(lib: Library, s0: State, before: seq<Step>)
    requires Faithful(lib) && CollisionFree(lib) && Init(s0) && RestrictsNow(Run(lib, s0, before))
    ensures var here, s := Run(lib, s0, before), Run(lib, s0, before + [ByOperator(RestrictStep(true))]);
            && s.spec == here.spec && s.spec.networkProbe.enabled && s.restrictedFor == Some(s.spec) && PassIsCurrent(s)
  {
    var here, step := Run(lib, s0, before), ByOperator(RestrictStep(true));
    assert Inv(lib, s0);
    RunKeepsInv(lib, s0, before);
    RunApp(lib, s0, before, [step]);
    assert [step][1..] == [];
    assert Run(lib, here, [step]) == Next(lib, here, step);
    hide Run, Faithful, CollisionFree, LabelsAttested, SelectorCovers, ReportSound, EffectiveNodeSelector, GateReady,
        Restricted;
    PassRestricts(lib, here);
  }

  /**
   The promise of the probe: once a pass on the current spec has restricted the DaemonSet without error, every node
   its live selector matches has, as its latest revision-writing patch, a passing check of the spec's current target.
   This holds through every later interleaving, whatever the gates of this pass and of later passes decide, until
   someone edits the spec or changes the DaemonSet from outside.
   */
  lemma PlacementFollowsSpec(lib: Library, s0: State, before: seq<Step>, after: seq<Step>, n: string)
    requires Faithful(lib) && CollisionFree(lib) && Init(s0)
    requires RestrictsNow(Run(lib, s0, before))
    requires forall i :: 0 <= i < |after| ==> !Disturbs(after[i])
    requires var s := Run(lib, s0, before + [ByOperator(RestrictStep(true))] + after);
             s.daemonSet.Some? && n in s.nodes && Matches(s.daemonSet.value.selector, s.nodes[n])
    ensures var s := Run(lib, s0, before + [ByOperator(RestrictStep(true))] + after);
            && s.spec == Run(lib, s0, before).spec && s.spec.networkProbe.provision.Some?
            && (n, Provision) in s.last && Meets(lib, s.spec.networkProbe.provision.value, s.last[(n, Provision)].host)
            && s.last[(n, Provision)].algorithm == ALGORITHM_VERSION
  {
    var here := Run(lib, s0, before);
    var steps := before + [ByOperator(RestrictStep(true))];
    RestrictedHere(lib, s0, before);
    hide *;
    RunApp(lib, s0, steps, after);
    RestrictionLasts(lib, Run(lib, s0, steps), after);
    PlacementSafe(lib, s0, steps + after, n);
    PlacedNodesMeetTarget(lib, s0, steps + after, n);
  }

  ghost function EnvOf(e: Event, kind: Kind): TargetEnv
    requires e.Tick?
  {
    if kind.Provision? then e.provision else e.bmc
  }

  /**
   What a tick of a probe configured by an operator of its own version writes: ready and the revision exactly on a host
   that meets the target, otherwise not ready and no revision.
   */
  lemma TickWrites(lib: Library, s: State, e: Event, kind: Kind, t: ProbeTarget)
    requires Faithful(lib) && e.Tick? && e.node in s.nodes && t.subnet != "" && Int32(t.validatePort)
    requires EnvOf(e, kind) == TargetEnvVars(lib, e.algorithm, Some(t))
    ensures var c, labels := s.spec.clusterName, NodeNext(lib, s, e).nodes[e.node];
            && ReadyLabel(c, kind) in labels && RevisionLabel(c, kind) in labels
            && (labels[ReadyLabel(c, kind)] == "true" <==> Meets(lib, t, e.host))
            && labels[RevisionLabel(c, kind)]
                == if Meets(lib, t, e.host) then Revision(lib, e.algorithm, ProbeConfig(Some(t))) else ""
  {
    PassesIffMeets(lib, t, e.host);
    EnvRoundTrip(lib, e.algorithm, t);
    hide Faithful, ReadyLabel, RevisionLabel, Patch, Passes, Meets, RunnerTarget, TargetEnvVars, Valid, CheckOf;
    PatchEffect(RunnerOf(lib, s.spec.clusterName, e), e.host, s.nodes[e.node], kind);
  }

  /** So after a tick of the current version the CoreDHCP selector matches the node exactly if it meets the target. */
  lemma TickMatchesIff(lib: Library, s: State, e: Event, spec: Spec, t: ProbeTarget)
    requires Faithful(lib) && e.Tick? && e.node in s.nodes && t.subnet != "" && Int32(t.validatePort)
    requires e.algorithm == ALGORITHM_VERSION && e.provision == TargetEnvVars(lib, e.algorithm, Some(t))
    requires spec.clusterName == s.spec.clusterName
    requires spec.networkProbe.enabled && spec.networkProbe.provision == Some(t)
    ensures Matches(EffectiveNodeSelector(lib, spec, Provision), NodeNext(lib, s, e).nodes[e.node]) <==>
      Meets(lib, t, e.host)
  {
    TickWrites(lib, s, e, Provision, t);
    var labels := NodeNext(lib, s, e).nodes[e.node];
    hide *;
    ProbingSelector(lib, spec, Provision, labels);
    assert spec.networkProbe.Of(Provision) == Some(t) by {
      OfProvision(spec.networkProbe);
    }
  }

  lemma OfProvision(probe: NetworkProbe)
    ensures probe.Of(Provision) == probe.provision && probe.Of(Bmc) == probe.bmc
  {
  }

  /** Does this step attest `revision` on node `n`? */
  ghost predicate AttestsOn(lib: Library, step: Step, n: string, revision: string)
    requires Faithful(lib)
  {
    step.AtNode? && step.event.Tick? && step.event.node == n &&
    Written(lib, Attestation(step.event.algorithm, step.event.provision, step.event.host)) == revision
  }

  ghost predicate Carries(s: State, n: string, revision: string) {
    var key := RevisionLabel(s.spec.clusterName, Provision);
    n in s.nodes && key in s.nodes[n] && s.nodes[n][key] == revision
  }

  /** A legacy probe may write ready=true as often as it likes: without an attesting tick the node stays unmatched. */
  lemma OnlyAttestationRestores(lib: Library, s: State, steps: seq<Step>, n: string, spec: Spec)
    requires Faithful(lib) && spec.networkProbe.enabled && spec.clusterName == s.spec.clusterName
    requires !Carries(s, n, CurrentRevision(lib, spec, Provision))
    requires forall i :: 0 <= i < |steps| ==> !AttestsOn(lib, steps[i], n, CurrentRevision(lib, spec, Provision))
    ensures var s' := Run(lib, s, steps);
            n in s'.nodes ==> !Matches(EffectiveNodeSelector(lib, spec, Provision), s'.nodes[n])
  {
    var revision := CurrentRevision(lib, spec, Provision);
    hide Faithful, Run, Matches, EffectiveNodeSelector, CurrentRevision, AttestsOn;
    RunKeepsUnattested(lib, s, steps, n, revision);
    var s' := Run(lib, s, steps);
    if n in s'.nodes && Matches(EffectiveNodeSelector(lib, spec, Provision), s'.nodes[n]) {
      CoversItself(EffectiveNodeSelector(lib, spec, Provision));
      MatchedCarriesRevision(lib, spec, EffectiveNodeSelector(lib, spec, Provision), s'.nodes[n]);
    }
  }

  lemma {:induction false} RunKeepsUnattested(lib: Library, s: State, steps: seq<Step>, n: string, revision: string)
    requires Faithful(lib) && revision != ""
    requires !Carries(s, n, revision)
    requires forall i :: 0 <= i < |steps| ==> !AttestsOn(lib, steps[i], n, revision)
    ensures !Carries(Run(lib, s, steps), n, revision)
    ensures Run(lib, s, steps).spec.clusterName == s.spec.clusterName
    decreases |steps|
  {
    hide Faithful, Next, Carries, AttestsOn;
    if steps != [] {
      StepKeepsUnattested(lib, s, steps[0], n, revision);
      RunKeepsUnattested(lib, Next(lib, s, steps[0]), steps[1..], n, revision);
    }
  }

  lemma StepKeepsUnattested(lib: Library, s: State, step: Step, n: string, revision: string)
    requires Faithful(lib) && revision != ""
    requires !Carries(s, n, revision) && !AttestsOn(lib, step, n, revision)
    ensures !Carries(Next(lib, s, step), n, revision)
    ensures Next(lib, s, step).spec.clusterName == s.spec.clusterName
  {
    hide Faithful, OperatorNext, RevisionLabel, ReadyLabel, ProbeLabels, Patch, Passes;
    RevisionLabelsReserved(s.spec.clusterName);
    if step.ByOperator? {
      OperatorFrame(lib, s, step.action);
    } else if step.AtNode? && step.event.Tick? && step.event.node == n && n in s.nodes {
      PatchEffect(RunnerOf(lib, s.spec.clusterName, step.event), step.event.host, s.nodes[n], Provision);
    }
  }

  // ----- the reconcilers as steps -----

  /** A node list is a snapshot of the nodes. */
  ghost predicate Lists(items: NodeList, nodes: map<string, Labels>) {
    && DistinctNames(items)
    && (forall i :: 0 <= i < |items| ==> items[i].0 in nodes && nodes[items[i].0] == items[i].1)
    && forall n :: n in nodes ==> (n, nodes[n]) in items
  }

  /** What the tally counts is what the step system counts: an eligible node has a tick to show for it. */
  lemma ListedIffEligibleNow(lib: Library, s: State, spec: Spec, kind: Kind, items: NodeList, n: string)
    requires Faithful(lib) && LabelsAttested(lib, s) && spec.clusterName == s.spec.clusterName && Lists(items, s.nodes)
    ensures Listed(lib, spec, kind, items, n) <==> EligibleNow(lib, s, spec, kind, n)
  {
    hide Faithful, Revision, RevisionLabel, ReadyLabel, Valid, Written;
    if n in s.nodes && Eligible(lib, spec, kind, s.nodes[n]) {
      assert (n, s.nodes[n]) in items;
      var i :| 0 <= i < |items| && items[i] == (n, s.nodes[n]);
      assert RevisionLabel(s.spec.clusterName, kind) in s.nodes[n];
    }
  }

  lemma ReportIsTally(lib: Library, s: State, p: Pass, items: NodeList, provision: seq<string>, bmc: seq<string>)
    requires Faithful(lib) && LabelsAttested(lib, s) && p.spec.clusterName == s.spec.clusterName
    requires Lists(items, s.nodes) && p.spec.networkProbe.enabled
    requires IsTally(lib, p.spec, Provision, items, provision) && IsTally(lib, p.spec, Bmc, items, bmc)
    ensures var after := AfterProbe(lib, s, p, NodesListed);
            && (forall n :: n in provision <==> n in after.report)
            && after.condition == Some(Condition(ProbeReady(p.spec, provision != [], bmc != []), p.generation))
  {
    hide Faithful, Eligible, Listed, Lists, LabelsAttested, ProbeReady;
    forall kind: Kind, n ensures Listed(lib, p.spec, kind, items, n) <==> EligibleNow(lib, s, p.spec, kind, n) {
      ListedIffEligibleNow(lib, s, p.spec, kind, items, n);
    }
    var report := AfterProbe(lib, s, p, NodesListed).report;
    assert forall n :: n in provision <==> n in report;
    assert provision != [] <==> report != map[] by {
      assert provision != [] ==> provision[0] in report;
    }
    assert bmc != [] <==> exists n :: EligibleNow(lib, s, p.spec, Bmc, n) by {
      assert bmc != [] ==> bmc[0] in bmc;
    }
  }

  /**
   The network-probe reconciler's pass over a snapshot of the nodes is one step: the same condition, and the report
   names the nodes of the status.
   */
  method ProbePassIsAStep(lib: Library, s: State, p: Pass, api: ProbeApi, status: Status)
    returns (outcome: ProbeOutcome)
    requires Faithful(lib) && LabelsAttested(lib, s) && p.spec.clusterName == s.spec.clusterName
    requires Lists(api.nodes, s.nodes) && status.probe == p.condition
    modifies status
    ensures status.probe == AfterProbe(lib, s, p, outcome).condition
    ensures !outcome.Failure? ==>
      forall n :: n in status.provisionNodes <==> n in AfterProbe(lib, s, p, outcome).report
    ensures outcome.Failure? ==>
      status.provisionNodes == old(status.provisionNodes) && status.bmcNodes == old(status.bmcNodes)
  {
    hide Faithful, LabelsAttested, IsTally, ProbeReady, EligibleNow;
    var err := ReconcileNetworkProbe(lib, p.spec, p.generation, api, status);
    outcome := if err then Failure else if api.numberReady == 0 then NoPodReady else NodesListed;
    if outcome.NodesListed? && p.spec.networkProbe.enabled {
      ReportIsTally(lib, s, p, api.nodes, status.provisionNodes, status.bmcNodes);
    }
  }

  predicate Restricts(s: State, api: DhcpApi) { !api.getFails && !(s.daemonSet.Some? && api.restrictFails) }

  predicate Deploys(api: DhcpApi) { api.config.Resolved? && !api.configMapFails && !api.applyFails }

  lemma RunTwo(lib: Library, s: State, a: Action, b: Action)
    requires Faithful(lib)
    ensures Run(lib, s, [ByOperator(a), ByOperator(b)]) == OperatorNext(lib, OperatorNext(lib, s, a), b)
  {
    hide Faithful, OperatorNext, NodeNext;
    var steps := [ByOperator(a), ByOperator(b)];
    var mid := Next(lib, s, steps[0]);
    assert steps[1..] == [steps[1]] && steps[1..][1..] == [];
    assert Run(lib, mid, steps[1..]) == Run(lib, Next(lib, mid, steps[1]), []);
  }

  /** Undisturbed, the CoreDHCP reconciler's pass is the two steps that restrict and deploy. */
  lemma DhcpPassIsItsSteps(lib: Library, s: State, p: Pass, api: DhcpApi)
    requires Faithful(lib) && s.pass == Some(p) && p.pc.AtRestrict?
    ensures var (restrict, deploy) := (RestrictStep(Restricts(s, api)), DeployStep(Deploys(api)));
            var after := Run(lib, s, [ByOperator(restrict), ByOperator(deploy)]);
            && after.daemonSet == DhcpState(p.spec, s.daemonSet, EffectiveNodeSelector(lib, p.spec, Provision),
                  GateReady(lib, p.spec, p.generation, p.condition, Provision), api)
            && after.pass == Some(p.(pc := AtStatus))
  {
    hide Faithful, EffectiveNodeSelector, GateReady, Restricted, Deployed, Run, AfterProbe;
    RunTwo(lib, s, RestrictStep(Restricts(s, api)), DeployStep(Deploys(api)));
    var mid := OperatorNext(lib, s, RestrictStep(Restricts(s, api)));
    assert mid == AfterRestrict(lib, s, p, Restricts(s, api));
    var q := mid.pass.value;
    assert OperatorNext(lib, mid, DeployStep(Deploys(api)))
        == if q.pc.AtDeploy? then AfterDeploy(lib, mid, q, Deploys(api)) else mid;
  }
}
