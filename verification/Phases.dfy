/**
 The phase of a control plane and its ServicesReady condition (internal/status/reporter.go and the controller's pass).
 */
module Phases {
  import opened ControlPlanes
  import Text

  datatype Phase = Unset | Provisioning | Ready | Degraded | Deleting | Failed

  datatype Status = True | False | Unknown

  datatype Condition = Condition(kind: string, status: Status, reason: string)

  // ----- what a False condition says -----

  predicate IsError(c: Condition) { c.status.False? && Text.Contains(c.reason, "Error") }

  predicate IsProvisioning(c: Condition) { c.status.False? && Text.Contains(c.reason, "Provisioning") }

  predicate IsOutage(c: Condition) { c.status.False? && !Text.Contains(c.reason, "Provisioning") }

  /** Degrades whatever the phase was. */
  predicate IsDegrading(c: Condition) {
    c.status.False?
    && (c.kind == "CertificatesValid" || (c.kind == "NetworkProbeReady" && c.reason == "NoEligibleNodes")
        || (c.kind == "MagellanReady" && c.reason == "NotConfigured"))
  }

  predicate AnyFalse(cs: seq<Condition>) { exists c :: c in cs && c.status.False? }
  predicate AnyError(cs: seq<Condition>) { exists c :: c in cs && IsError(c) }
  predicate AnyDegrading(cs: seq<Condition>) { exists c :: c in cs && IsDegrading(c) }
  predicate AnyProvisioning(cs: seq<Condition>) { exists c :: c in cs && IsProvisioning(c) }
  predicate AnyOutage(cs: seq<Condition>) { exists c :: c in cs && IsOutage(c) }

  /** The decision ladder. */
  function NextPhase(previous: Phase, cs: seq<Condition>, servicesReady: bool): Phase {
    if AnyError(cs) then Failed
    else if AnyDegrading(cs) || (previous.Ready? && !servicesReady)
        || ((previous.Ready? || previous.Degraded?) && AnyOutage(cs))
    then Degraded
    else if AnyProvisioning(cs) || !servicesReady then Provisioning
    else if !AnyFalse(cs) then Ready
    else if previous.Unset? then Provisioning else previous
  }

  // ----- status as the controller keeps it -----

  type Services = map<Service, bool>

  predicate ReportsReady(services: Services, s: Service) { s in services && services[s] }

  predicate AllEnabledReady(spec: Spec, services: Services) {
    forall s: Service :: spec.Of(s).enabled ==> ReportsReady(services, s)
  }

  /** `meta.SetStatusCondition`: replaces the condition of that type or appends it. */
  function SetCondition(cs: seq<Condition>, c: Condition): seq<Condition> {
    if cs == [] then [c]
    else if cs[0].kind == c.kind then [c] + cs[1..]
    else [cs[0]] + SetCondition(cs[1..], c)
  }

  function ServicesCondition(ready: bool): Condition {
    if ready then Condition("ServicesReady", True, "Ready") else Condition("ServicesReady", False, "Provisioning")
  }

  class ControlPlane {
    const spec: Spec
    var phase: Phase
    var conditions: seq<Condition>
    var services: Services

    constructor (spec: Spec)
      ensures this.spec == spec && phase == Unset && conditions == [] && services == map[]
    {
      this.spec := spec;
      phase := Unset;
      conditions := [];
      services := map[];
    }

    /** Visits the enabled services in no particular order. */
    method AggregateServicesReady()
      modifies this`conditions
      ensures conditions == SetCondition(old(conditions), ServicesCondition(AllEnabledReady(spec, services)))
    {
      var left := {SMD, Tokensmith, BootService, MetadataService};
      var pending: seq<Service> := [];
      while left != {}
        invariant pending != [] ==> !AllEnabledReady(spec, services)
        invariant pending == [] ==> forall s: Service :: s !in left && spec.Of(s).enabled ==> ReportsReady(services, s)
        invariant conditions == old(conditions)
        decreases left
      {
        var s :| s in left;
        left := left - {s};
        if spec.Of(s).enabled && !ReportsReady(services, s) {
          pending := pending + [s];
        }
      }
      conditions := SetCondition(conditions, ServicesCondition(pending == []));
    }

    /** Walks the conditions once, then takes the first rung that fits. */
    method ComputeAndSetPhase()
      modifies this`phase
      ensures phase == NextPhase(old(phase), conditions, AllEnabledReady(spec, services))
    {
      var previous := phase;
      var ready := spec.smd.enabled ==> ReportsReady(services, SMD);
      ready := ready && (spec.tokensmith.enabled ==> ReportsReady(services, Tokensmith));
      ready := ready && (spec.bootService.enabled ==> ReportsReady(services, BootService));
      ready := ready && (spec.metadataService.enabled ==> ReportsReady(services, MetadataService));
      assert ready <==> AllEnabledReady(spec, services) by {
        assert spec.Of(SMD) == spec.smd && spec.Of(Tokensmith) == spec.tokensmith;
        assert spec.Of(BootService) == spec.bootService && spec.Of(MetadataService) == spec.metadataService;
      }
      var regressed := previous.Ready? && !ready;
      var hasFailed, hasDegrading, hasProvisioning, hasOutage, anyFalse := false, false, false, false, false;
      hide Text.Contains;
      for i := 0 to |conditions|
        invariant phase == previous
        invariant hasFailed <==> AnyError(conditions[..i])
        invariant hasDegrading <==> AnyDegrading(conditions[..i])
        invariant hasProvisioning <==> AnyProvisioning(conditions[..i])
        invariant hasOutage <==> AnyOutage(conditions[..i])
        invariant anyFalse <==> AnyFalse(conditions[..i])
      {
        var c := conditions[i];
        assert conditions[..i + 1] == conditions[..i] + [c];
        AnyOfAppended(conditions[..i], c);
        if !c.status.False? {
          continue;
        }
        hide AnyError, AnyDegrading, AnyProvisioning, AnyOutage, AnyFalse;
        anyFalse := true;
        if Text.Contains(c.reason, "Error") {
          hasFailed := true;
        }
        if c.kind == "CertificatesValid" {
          hasDegrading := true;
        }
        if c.kind == "NetworkProbeReady" && c.reason == "NoEligibleNodes" {
          hasDegrading := true;
        }
        if c.kind == "MagellanReady" && c.reason == "NotConfigured" {
          hasDegrading := true;
        }
        if Text.Contains(c.reason, "Provisioning") {
          hasProvisioning := true;
        } else {
          hasOutage := true;
        }
      }
      assert conditions[..|conditions|] == conditions;
      hide AnyError, AnyDegrading, AnyProvisioning, AnyOutage, AnyFalse;
      if hasFailed {
        phase := Failed;
      } else if hasDegrading || regressed || ((previous.Ready? || previous.Degraded?) && hasOutage) {
        phase := Degraded;
      } else if hasProvisioning || !ready {
        phase := Provisioning;
      } else if !anyFalse && ready {
        phase := Ready;
      } else if previous.Unset? {
        phase := Provisioning;
      }
    }

    /** The end of a pass in which every sub-reconciler succeeded; their results are in `conditions` and `services`. */
    method FinishPass()
      modifies this`conditions, this`phase
      ensures conditions == SetCondition(old(conditions), ServicesCondition(AllEnabledReady(spec, services)))
      ensures phase == Finished(old(phase), old(conditions), AllEnabledReady(spec, services))
    {
      AggregateServicesReady();
      ComputeAndSetPhase();
    }
  }

  /** Every enabled service has to report ready; one that has not reported yet is not ready. */
  lemma AllReadyIff(spec: Spec, services: Services)
    ensures AllEnabledReady(spec, services) <==>
      && (spec.smd.enabled ==> SMD in services && services[SMD])
      && (spec.tokensmith.enabled ==> Tokensmith in services && services[Tokensmith])
      && (spec.bootService.enabled ==> BootService in services && services[BootService])
      && (spec.metadataService.enabled ==> MetadataService in services && services[MetadataService])
  {
    assert spec.Of(SMD) == spec.smd && spec.Of(Tokensmith) == spec.tokensmith;
    assert spec.Of(BootService) == spec.bootService && spec.Of(MetadataService) == spec.metadataService;
  }

  lemma AnyOfAppended(cs: seq<Condition>, c: Condition)
    ensures AnyError(cs + [c]) <==> AnyError(cs) || IsError(c)
    ensures AnyDegrading(cs + [c]) <==> AnyDegrading(cs) || IsDegrading(c)
    ensures AnyProvisioning(cs + [c]) <==> AnyProvisioning(cs) || IsProvisioning(c)
    ensures AnyOutage(cs + [c]) <==> AnyOutage(cs) || IsOutage(c)
    ensures AnyFalse(cs + [c]) <==> AnyFalse(cs) || c.status.False?
  {
    hide IsError, IsDegrading, IsProvisioning, IsOutage;
    assert c in cs + [c];
    assert forall x :: x in cs + [c] <==> x in cs || x == c;
  }

  function Finished(previous: Phase, cs: seq<Condition>, ready: bool): Phase {
    NextPhase(previous, SetCondition(cs, ServicesCondition(ready)), ready)
  }

  // ----- the ladder -----

  lemma FalseIsProvisioningOrOutage(cs: seq<Condition>)
    ensures AnyFalse(cs) <==> AnyProvisioning(cs) || AnyOutage(cs)
    ensures AnyError(cs) || AnyDegrading(cs) ==> AnyFalse(cs)
  {
    if AnyFalse(cs) {
      var c :| c in cs && c.status.False?;
      assert IsProvisioning(c) || IsOutage(c);
    }
  }

  /** A condition of this kind and reason is False. */
  predicate Says(cs: seq<Condition>, kind: string, reason: string) { Condition(kind, False, reason) in cs }

  predicate SaysOfKind(cs: seq<Condition>, kind: string) { exists c :: c in cs && c.status.False? && c.kind == kind }

  /** Some False condition's reason does, or does not, mention the word. */
  predicate Mentions(cs: seq<Condition>, word: string) {
    exists c :: c in cs && c.status.False? && Text.Contains(c.reason, word)
  }

  predicate SilentOn(cs: seq<Condition>, word: string) {
    exists c :: c in cs && c.status.False? && !Text.Contains(c.reason, word)
  }

  /** What degrades on its own, as the conditions spell it. */
  predicate SaysDegrading(cs: seq<Condition>) {
    || SaysOfKind(cs, "CertificatesValid")
    || Says(cs, "NetworkProbeReady", "NoEligibleNodes")
    || Says(cs, "MagellanReady", "NotConfigured")
  }

  lemma LadderInWords(cs: seq<Condition>)
    ensures AnyError(cs) <==> Mentions(cs, "Error")
    ensures AnyProvisioning(cs) <==> Mentions(cs, "Provisioning")
    ensures AnyOutage(cs) <==> SilentOn(cs, "Provisioning")
    ensures AnyDegrading(cs) <==> SaysDegrading(cs)
  {
    DegradingInWords(cs);
    hide Text.Contains, AnyDegrading, SaysDegrading;
    if c :| c in cs && c.status.False? && Text.Contains(c.reason, "Error") {
      assert IsError(c);
    }
    if c :| c in cs && c.status.False? && Text.Contains(c.reason, "Provisioning") {
      assert IsProvisioning(c);
    }
    if c :| c in cs && c.status.False? && !Text.Contains(c.reason, "Provisioning") {
      assert IsOutage(c);
    }
  }

  lemma DegradingInWords(cs: seq<Condition>)
    ensures AnyDegrading(cs) <==> SaysDegrading(cs)
  {
    var probe, magellan := Condition("NetworkProbeReady", False, "NoEligibleNodes"),
        Condition("MagellanReady", False, "NotConfigured");
    assert IsDegrading(probe) && IsDegrading(magellan);
    if c :| c in cs && IsDegrading(c) {
      assert c == probe || c == magellan || c.kind == "CertificatesValid";
    }
    if c :| c in cs && c.status.False? && c.kind == "CertificatesValid" {
      assert IsDegrading(c);
    }
  }

  /**
   Whatever the phase was before, Ready is reported exactly when nothing is False and every enabled service is ready.
   */
  lemma ReadyIff(previous: Phase, cs: seq<Condition>, ready: bool)
    ensures NextPhase(previous, cs, ready).Ready? <==> ready && forall c :: c in cs ==> !c.status.False?
  {
    FalseIsProvisioningOrOutage(cs);
    hide AnyError, AnyDegrading, AnyProvisioning, AnyOutage;
  }

  /** Failed needs an error, except that it outlives one while an outage remains that no other rung reports. */
  lemma FailedIff(previous: Phase, cs: seq<Condition>, ready: bool)
    ensures NextPhase(previous, cs, ready).Failed? <==>
      || Mentions(cs, "Error")
      || (previous.Failed? && ready && SilentOn(cs, "Provisioning") && !Mentions(cs, "Provisioning")
          && !SaysDegrading(cs))
  {
    FalseIsProvisioningOrOutage(cs);
    LadderInWords(cs);
    hide AnyError, AnyDegrading, AnyProvisioning, AnyOutage, AnyFalse, Mentions, SilentOn, SaysDegrading;
  }

  /** Degraded always has a reason of its own: it is never merely carried over. */
  lemma DegradedIff(previous: Phase, cs: seq<Condition>, ready: bool)
    ensures NextPhase(previous, cs, ready).Degraded? <==>
      && !Mentions(cs, "Error")
      && (SaysDegrading(cs) || (previous.Ready? && !ready)
          || (previous in {Ready, Degraded} && SilentOn(cs, "Provisioning")))
  {
    FalseIsProvisioningOrOutage(cs);
    LadderInWords(cs);
    hide AnyError, AnyDegrading, AnyProvisioning, AnyOutage, AnyFalse, Mentions, SilentOn, SaysDegrading;
  }

  /** Provisioning is what remains: something is on its way and nothing worse is known. */
  lemma ProvisioningIff(previous: Phase, cs: seq<Condition>, ready: bool)
    ensures NextPhase(previous, cs, ready).Provisioning? <==>
      && !Mentions(cs, "Error") && !SaysDegrading(cs)
      && !(previous.Ready? && !ready) && !(previous in {Ready, Degraded} && SilentOn(cs, "Provisioning"))
      && (Mentions(cs, "Provisioning") || !ready
          || (previous in {Unset, Provisioning} && SilentOn(cs, "Provisioning")))
  {
    FalseIsProvisioningOrOutage(cs);
    LadderInWords(cs);
    hide AnyError, AnyDegrading, AnyProvisioning, AnyOutage, AnyFalse, Mentions, SilentOn, SaysDegrading;
  }

  /**
   Under unchanging inputs a second pass changes the phase in one case only: a regression that shows in no other way.
   */
  lemma OnePassSettlesIff(previous: Phase, cs: seq<Condition>, ready: bool)
    ensures var p := NextPhase(previous, cs, ready);
            NextPhase(p, cs, ready) == p <==>
              !(&& previous.Ready? && !ready
                && !Mentions(cs, "Error") && !SaysDegrading(cs) && !SilentOn(cs, "Provisioning"))
  {
    FalseIsProvisioningOrOutage(cs);
    LadderInWords(cs);
    hide AnyError, AnyDegrading, AnyProvisioning, AnyOutage, AnyFalse, Mentions, SilentOn, SaysDegrading;
  }

  /** Two passes always settle it. */
  lemma TwoPassesSettle(previous: Phase, cs: seq<Condition>, ready: bool)
    ensures var p := NextPhase(NextPhase(previous, cs, ready), cs, ready); NextPhase(p, cs, ready) == p
  {
    FalseIsProvisioningOrOutage(cs);
    hide AnyError, AnyDegrading, AnyProvisioning, AnyOutage, AnyFalse;
  }

  // ----- ServicesReady -----

  lemma {:induction false} SetConditionMembers(cs: seq<Condition>, c: Condition)
    ensures c in SetCondition(cs, c)
    ensures forall x :: x in SetCondition(cs, c) ==> x == c || x in cs
    ensures forall x :: x in cs && x.kind != c.kind ==> x in SetCondition(cs, c)
  {
    if cs != [] {
      SetConditionMembers(cs[1..], c);
      assert cs == [cs[0]] + cs[1..];
    }
  }

  predicate OneOfAKind(cs: seq<Condition>) {
    cs == [] || (OneOfAKind(cs[1..]) && forall y :: y in cs[1..] ==> y.kind != cs[0].kind)
  }

  lemma OneOfAKindCons(x: Condition, rest: seq<Condition>)
    ensures OneOfAKind([x] + rest) <==> OneOfAKind(rest) && forall y :: y in rest ==> y.kind != x.kind
  {
    assert ([x] + rest)[1..] == rest;
  }

  lemma {:induction false} SetConditionReplaces(cs: seq<Condition>, c: Condition)
    requires OneOfAKind(cs)
    ensures OneOfAKind(SetCondition(cs, c))
    ensures forall x :: x in SetCondition(cs, c) <==> x == c || (x in cs && x.kind != c.kind)
  {
    if cs == [] {
      assert SetCondition(cs, c) == [c];
    } else {
      var rest := cs[1..];
      assert cs == [cs[0]] + rest;
      hide OneOfAKind;
      OneOfAKindCons(cs[0], rest);
      SetConditionReplaces(rest, c);
      if cs[0].kind == c.kind {
        OneOfAKindCons(c, rest);
      } else {
        OneOfAKindCons(cs[0], SetCondition(rest, c));
      }
    }
  }

  /**
   ServicesReady and the phase agree: after a finished pass the phase is Ready exactly when every other condition is not
   False and ServicesReady, which says precisely that all enabled services are ready, is True.
   */
  lemma ServicesReadyAgrees(previous: Phase, cs: seq<Condition>, ready: bool)
    requires OneOfAKind(cs)
    ensures var after := SetCondition(cs, ServicesCondition(ready));
            && (exists c :: c in after && c.kind == "ServicesReady" && c.status.True?) == ready
            && (exists c :: c in after && c.kind == "ServicesReady" && c.status.False?) == !ready
            && (Finished(previous, cs, ready).Ready? <==>
                ready && !exists c :: c in cs && c.kind != "ServicesReady" && c.status.False?)
  {
    var after := SetCondition(cs, ServicesCondition(ready));
    SetConditionReplaces(cs, ServicesCondition(ready));
    ReadyIff(previous, after, ready);
    hide SetCondition, NextPhase;
    assert ServicesCondition(ready) in after;
    assert AnyFalse(after) <==> !ready || exists c :: c in cs && c.kind != "ServicesReady" && c.status.False? by {
      if c :| c in cs && c.kind != "ServicesReady" && c.status.False? {
        assert c in after;
      }
    }
  }

  // ----- runs -----

  /** A pass that fails, or is suspended by a version pin, never gets to compute a phase. */
  datatype Pass = Cut | Complete(conditions: seq<Condition>, ready: bool)

  function AfterPass(p: Phase, pass: Pass): Phase {
    if pass.Cut? then p else Finished(p, pass.conditions, pass.ready)
  }

  ghost predicate Run(phases: seq<Phase>, passes: seq<Pass>) {
    |phases| == |passes| + 1 && forall i :: 0 <= i < |passes| ==> phases[i + 1] == AfterPass(phases[i], passes[i])
  }

  predicate Outage(pass: Pass) {
    pass.Complete? ==>
      && (exists c :: c in pass.conditions && c.kind != "ServicesReady" && IsOutage(c))
      && !exists c :: c in pass.conditions && IsError(c)
  }

  lemma OutageDegrades(p: Phase, pass: Pass)
    requires pass.Complete? && Outage(pass) && (p.Ready? || p.Degraded?)
    ensures AfterPass(p, pass).Degraded?
  {
    var sc := ServicesCondition(pass.ready);
    var after := SetCondition(pass.conditions, sc);
    SetConditionMembers(pass.conditions, sc);
    assert !IsError(sc) by {
      assert !Text.Contains("Provisioning", "Error") by {
        NotContained("Provisioning", "Error", 'E');
      }
    }
    hide SetCondition, IsOutage, IsError, Text.Contains;
    var c :| c in pass.conditions && c.kind != "ServicesReady" && IsOutage(c);
    assert c in after && AnyOutage(after);
    assert !AnyError(after);
  }

  lemma {:induction false} NotContained(s: string, sub: string, c: char)
    requires sub != [] && sub[0] == c && c !in s
    ensures !Text.Contains(s, sub)
  {
    if s != [] {
      assert s[0] == c || !(sub <= s);
      NotContained(s[1..], sub, c);
    }
  }

  /**
   An outage that starts from Ready shows as Degraded until it ends: services that start provisioning again do not
   hide it, and neither do passes that are cut short.
   */
  lemma {:induction false} OutageStaysDegraded(phases: seq<Phase>, passes: seq<Pass>, n: nat)
    requires Run(phases, passes) && phases[0].Ready? && n <= |passes|
    requires forall i :: 0 <= i < |passes| ==> Outage(passes[i])
    ensures phases[n].Ready? || phases[n].Degraded?
    ensures phases[n].Ready? <==> forall i :: 0 <= i < n ==> passes[i].Cut?
  {
    hide Outage, AfterPass;
    if n > 0 {
      OutageStaysDegraded(phases, passes, n - 1);
      var p, pass := phases[n - 1], passes[n - 1];
      assert phases[n] == AfterPass(p, pass);
      if pass.Complete? {
        OutageDegrades(p, pass);
      } else {
        CutKeeps(p, pass);
      }
    }
  }

  lemma CutKeeps(p: Phase, pass: Pass)
    requires pass.Cut?
    ensures AfterPass(p, pass) == p
  {
  }
}
