/**
 The OIDC provider that all control planes of one Vault share (internal/vault/client_vault.go): each call reads the
 provider, refuses to touch a foreign issuer, writes, and verifies by reading back. Vault offers no compare-and-swap, so
 calls of any number of control planes interleave between these steps.
 */
module SharedProvider {
  import opened Options
  import opened Text

  // ----- the issuer strings -----

  const PROVIDER_PATH := "/v1/identity/oidc/provider/"

  const PROVIDER_NAME := "openchami"

  /** What the client compares Vault's answer with. */
  function ExpectedIssuer(base: string): string { TrimRight(base, '/') + PROVIDER_PATH + PROVIDER_NAME }

  /** What Vault reports, and mints into tokens, for a provider written with issuer `base`. */
  function ReportedIssuer(base: string): string { base + PROVIDER_PATH + PROVIDER_NAME }

  lemma IssuersNonEmpty(base: string)
    ensures ExpectedIssuer(base) != "" && ReportedIssuer(base) != ""
  {
    assert |ExpectedIssuer(base)| >= |PROVIDER_NAME| && |ReportedIssuer(base)| >= |PROVIDER_NAME|;
  }

  datatype Url = Url(scheme: string, host: string)

  /** internal/reconcilers/helpers.go VaultOIDCIssuerBase, with `url.Parse` as a parameter. */
  function IssuerBase(parse: string -> Option<Url>, oidcIssuer: string, address: string): string {
    var source := if TrimSpace(oidcIssuer) != "" then TrimSpace(oidcIssuer) else TrimSpace(address);
    match parse(source)
    case Some(u) =>
      if u.scheme == "" || u.host == "" then TrimRight(TrimSuffix(source, "/"), '/') else u.scheme + "://" + u.host
    case None => TrimRight(TrimSuffix(source, "/"), '/')
  }

  /** What TokenSmith is told to validate `iss` against. */
  function ProviderURL(parse: string -> Option<Url>, oidcIssuer: string, address: string): string {
    IssuerBase(parse, oidcIssuer, address) + "/v1/identity/oidc/provider/openchami"
  }

  lemma TrimRightIdentity(s: string, c: char)
    requires s == [] || s[|s| - 1] != c
    ensures TrimRight(s, c) == s
  {
  }

  /** Client, Vault and TokenSmith agree on the issuer, for every spec: a URL's host contains no slash. */
  lemma IssuersAgree(parse: string -> Option<Url>, oidcIssuer: string, address: string)
    requires forall s :: parse(s).Some? ==> '/' !in parse(s).value.host
    ensures var base := IssuerBase(parse, oidcIssuer, address);
            ExpectedIssuer(base) == ReportedIssuer(base) == ProviderURL(parse, oidcIssuer, address)
  {
    var base := IssuerBase(parse, oidcIssuer, address);
    var source := if TrimSpace(oidcIssuer) != "" then TrimSpace(oidcIssuer) else TrimSpace(address);
    if parse(source).Some? && parse(source).value.scheme != "" && parse(source).value.host != "" {
      var u := parse(source).value;
      assert base[|base| - 1] == u.host[|u.host| - 1];
      assert u.host[|u.host| - 1] in u.host;
    }
    TrimRightIdentity(base, '/');
    assert PROVIDER_PATH + PROVIDER_NAME == "/v1/identity/oidc/provider/openchami";
    assert base + PROVIDER_PATH + PROVIDER_NAME == base + (PROVIDER_PATH + PROVIDER_NAME);
  }

  /** The URL a control plane names: its issuer, or the address where it gives none. */
  predicate Names(oidcIssuer: string, address: string, named: string) {
    if TrimSpace(oidcIssuer) != "" then named == TrimSpace(oidcIssuer) else named == TrimSpace(address)
  }

  /**
   The issuer is the scheme and host of the URL the control plane names, and the provider's path; a name that is no such
   URL is taken as it stands, without slashes at its end.
   */
  lemma IssuerIsNamed(parse: string -> Option<Url>, oidcIssuer: string, address: string, named: string)
    requires forall s :: parse(s).Some? ==> '/' !in parse(s).value.host
    requires Names(oidcIssuer, address, named)
    ensures var issuer, u := ExpectedIssuer(IssuerBase(parse, oidcIssuer, address)), parse(named);
            && issuer == ProviderURL(parse, oidcIssuer, address)
            && (u.Some? && u.value.scheme != "" && u.value.host != "" ==>
                  issuer == u.value.scheme + "://" + u.value.host + "/v1/identity/oidc/provider/openchami")
            && (u.None? || u.value.scheme == "" || u.value.host == "" ==>
                  issuer == TrimRight(named, '/') + "/v1/identity/oidc/provider/openchami")
  {
    IssuersAgree(parse, oidcIssuer, address);
    assert TrimSuffix(named, "/") == if EndsInSlash(named) then named[..|named| - 1] else named;
    assert TrimRight(TrimSuffix(named, "/"), '/') == TrimRight(named, '/');
    hide ExpectedIssuer, TrimSpace, TrimRight, TrimSuffix;
  }

  /** Control planes that name the same issuer ask for one issuer, whatever address each reaches Vault at. */
  lemma NamedIssuerIsShared(parse: string -> Option<Url>, oidcIssuer: string, a: string, b: string)
    requires TrimSpace(oidcIssuer) != ""
    ensures ExpectedIssuer(IssuerBase(parse, oidcIssuer, a)) == ExpectedIssuer(IssuerBase(parse, oidcIssuer, b))
    ensures ProviderURL(parse, oidcIssuer, a) == ProviderURL(parse, oidcIssuer, b)
  {
  }

  // ----- one call at a time -----

  datatype Result = Success | Conflict(existing: string, requested: string) | Failed

  /** What the write request did: took effect, was refused, or took effect although an error came back. */
  datatype WriteOutcome = Applied | Refused | AppliedButFailed

  /** The provider's reported issuer; absent without a provider, empty when Vault reports none. */
  class Provider {
    var issuer: Option<string>

    constructor ()
      ensures issuer == None
    {
      issuer := None;
    }

    /**
     ensureOIDCProvider without interference. A base that Vault would report differently is caught by the read-back.
     */
    method Ensure(base: string, readFails: bool, write: WriteOutcome, readBackFails: bool) returns (r: Result)
      modifies this
      ensures var expected, reported := ExpectedIssuer(base), ReportedIssuer(base);
              var foreign := old(issuer).Some? && old(issuer).value !in {"", expected};
              var verified := !readFails && !foreign && write.Applied? && !readBackFails;
              && (r == Success <==> verified && reported == expected)
              && (r.Conflict? <==> (!readFails && foreign) || (verified && reported != expected))
              && (r.Conflict? ==> r == Conflict(if foreign then old(issuer).value else reported, expected))
              && issuer == if readFails || foreign || write.Refused? then old(issuer) else Some(reported)
    {
      IssuersNonEmpty(base);
      hide ExpectedIssuer, ReportedIssuer;
      var expected := ExpectedIssuer(base);
      if readFails {
        return Failed;
      }
      if issuer.Some? && issuer.value != "" && issuer.value != expected {
        return Conflict(issuer.value, expected);
      }
      if !write.Refused? {
        issuer := Some(ReportedIssuer(base));
      }
      if !write.Applied? || readBackFails || issuer.None? || issuer.value == "" {
        return Failed;
      }
      if issuer.value != expected {
        return Conflict(issuer.value, expected);
      }
      return Success;
    }
  }

  /** The in-memory fake client compares base issuers; an empty one means no provider. */
  function FakeEnsure(current: string, base: string): (string, Result) {
    if current != "" && current != base then (current, Conflict(current, base)) else (base, Success)
  }

  function Reported(current: string): Option<string> {
    if current == "" then None else Some(ReportedIssuer(current))
  }

  lemma ExpectedIffNoSlash(base: string)
    ensures ExpectedIssuer(base) == ReportedIssuer(base) <==> !EndsInSlash(base)
  {
    if !EndsInSlash(base) {
      TrimRightIdentity(base, '/');
    } else {
      assert |TrimRight(base, '/')| < |base|;
      assert |ExpectedIssuer(base)| < |ReportedIssuer(base)|;
    }
  }

  lemma ReportedInjective(a: string, b: string)
    ensures a + PROVIDER_PATH + PROVIDER_NAME == b + PROVIDER_PATH + PROVIDER_NAME ==> a == b
  {
    if a + PROVIDER_PATH + PROVIDER_NAME == b + PROVIDER_PATH + PROVIDER_NAME {
      SuffixInjective(a + PROVIDER_PATH, b + PROVIDER_PATH, PROVIDER_NAME);
      SuffixInjective(a, b, PROVIDER_PATH);
    }
  }

  /**
   An undisturbed call of the real client does to reported issuers what the fake does to base issuers, except for a base
   that ends in a slash, for which the real client never reports success and which it writes over the base without the
   slash, and for an empty base, which the fake cannot tell from no provider.
   */
  method EnsureRefinesFake(p: Provider, current: string, base: string) returns (r: Result)
    requires p.issuer == Reported(current)
    modifies p
    ensures p.issuer == Reported(FakeEnsure(current, base).0) <==>
      !(base == "" && current == "") && !(EndsInSlash(base) && current != "" && current == TrimRight(base, '/'))
    ensures r == Success <==> FakeEnsure(current, base).1 == Success && !EndsInSlash(base)
    ensures r.Conflict? && !EndsInSlash(base) ==>
      var fake := FakeEnsure(current, base).1;
      && fake.Conflict? && r == Conflict(ReportedIssuer(fake.existing), ReportedIssuer(fake.requested))
      && fake == Conflict(current, base)
  {
    ExpectedIffNoSlash(base);
    ReportedInjective(current, base);
    ReportedInjective(current, TrimRight(base, '/'));
    r := p.Ensure(base, false, Applied, false);
  }

  // ----- any number of calls -----

  /** A call past its check remembers what its first read saw. */
  datatype Phase = Reading | Checked(saw: Option<string>) | Written | Done(result: Result)

  datatype Call = Call(issuer: string, phase: Phase)

  /** `late` are writes on their way whose callers have given up on them. */
  datatype World = World(provider: Option<string>, calls: map<nat, Call>, late: map<nat, Call>)

  datatype Step =
    | Start(id: nat, issuer: string)
    | Read(id: nat, fails: bool)
    | Write(id: nat, outcome: WriteOutcome)
    | WriteTimesOut(id: nat, n: nat)    // the caller sees an error; the write may land at any later time
    | Land(n: nat)
    | ReadBack(id: nat, fails: bool)
    | Abandon(id: nat)

  const NOTHING := World(None, map[], map[])

  /** The issuer everybody currently sees, if any. */
  function Issuer(w: World): string { if w.provider.Some? then w.provider.value else "" }

  function Check(w: World, issuer: string): Phase {
    if Issuer(w) != "" && Issuer(w) != issuer then Done(Conflict(Issuer(w), issuer)) else Checked(w.provider)
  }

  function Verify(w: World, issuer: string): Phase {
    if Issuer(w) == "" then Done(Failed)
    else if Issuer(w) != issuer then Done(Conflict(Issuer(w), issuer))
    else Done(Success)
  }

  function Set(w: World, id: nat, phase: Phase): World
    requires id in w.calls
  {
    w.(calls := w.calls[id := w.calls[id].(phase := phase)])
  }

  predicate In(w: World, id: nat, phase: Phase) { id in w.calls && w.calls[id].phase == phase }

  predicate Pending(w: World, id: nat) { id in w.calls && w.calls[id].phase.Checked? }

  function Next(w: World, step: Step): World {
    match step
    case Start(id, issuer) =>
      if id !in w.calls && issuer != "" then w.(calls := w.calls[id := Call(issuer, Reading)]) else w
    case Read(id, fails) =>
      if In(w, id, Reading) then Set(w, id, if fails then Done(Failed) else Check(w, w.calls[id].issuer)) else w
    case Write(id, outcome) =>
      if Pending(w, id) then
        var after := if outcome.Refused? then w else w.(provider := Some(w.calls[id].issuer));
        Set(after, id, if outcome.Applied? then Written else Done(Failed))
      else w
    case WriteTimesOut(id, n) =>
      if Pending(w, id) && n !in w.late then Set(w.(late := w.late[n := w.calls[id]]), id, Done(Failed)) else w
    case Land(n) =>
      if n in w.late then w.(provider := Some(w.late[n].issuer), late := w.late - {n}) else w
    case ReadBack(id, fails) =>
      if In(w, id, Written) then Set(w, id, if fails then Done(Failed) else Verify(w, w.calls[id].issuer)) else w
    case Abandon(id) => w.(calls := w.calls - {id})
  }

  function Run(w: World, steps: seq<Step>): World
    decreases |steps|
  {
    if steps == [] then w else Run(Next(w, steps[0]), steps[1..])
  }

  /** The steps of a call that nobody disturbs. */
  function CallSteps(id: nat, readFails: bool, write: WriteOutcome, readBackFails: bool): seq<Step> {
    [Read(id, readFails), Write(id, write), ReadBack(id, readBackFails)]
  }

  /** Undisturbed, the three steps of a call do what `Ensure` does, for every base Vault reports as it was written. */
  method EnsureIsItsSteps(p: Provider, w: World, id: nat, base: string, readFails: bool, write: WriteOutcome,
      readBackFails: bool)
    returns (r: Result)
    requires p.issuer == w.provider && !EndsInSlash(base)
    requires In(w, id, Reading) && w.calls[id].issuer == ExpectedIssuer(base)
    modifies p
    ensures var after := Run(w, CallSteps(id, readFails, write, readBackFails));
            p.issuer == after.provider && In(after, id, Done(r)) && after.late == w.late
  {
    ExpectedIffNoSlash(base);
    IssuersNonEmpty(base);
    hide ExpectedIssuer, ReportedIssuer, Run;
    Three(w, CallSteps(id, readFails, write, readBackFails));
    r := p.Ensure(base, readFails, write, readBackFails);
  }

  /** Calls always ask for a non-empty issuer, and only writes are on their way. */
  predicate WellFormed(w: World) {
    && (forall id :: id in w.calls ==> w.calls[id].issuer != "")
    && forall n :: n in w.late ==> w.late[n].issuer != "" && w.late[n].phase.Checked?
  }

  /** Success is only ever reported by a read-back that saw the caller's own issuer. */
  lemma SuccessWasObserved(w: World, step: Step, id: nat)
    requires In(Next(w, step), id, Done(Success)) && !In(w, id, Done(Success))
    ensures step == ReadBack(id, false) && In(w, id, Written)
    ensures w.provider == Some(w.calls[id].issuer)
  {
  }

  // ----- when is the issuer fixed? -----

  /** Every call that may still write, and every write on its way, asks for the current issuer. */
  ghost predicate Stable(w: World) {
    && Issuer(w) != ""
    && (forall id :: Pending(w, id) ==> w.calls[id].issuer == Issuer(w))
    && forall n :: n in w.late ==> w.late[n].issuer == Issuer(w)
  }

  lemma StableStep(w: World, step: Step)
    requires Stable(w)
    ensures Stable(Next(w, step)) && Next(w, step).provider == w.provider
  {
    forall id | Pending(Next(w, step), id) ensures Next(w, step).calls[id].issuer == Issuer(w) {
      if !Pending(w, id) {
        assert step == Read(id, false);
      }
    }
  }

  lemma {:induction false} StableForever(w: World, steps: seq<Step>)
    requires Stable(w)
    ensures Stable(Run(w, steps)) && Run(w, steps).provider == w.provider
    decreases |steps|
  {
    if steps != [] {
      StableStep(w, steps[0]);
      StableForever(Next(w, steps[0]), steps[1..]);
    }
  }

  /** Some step that is due brings in another issuer. */
  lemma UnstableStep(w: World) returns (step: Step)
    requires WellFormed(w) && Issuer(w) != "" && !Stable(w)
    ensures Next(w, step).provider != w.provider
  {
    if id :| Pending(w, id) && w.calls[id].issuer != Issuer(w) {
      step := Write(id, Applied);
    } else {
      var n :| n in w.late && w.late[n].issuer != Issuer(w);
      step := Land(n);
    }
  }

  lemma RunOne(w: World, step: Step)
    ensures Run(w, [step]) == Next(w, step)
  {
    hide Next;
    assert [step][1..] == [];
  }

  /**
   The issuer of an existing provider is fixed in every continuation exactly when no call past its check and no write
   still on its way asks for another one. What such a call read before does not matter.
   */
  lemma FixedIffStable(w: World)
    requires WellFormed(w) && Issuer(w) != ""
    ensures Stable(w) <==> forall steps :: Run(w, steps).provider == w.provider
  {
    if Stable(w) {
      forall steps ensures Run(w, steps).provider == w.provider {
        StableForever(w, steps);
      }
    } else {
      var step := UnstableStep(w);
      hide *;
      RunOne(w, step);
      assert Run(w, [step]).provider != w.provider;
    }
  }

  /** A call that had not passed its check, or did not exist, when the issuer became fixed. */
  predicate Late(w: World, id: nat) { id in w.calls ==> w.calls[id].phase.Reading? }

  predicate Rejected(w: World, id: nat, issuer: string) {
    id in w.calls && w.calls[id].issuer != issuer ==>
      w.calls[id].phase in {Reading, Done(Failed), Done(Conflict(issuer, w.calls[id].issuer))}
  }

  /** Once the issuer is fixed, a later call that disagrees never writes: it ends in a conflict, or in a failed read. */
  lemma {:induction false} LateDisagreementRejected(w: World, steps: seq<Step>, id: nat)
    requires Stable(w) && Late(w, id)
    ensures Rejected(Run(w, steps), id, Issuer(w))
  {
    RejectedForever(w, steps, id);
  }

  lemma {:induction false} RejectedForever(w: World, steps: seq<Step>, id: nat)
    requires Stable(w) && Rejected(w, id, Issuer(w))
    ensures Rejected(Run(w, steps), id, Issuer(w))
    decreases |steps|
  {
    if steps != [] {
      StableStep(w, steps[0]);
      RejectedForever(Next(w, steps[0]), steps[1..], id);
    }
  }

  /** And whatever was in flight: no call whose issuer lost the race can still succeed. */
  lemma {:induction false} LosersNeverSucceed(w: World, steps: seq<Step>, id: nat)
    requires Stable(w)
    requires id in w.calls && w.calls[id].issuer != Issuer(w) && w.calls[id].phase != Done(Success)
    ensures id in Run(w, steps).calls && Run(w, steps).calls[id].issuer == w.calls[id].issuer
            ==> !In(Run(w, steps), id, Done(Success))
  {
    LoserForever(w, steps, id, Issuer(w));
  }

  predicate Loser(w: World, id: nat, issuer: string) {
    id in w.calls && w.calls[id].issuer != issuer ==> w.calls[id].phase != Done(Success)
  }

  lemma {:induction false} LoserForever(w: World, steps: seq<Step>, id: nat, issuer: string)
    requires Stable(w) && issuer == Issuer(w) && Loser(w, id, issuer)
    ensures Loser(Run(w, steps), id, issuer)
    decreases |steps|
  {
    if steps != [] {
      StableStep(w, steps[0]);
      LoserForever(Next(w, steps[0]), steps[1..], id, issuer);
    }
  }

  // ----- where changes come from -----

  /** A call that saw no issuer before it decided to write. */
  predicate Blind(c: Call) { c.phase.Checked? && c.phase.saw in {None, Some("")} }

  /** A write of such a call takes effect, at once or late, while another issuer is set. */
  predicate BlindOverwrite(w: World, step: Step) {
    || (&& step.Write? && !step.outcome.Refused? && Pending(w, step.id)
        && Blind(w.calls[step.id]) && Issuer(w) !in {"", w.calls[step.id].issuer})
    || (step.Land? && step.n in w.late && Blind(w.late[step.n]) && Issuer(w) !in {"", w.late[step.n].issuer})
  }

  predicate NoBlindOverwrite(w: World, steps: seq<Step>)
    decreases |steps|
  {
    steps == [] || (!BlindOverwrite(w, steps[0]) && NoBlindOverwrite(Next(w, steps[0]), steps[1..]))
  }

  /** Calls that did see an issuer saw their own, and it is still the current one. */
  ghost predicate Coherent(w: World) {
    && WellFormed(w)
    && (forall id :: Pending(w, id) && !Blind(w.calls[id]) ==> Issuer(w) == w.calls[id].issuer)
    && forall n :: n in w.late && !Blind(w.late[n]) ==> Issuer(w) == w.late[n].issuer
  }

  lemma CoherentStep(w: World, step: Step)
    requires Coherent(w) && !BlindOverwrite(w, step)
    ensures Coherent(Next(w, step))
    ensures Issuer(w) != "" ==> Issuer(Next(w, step)) == Issuer(w)
  {
  }

  /** The root of every change is a creation race: without a blind overwrite an issuer, once set, stays. */
  lemma {:induction false} ChangesStartBlind(w: World, steps: seq<Step>)
    requires Coherent(w) && NoBlindOverwrite(w, steps)
    ensures Issuer(w) != "" ==> Issuer(Run(w, steps)) == Issuer(w)
    decreases |steps|
  {
    if steps != [] {
      CoherentStep(w, steps[0]);
      ChangesStartBlind(Next(w, steps[0]), steps[1..]);
    }
  }

  /**
   But the race can echo: after a blind overwrite, a call that had read and agreed with the earlier issuer writes that
   one back. So it is not true that only calls whose first read saw no provider change an existing issuer.
   */
  lemma ReaderCanChangeIssuer() returns (steps: seq<Step>, id: nat)
    ensures var before := Run(NOTHING, steps);
            && Pending(before, id) && !Blind(before.calls[id])
            && Issuer(before) != "" && Issuer(Next(before, Write(id, Applied))) != Issuer(before)
  {
    var empty := NOTHING;
    var race := [Write(0, Applied), Read(2, false), Write(1, Applied)];
    var setup := ThreeCallers();
    RunConcat(empty, setup, race);
    var w := Run(empty, setup);
    Three(w, race);
    assert Next(w, race[0]).provider == Some("x");
    steps, id := setup + race, 2;
  }

  /** Two callers with different issuers are past their check of a missing provider; a third has not read yet. */
  lemma ThreeCallers() returns (steps: seq<Step>)
    ensures var w := Run(NOTHING, steps);
            && w.provider == None && w.calls.Keys == {0, 1, 2} && w.calls[0] == Call("x", Checked(None))
            && w.calls[1] == Call("y", Checked(None)) && w.calls[2] == Call("x", Reading)
  {
    var empty := NOTHING;
    var starts := [Start(0, "x"), Start(1, "y"), Start(2, "x")];
    var looks := [Read(0, false), Read(1, false)];
    RunConcat(empty, starts, looks);
    Three(empty, starts);
    Three(Run(empty, starts), looks);
    steps := starts + looks;
  }

  lemma Three(w: World, s: seq<Step>)
    requires 2 <= |s| <= 3
    ensures |s| == 2 ==> Run(w, s) == Next(Next(w, s[0]), s[1])
    ensures |s| == 3 ==> Run(w, s) == Next(Next(Next(w, s[0]), s[1]), s[2])
  {
    hide Next;
    var w1 := Next(w, s[0]);
    assert Run(w, s) == Run(w1, s[1..]);
    assert Run(w1, s[1..]) == Run(Next(w1, s[1]), s[2..]) by { assert s[1..][1..] == s[2..]; }
    if |s| == 3 {
      assert s[2..][0] == s[2] && s[2..][1..] == [];
      assert Run(Next(w1, s[1]), s[2..]) == Run(Next(Next(w1, s[1]), s[2]), []);
    }
  }

  lemma {:induction false} RunConcat(w: World, a: seq<Step>, b: seq<Step>)
    ensures Run(w, a + b) == Run(Run(w, a), b)
    decreases |a|
  {
    hide Next;
    if a == [] {
      assert a + b == b;
    } else {
      assert (a + b)[1..] == a[1..] + b;
      RunConcat(Next(w, a[0]), a[1..], b);
    }
  }

  // ----- agreement -----

  predicate Agrees(w: World, issuer: string) {
    && Issuer(w) in {"", issuer}
    && (forall id :: id in w.calls ==>
        w.calls[id].issuer == issuer && !(w.calls[id].phase.Done? && w.calls[id].phase.result.Conflict?))
    && forall n :: n in w.late ==> w.late[n].issuer == issuer
  }

  lemma AgreementStep(w: World, step: Step, issuer: string)
    requires issuer != "" && Agrees(w, issuer) && (step.Start? ==> step.issuer == issuer)
    ensures Agrees(Next(w, step), issuer)
  {
  }

  /** Control planes that agree never see a conflict, however their calls interleave. */
  lemma {:induction false} AgreementNeverConflicts(w: World, steps: seq<Step>, issuer: string)
    requires issuer != "" && Agrees(w, issuer)
    requires forall i :: 0 <= i < |steps| && steps[i].Start? ==> steps[i].issuer == issuer
    ensures Agrees(Run(w, steps), issuer)
    decreases |steps|
  {
    if steps != [] {
      AgreementStep(w, steps[0], issuer);
      hide Agrees, Next;
      AgreementNeverConflicts(Next(w, steps[0]), steps[1..], issuer);
    }
  }
}
