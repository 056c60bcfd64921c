/**
 Probe targets: validation, the revision that stands for one configuration under one eligibility algorithm, the check a
 probe runs, and the environment variables through which the operator hands a target to the probe binary
 (internal/networkprobe/target.go, cmd/probe/main.go, internal/reconcilers/networkprobe.go).
 */
module Targets {
  import opened Options
  import opened Addresses
  import opened ControlPlanes
  import opened Text
  import Quoting

  /**
   The Go library functions the code calls: `netip.ParsePrefix` and `Prefix.String`, `time.ParseDuration` and
   `Duration.String` (in nanoseconds), the truncated SHA-256 digest in hex, and the table of printable code points.
   */
  datatype Library = Library(
    parsePrefix: string -> Option<Prefix>, printPrefix: Prefix -> string,
    parseDuration: string -> Option<int>, printDuration: int -> string,
    digest: string -> string, printable: char -> bool)

  predicate Int64(n: int) { -INT64_MAX - 1 <= n <= INT64_MAX }

  /** What the library promises: parsers undo printers, and a digest is never empty. */
  ghost predicate Faithful(lib: Library) {
    && (forall s :: lib.parsePrefix(s).Some? ==> lib.parsePrefix(s).value.Valid())
    && lib.parsePrefix("") == None
    && (forall p: Prefix :: p.Valid() ==> lib.parsePrefix(lib.printPrefix(p)) == Some(p))
    && (forall s :: lib.parseDuration(s).Some? ==> Int64(lib.parseDuration(s).value))
    && (forall d :: Int64(d) ==> lib.parseDuration(lib.printDuration(d)) == Some(d))
    && lib.parseDuration("") == None
    && (forall s :: lib.digest(s) != "")
  }

  /** SHA-256 is treated as collision free. */
  ghost predicate CollisionFree(lib: Library) {
    forall s, t :: lib.digest(s) == lib.digest(t) ==> s == t
  }

  // ----- target.go -----

  /** The shipped binaries carry "host-attachment-v1"; other versions of the operator or probe carry other strings. */
  const ALGORITHM_VERSION := "host-attachment-v1"

  const DEFAULT_TIMEOUT: int := 5_000_000_000

  datatype Target = Target(subnet: string, host: string, timeout: string, port: int)

  /** The masked prefix, for a non-default unicast network. */
  function CanonicalPrefix(lib: Library, subnet: string): (p: Option<Prefix>)
    requires Faithful(lib)
    ensures p.Some? ==> p.value.Valid()
  {
    match lib.parsePrefix(subnet)
    case None => None
    case Some(raw) =>
      var p := raw.Masked();
      if p.bits == 0 || !IsGlobalUnicast(p.addr) || IsLoopback(p.addr) || Is4In6(p.addr) then None else Some(p)
  }

  predicate Valid(lib: Library, t: Target)
    requires Faithful(lib)
  {
    && CanonicalPrefix(lib, t.subnet).Some?
    && (t.host == "" <==> t.port == 0)
    && (t.host != "" ==> Trimmed(t.host))
    && 0 <= t.port <= 65535
    && (t.timeout != "" ==> lib.parseDuration(t.timeout).Some? && lib.parseDuration(t.timeout).value > 0)
  }

  function SubnetField(lib: Library, t: Target): string
    requires Faithful(lib)
  {
    match CanonicalPrefix(lib, t.subnet)
    case Some(p) => lib.printPrefix(p)
    case None => t.subnet
  }

  function TimeoutField(lib: Library, t: Target): string {
    match lib.parseDuration(t.timeout)
    case Some(d) => lib.printDuration(d)
    case None => if t.timeout != "" then t.timeout else lib.printDuration(DEFAULT_TIMEOUT)
  }

  /** fmt.Appendf(nil, "%q|%q|%q|%d|%q", ...) */
  function Fields(lib: Library, algorithm: string, subnet: string, host: string, port: int, timeout: string): string {
    Quoting.Quote(lib.printable, algorithm) +
    (['|'] + (Quoting.Quote(lib.printable, subnet) +
    (['|'] + (Quoting.Quote(lib.printable, host) +
    (['|'] + (Decimal(port) + ['|'] + Quoting.Quote(lib.printable, timeout)))))))
  }

  function Preimage(lib: Library, algorithm: string, t: Target): string
    requires Faithful(lib)
  {
    Fields(lib, algorithm, SubnetField(lib, t), t.host, t.port, TimeoutField(lib, t))
  }

  function Revision(lib: Library, algorithm: string, t: Target): (r: string)
    requires Faithful(lib)
    ensures r != ""
  {
    lib.digest(Preimage(lib, algorithm, t))
  }

  // ----- the check a target stands for -----

  /** What a valid target makes the probe check. */
  datatype Check = Check(prefix: Prefix, host: string, port: int, timeout: int)

  function CheckOf(lib: Library, t: Target): (c: Check)
    requires Faithful(lib) && Valid(lib, t)
    ensures c.prefix.Valid()
  {
    Check(CanonicalPrefix(lib, t.subnet).value, t.host, t.port,
          if t.timeout == "" then DEFAULT_TIMEOUT else lib.parseDuration(t.timeout).value)
  }

  /** A host as the probe sees it: its interfaces, and which dials succeed within which timeout. */
  datatype Host = Host(interfaces: seq<Interface>, dial: (string, int) -> bool)

  function JoinHostPort(host: string, port: int): string {
    if ':' in host || '%' in host then "[" + host + "]:" + Decimal(port) else host + ":" + Decimal(port)
  }

  predicate Passes(c: Check, host: Host)
    requires c.prefix.Valid()
  {
    Attached(c.prefix, host.interfaces) && (c.host == "" || host.dial(JoinHostPort(c.host, c.port), c.timeout))
  }

  // ----- the revision is an exact key -----

  lemma FieldsInjective(lib: Library, v: string, s: string, h: string, p: int, t: string,
                        v': string, s': string, h': string, p': int, t': string)
    requires Fields(lib, v, s, h, p, t) == Fields(lib, v', s', h', p', t')
    ensures v == v' && s == s' && h == h' && p == p' && t == t'
  {
    hide Quoting.Quote, Decimal;
    var q := lib.printable;
    var d, d' := Decimal(p) + ['|'] + Quoting.Quote(q, t), Decimal(p') + ['|'] + Quoting.Quote(q, t');
    var b, b' := Quoting.Quote(q, h) + (['|'] + d), Quoting.Quote(q, h') + (['|'] + d');
    var a, a' := Quoting.Quote(q, s) + (['|'] + b), Quoting.Quote(q, s') + (['|'] + b');
    Quoting.QuoteSelfDelimiting(q, v, ['|'] + a, v', ['|'] + a');
    assert a == (['|'] + a)[1..] && a' == (['|'] + a')[1..];
    Quoting.QuoteSelfDelimiting(q, s, ['|'] + b, s', ['|'] + b');
    assert b == (['|'] + b)[1..] && b' == (['|'] + b')[1..];
    Quoting.QuoteSelfDelimiting(q, h, ['|'] + d, h', ['|'] + d');
    assert d == (['|'] + d)[1..] && d' == (['|'] + d')[1..];
    DecimalSelfDelimiting(p, Quoting.Quote(q, t), p', Quoting.Quote(q, t'), '|');
    assert Quoting.Quote(q, t) + [] == Quoting.Quote(q, t') + [];
    Quoting.QuoteSelfDelimiting(q, t, [], t', []);
  }

  /** A prefix that was accepted once is accepted again in printed form: nothing else shares its field. */
  lemma SubnetFieldExact(lib: Library, a: Target, b: Target)
    requires Faithful(lib)
    requires CanonicalPrefix(lib, b.subnet).Some?
    ensures SubnetField(lib, a) == SubnetField(lib, b)
            <==> CanonicalPrefix(lib, a.subnet) == CanonicalPrefix(lib, b.subnet)
  {
    var p := CanonicalPrefix(lib, b.subnet).value;
    assert lib.parsePrefix(lib.printPrefix(p)) == Some(p);
    MaskedIdempotent(lib.parsePrefix(b.subnet).value);
    match CanonicalPrefix(lib, a.subnet)
    case Some(q) => assert lib.parsePrefix(lib.printPrefix(q)) == Some(q);
    case None =>
  }

  lemma MaskedIdempotent(p: Prefix)
    requires p.Valid()
    ensures p.Masked().Masked() == p.Masked()
  {
    hide Bits.HostMask, HostMask6;
  }

  lemma TimeoutFieldExact(lib: Library, a: Target, b: Target)
    requires Faithful(lib)
    requires b.timeout != "" ==> lib.parseDuration(b.timeout).Some?
    ensures TimeoutField(lib, a) == TimeoutField(lib, b) <==>
            (a.timeout != "" ==> lib.parseDuration(a.timeout).Some?) && Timeout(lib, a) == Timeout(lib, b)
  {
    assert Int64(DEFAULT_TIMEOUT);
    assert lib.parseDuration(lib.printDuration(Timeout(lib, b))) == Some(Timeout(lib, b));
    assert lib.parseDuration(lib.printDuration(Timeout(lib, a))) == Some(Timeout(lib, a));
  }

  function Timeout(lib: Library, t: Target): int {
    match lib.parseDuration(t.timeout)
    case Some(d) => d
    case None => DEFAULT_TIMEOUT
  }

  /**
   The revision preimage of a valid target is shared exactly by the valid targets that make the same check under the
   same algorithm. In particular no invalid target, however spelled, shares it.
   */
  lemma PreimageExact(lib: Library, v: string, a: Target, w: string, b: Target)
    requires Faithful(lib) && Valid(lib, b)
    ensures Preimage(lib, v, a) == Preimage(lib, w, b)
            <==> v == w && Valid(lib, a) && CheckOf(lib, a) == CheckOf(lib, b)
  {
    SubnetFieldExact(lib, a, b);
    TimeoutFieldExact(lib, a, b);
    if Preimage(lib, v, a) == Preimage(lib, w, b) {
      FieldsInjective(lib, v, SubnetField(lib, a), a.host, a.port, TimeoutField(lib, a),
                      w, SubnetField(lib, b), b.host, b.port, TimeoutField(lib, b));
    }
  }

  /** So the revision is an exact key: equal revisions mean the same check under the same algorithm, and only then. */
  lemma RevisionExact(lib: Library, v: string, a: Target, w: string, b: Target)
    requires Faithful(lib) && CollisionFree(lib) && Valid(lib, b)
    ensures Revision(lib, v, a) == Revision(lib, w, b) <==>
      v == w && Valid(lib, a) && CheckOf(lib, a) == CheckOf(lib, b)
  {
    PreimageExact(lib, v, a, w, b);
    hide Preimage, CheckOf, Valid;
  }

  // ----- from the CRD to the probe binary -----

  /** internal/reconcilers/helpers.go probeConfig: a missing target is the empty one. */
  function ProbeConfig(t: Option<ProbeTarget>): Target {
    match t
    case None => Target("", "", "", 0)
    case Some(p) => Target(p.subnet, p.validateHost, p.validateTimeout, p.validatePort)
  }

  // ----- a target in its own fields -----

  /** The subnet names a network of hosts: not a default route, special-purpose block or IPv4-mapped one. */
  predicate NamesNetwork(lib: Library, subnet: string)
    requires Faithful(lib)
  {
    match lib.parsePrefix(subnet)
    case None => false
    case Some(p) => p.bits > 0 && IsGlobalUnicast(p.Masked().addr) && !Is4In6(p.Masked().addr)
  }

  function EffectiveTimeout(lib: Library, t: ProbeTarget): Option<int> {
    if t.validateTimeout == "" then Some(5_000_000_000) else lib.parseDuration(t.validateTimeout)
  }

  predicate Usable(lib: Library, t: ProbeTarget)
    requires Faithful(lib)
  {
    && NamesNetwork(lib, t.subnet)
    && (if t.validateHost == "" then t.validatePort == 0
        else 1 <= t.validatePort <= 65535 && TrimSpace(t.validateHost) == t.validateHost)
    && EffectiveTimeout(lib, t).Some? && EffectiveTimeout(lib, t).value > 0
  }

  /** The validation host answers on its port in time; IPv6 literals are bracketed. */
  predicate Answers(lib: Library, t: ProbeTarget, host: Host)
    requires EffectiveTimeout(lib, t).Some?
  {
    var h, timeout := t.validateHost, EffectiveTimeout(lib, t).value;
    && (':' !in h && '%' !in h ==> host.dial(h + ":" + Decimal(t.validatePort), timeout))
    && (':' in h || '%' in h ==> host.dial("[" + h + "]:" + Decimal(t.validatePort), timeout))
  }

  /**
   What a configured target asks of a host: an address inside the subnet, on an interface that is up, and an answer from
   the validation host if one is named.
   */
  ghost predicate Meets(lib: Library, t: ProbeTarget, host: Host)
    requires Faithful(lib)
  {
    && Usable(lib, t)
    && (exists i, a :: i in host.interfaces && Serves(lib.parsePrefix(t.subnet).value, i, a))
    && (t.validateHost != "" ==> Answers(lib, t, host))
  }

  lemma ValidIffUsable(lib: Library, t: ProbeTarget)
    requires Faithful(lib)
    ensures Valid(lib, ProbeConfig(Some(t))) <==> Usable(lib, t)
  {
    hide IsMulticast, IsLinkLocalUnicast, IsLoopback, Is4In6, Unmap, Prefix.Masked;
  }

  lemma ServesMasked(p: Prefix, i: Interface, a: Address)
    requires p.Valid()
    ensures Serves(p.Masked(), i, a) <==> Serves(p, i, a)
  {
    hide Inside, IsGlobalUnicast;
    InsideMasked(p, a.ip);
  }

  /** Evaluated by the probe, a target passes on exactly the hosts that meet it. */
  lemma PassesIffMeets(lib: Library, t: ProbeTarget, host: Host)
    requires Faithful(lib)
    ensures var target := ProbeConfig(Some(t));
            Valid(lib, target) && Passes(CheckOf(lib, target), host) <==> Meets(lib, t, host)
  {
    ValidIffUsable(lib, t);
    var target := ProbeConfig(Some(t));
    if Valid(lib, target) {
      var p := lib.parsePrefix(t.subnet).value;
      assert CheckOf(lib, target).prefix == p.Masked();
      hide Attached, Serves, Prefix.Masked, IsGlobalUnicast, Decimal;
      AttachedIff(p.Masked(), host.interfaces);
      forall i, a ensures Serves(p.Masked(), i, a) <==> Serves(p, i, a) {
        ServesMasked(p, i, a);
      }
    }
  }

  /**
   The revision in the same terms: two targets share it exactly when both are usable and ask for the same block, host,
   port and effective timeout under the same algorithm.
   */
  lemma RevisionInFields(lib: Library, v: string, a: ProbeTarget, w: string, b: ProbeTarget)
    requires Faithful(lib) && CollisionFree(lib) && Usable(lib, b)
    ensures Revision(lib, v, ProbeConfig(Some(a))) == Revision(lib, w, ProbeConfig(Some(b))) <==>
      && v == w && Usable(lib, a)
      && (var p, q := lib.parsePrefix(a.subnet).value, lib.parsePrefix(b.subnet).value;
          p.bits == q.bits && p.Contains(q.addr))
      && a.validateHost == b.validateHost && a.validatePort == b.validatePort
      && EffectiveTimeout(lib, a) == EffectiveTimeout(lib, b)
  {
    ValidIffUsable(lib, a);
    ValidIffUsable(lib, b);
    hide Revision, Prefix.Masked, Prefix.Contains, IsGlobalUnicast, Is4In6;
    RevisionExact(lib, v, ProbeConfig(Some(a)), w, ProbeConfig(Some(b)));
    if Usable(lib, a) {
      MaskedIff(lib.parsePrefix(a.subnet).value, lib.parsePrefix(b.subnet).value);
    }
  }

  /** Equal revisions therefore mean that the same hosts meet the targets. */
  lemma RevisionDeterminesVerdict(lib: Library, v: string, a: ProbeTarget, w: string, b: ProbeTarget, host: Host)
    requires Faithful(lib) && CollisionFree(lib) && Usable(lib, b)
    requires Revision(lib, v, ProbeConfig(Some(a))) == Revision(lib, w, ProbeConfig(Some(b)))
    ensures v == w && (Meets(lib, a, host) <==> Meets(lib, b, host))
  {
    ValidIffUsable(lib, b);
    PassesIffMeets(lib, a, host);
    PassesIffMeets(lib, b, host);
    hide Revision, Meets, Passes, Valid, Usable, CheckOf;
    RevisionExact(lib, v, ProbeConfig(Some(a)), w, ProbeConfig(Some(b)));
  }

  /** The five PROBE_<kind>_* variables. */
  datatype TargetEnv = TargetEnv(subnet: string, host: string, port: string, timeout: string, revision: string)

  function TargetEnvVars(lib: Library, algorithm: string, t: Option<ProbeTarget>): TargetEnv
    requires Faithful(lib)
  {
    var revision := Revision(lib, algorithm, ProbeConfig(t));
    match t
    case None => TargetEnv("", "", "", "", revision)
    case Some(p) =>
      TargetEnv(p.subnet, p.validateHost, if p.validatePort != 0 then Decimal(p.validatePort) else "",
                p.validateTimeout, revision)
  }

  /** A configured target of a probe process; `check` is absent when the target is unusable. */
  datatype TargetConfig = TargetConfig(revision: string, check: Option<Check>) {
    predicate WellFormed() { check.Some? ==> check.value.prefix.Valid() }

    predicate Verdict(host: Host)
      requires WellFormed()
    {
      check.Some? && Passes(check.value, host)
    }
  }

  function ParseTarget(lib: Library, algorithm: string, env: TargetEnv): (r: Option<TargetConfig>)
    requires Faithful(lib)
    ensures r.Some? ==> r.value.WellFormed()
  {
    if env.subnet == "" then None
    else if env.port != "" && (Atoi(env.port).None? || Atoi(env.port).value == 0) then Some(TargetConfig("", None))
    else
      var port := if env.port == "" then 0 else Atoi(env.port).value;
      var t := Target(env.subnet, env.host, env.timeout, port);
      Some(TargetConfig(Revision(lib, algorithm, t), if Valid(lib, t) then Some(CheckOf(lib, t)) else None))
  }

  /** The target a probe of version `algorithm` runs with, after its comparison with the injected revision. */
  function RunnerTarget(lib: Library, algorithm: string, env: TargetEnv): (r: Option<TargetConfig>)
    requires Faithful(lib)
    ensures r.Some? ==> r.value.WellFormed()
  {
    match ParseTarget(lib, algorithm, env)
    case None => None
    case Some(c) => Some(if env.revision != c.revision then c.(check := None) else c)
  }

  predicate Int32(n: int) { -0x8000_0000 <= n < 0x8000_0000 }

  /**
   Printing a CRD target to the environment and reading it back in the probe is a round trip: a valid target arrives
   with its check and the very revision the node selector requires, an invalid one arrives unusable.
   */
  lemma EnvRoundTrip(lib: Library, algorithm: string, t: ProbeTarget)
    requires Faithful(lib) && Int32(t.validatePort)
    ensures var target := ProbeConfig(Some(t));
            RunnerTarget(lib, algorithm, TargetEnvVars(lib, algorithm, Some(t))) ==
            if t.subnet == "" then None
            else Some(TargetConfig(Revision(lib, algorithm, target),
                                   if Valid(lib, target) then Some(CheckOf(lib, target)) else None))
  {
    hide Decimal, Atoi;
    AtoiInvertsDecimal(t.validatePort);
    DecimalNonEmpty(t.validatePort);
  }

  /** A target that is not configured does not reach the probe at all. */
  lemma NoTargetNoCheck(lib: Library, algorithm: string)
    requires Faithful(lib)
    ensures RunnerTarget(lib, algorithm, TargetEnvVars(lib, algorithm, None)).None?
  {
  }

  lemma DecimalNonEmpty(n: int)
    ensures Decimal(n) != ""
  {
  }

  /** A usable target was parsed from a valid configuration whose revision it carries. */
  lemma UsableTarget(lib: Library, algorithm: string, env: TargetEnv) returns (t: Target)
    requires Faithful(lib)
    requires RunnerTarget(lib, algorithm, env).Some? && RunnerTarget(lib, algorithm, env).value.check.Some?
    ensures Valid(lib, t)
    ensures RunnerTarget(lib, algorithm, env) == Some(TargetConfig(Revision(lib, algorithm, t), Some(CheckOf(lib, t))))
  {
    t := Target(env.subnet, env.host, env.timeout, if env.port == "" then 0 else Atoi(env.port).value);
  }

  /**
   What a probe concludes from any environment, however it came about: it is satisfied exactly when the injected
   revision is the one it computes itself, a port that is given is a non-zero number, and the host meets the target.
   */
  lemma EnvVerdictIff(lib: Library, algorithm: string, env: TargetEnv, host: Host)
    requires Faithful(lib)
    ensures var r := RunnerTarget(lib, algorithm, env);
            var port := if env.port == "" then Some(0) else Atoi(env.port);
            && (r.None? <==> env.subnet == "")
            && (r.Some? && r.value.Verdict(host) <==>
                  && port.Some? && (env.port != "" ==> port.value != 0)
                  && var t := ProbeTarget(env.subnet, env.host, port.value, env.timeout);
                     env.revision == Revision(lib, algorithm, ProbeConfig(Some(t))) && Meets(lib, t, host))
  {
    var port := if env.port == "" then Some(0) else Atoi(env.port);
    if env.subnet == "" {
      assert port.Some? ==> !NamesNetwork(lib, env.subnet);
    } else if port.Some? {
      PassesIffMeets(lib, ProbeTarget(env.subnet, env.host, port.value, env.timeout), host);
    }
    hide Meets, Passes, Atoi, CheckOf, Valid, Revision;
  }

  /** A probe of another algorithm version can never use a target injected by this operator. */
  lemma OtherVersionUnusable(lib: Library, operator: string, probe: string, t: ProbeTarget)
    requires Faithful(lib) && CollisionFree(lib) && Int32(t.validatePort)
    requires operator != probe
    ensures var r := RunnerTarget(lib, probe, TargetEnvVars(lib, operator, Some(t)));
            r.Some? ==> r.value.check.None?
  {
    var r := RunnerTarget(lib, probe, TargetEnvVars(lib, operator, Some(t)));
    if r.Some? && r.value.check.Some? {
      var u := UsableTarget(lib, probe, TargetEnvVars(lib, operator, Some(t)));
      RevisionExact(lib, operator, ProbeConfig(Some(t)), probe, u);
    }
  }
}
