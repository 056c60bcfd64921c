/** The NetworkPolicies of a control plane (internal/reconcilers/networkpolicies.go), read as the flows they permit. */
module NetworkPolicies {
  import opened Options
  import opened ControlPlanes
  import Text

  // ----- policies and their meaning (NetworkPolicy v1) -----

  /** The labels policies look at: app.kubernetes.io/name and cnpg.io/cluster. */
  datatype Pod = Pod(namespace: string, app: string, cnpgCluster: string)

  datatype Selector = Everything | App(name: string) | Cnpg(cluster: string)

  predicate Selects(s: Selector, pod: Pod) {
    match s
    case Everything => true
    case App(name) => pod.app == name
    case Cnpg(cluster) => pod.cnpgCluster == cluster
  }

  /** What an address outside the namespace stands for is not decided here: `reach` says which pods it covers. */
  datatype External = Vault | ObjectStore | Address(address: string)

  type Reach = iset<(External, Pod)>

  datatype Peer = Pods(selector: Selector) | Namespace(name: string) | Outside(external: External)

  datatype Protocol = TCP | UDP

  datatype Port = Port(protocol: Protocol, number: int)

  /** No peers means anyone, no ports means every port. */
  datatype Rule = Rule(peers: seq<Peer>, ports: seq<Port>)

  /** None is a direction the policy does not restrict; Some([]) denies it. */
  datatype Policy = Policy(selects: Selector, ingress: Option<seq<Rule>>, egress: Option<seq<Rule>>)

  predicate PeerMatches(ns: string, reach: Reach, peer: Peer, pod: Pod) {
    match peer
    case Pods(s) => pod.namespace == ns && Selects(s, pod)
    case Namespace(name) => pod.namespace == name
    case Outside(e) => (e, pod) in reach
  }

  predicate RuleAdmits(ns: string, reach: Reach, rule: Rule, pod: Pod, port: Port) {
    && (rule.ports == [] || port in rule.ports)
    && (rule.peers == [] || exists p :: p in rule.peers && PeerMatches(ns, reach, p, pod))
  }

  predicate Admits(ns: string, reach: Reach, rules: Option<seq<Rule>>, pod: Pod, port: Port) {
    rules.Some? && exists r :: r in rules.value && RuleAdmits(ns, reach, r, pod, port)
  }

  /** A policy selects pods of its own namespace only. */
  predicate Restricts(ns: string, policies: seq<Policy>, ingress: bool, pod: Pod) {
    && pod.namespace == ns
    && exists p :: p in policies && Selects(p.selects, pod) && (if ingress then p.ingress else p.egress).Some?
  }

  predicate LetsIn(ns: string, reach: Reach, policies: seq<Policy>, src: Pod, dst: Pod, port: Port) {
    !Restricts(ns, policies, true, dst)
    || exists p :: p in policies && Selects(p.selects, dst) && Admits(ns, reach, p.ingress, src, port)
  }

  predicate LetsOut(ns: string, reach: Reach, policies: seq<Policy>, src: Pod, dst: Pod, port: Port) {
    !Restricts(ns, policies, false, src)
    || exists p :: p in policies && Selects(p.selects, src) && Admits(ns, reach, p.egress, dst, port)
  }

  /** A flow between two pods of the namespace needs both ends. */
  predicate Permitted(ns: string, reach: Reach, policies: seq<Policy>, src: Pod, dst: Pod, port: Port) {
    LetsOut(ns, reach, policies, src, dst, port) && LetsIn(ns, reach, policies, src, dst, port)
  }

  // ----- API server endpoints (internal/reconcilers/helpers.go, KubernetesAPIEgressPeers) -----

  datatype Api = Api(addresses: seq<string>, ports: seq<int>) {
    predicate Valid() { addresses != [] && ports != [] }
  }

  const SYNTAX_ONLY := Api(["0.0.0.0/0"], [443])

  /** One EndpointSlice: the addresses of each endpoint, and ports that may lack a number. */
  datatype Slice = Slice(endpoints: seq<seq<string>>, ports: seq<Option<int>>)

  predicate HasAddress(slices: seq<Slice>, a: string) {
    exists s, e :: s in slices && e in s.endpoints && a in e
  }

  predicate HasPort(slices: seq<Slice>, p: int) {
    exists s :: s in slices && Some(p) in s.ports
  }

  method AddNew<T(==)>(list: seq<T>, more: seq<T>) returns (r: seq<T>)
    requires Text.Distinct(list)
    ensures Text.Distinct(r) && forall x :: x in r <==> x in list || x in more
  {
    r := list;
    for i := 0 to |more|
      invariant Text.Distinct(r) && forall x :: x in r <==> x in list || x in more[..i]
    {
      if more[i] !in r {
        r := r + [more[i]];
      }
    }
  }

  method EndpointAddresses(slice: Slice, list: seq<string>) returns (r: seq<string>)
    requires Text.Distinct(list)
    ensures Text.Distinct(r) && forall a :: a in r <==> a in list || exists e :: e in slice.endpoints && a in e
  {
    r := list;
    for i := 0 to |slice.endpoints|
      invariant Text.Distinct(r) && forall a :: a in r <==> a in list || exists e :: e in slice.endpoints[..i] && a in e
    {
      ghost var before := r;
      r := AddNew(r, slice.endpoints[i]);
      forall a ensures a in r <==> a in list || exists e :: e in slice.endpoints[..i + 1] && a in e {
        assert slice.endpoints[..i + 1] == slice.endpoints[..i] + [slice.endpoints[i]];
        assert slice.endpoints[i] in slice.endpoints[..i + 1];
        assert a in r <==> a in before || a in slice.endpoints[i];
      }
    }
    assert slice.endpoints[..|slice.endpoints|] == slice.endpoints;
  }

  method SlicePorts(slice: Slice, list: seq<int>) returns (r: seq<int>)
    requires Text.Distinct(list)
    ensures Text.Distinct(r) && forall p :: p in r <==> p in list || Some(p) in slice.ports
  {
    r := list;
    for i := 0 to |slice.ports|
      invariant Text.Distinct(r) && forall p :: p in r <==> p in list || Some(p) in slice.ports[..i]
    {
      if slice.ports[i].None? || slice.ports[i].value in r {
        continue;
      }
      r := r + [slice.ports[i].value];
    }
  }

  /** Every discovered address and port, each once; never an empty list, which a policy would read as no restriction. */
  method KubernetesAPIEgressPeers(slices: Option<seq<Slice>>, bestEffort: bool) returns (api: Option<Api>)
    ensures api.Some? ==> api.value.Valid() && Text.Distinct(api.value.addresses) && Text.Distinct(api.value.ports)
    ensures slices.Some? && (exists a :: HasAddress(slices.value, a)) ==>
      && api.Some?
      && (forall a :: a in api.value.addresses <==> HasAddress(slices.value, a))
      && if exists p :: HasPort(slices.value, p) then forall p :: p in api.value.ports <==> HasPort(slices.value, p)
         else api.value.ports == [443]
    ensures slices.None? || !(exists a :: HasAddress(slices.value, a)) ==>
      api == if bestEffort then Some(Api(["0.0.0.0/0"], [443])) else None
  {
    if slices.None? {
      return if bestEffort then Some(SYNTAX_ONLY) else None;
    }
    var addresses, ports := [], [];
    var items := slices.value;
    for i := 0 to |items|
      invariant Text.Distinct(addresses) && Text.Distinct(ports)
      invariant forall a :: a in addresses <==> HasAddress(items[..i], a)
      invariant forall p :: p in ports <==> HasPort(items[..i], p)
    {
      SlicesAppended(items[..i], items[i]);
      assert items[..i + 1] == items[..i] + [items[i]];
      addresses := EndpointAddresses(items[i], addresses);
      ports := SlicePorts(items[i], ports);
    }
    assert items[..|items|] == items;
    if addresses == [] {
      return if bestEffort then Some(SYNTAX_ONLY) else None;
    }
    assert addresses[0] in addresses && HasAddress(items, addresses[0]);
    if ports == [] {
      ports := [443];
    } else {
      assert ports[0] in ports && HasPort(items, ports[0]);
    }
    return Some(Api(addresses, ports));
  }

  lemma SlicesAppended(items: seq<Slice>, s: Slice)
    ensures forall a :: HasAddress(items + [s], a) <==> HasAddress(items, a) || exists e :: e in s.endpoints && a in e
    ensures forall p :: HasPort(items + [s], p) <==> HasPort(items, p) || Some(p) in s.ports
  {
    assert s in items + [s];
    assert forall x :: x in items + [s] <==> x in items || x == s;
  }

  // ----- the policies -----

  function Tcp(n: int): Port { Port(TCP, n) }

  function From(selector: Selector): Peer { Pods(selector) }

  function To(peer: Peer, port: int): Rule { Rule([peer], [Tcp(port)]) }

  const GATEWAY := Namespace("envoy-gateway-system")

  function Egress(selector: Selector, rules: seq<Rule>): Policy { Policy(selector, None, Some(rules)) }

  function TcpPorts(ports: seq<int>): seq<Port> { seq(|ports|, i requires 0 <= i < |ports| => Tcp(ports[i])) }

  function ApiRule(api: Api): Rule {
    Rule(seq(|api.addresses|, i requires 0 <= i < |api.addresses| => Outside(Address(api.addresses[i]))),
        TcpPorts(api.ports))
  }

  predicate HasValidation(target: Option<ProbeTarget>) {
    target.Some? && target.value.validateHost != "" && 1 <= target.value.validatePort <= 65535
  }

  /** The target names a host to dial on this port. */
  predicate ValidatesOn(target: Option<ProbeTarget>, port: int) {
    match target
    case None => false
    case Some(t) => t.validateHost != "" && t.validatePort == port && 1 <= port <= 65535
  }

  function ValidationPorts(probe: NetworkProbe): seq<int> {
    (if HasValidation(probe.provision) then [probe.provision.value.validatePort] else [])
    + (if HasValidation(probe.bmc)
        && !(HasValidation(probe.provision) && probe.provision.value.validatePort == probe.bmc.value.validatePort)
       then [probe.bmc.value.validatePort] else [])
  }

  /** Skips ports already seen. */
  method CollectValidationPorts(probe: NetworkProbe) returns (ports: seq<int>)
    ensures ports == ValidationPorts(probe)
    ensures Text.Distinct(ports)
    ensures forall p :: p in ports <==> ValidatesOn(probe.provision, p) || ValidatesOn(probe.bmc, p)
  {
    ports := [];
    var seen: set<int> := {};
    var targets := [probe.provision, probe.bmc];
    for i := 0 to 2
      invariant i == 0 ==> ports == [] && seen == {}
      invariant i == 1 ==>
        ports == (if HasValidation(probe.provision) then [probe.provision.value.validatePort] else [])
      invariant i == 2 ==> ports == ValidationPorts(probe)
      invariant forall p :: p in seen <==> p in ports
    {
      var t := targets[i];
      if t.None? || t.value.validateHost == "" || t.value.validatePort < 1 || t.value.validatePort > 65535
          || t.value.validatePort in seen {
        continue;
      }
      seen := seen + {t.value.validatePort};
      ports := ports + [t.value.validatePort];
    }
  }

  function ProbeRules(probe: NetworkProbe, api: Api): seq<Rule> {
    [ApiRule(api)] + if ValidationPorts(probe) == [] then [] else [Rule([], TcpPorts(ValidationPorts(probe)))]
  }

  function Postgres(ns: string): Selector { Cnpg(ns + "-postgres") }

  function SMDPolicy(ns: string): Policy {
    Policy(App("smd"),
           Some([Rule([From(App("boot-service")), From(App("metadata-service")), From(App("coredhcp")),
               From(App("magellan")), GATEWAY],
                      [Tcp(27779)])]),
           Some([To(Pods(Postgres(ns)), 5432), To(Pods(App("tokensmith")), 8080)]))
  }

  function TokensmithPolicy(): Policy {
    Policy(App("tokensmith"),
           Some([Rule([From(Everything), GATEWAY], [Tcp(8080)])]),
           Some([To(Outside(Vault), 8200), Rule([], [Tcp(443)])]))
  }

  function BootPolicy(ns: string): Policy {
    Policy(App("boot-service"),
           Some([Rule([From(App("coredhcp")), GATEWAY], [Tcp(27778)])]),
           Some([To(Pods(App("smd")), 27779), To(Pods(Postgres(ns)), 5432), To(Outside(ObjectStore), 10000),
                 To(Pods(App("tokensmith")), 8080)]))
  }

  function MetadataPolicy(): Policy {
    Policy(App("metadata-service"),
           Some([Rule([GATEWAY], [Tcp(8081)])]),
           Some([To(Pods(App("smd")), 27779), To(Pods(App("tokensmith")), 8080)]))
  }

  function PostgresIngress(ns: string): Policy {
    Policy(Postgres(ns),
           Some([Rule([From(App("smd")), From(App("boot-service")), From(Postgres(ns))], [Tcp(5432)]),
                 Rule([Namespace("cnpg-system")], [Tcp(8000)])]),
           None)
  }

  function DefaultDeny(): Policy { Policy(Everything, Some([]), Some([])) }

  function DNSEgress(): Policy { Egress(Everything, [Rule([], [Port(UDP, 53), Tcp(53)])]) }

  function VaultEgress(): Policy { Egress(Everything, [To(Outside(Vault), 8200)]) }

  function StoreEgress(app: string): Policy { Egress(App(app), [To(Outside(ObjectStore), 10000)]) }

  function PostgresEgress(ns: string): Policy { Egress(Postgres(ns), [To(Pods(Postgres(ns)), 5432)]) }

  function CnpgApiPolicy(ns: string, api: Api): Policy { Egress(Postgres(ns), [ApiRule(api)]) }

  function CoreDHCPPolicy(): Policy {
    Egress(App("coredhcp"), [To(Pods(App("smd")), 27779), To(Pods(App("boot-service")), 27778)])
  }

  function MagellanPolicy(): Policy { Egress(App("magellan"), [To(Pods(App("smd")), 27779), Rule([], [Tcp(443)])]) }

  function NetworkProbePolicy(probe: NetworkProbe, api: Api): Policy {
    Egress(App("network-probe"), ProbeRules(probe, api))
  }

  function BuildPolicies(ns: string, probe: NetworkProbe, api: Api): seq<Policy> {
    [DefaultDeny(),
     DNSEgress(),
     VaultEgress(),
     StoreEgress("boot-service"),
     StoreEgress("funicular-collector"),
     CnpgApiPolicy(ns, api),
     SMDPolicy(ns),
     TokensmithPolicy(),
     BootPolicy(ns),
     MetadataPolicy(),
     CoreDHCPPolicy(),
     MagellanPolicy(),
     NetworkProbePolicy(probe, api),
     StoreEgress("funicular-collector"),
     PostgresIngress(ns),
     PostgresEgress(ns)]
  }

  // ----- who is let in -----

  predicate IsPostgres(ns: string, pod: Pod) { pod.cnpgCluster == ns + "-postgres" }

  /** The ingress side of the namespace's pods, for sources anywhere in the cluster. */
  predicate InTable(ns: string, src: Pod, dst: Pod, port: Port) {
    var inside, gateway := src.namespace == ns, src.namespace == "envoy-gateway-system";
    port.protocol.TCP?
    && ((dst.app == "smd" && port.number == 27779
         && (gateway || (inside && src.app in ["boot-service", "metadata-service", "coredhcp", "magellan"])))
        || (dst.app == "tokensmith" && port.number == 8080 && (gateway || inside))
        || (dst.app == "boot-service" && port.number == 27778 && (gateway || (inside && src.app == "coredhcp")))
        || (dst.app == "metadata-service" && port.number == 8081 && gateway)
        || (IsPostgres(ns, dst) && port.number == 5432
            && inside && (src.app == "smd" || src.app == "boot-service" || IsPostgres(ns, src)))
        || (IsPostgres(ns, dst) && port.number == 8000 && src.namespace == "cnpg-system"))
  }

  lemma PlainEgress(ns: string, probe: NetworkProbe, api: Api)
    ensures PostgresEgress(ns).ingress.None? && CnpgApiPolicy(ns, api).ingress.None? && CoreDHCPPolicy().ingress.None?
    ensures MagellanPolicy().ingress.None? && NetworkProbePolicy(probe, api).ingress.None?
  {
  }

  lemma IngressPolicies(ns: string, probe: NetworkProbe, api: Api, p: Policy)
    ensures p in BuildPolicies(ns, probe, api) ==>
      p.ingress.None? || p.ingress == Some([])
      || p in [SMDPolicy(ns), TokensmithPolicy(), BootPolicy(ns), MetadataPolicy(), PostgresIngress(ns)]
    ensures p in [SMDPolicy(ns), TokensmithPolicy(), BootPolicy(ns), MetadataPolicy(), PostgresIngress(ns)] ==>
      p in BuildPolicies(ns, probe, api)
    ensures p == DefaultDeny() ==> p in BuildPolicies(ns, probe, api)
  {
    hide SMDPolicy, TokensmithPolicy, BootPolicy, MetadataPolicy, PostgresIngress, PostgresEgress;
    hide CnpgApiPolicy, CoreDHCPPolicy, MagellanPolicy, NetworkProbePolicy, To, Postgres;
    PlainEgress(ns, probe, api);
  }

  /** Short lists, element by element. */
  lemma AnyPeer(ns: string, reach: Reach, peers: seq<Peer>, pod: Pod)
    requires |peers| <= 5
    ensures (exists p :: p in peers && PeerMatches(ns, reach, p, pod)) <==>
      || (|peers| > 0 && PeerMatches(ns, reach, peers[0], pod))
      || (|peers| > 1 && PeerMatches(ns, reach, peers[1], pod))
      || (|peers| > 2 && PeerMatches(ns, reach, peers[2], pod))
      || (|peers| > 3 && PeerMatches(ns, reach, peers[3], pod))
      || (|peers| > 4 && PeerMatches(ns, reach, peers[4], pod))
  {
    hide PeerMatches;
    assert forall i :: 0 <= i < |peers| ==> peers[i] in peers;
  }

  lemma AnyRule(ns: string, reach: Reach, rules: seq<Rule>, pod: Pod, port: Port)
    requires |rules| <= 4
    ensures Admits(ns, reach, Some(rules), pod, port) <==>
      || (|rules| > 0 && RuleAdmits(ns, reach, rules[0], pod, port))
      || (|rules| > 1 && RuleAdmits(ns, reach, rules[1], pod, port))
      || (|rules| > 2 && RuleAdmits(ns, reach, rules[2], pod, port))
      || (|rules| > 3 && RuleAdmits(ns, reach, rules[3], pod, port))
  {
    hide RuleAdmits;
    assert forall i :: 0 <= i < |rules| ==> rules[i] in rules;
  }

  lemma ServicesIn(ns: string, reach: Reach, src: Pod, port: Port)
    ensures Admits(ns, reach, SMDPolicy(ns).ingress, src, port) <==>
      port == Tcp(27779) && (src.namespace == "envoy-gateway-system"
          || (src.namespace == ns && src.app in ["boot-service", "metadata-service", "coredhcp", "magellan"]))
    ensures Admits(ns, reach, BootPolicy(ns).ingress, src, port) <==>
      port == Tcp(27778) && (src.namespace == "envoy-gateway-system" || (src.namespace == ns && src.app == "coredhcp"))
  {
    var smd, boot := SMDPolicy(ns).ingress.value, BootPolicy(ns).ingress.value;
    AnyRule(ns, reach, smd, src, port);
    AnyRule(ns, reach, boot, src, port);
    AnyPeer(ns, reach, smd[0].peers, src);
    AnyPeer(ns, reach, boot[0].peers, src);
    hide Admits;
  }

  lemma OthersIn(ns: string, reach: Reach, src: Pod, port: Port)
    ensures Admits(ns, reach, TokensmithPolicy().ingress, src, port) <==>
      port == Tcp(8080) && (src.namespace == "envoy-gateway-system" || src.namespace == ns)
    ensures Admits(ns, reach, MetadataPolicy().ingress, src, port) <==>
      port == Tcp(8081) && src.namespace == "envoy-gateway-system"
  {
    var tokensmith, metadata := TokensmithPolicy().ingress.value, MetadataPolicy().ingress.value;
    AnyRule(ns, reach, tokensmith, src, port);
    AnyRule(ns, reach, metadata, src, port);
    AnyPeer(ns, reach, tokensmith[0].peers, src);
    AnyPeer(ns, reach, metadata[0].peers, src);
    hide Admits;
  }

  lemma PostgresIn(ns: string, reach: Reach, src: Pod, port: Port)
    ensures Admits(ns, reach, PostgresIngress(ns).ingress, src, port) <==>
      (port == Tcp(5432) && src.namespace == ns
          && (src.app == "smd" || src.app == "boot-service" || IsPostgres(ns, src)))
      || (port == Tcp(8000) && src.namespace == "cnpg-system")
  {
    var rules := PostgresIngress(ns).ingress.value;
    AnyRule(ns, reach, rules, src, port);
    AnyPeer(ns, reach, rules[0].peers, src);
    AnyPeer(ns, reach, rules[1].peers, src);
    hide Admits;
  }

  lemma Restricted(ns: string, probe: NetworkProbe, api: Api, ingress: bool, pod: Pod)
    ensures Restricts(ns, BuildPolicies(ns, probe, api), ingress, pod) <==> pod.namespace == ns
  {
    var deny := DefaultDeny();
    IngressPolicies(ns, probe, api, deny);
    hide BuildPolicies;
    assert Selects(deny.selects, pod);
  }

  predicate InTableOf(ns: string, reach: Reach, p: Policy, src: Pod, dst: Pod, port: Port) {
    Selects(p.selects, dst) && Admits(ns, reach, p.ingress, src, port)
  }

  lemma InTableIff(ns: string, reach: Reach, src: Pod, dst: Pod, port: Port)
    ensures InTable(ns, src, dst, port) <==>
      || InTableOf(ns, reach, SMDPolicy(ns), src, dst, port)
      || InTableOf(ns, reach, TokensmithPolicy(), src, dst, port)
      || InTableOf(ns, reach, BootPolicy(ns), src, dst, port)
      || InTableOf(ns, reach, MetadataPolicy(), src, dst, port)
      || InTableOf(ns, reach, PostgresIngress(ns), src, dst, port)
  {
    ServicesIn(ns, reach, src, port);
    OthersIn(ns, reach, src, port);
    PostgresIn(ns, reach, src, port);
    assert SMDPolicy(ns).selects == App("smd") && BootPolicy(ns).selects == App("boot-service");
    assert TokensmithPolicy().selects == App("tokensmith") && MetadataPolicy().selects == App("metadata-service");
    assert PostgresIngress(ns).selects == Cnpg(ns + "-postgres");
    hide Admits, SMDPolicy, TokensmithPolicy, BootPolicy, MetadataPolicy, PostgresIngress;
  }

  lemma LetsInIff(ns: string, reach: Reach, probe: NetworkProbe, api: Api, src: Pod, dst: Pod, port: Port)
    ensures LetsIn(ns, reach, BuildPolicies(ns, probe, api), src, dst, port) <==>
      dst.namespace != ns || InTable(ns, src, dst, port)
  {
    hide BuildPolicies, Restricts, SMDPolicy, TokensmithPolicy, BootPolicy, MetadataPolicy, PostgresIngress, InTable;
    Restricted(ns, probe, api, true, dst);
    InTableIff(ns, reach, src, dst, port);
    forall p ensures p in BuildPolicies(ns, probe, api) && InTableOf(ns, reach, p, src, dst, port) ==>
        InTable(ns, src, dst, port) {
      IngressPolicies(ns, probe, api, p);
    }
    IngressPolicies(ns, probe, api, SMDPolicy(ns));
    IngressPolicies(ns, probe, api, TokensmithPolicy());
    IngressPolicies(ns, probe, api, BootPolicy(ns));
    IngressPolicies(ns, probe, api, MetadataPolicy());
    IngressPolicies(ns, probe, api, PostgresIngress(ns));
  }

  // ----- who is let out -----

  predicate ApiOpens(reach: Reach, api: Api, dst: Pod, port: Port) {
    port.protocol.TCP? && port.number in api.ports && exists a :: a in api.addresses && (Address(a), dst) in reach
  }

  /** What every pod may do, and what the object store admits. */
  predicate GeneralOut(reach: Reach, src: Pod, dst: Pod, port: Port) {
    || port.number == 53
    || (port == Tcp(8200) && (Vault, dst) in reach)
    || (port == Tcp(10000) && src.app in ["boot-service", "funicular-collector"] && (ObjectStore, dst) in reach)
  }

  predicate ServiceOut(ns: string, reach: Reach, probe: NetworkProbe, api: Api, src: Pod, dst: Pod, port: Port) {
    var n, inside := port.number, dst.namespace == ns;
    port.protocol.TCP? &&
    ((src.app == "smd" && inside && ((n == 5432 && IsPostgres(ns, dst)) || (n == 8080 && dst.app == "tokensmith")))
     || (src.app == "boot-service" && inside
         && ((n == 27779 && dst.app == "smd") || (n == 5432 && IsPostgres(ns, dst))
             || (n == 8080 && dst.app == "tokensmith")))
     || (src.app == "metadata-service" && inside
         && ((n == 27779 && dst.app == "smd") || (n == 8080 && dst.app == "tokensmith")))
     || (src.app == "coredhcp" && inside
         && ((n == 27779 && dst.app == "smd") || (n == 27778 && dst.app == "boot-service")))
     || (src.app == "magellan" && (n == 443 || (inside && n == 27779 && dst.app == "smd")))
     || (src.app == "tokensmith" && n == 443)
     || (src.app == "network-probe" && (n in ValidationPorts(probe) || ApiOpens(reach, api, dst, port)))
     || (IsPostgres(ns, src) && ((n == 5432 && inside && IsPostgres(ns, dst)) || ApiOpens(reach, api, dst, port))))
  }

  /** The egress side of the namespace's pods, for destinations anywhere and every port. */
  predicate OutTable(ns: string, reach: Reach, probe: NetworkProbe, api: Api, src: Pod, dst: Pod, port: Port) {
    GeneralOut(reach, src, dst, port) || ServiceOut(ns, reach, probe, api, src, dst, port)
  }

  lemma ToAdmits(ns: string, reach: Reach, peer: Peer, n: int, pod: Pod, port: Port)
    ensures RuleAdmits(ns, reach, To(peer, n), pod, port) <==> port == Tcp(n) && PeerMatches(ns, reach, peer, pod)
  {
    AnyPeer(ns, reach, [peer], pod);
    hide PeerMatches;
  }

  lemma ApiAdmits(ns: string, reach: Reach, api: Api, pod: Pod, port: Port)
    requires api.Valid()
    ensures RuleAdmits(ns, reach, ApiRule(api), pod, port) <==> ApiOpens(reach, api, pod, port)
  {
    TcpPortsMembers(api.ports, port);
    var rule := ApiRule(api);
    if ApiOpens(reach, api, pod, port) {
      var i :| 0 <= i < |api.addresses| && (Address(api.addresses[i]), pod) in reach;
      assert rule.peers[i] in rule.peers && PeerMatches(ns, reach, rule.peers[i], pod);
    }
  }

  lemma TcpPortsMembers(ports: seq<int>, port: Port)
    ensures port in TcpPorts(ports) <==> port.protocol.TCP? && port.number in ports
  {
    if port.protocol.TCP? && port.number in ports {
      var i :| 0 <= i < |ports| && ports[i] == port.number;
      assert TcpPorts(ports)[i] == port;
    }
  }

  lemma ServicesOut(ns: string, reach: Reach, dst: Pod, port: Port)
    ensures Admits(ns, reach, SMDPolicy(ns).egress, dst, port) <==>
      dst.namespace == ns
          && ((port == Tcp(5432) && IsPostgres(ns, dst)) || (port == Tcp(8080) && dst.app == "tokensmith"))
    ensures Admits(ns, reach, MetadataPolicy().egress, dst, port) <==>
      dst.namespace == ns
          && ((port == Tcp(27779) && dst.app == "smd") || (port == Tcp(8080) && dst.app == "tokensmith"))
    ensures Admits(ns, reach, TokensmithPolicy().egress, dst, port) <==>
      port == Tcp(443) || (port == Tcp(8200) && (Vault, dst) in reach)
  {
    var smd, metadata, tokensmith := SMDPolicy(ns).egress.value, MetadataPolicy().egress.value,
        TokensmithPolicy().egress.value;
    AnyRule(ns, reach, smd, dst, port);
    AnyRule(ns, reach, metadata, dst, port);
    AnyRule(ns, reach, tokensmith, dst, port);
    ToAdmits(ns, reach, Pods(Postgres(ns)), 5432, dst, port);
    ToAdmits(ns, reach, Pods(App("tokensmith")), 8080, dst, port);
    ToAdmits(ns, reach, Pods(App("smd")), 27779, dst, port);
    ToAdmits(ns, reach, Outside(Vault), 8200, dst, port);
    hide Admits, To;
  }

  lemma BootOut(ns: string, reach: Reach, dst: Pod, port: Port)
    ensures Admits(ns, reach, BootPolicy(ns).egress, dst, port) <==>
      || (port == Tcp(10000) && (ObjectStore, dst) in reach)
      || (dst.namespace == ns
          && ((port == Tcp(27779) && dst.app == "smd") || (port == Tcp(5432) && IsPostgres(ns, dst))
              || (port == Tcp(8080) && dst.app == "tokensmith")))
  {
    AnyRule(ns, reach, BootPolicy(ns).egress.value, dst, port);
    ToAdmits(ns, reach, Pods(App("smd")), 27779, dst, port);
    ToAdmits(ns, reach, Pods(Postgres(ns)), 5432, dst, port);
    ToAdmits(ns, reach, Outside(ObjectStore), 10000, dst, port);
    ToAdmits(ns, reach, Pods(App("tokensmith")), 8080, dst, port);
    hide Admits, To, RuleAdmits;
  }

  lemma DaemonsOut(ns: string, reach: Reach, dst: Pod, port: Port)
    ensures Admits(ns, reach, CoreDHCPPolicy().egress, dst, port) <==>
      dst.namespace == ns
          && ((port == Tcp(27779) && dst.app == "smd") || (port == Tcp(27778) && dst.app == "boot-service"))
    ensures Admits(ns, reach, MagellanPolicy().egress, dst, port) <==>
      port == Tcp(443) || (dst.namespace == ns && port == Tcp(27779) && dst.app == "smd")
    ensures Admits(ns, reach, PostgresEgress(ns).egress, dst, port) <==>
      dst.namespace == ns && port == Tcp(5432) && IsPostgres(ns, dst)
  {
    AnyRule(ns, reach, CoreDHCPPolicy().egress.value, dst, port);
    AnyRule(ns, reach, MagellanPolicy().egress.value, dst, port);
    AnyRule(ns, reach, PostgresEgress(ns).egress.value, dst, port);
    ToAdmits(ns, reach, Pods(App("smd")), 27779, dst, port);
    ToAdmits(ns, reach, Pods(App("boot-service")), 27778, dst, port);
    ToAdmits(ns, reach, Pods(Postgres(ns)), 5432, dst, port);
    hide Admits, To;
  }

  lemma ProbeOut(ns: string, reach: Reach, probe: NetworkProbe, api: Api, dst: Pod, port: Port)
    requires api.Valid()
    ensures Admits(ns, reach, NetworkProbePolicy(probe, api).egress, dst, port) <==>
      (port.protocol.TCP? && port.number in ValidationPorts(probe)) || ApiOpens(reach, api, dst, port)
    ensures Admits(ns, reach, CnpgApiPolicy(ns, api).egress, dst, port) <==> ApiOpens(reach, api, dst, port)
  {
    AnyRule(ns, reach, NetworkProbePolicy(probe, api).egress.value, dst, port);
    AnyRule(ns, reach, CnpgApiPolicy(ns, api).egress.value, dst, port);
    ApiAdmits(ns, reach, api, dst, port);
    TcpPortsMembers(ValidationPorts(probe), port);
    hide Admits, ApiRule, ApiOpens, ValidationPorts;
  }

  predicate OutTableOf(ns: string, reach: Reach, p: Policy, src: Pod, dst: Pod, port: Port) {
    Selects(p.selects, src) && Admits(ns, reach, p.egress, dst, port)
  }

  lemma StoreOut(ns: string, reach: Reach, app: string, dst: Pod, port: Port)
    ensures Admits(ns, reach, StoreEgress(app).egress, dst, port) <==> port == Tcp(10000) && (ObjectStore, dst) in reach
  {
    AnyRule(ns, reach, StoreEgress(app).egress.value, dst, port);
    ToAdmits(ns, reach, Outside(ObjectStore), 10000, dst, port);
    hide Admits, To;
  }

  lemma EveryoneOut(ns: string, reach: Reach, dst: Pod, port: Port)
    ensures !Admits(ns, reach, DefaultDeny().egress, dst, port)
      && !Admits(ns, reach, PostgresIngress(ns).egress, dst, port)
    ensures Admits(ns, reach, DNSEgress().egress, dst, port) <==> port.number == 53
    ensures Admits(ns, reach, VaultEgress().egress, dst, port) <==> port == Tcp(8200) && (Vault, dst) in reach
  {
    AnyRule(ns, reach, [], dst, port);
    AnyRule(ns, reach, DNSEgress().egress.value, dst, port);
    AnyRule(ns, reach, VaultEgress().egress.value, dst, port);
    ToAdmits(ns, reach, Outside(Vault), 8200, dst, port);
    assert port.protocol == TCP || port.protocol == UDP;
    assert port.number == 53 ==> port == Port(UDP, 53) || port == Tcp(53);
    assert PostgresIngress(ns).egress.None?;
    hide To, PostgresIngress;
  }

  function GeneralPolicies(ns: string): seq<Policy> {
    [DefaultDeny(), DNSEgress(), VaultEgress(), StoreEgress("boot-service"), StoreEgress("funicular-collector"),
        PostgresIngress(ns)]
  }

  lemma GeneralParts(ns: string, reach: Reach, src: Pod, dst: Pod, port: Port)
    ensures GeneralOut(reach, src, dst, port) <==>
      exists p :: p in GeneralPolicies(ns) && OutTableOf(ns, reach, p, src, dst, port)
  {
    EveryoneOut(ns, reach, dst, port);
    StoreOut(ns, reach, "boot-service", dst, port);
    StoreOut(ns, reach, "funicular-collector", dst, port);
    assert DNSEgress().selects == VaultEgress().selects == Everything;
    assert StoreEgress("boot-service").selects == App("boot-service");
    assert StoreEgress("funicular-collector").selects == App("funicular-collector");
    hide Admits, DefaultDeny, DNSEgress, VaultEgress, StoreEgress, PostgresIngress;
    var ps := GeneralPolicies(ns);
    assert ps[1] in ps && ps[2] in ps && ps[3] in ps && ps[4] in ps;
    assert GeneralOut(reach, src, dst, port) <==>
      || OutTableOf(ns, reach, ps[1], src, dst, port) || OutTableOf(ns, reach, ps[2], src, dst, port)
      || OutTableOf(ns, reach, ps[3], src, dst, port) || OutTableOf(ns, reach, ps[4], src, dst, port);
    assert !OutTableOf(ns, reach, ps[0], src, dst, port) && !OutTableOf(ns, reach, ps[5], src, dst, port);
    hide OutTableOf, GeneralOut;
  }

  function EgressPolicies(ns: string, probe: NetworkProbe, api: Api): seq<Policy> {
    [SMDPolicy(ns), BootPolicy(ns), MetadataPolicy(), CoreDHCPPolicy(), MagellanPolicy(), TokensmithPolicy(),
     NetworkProbePolicy(probe, api), CnpgApiPolicy(ns, api), PostgresEgress(ns)]
  }

  lemma EgressMembers(ns: string, probe: NetworkProbe, api: Api, p: Policy)
    ensures p in BuildPolicies(ns, probe, api) <==> p in GeneralPolicies(ns) || p in EgressPolicies(ns, probe, api)
  {
    hide DefaultDeny, DNSEgress, VaultEgress, StoreEgress;
    hide SMDPolicy, TokensmithPolicy, BootPolicy, MetadataPolicy, PostgresIngress, PostgresEgress;
    hide CnpgApiPolicy, CoreDHCPPolicy, MagellanPolicy, NetworkProbePolicy;
  }

  lemma AnyOfNine(ns: string, reach: Reach, ps: seq<Policy>, src: Pod, dst: Pod, port: Port)
    requires |ps| == 9
    ensures (exists p :: p in ps && OutTableOf(ns, reach, p, src, dst, port)) <==>
      || OutTableOf(ns, reach, ps[0], src, dst, port) || OutTableOf(ns, reach, ps[1], src, dst, port)
      || OutTableOf(ns, reach, ps[2], src, dst, port) || OutTableOf(ns, reach, ps[3], src, dst, port)
      || OutTableOf(ns, reach, ps[4], src, dst, port) || OutTableOf(ns, reach, ps[5], src, dst, port)
      || OutTableOf(ns, reach, ps[6], src, dst, port) || OutTableOf(ns, reach, ps[7], src, dst, port)
      || OutTableOf(ns, reach, ps[8], src, dst, port)
  {
    hide OutTableOf;
    assert forall i :: 0 <= i < |ps| ==> ps[i] in ps;
  }

  lemma ServiceParts(ns: string, reach: Reach, probe: NetworkProbe, api: Api, src: Pod, dst: Pod, port: Port)
    requires api.Valid()
    ensures OutTable(ns, reach, probe, api, src, dst, port) <==>
      || GeneralOut(reach, src, dst, port)
      || OutTableOf(ns, reach, SMDPolicy(ns), src, dst, port) || OutTableOf(ns, reach, BootPolicy(ns), src, dst, port)
      || OutTableOf(ns, reach, MetadataPolicy(), src, dst, port)
          || OutTableOf(ns, reach, CoreDHCPPolicy(), src, dst, port)
      || OutTableOf(ns, reach, MagellanPolicy(), src, dst, port)
          || OutTableOf(ns, reach, TokensmithPolicy(), src, dst, port)
      || OutTableOf(ns, reach, NetworkProbePolicy(probe, api), src, dst, port)
      || OutTableOf(ns, reach, CnpgApiPolicy(ns, api), src, dst, port)
          || OutTableOf(ns, reach, PostgresEgress(ns), src, dst, port)
  {
    assert SMDPolicy(ns).selects == App("smd") && BootPolicy(ns).selects == App("boot-service");
    assert TokensmithPolicy().selects == App("tokensmith") && MetadataPolicy().selects == App("metadata-service");
    assert CoreDHCPPolicy().selects == App("coredhcp") && MagellanPolicy().selects == App("magellan");
    assert NetworkProbePolicy(probe, api).selects == App("network-probe");
    assert CnpgApiPolicy(ns, api).selects == PostgresEgress(ns).selects == Cnpg(ns + "-postgres");
    assert ApiOpens(reach, api, dst, port) ==> port.protocol.TCP?;
    hide Admits, SMDPolicy, TokensmithPolicy, BootPolicy, MetadataPolicy, PostgresEgress, CnpgApiPolicy, CoreDHCPPolicy,
        MagellanPolicy;
    hide NetworkProbePolicy, ApiOpens, ValidationPorts;
    ServicesOut(ns, reach, dst, port);
    BootOut(ns, reach, dst, port);
    DaemonsOut(ns, reach, dst, port);
    ProbeOut(ns, reach, probe, api, dst, port);
  }

  lemma LetsOutIff(ns: string, reach: Reach, probe: NetworkProbe, api: Api, src: Pod, dst: Pod, port: Port)
    requires api.Valid()
    ensures LetsOut(ns, reach, BuildPolicies(ns, probe, api), src, dst, port) <==>
      src.namespace != ns || OutTable(ns, reach, probe, api, src, dst, port)
  {
    hide BuildPolicies, GeneralPolicies, Restricts, OutTable, GeneralOut, SMDPolicy, TokensmithPolicy, BootPolicy,
        MetadataPolicy;
    hide PostgresEgress, CnpgApiPolicy, CoreDHCPPolicy, MagellanPolicy, NetworkProbePolicy;
    Restricted(ns, probe, api, false, src);
    GeneralParts(ns, reach, src, dst, port);
    ServiceParts(ns, reach, probe, api, src, dst, port);
    AnyOfNine(ns, reach, EgressPolicies(ns, probe, api), src, dst, port);
    hide EgressPolicies;
    forall p ensures p in BuildPolicies(ns, probe, api) <==>
        p in GeneralPolicies(ns) || p in EgressPolicies(ns, probe, api) {
      EgressMembers(ns, probe, api, p);
    }
  }

  // ----- flows -----

  predicate ControlPlaneNamespace(ns: string) { "openchami-" <= ns }

  /** Every flow between two pods of the namespace, whatever their labels and whatever outside addresses cover. */
  predicate Flow(ns: string, reach: Reach, probe: NetworkProbe, api: Api, src: Pod, dst: Pod, port: Port) {
    port.protocol.TCP?
    && ((dst.app == "smd" && port.number == 27779
        && src.app in ["boot-service", "metadata-service", "coredhcp", "magellan"])
        || (dst.app == "boot-service" && port.number == 27778 && src.app == "coredhcp")
        || (dst.app == "tokensmith" && port.number == 8080
            && (src.app in ["smd", "boot-service", "metadata-service"]
                || (src.app == "network-probe" && (8080 in ValidationPorts(probe) || ApiOpens(reach, api, dst, port)))
                || (IsPostgres(ns, src) && ApiOpens(reach, api, dst, port))))
        || (IsPostgres(ns, dst) && port.number == 5432
            && (src.app == "smd" || src.app == "boot-service" || IsPostgres(ns, src))))
  }

  lemma NoForeignNamespace(ns: string)
    requires ControlPlaneNamespace(ns)
    ensures ns != "envoy-gateway-system" && ns != "cnpg-system"
  {
    assert ns[0] == 'o';
    assert "envoy-gateway-system"[0] == 'e' && "cnpg-system"[0] == 'c';
  }

  const SERVICE_PORTS := [27779, 8080, 27778, 5432]

  lemma FlowAt(ns: string, reach: Reach, probe: NetworkProbe, api: Api, src: Pod, dst: Pod, n: int)
    requires src.namespace == dst.namespace == ns && ns != "envoy-gateway-system" && ns != "cnpg-system"
      && n in SERVICE_PORTS
    ensures InTable(ns, src, dst, Tcp(n)) && OutTable(ns, reach, probe, api, src, dst, Tcp(n)) <==>
      Flow(ns, reach, probe, api, src, dst, Tcp(n))
  {
    assert !GeneralOut(reach, src, dst, Tcp(n));
    hide GeneralOut, ApiOpens, ValidationPorts, IsPostgres;
    if n == 27779 {
    } else if n == 27778 {
    } else if n == 5432 {
    } else {
    }
  }

  /** The union of the policies permits exactly these flows inside the namespace, counting both ends. */
  lemma PermittedIff(ns: string, reach: Reach, probe: NetworkProbe, api: Api, src: Pod, dst: Pod, port: Port)
    requires ControlPlaneNamespace(ns) && src.namespace == dst.namespace == ns && api.Valid()
    ensures Permitted(ns, reach, BuildPolicies(ns, probe, api), src, dst, port) <==>
      Flow(ns, reach, probe, api, src, dst, port)
  {
    NoForeignNamespace(ns);
    assert InTable(ns, src, dst, port) || Flow(ns, reach, probe, api, src, dst, port) ==>
      port == Tcp(port.number) && port.number in SERVICE_PORTS;
    hide BuildPolicies, LetsIn, LetsOut, InTable, OutTable, Flow;
    LetsInIff(ns, reach, probe, api, src, dst, port);
    if port == Tcp(port.number) && port.number in SERVICE_PORTS {
      LetsOutIff(ns, reach, probe, api, src, dst, port);
      FlowAt(ns, reach, probe, api, src, dst, port.number);
    }
  }

  /** Databases are reached by SMD, the boot service and their own cluster, and by nothing else in the namespace. */
  lemma DatabaseFlows(ns: string, reach: Reach, probe: NetworkProbe, api: Api, src: Pod, dst: Pod)
    requires ControlPlaneNamespace(ns) && src.namespace == dst.namespace == ns && api.Valid()
    requires IsPostgres(ns, dst)
    ensures Permitted(ns, reach, BuildPolicies(ns, probe, api), src, dst, Tcp(5432)) <==>
      src.app == "smd" || src.app == "boot-service" || IsPostgres(ns, src)
  {
    hide Permitted, BuildPolicies, ApiOpens, ValidationPorts, IsPostgres;
    PermittedIff(ns, reach, probe, api, src, dst, Tcp(5432));
  }

  lemma SMDFlows(ns: string, reach: Reach, probe: NetworkProbe, api: Api, src: Pod, dst: Pod)
    requires ControlPlaneNamespace(ns) && src.namespace == dst.namespace == ns && api.Valid()
    requires dst.app == "smd"
    ensures Permitted(ns, reach, BuildPolicies(ns, probe, api), src, dst, Tcp(27779)) <==>
      src.app in ["boot-service", "metadata-service", "coredhcp", "magellan"]
  {
    hide Permitted, BuildPolicies, ApiOpens, ValidationPorts, IsPostgres;
    PermittedIff(ns, reach, probe, api, src, dst, Tcp(27779));
  }
}
