/**
 Passes of the gateway reconciler (internal/reconcilers/gateway.go) over the live objects of its namespace, with any
 call failing.
 */
module GatewayPass {
  import opened Options
  import opened ControlPlanes
  import opened PublicPaths
  import opened Routing

  /** Objects are addressed by kind and name. */
  datatype Key = GatewayKey | RouteKey(name: string) | PolicyKey(name: string) | RateLimitKey(name: string)
      | BackendTLSKey

  function KeyOf(o: Object): Key {
    match o
    case GatewayListeners(_) => GatewayKey
    case Route(name, _, _, _, _) => RouteKey(name)
    case SecurityPolicy(name, _) => PolicyKey(name)
    case RateLimit(name, _) => RateLimitKey(name)
    case BackendTLSPolicy => BackendTLSKey
  }

  type Live = map<Key, Object>

  function Applied(live: Live, objects: seq<Object>): Live {
    if objects == [] then live
    else
      var last := objects[|objects| - 1];
      Applied(live, objects[..|objects| - 1])[KeyOf(last) := last]
  }

  function Deleted(live: Live, names: seq<string>): Live {
    map k | k in live && !(k.RouteKey? && k.name in names) :: live[k]
  }

  /** Where a walk over `names` meets the first of `fails`. */
  function FirstIn(names: seq<string>, fails: set<string>): (k: nat)
    ensures k <= |names| && (forall j :: 0 <= j < k ==> names[j] !in fails) && (k < |names| ==> names[k] in fails)
  {
    if names == [] || names[0] in fails then 0 else 1 + FirstIn(names[1..], fails)
  }

  // ----- gates -----

  /** Managed tokensmith must be Ready; an external one is the site's own concern. */
  predicate JWKSReady(spec: Spec, tokensmithReady: bool) { !spec.Deploys(Tokensmith) || tokensmithReady }

  predicate JWTGateOpen(spec: Spec, tokensmithReady: bool, btlsAvailable: bool) {
    JWKSReady(spec, tokensmithReady) && !(spec.tokensmithTLS && !btlsAvailable)
  }

  /** The public routes the spec does not ask for. */
  function StalePublicRoutes(spec: Spec): seq<string> {
    If(!spec.Deploys(SMD) || SMDPublicPaths(spec) == [], [SMD_PUBLIC])
    + If(!spec.Deploys(BootService) || BootPublicPaths(spec) == [], [BOOT_PUBLIC])
    + If(BootHTTPPublicPaths(spec) == [], [BOOT_PUBLIC_HTTP])
  }

  /** What the cluster and its API do during a pass; `applyFails` is the first apply that is refused. */
  datatype Api = Api(
    certificatesValid: bool, tokensmithReady: bool, btlsAvailable: bool,
    applyFails: Option<nat>, deleteFails: set<string>, readFails: bool, programmed: bool)

  datatype Result = AwaitingCertificate | Failed | AwaitingTokensmith | MissingCRD | NotProgrammed | Ready

  class Cluster {
    var live: Live

    constructor ()
      ensures live == map[]
    {
      live := map[];
    }

    /** Applies in order and stops at the first refusal. */
    method ApplyInOrder(objects: seq<Object>, applyFails: Option<nat>) returns (ok: bool)
      modifies this
      ensures ok <==> applyFails.None? || applyFails.value >= |objects|
      ensures live == Applied(old(live), if ok then objects else objects[..applyFails.value])
    {
      for i := 0 to |objects|
        invariant applyFails.Some? ==> i <= applyFails.value
        invariant live == Applied(old(live), objects[..i])
      {
        if applyFails == Some(i) {
          return false;
        }
        assert objects[..i + 1][..i] == objects[..i];
        live := live[KeyOf(objects[i]) := objects[i]];
      }
      assert objects[..|objects|] == objects;
      return true;
    }

    /** NotFound is the steady state and not an error. */
    method DeleteStalePublicRoutes(spec: Spec, deleteFails: set<string>) returns (ok: bool)
      modifies this
      ensures ok <==> forall n :: n in StalePublicRoutes(spec) ==> n !in deleteFails
      ensures live == Deleted(old(live), StalePublicRoutes(spec)[..FirstIn(StalePublicRoutes(spec), deleteFails)])
    {
      hide StalePublicRoutes;
      var stale := StalePublicRoutes(spec);
      for i := 0 to |stale|
        invariant forall j :: 0 <= j < i ==> stale[j] !in deleteFails
        invariant live == Deleted(old(live), stale[..i])
      {
        if stale[i] in deleteFails {
          return false;
        }
        assert stale[..i + 1] == stale[..i] + [stale[i]];
        live := live - {RouteKey(stale[i])};
      }
      return true;
    }

    method Reconcile(spec: Spec, api: Api) returns (result: Result)
      modifies this
      ensures result.AwaitingCertificate? <==> !api.certificatesValid
      ensures live == LiveAfter(spec, api, old(live))
      ensures Clean(spec, api) ==>
        (result.AwaitingTokensmith? <==> !JWKSReady(spec, api.tokensmithReady))
        && (result in {Failed, NotProgrammed, Ready} <==> JWTGateOpen(spec, api.tokensmithReady, api.btlsAvailable))
        && (result.Failed? <==> JWTGateOpen(spec, api.tokensmithReady, api.btlsAvailable) && api.readFails)
        && (result.Ready? ==> api.programmed) && (result.NotProgrammed? ==> !api.programmed)
      ensures api.certificatesValid && !Clean(spec, api) ==> result == Failed
    {
      hide Rendered, StalePublicRoutes, Applied;
      if !api.certificatesValid {
        return AwaitingCertificate;
      }
      var gate := JWTGateOpen(spec, api.tokensmithReady, api.btlsAvailable);
      var ok := ApplyInOrder(Rendered(spec, gate, api.btlsAvailable), api.applyFails);
      if !ok {
        return Failed;
      }
      ok := DeleteStalePublicRoutes(spec, api.deleteFails);
      if !ok {
        return Failed;
      }
      if !JWKSReady(spec, api.tokensmithReady) {
        return AwaitingTokensmith;
      }
      if spec.tokensmithTLS && !api.btlsAvailable {
        return MissingCRD;
      }
      if api.readFails {
        return Failed;
      }
      return if api.programmed then Ready else NotProgrammed;
    }
  }

  function PassObjects(spec: Spec, api: Api): seq<Object> {
    Rendered(spec, JWTGateOpen(spec, api.tokensmithReady, api.btlsAvailable), api.btlsAvailable)
  }

  /** Past the certificate gate, every apply and delete goes through. */
  predicate Clean(spec: Spec, api: Api) {
    && api.certificatesValid
    && (api.applyFails.None? || api.applyFails.value >= |PassObjects(spec, api)|)
    && forall n :: n in StalePublicRoutes(spec) ==> n !in api.deleteFails
  }

  /** The live objects after a pass that got through its applies and deletes. */
  function Completed(spec: Spec, api: Api, live: Live): Live {
    Deleted(Applied(live, PassObjects(spec, api)), StalePublicRoutes(spec))
  }

  /** The live objects after any pass. */
  function LiveAfter(spec: Spec, api: Api, live: Live): Live {
    if !api.certificatesValid then live
    else if api.applyFails.Some? && api.applyFails.value < |PassObjects(spec, api)| then
      Applied(live, PassObjects(spec, api)[..api.applyFails.value])
    else
      Deleted(Applied(live, PassObjects(spec, api)),
              StalePublicRoutes(spec)[..FirstIn(StalePublicRoutes(spec), api.deleteFails)])
  }

  /** How many objects a pass gets to apply. */
  function AppliedCount(spec: Spec, api: Api): (n: nat)
    ensures n <= |PassObjects(spec, api)|
  {
    if !api.certificatesValid then 0
    else if api.applyFails.Some? && api.applyFails.value < |PassObjects(spec, api)| then api.applyFails.value
    else |PassObjects(spec, api)|
  }

  /** Only a pass all of whose objects went through deletes anything, and then only public routes. */
  lemma OnlyCompletePassesDelete(spec: Spec, api: Api, live: Live, k: Key)
    requires k in live && k !in LiveAfter(spec, api, live)
    ensures api.certificatesValid && (api.applyFails.None? || api.applyFails.value >= |PassObjects(spec, api)|)
    ensures k in [RouteKey("smd-public"), RouteKey("boot-service-public"), RouteKey("boot-service-public-http")]
  {
    hide PassObjects, Applied, Spec.Deploys, SMDPublicPaths, BootPublicPaths, BootHTTPPublicPaths;
    var n := if api.applyFails.Some? then api.applyFails.value else 0;
    if n < |PassObjects(spec, api)| {
      AppliedKeeps(live, PassObjects(spec, api)[..n], k);
    }
    AppliedKeeps(live, PassObjects(spec, api), k);
  }

  /** Stale routes are deleted SMD's first and the plain-text boot script's last, and a failing delete stops that. */
  lemma FailedDeleteStops(spec: Spec, api: Api, live: Live, i: nat, j: nat)
    requires i <= j < 3
    requires var names := ["smd-public", "boot-service-public", "boot-service-public-http"];
             names[i] in StalePublicRoutes(spec) && names[i] in api.deleteFails && RouteKey(names[j]) in live
    ensures var names := ["smd-public", "boot-service-public", "boot-service-public-http"];
            RouteKey(names[j]) in LiveAfter(spec, api, live)
  {
    var names := ["smd-public", "boot-service-public", "boot-service-public-http"];
    var stale := StalePublicRoutes(spec);
    hide PassObjects, Applied, Spec.Deploys, SMDPublicPaths, BootPublicPaths, BootHTTPPublicPaths;
    var n := FirstIn(stale, api.deleteFails);
    assert names[j] !in stale[..n];
    AppliedKeeps(live, PassObjects(spec, api), RouteKey(names[j]));
    if api.applyFails.Some? && api.applyFails.value < |PassObjects(spec, api)| {
      AppliedKeeps(live, PassObjects(spec, api)[..api.applyFails.value], RouteKey(names[j]));
    }
  }

  /** Every pass applies a prefix of its objects and then deletes a prefix of the stale routes. */
  lemma PassShape(spec: Spec, api: Api, live: Live) returns (j: nat)
    ensures j <= |StalePublicRoutes(spec)|
    ensures LiveAfter(spec, api, live)
         == Deleted(Applied(live, PassObjects(spec, api)[..AppliedCount(spec, api)]), StalePublicRoutes(spec)[..j])
  {
    hide PassObjects, StalePublicRoutes, Applied;
    var objects := PassObjects(spec, api);
    var applied := Applied(live, objects[..AppliedCount(spec, api)]);
    if AppliedCount(spec, api) == |objects| && api.certificatesValid {
      assert objects[..|objects|] == objects;
      j := FirstIn(StalePublicRoutes(spec), api.deleteFails);
    } else {
      j := 0;
      NothingApplied(live, objects);
      assert Deleted(applied, StalePublicRoutes(spec)[..0]) == applied;
    }
  }

  lemma NothingApplied(live: Live, objects: seq<Object>)
    ensures Applied(live, objects[..0]) == live
  {
  }

  lemma CleanPassCompletes(spec: Spec, api: Api, live: Live)
    requires Clean(spec, api)
    ensures LiveAfter(spec, api, live) == Completed(spec, api, live)
  {
    hide PassObjects, StalePublicRoutes, Applied;
    var stale := StalePublicRoutes(spec);
    assert stale[..|stale|] == stale;
  }

  // ----- what a completed pass leaves -----

  ghost predicate KeysUnique(objects: seq<Object>) {
    forall o, o' :: o in objects && o' in objects && KeyOf(o) == KeyOf(o') ==> o == o'
  }

  lemma {:induction false} AppliedLookup(live: Live, objects: seq<Object>, k: Key)
    requires KeysUnique(objects)
    ensures forall o :: o in objects && KeyOf(o) == k ==> k in Applied(live, objects) && Applied(live, objects)[k] == o
    ensures (forall o :: o in objects ==> KeyOf(o) != k) ==>
      (k in Applied(live, objects) <==> k in live) && (k in live ==> Applied(live, objects)[k] == live[k])
  {
    if objects != [] {
      var init, last := objects[..|objects| - 1], objects[|objects| - 1];
      assert forall o :: o in objects <==> o in init || o == last;
      AppliedLookup(live, init, k);
    }
  }

  /** The object a spec renders under a key, when it renders one. */
  function ObjectFor(spec: Spec, k: Key): (o: Object)
  {
    match k
    case GatewayKey => GatewayListeners(spec.domain)
    case BackendTLSKey => BackendTLSPolicy
    case RateLimitKey(_) => RateLimit("smd-ratelimit", "smd")
    case PolicyKey(n) =>
      if n == "jwt-smd" then SecurityPolicy(n, "smd")
      else if n == "jwt-boot" then SecurityPolicy(n, "boot-service")
      else if n == "jwt-boot-admin" then SecurityPolicy(n, "boot-admin")
      else SecurityPolicy("jwt-metadata-admin", "metadata-admin")
    case RouteKey(n) =>
      if n == "http-redirect" then Redirect(spec.domain)
      else if n == "tokensmith" then TokensmithRoute(spec.domain)
      else if n == "metadata-public" then MetadataRoute(spec.domain)
      else if n == SMD_PUBLIC then SMDPublic(spec)
      else if n == BOOT_PUBLIC then BootPublic(spec)
      else if n == BOOT_PUBLIC_HTTP then BootPublicHTTP(spec)
      else if n == "smd" then SMDRoute(spec.domain)
      else if n == "boot-service" then BootRoute(spec.domain)
      else if n == "boot-admin" then BootAdminRoute(spec.domain)
      else MetadataAdminRoute(spec.domain)
  }

  lemma RenderedByKey(spec: Spec, gated: bool, btls: bool, o: Object)
    requires o in Rendered(spec, gated, btls)
    ensures o == ObjectFor(spec, KeyOf(o))
  {
    hide Rendered, ObjectsAlways, ObjectsRequiringTokensmith, Spec.Deploys, PublicMatches;
    hide WantsSMDPublic, WantsBootPublic, WantsBootPublicHTTP, SMDPublicPaths, BootPublicPaths, BootHTTPPublicPaths;
    RenderedMembers(spec, gated, btls, o);
    AlwaysMembers(spec, o);
    RequiredMembers(spec, btls, o);
  }

  lemma RenderedKeysUnique(spec: Spec, gated: bool, btls: bool)
    ensures KeysUnique(Rendered(spec, gated, btls))
  {
    hide Rendered, ObjectFor, KeyOf;
    forall o | o in Rendered(spec, gated, btls) ensures o == ObjectFor(spec, KeyOf(o)) {
      RenderedByKey(spec, gated, btls, o);
    }
  }

  predicate WantsPublic(spec: Spec, name: string) {
    (name == SMD_PUBLIC && WantsSMDPublic(spec)) || (name == BOOT_PUBLIC && WantsBootPublic(spec))
    || (name == BOOT_PUBLIC_HTTP && WantsBootPublicHTTP(spec))
  }

  const PUBLIC_ROUTES := [SMD_PUBLIC, BOOT_PUBLIC, BOOT_PUBLIC_HTTP]

  lemma NamesApart(host: string)
    ensures Redirect(host).name !in PUBLIC_ROUTES && TokensmithRoute(host).name !in PUBLIC_ROUTES
    ensures MetadataRoute(host).name !in PUBLIC_ROUTES && MetadataAdminRoute(host).name !in PUBLIC_ROUTES
    ensures SMDRoute(host).name !in PUBLIC_ROUTES && BootRoute(host).name !in PUBLIC_ROUTES
    ensures BootAdminRoute(host).name !in PUBLIC_ROUTES
  {
  }

  lemma PublicObjects(spec: Spec, name: string)
    requires name in PUBLIC_ROUTES
    ensures var o := ObjectFor(spec, RouteKey(name));
            && o.Route? && o.name == name
            && (o == SMDPublic(spec) <==> name == SMD_PUBLIC) && (o == BootPublic(spec) <==> name == BOOT_PUBLIC)
            && (o == BootPublicHTTP(spec) <==> name == BOOT_PUBLIC_HTTP)
  {
    hide PublicMatches;
  }

  lemma PublicRendered(spec: Spec, gated: bool, btls: bool, name: string)
    requires name in PUBLIC_ROUTES
    ensures KeyOf(ObjectFor(spec, RouteKey(name))) == RouteKey(name)
    ensures ObjectFor(spec, RouteKey(name)) in Rendered(spec, gated, btls) <==> WantsPublic(spec, name)
  {
    var o := ObjectFor(spec, RouteKey(name));
    PublicObjects(spec, name);
    NamesApart(spec.domain);
    hide Rendered, ObjectFor, PUBLIC_ROUTES, SMDPublic, BootPublic, BootPublicHTTP, Spec.Deploys, Redirect, PrefixRoute;
    hide TokensmithRoute, SMDRoute, BootRoute, BootAdminRoute, MetadataRoute, MetadataAdminRoute;
    hide WantsSMDPublic, WantsBootPublic, WantsBootPublicHTTP;
    RenderedRoutes(spec, gated, btls, o);
  }

  lemma PublicStale(spec: Spec, name: string)
    requires name in PUBLIC_ROUTES
    ensures WantsPublic(spec, name) <==> name !in StalePublicRoutes(spec)
  {
    hide SMDPublicPaths, BootPublicPaths, BootHTTPPublicPaths, Spec.Deploys;
  }

  /** Each public route is either rendered or stale, never both and never neither. */
  lemma RenderedOrStale(spec: Spec, gated: bool, btls: bool, name: string)
    requires name in PUBLIC_ROUTES
    ensures WantsPublic(spec, name) <==> exists o :: o in Rendered(spec, gated, btls) && KeyOf(o) == RouteKey(name)
    ensures WantsPublic(spec, name) <==> name !in StalePublicRoutes(spec)
  {
    hide Rendered, ObjectFor, KeyOf, WantsPublic, StalePublicRoutes, PUBLIC_ROUTES;
    PublicRendered(spec, gated, btls, name);
    PublicStale(spec, name);
    forall o | o in Rendered(spec, gated, btls) && KeyOf(o) == RouteKey(name)
      ensures ObjectFor(spec, RouteKey(name)) in Rendered(spec, gated, btls)
    {
      RenderedByKey(spec, gated, btls, o);
    }
  }

  /**
   Convergence: from any live state, with whatever earlier passes left behind, a pass that gets through its applies and
   deletes leaves exactly the public routes the spec asks for, with the spec's content.
   */
  lemma PublicRoutesConverge(spec: Spec, api: Api, live: Live, name: string)
    requires name in PUBLIC_ROUTES
    ensures var after := Completed(spec, api, live); var k := RouteKey(name);
            && (k in after <==> WantsPublic(spec, name))
            && (k in after ==> after[k] == ObjectFor(spec, k))
  {
    var gate := JWTGateOpen(spec, api.tokensmithReady, api.btlsAvailable);
    var objects := PassObjects(spec, api);
    RenderedKeysUnique(spec, gate, api.btlsAvailable);
    AppliedLookup(live, objects, RouteKey(name));
    RenderedOrStale(spec, gate, api.btlsAvailable, name);
    hide Rendered, ObjectFor, WantsPublic, StalePublicRoutes, Applied;
    forall o | o in objects ensures o == ObjectFor(spec, KeyOf(o)) {
      RenderedByKey(spec, gate, api.btlsAvailable, o);
    }
  }

  // ----- the JWT gate, over runs -----

  /** Objects that must not appear before tokensmith can serve its keys. */
  predicate Gated(k: Key) {
    k.PolicyKey? || k.RateLimitKey? || k.BackendTLSKey? || (k.RouteKey? && k.name in PROTECTED_ROUTES)
  }

  function PolicyOf(route: string): Key {
    PolicyKey(if route == "smd" then "jwt-smd" else if route == "boot-service" then "jwt-boot"
              else if route == "boot-admin" then "jwt-boot-admin" else "jwt-metadata-admin")
  }

  predicate Same(a: Live, b: Live, k: Key) { (k in a <==> k in b) && (k in a && k in b ==> a[k] == b[k]) }

  lemma PrefixLookup(spec: Spec, api: Api, live: Live, n: nat, k: Key)
    requires n <= |PassObjects(spec, api)|
    ensures var objects := PassObjects(spec, api)[..n];
            && (ObjectFor(spec, k) in objects && KeyOf(ObjectFor(spec, k)) == k ==>
                  k in Applied(live, objects) && Applied(live, objects)[k] == ObjectFor(spec, k))
            && (ObjectFor(spec, k) !in objects ==> Same(live, Applied(live, objects), k))
  {
    var gate := JWTGateOpen(spec, api.tokensmithReady, api.btlsAvailable);
    var objects := PassObjects(spec, api)[..n];
    hide Rendered, ObjectFor, Applied;
    RenderedKeysUnique(spec, gate, api.btlsAvailable);
    assert forall o :: o in objects ==> o in PassObjects(spec, api);
    AppliedLookup(live, objects, k);
    forall o | o in objects ensures o == ObjectFor(spec, KeyOf(o)) {
      RenderedByKey(spec, gate, api.btlsAvailable, o);
    }
  }

  lemma StaleArePublic(spec: Spec, k: Key)
    requires Gated(k)
    ensures !(k.RouteKey? && k.name in StalePublicRoutes(spec))
  {
    hide Spec.Deploys, SMDPublicPaths, BootPublicPaths, BootHTTPPublicPaths;
  }

  lemma ClosedGateHoldsBack(spec: Spec, btls: bool, k: Key)
    requires Gated(k)
    ensures ObjectFor(spec, k) !in Rendered(spec, false, btls)
  {
    var o := ObjectFor(spec, k);
    RenderedMembers(spec, false, btls, o);
    AlwaysMembers(spec, o);
    hide Rendered, ObjectsAlways, ObjectsRequiringTokensmith, Spec.Deploys, PublicMatches;
    hide WantsSMDPublic, WantsBootPublic, WantsBootPublicHTTP, SMDPublicPaths, BootPublicPaths, BootHTTPPublicPaths;
  }

  /** Managed tokensmith is not Ready, or its certificate cannot be trusted for want of the BackendTLSPolicy kind. */
  predicate Unready(spec: Spec, api: Api) {
    (spec.Deploys(Tokensmith) && !api.tokensmithReady) || (spec.tokensmithTLS && !api.btlsAvailable)
  }

  /** While the gate is closed a pass leaves every gated object as it was, wherever the pass stops. */
  lemma ClosedGateStep(spec: Spec, api: Api, live: Live, key: Key)
    requires Gated(key) && Unready(spec, api)
    ensures Same(live, LiveAfter(spec, api, live), key)
  {
    ClosedGateHoldsBack(spec, api.btlsAvailable, key);
    hide Rendered, ObjectFor, StalePublicRoutes, Applied, Gated, LiveAfter, AppliedCount;
    var j := PassShape(spec, api, live);
    PrefixLookup(spec, api, live, AppliedCount(spec, api), key);
    StaleArePublic(spec, key);
  }

  /** A run: any number of passes, each with its own spec and its own faults. */
  ghost predicate Run(states: seq<Live>, passes: seq<(Spec, Api)>) {
    |states| == |passes| + 1
    && forall i :: 0 <= i < |passes| ==> states[i + 1] == LiveAfter(passes[i].0, passes[i].1, states[i])
  }

  /** No JWT route, policy or rate limit comes or goes in a run through which tokensmith stays unready. */
  lemma {:induction false} ClosedGateRun(states: seq<Live>, passes: seq<(Spec, Api)>, n: nat, key: Key)
    requires Run(states, passes) && Gated(key) && n < |states|
    requires forall i :: 0 <= i < |passes| ==> Unready(passes[i].0, passes[i].1)
    ensures Same(states[0], states[n], key)
  {
    hide LiveAfter, Gated, Unready;
    if n > 0 {
      ClosedGateRun(states, passes, n - 1, key);
      ClosedGateStep(passes[n - 1].0, passes[n - 1].1, states[n - 1], key);
    }
  }

  // ----- routes and their policies -----

  predicate Paired(live: Live, route: string) { RouteKey(route) in live ==> PolicyOf(route) in live }

  lemma GatedStaysLive(spec: Spec, api: Api, live: Live, key: Key)
    requires Gated(key) && key in live
    ensures key in LiveAfter(spec, api, live)
  {
    hide PassObjects, ObjectFor, StalePublicRoutes, Applied, Gated, LiveAfter, AppliedCount;
    var j := PassShape(spec, api, live);
    StaleArePublic(spec, key);
    AppliedKeeps(live, PassObjects(spec, api)[..AppliedCount(spec, api)], key);
  }

  lemma {:induction false} AppliedKeeps(live: Live, objects: seq<Object>, key: Key)
    requires key in live
    ensures key in Applied(live, objects)
  {
    if objects != [] {
      AppliedKeeps(live, objects[..|objects| - 1], key);
    }
  }

  lemma LiveAfterPrefix(spec: Spec, api: Api, live: Live, n: nat, key: Key)
    requires n <= |PassObjects(spec, api)| && KeyOf(ObjectFor(spec, key)) == key
    ensures var applied := PassObjects(spec, api)[..n];
            key in Applied(live, applied) <==> key in live || ObjectFor(spec, key) in applied
  {
    hide PassObjects, ObjectFor, Applied, KeyOf;
    PrefixLookup(spec, api, live, n, key);
    if key in live {
      AppliedKeeps(live, PassObjects(spec, api)[..n], key);
    }
  }

  lemma NotPublic(spec: Spec, route: string)
    requires route in PROTECTED_ROUTES
    ensures route !in ["http-redirect", "tokensmith", "metadata-public", SMD_PUBLIC, BOOT_PUBLIC, BOOT_PUBLIC_HTTP]
    ensures var o := ObjectFor(spec, RouteKey(route));
            && o.Route? && o.name == route
            && o in [SMDRoute(spec.domain), BootRoute(spec.domain), BootAdminRoute(spec.domain),
                     MetadataAdminRoute(spec.domain)]
  {
    hide SMDPublic, BootPublic, BootPublicHTTP;
  }

  lemma JWTObjects(spec: Spec, route: string)
    requires route in PROTECTED_ROUTES
    ensures var o := ObjectFor(spec, RouteKey(route));
            && o.Route? && o.name == route
            && (o == SMDRoute(spec.domain) <==> route == "smd")
            && (o == BootRoute(spec.domain) <==> route == "boot-service")
            && (o == BootAdminRoute(spec.domain) <==> route == "boot-admin")
            && (o == MetadataAdminRoute(spec.domain) <==> route == "metadata-admin")
  {
    NotPublic(spec, route);
  }

  lemma OpenNamesApart(spec: Spec)
    ensures Redirect(spec.domain).name !in PROTECTED_ROUTES && TokensmithRoute(spec.domain).name !in PROTECTED_ROUTES
    ensures MetadataRoute(spec.domain).name !in PROTECTED_ROUTES
    ensures SMDPublic(spec).name !in PROTECTED_ROUTES && BootPublic(spec).name !in PROTECTED_ROUTES
    ensures BootPublicHTTP(spec).name !in PROTECTED_ROUTES
  {
    hide PublicMatches;
  }

  lemma RouteRendered(spec: Spec, gated: bool, btls: bool, route: string)
    requires route in PROTECTED_ROUTES
    ensures ObjectFor(spec, RouteKey(route)) in Rendered(spec, gated, btls) <==> gated && Protected(spec, route)
  {
    var o := ObjectFor(spec, RouteKey(route));
    JWTObjects(spec, route);
    OpenNamesApart(spec);
    hide Rendered, ObjectFor, PROTECTED_ROUTES, SMDPublic, BootPublic, BootPublicHTTP, Spec.Deploys, Redirect;
    hide PrefixRoute, TokensmithRoute, SMDRoute, BootRoute, BootAdminRoute, MetadataRoute, MetadataAdminRoute;
    hide WantsSMDPublic, WantsBootPublic, WantsBootPublicHTTP;
    RenderedRoutes(spec, gated, btls, o);
  }

  lemma PolicyRendered(spec: Spec, gated: bool, btls: bool, route: string)
    requires route in PROTECTED_ROUTES
    ensures ObjectFor(spec, PolicyOf(route)) in Rendered(spec, gated, btls) <==> gated && Protected(spec, route)
  {
    var p := ObjectFor(spec, PolicyOf(route));
    assert p == SecurityPolicy(PolicyOf(route).name, route);
    hide Rendered, ObjectFor, Spec.Deploys;
    RenderedPolicies(spec, gated, btls, p.name, p.target);
  }

  /**
   A pass sets out to apply a JWT route, and its policy, exactly when the service is deployed and tokensmith is ready.
   */
  lemma JWTRoutesIff(spec: Spec, api: Api, route: string)
    requires route in PROTECTED_ROUTES
    ensures ObjectFor(spec, RouteKey(route)) in PassObjects(spec, api) <==>
      Protected(spec, route) && !Unready(spec, api)
    ensures ObjectFor(spec, PolicyOf(route)) in PassObjects(spec, api) <==>
      Protected(spec, route) && !Unready(spec, api)
  {
    var gate := JWTGateOpen(spec, api.tokensmithReady, api.btlsAvailable);
    assert gate <==> !Unready(spec, api);
    assert PassObjects(spec, api) == Rendered(spec, gate, api.btlsAvailable);
    hide PassObjects, Rendered, ObjectFor, PolicyOf, Protected, JWTGateOpen, PROTECTED_ROUTES;
    RouteRendered(spec, gate, api.btlsAvailable, route);
    PolicyRendered(spec, gate, api.btlsAvailable, route);
  }

  lemma CompletedLookup(spec: Spec, api: Api, live: Live, key: Key)
    requires Gated(key) && KeyOf(ObjectFor(spec, key)) == key
    ensures ObjectFor(spec, key) in PassObjects(spec, api) ==> key in Completed(spec, api, live)
    ensures ObjectFor(spec, key) !in PassObjects(spec, api) ==> Same(live, Completed(spec, api, live), key)
  {
    hide PassObjects, ObjectFor, Applied, StalePublicRoutes, Gated, KeyOf;
    var objects := PassObjects(spec, api);
    assert objects[..|objects|] == objects;
    StaleArePublic(spec, key);
    PrefixLookup(spec, api, live, |objects|, key);
  }

  lemma PolicyKeys(spec: Spec, route: string)
    requires route in PROTECTED_ROUTES
    ensures Gated(RouteKey(route)) && Gated(PolicyOf(route))
    ensures KeyOf(ObjectFor(spec, PolicyOf(route))) == PolicyOf(route)
    ensures KeyOf(ObjectFor(spec, RouteKey(route))) == RouteKey(route)
  {
    NotPublic(spec, route);
    hide SMDPublic, BootPublic, BootPublicHTTP;
  }

  /** A completed pass pairs what it renders, whatever an interrupted pass left behind. */
  lemma CompletedPairs(spec: Spec, api: Api, live: Live, route: string)
    requires route in PROTECTED_ROUTES
    requires Paired(live, route) || ObjectFor(spec, RouteKey(route)) in PassObjects(spec, api)
    ensures Paired(Completed(spec, api, live), route)
  {
    var gate := JWTGateOpen(spec, api.tokensmithReady, api.btlsAvailable);
    assert PassObjects(spec, api) == Rendered(spec, gate, api.btlsAvailable);
    hide PassObjects, Rendered, ObjectFor, Completed, Gated, KeyOf, PolicyOf, Protected, JWTGateOpen, PROTECTED_ROUTES;
    PolicyKeys(spec, route);
    RouteRendered(spec, gate, api.btlsAvailable, route);
    PolicyRendered(spec, gate, api.btlsAvailable, route);
    CompletedLookup(spec, api, live, RouteKey(route));
    CompletedLookup(spec, api, live, PolicyOf(route));
  }

  lemma {:induction false} GatedLasts(states: seq<Live>, passes: seq<(Spec, Api)>, i: nat, n: nat, key: Key)
    requires Run(states, passes) && i <= n < |states| && Gated(key) && key in states[i]
    ensures key in states[n]
    decreases n
  {
    hide LiveAfter, Gated;
    if i < n {
      GatedLasts(states, passes, i, n - 1, key);
      GatedStaysLive(passes[n - 1].0, passes[n - 1].1, states[n - 1], key);
    }
  }

  /** Once live, a policy is never lost again, so pairing lasts through every later pass, however it ends. */
  lemma PairingLasts(states: seq<Live>, passes: seq<(Spec, Api)>, i: nat, n: nat, route: string)
    requires Run(states, passes) && i <= n < |states| && PolicyOf(route) in states[i]
    ensures Paired(states[n], route)
  {
    assert Gated(PolicyOf(route));
    hide Run, PolicyOf, Gated;
    GatedLasts(states, passes, i, n, PolicyOf(route));
  }

  // ----- the two halves of the object list -----

  /** What is applied at once holds nothing gated, and what waits for tokensmith holds nothing else. */
  lemma HalvesApart(spec: Spec, btls: bool, o: Object)
    ensures o in ObjectsAlways(spec) ==> !Gated(KeyOf(o))
    ensures o in ObjectsRequiringTokensmith(spec, btls) ==> Gated(KeyOf(o))
  {
    hide ObjectsAlways, ObjectsRequiringTokensmith, Spec.Deploys, PublicMatches;
    hide WantsSMDPublic, WantsBootPublic, WantsBootPublicHTTP, SMDPublicPaths, BootPublicPaths, BootHTTPPublicPaths;
    AlwaysMembers(spec, o);
    RequiredMembers(spec, btls, o);
  }

  /** Every gated route waits together with a policy of its own, and no policy guards an ungated route. */
  lemma GatedTogether(spec: Spec, btls: bool, o: Object, r: Object)
    requires o in ObjectsRequiringTokensmith(spec, btls)
    ensures o.Route? ==> Secured(Elements(ObjectsRequiringTokensmith(spec, btls)), o.name)
    ensures o.SecurityPolicy? && r in ObjectsAlways(spec) && r.Route? ==> o.target != r.name
  {
    hide ObjectsAlways, ObjectsRequiringTokensmith, Secured;
    if o.Route? {
      OwnPolicy(spec, btls, o);
    }
    if o.SecurityPolicy? && r in ObjectsAlways(spec) && r.Route? {
      PolicyTargets(spec, btls, o);
      HalvesApart(spec, btls, r);
    }
  }

  /** The gateway learns to trust tokensmith's certificate before any route that relies on it. */
  lemma TrustComesFirst(spec: Spec, btls: bool)
    requires BackendTLSPolicy in ObjectsRequiringTokensmith(spec, btls)
    ensures ObjectsRequiringTokensmith(spec, btls)[0] == BackendTLSPolicy
  {
    RequiredMembers(spec, btls, BackendTLSPolicy);
    hide Spec.Deploys;
  }

  lemma OwnPolicy(spec: Spec, btls: bool, o: Object)
    requires o in ObjectsRequiringTokensmith(spec, btls) && o.Route?
    ensures Secured(Elements(ObjectsRequiringTokensmith(spec, btls)), o.name)
  {
    hide ObjectsRequiringTokensmith, Spec.Deploys;
    RequiredMembers(spec, btls, o);
    var p := SecurityPolicy(PolicyOf(o.name).name, o.name);
    RequiredMembers(spec, btls, p);
    assert p in Elements(ObjectsRequiringTokensmith(spec, btls));
  }

  lemma PolicyTargets(spec: Spec, btls: bool, o: Object)
    requires o in ObjectsRequiringTokensmith(spec, btls) && o.SecurityPolicy?
    ensures o.target in PROTECTED_ROUTES
  {
    hide ObjectsRequiringTokensmith, Spec.Deploys;
    RequiredMembers(spec, btls, o);
  }

  // ----- exactly when a route is left without its policy -----

  function Count(condition: bool, n: nat): nat { if condition then n else 0 }

  /** Where the objects of a JWT route's service begin among the gated objects of a pass. */
  function BlockStart(spec: Spec, btls: bool, route: string): nat {
    Count(spec.Deploys(Tokensmith) && spec.tokensmithTLS && btls, 1)
    + if route == "smd" then 0
      else Count(spec.Deploys(SMD), 3) + if route == "metadata-admin" then Count(spec.Deploys(BootService), 4) else 0
  }

  function InBlock(route: string): nat { if route == "boot-admin" then 1 else 0 }

  /** Its policy follows at once, or behind the second boot route. */
  function PolicyDistance(route: string): nat { if route in ["boot-service", "boot-admin"] then 2 else 1 }

  function RouteOffset(spec: Spec, btls: bool, route: string): nat { BlockStart(spec, btls, route) + InBlock(route) }

  function RoutePosition(spec: Spec, btls: bool, route: string): nat {
    |ObjectsAlways(spec)| + RouteOffset(spec, btls, route)
  }

  function PolicyPosition(spec: Spec, btls: bool, route: string): nat {
    RoutePosition(spec, btls, route) + PolicyDistance(route)
  }

  /** `o` is at `k` and nowhere before. */
  predicate FirstAt(objects: seq<Object>, k: nat, o: Object) { k < |objects| && objects[k] == o && o !in objects[..k] }

  lemma InPrefix(objects: seq<Object>, k: nat, o: Object, n: nat)
    requires FirstAt(objects, k, o) && n <= |objects|
    ensures o in objects[..n] <==> k < n
  {
    if k < n {
      assert objects[..n][k] == o;
    } else {
      assert objects[..n] == objects[..k][..n];
    }
  }

  lemma FirstInBlock(before: seq<Object>, block: seq<Object>, after: seq<Object>, k: nat, o: Object)
    requires FirstAt(block, k, o) && o !in before
    ensures FirstAt(before + block + after, |before| + k, o)
  {
    assert (before + block + after)[..|before| + k] == before + block[..k];
  }

  function SMDObjects(host: string): seq<Object> {
    [SMDRoute(host), SecurityPolicy("jwt-smd", "smd"), RateLimit("smd-ratelimit", "smd")]
  }

  function BootObjects(host: string): seq<Object> {
    [BootRoute(host), BootAdminRoute(host), SecurityPolicy("jwt-boot", "boot-service"),
     SecurityPolicy("jwt-boot-admin", "boot-admin")]
  }

  function MetadataObjects(host: string): seq<Object> {
    [MetadataAdminRoute(host), SecurityPolicy("jwt-metadata-admin", "metadata-admin")]
  }

  function TrustObjects(spec: Spec, btls: bool): seq<Object> {
    If(spec.Deploys(Tokensmith) && spec.tokensmithTLS && btls, [BackendTLSPolicy])
  }

  /** The gated objects come in blocks, one per deployed service. */
  lemma Blocks(spec: Spec, btls: bool)
    ensures ObjectsRequiringTokensmith(spec, btls)
         == TrustObjects(spec, btls) + If(spec.Deploys(SMD), SMDObjects(spec.domain))
            + If(spec.Deploys(BootService), BootObjects(spec.domain))
            + If(spec.Deploys(MetadataService), MetadataObjects(spec.domain))
  {
  }

  lemma BlocksApart(spec: Spec, o: Object)
    ensures o in SMDObjects(spec.domain) ==>
      o !in BootObjects(spec.domain) && o !in MetadataObjects(spec.domain) && o != BackendTLSPolicy
    ensures o in BootObjects(spec.domain) ==> o !in MetadataObjects(spec.domain) && o != BackendTLSPolicy
    ensures o in MetadataObjects(spec.domain) ==> o != BackendTLSPolicy
  {
  }

  lemma SMDFirst(spec: Spec, btls: bool, k: nat, o: Object)
    requires spec.Deploys(SMD) && FirstAt(SMDObjects(spec.domain), k, o)
    ensures FirstAt(ObjectsRequiringTokensmith(spec, btls), |TrustObjects(spec, btls)| + k, o)
  {
    Blocks(spec, btls);
    BlocksApart(spec, o);
    hide ObjectsRequiringTokensmith, Spec.Deploys;
    var t := TrustObjects(spec, btls);
    var rest := If(spec.Deploys(BootService), BootObjects(spec.domain))
        + If(spec.Deploys(MetadataService), MetadataObjects(spec.domain));
    FirstInBlock(t, SMDObjects(spec.domain), rest, k, o);
    hide FirstAt;
    assert ObjectsRequiringTokensmith(spec, btls) == t + SMDObjects(spec.domain) + rest;
  }

  lemma BootFirst(spec: Spec, btls: bool, k: nat, o: Object)
    requires spec.Deploys(BootService) && FirstAt(BootObjects(spec.domain), k, o)
    ensures FirstAt(ObjectsRequiringTokensmith(spec, btls),
      |TrustObjects(spec, btls)| + Count(spec.Deploys(SMD), 3) + k, o)
  {
    Blocks(spec, btls);
    BlocksApart(spec, o);
    hide ObjectsRequiringTokensmith, Spec.Deploys;
    var before := TrustObjects(spec, btls) + If(spec.Deploys(SMD), SMDObjects(spec.domain));
    InIf(spec.Deploys(SMD), SMDObjects(spec.domain), o);
    var rest := If(spec.Deploys(MetadataService), MetadataObjects(spec.domain));
    FirstInBlock(before, BootObjects(spec.domain), rest, k, o);
    hide FirstAt;
    assert If(spec.Deploys(BootService), BootObjects(spec.domain)) == BootObjects(spec.domain);
  }

  lemma MetadataFirst(spec: Spec, btls: bool, k: nat, o: Object)
    requires spec.Deploys(MetadataService) && FirstAt(MetadataObjects(spec.domain), k, o)
    ensures var before := |TrustObjects(spec, btls)| + Count(spec.Deploys(SMD), 3)
      + Count(spec.Deploys(BootService), 4);
            FirstAt(ObjectsRequiringTokensmith(spec, btls), before + k, o)
  {
    Blocks(spec, btls);
    BlocksApart(spec, o);
    hide ObjectsRequiringTokensmith, Spec.Deploys;
    var before := TrustObjects(spec, btls) + If(spec.Deploys(SMD), SMDObjects(spec.domain))
        + If(spec.Deploys(BootService), BootObjects(spec.domain));
    InIf(spec.Deploys(SMD), SMDObjects(spec.domain), o);
    InIf(spec.Deploys(BootService), BootObjects(spec.domain), o);
    FirstInBlock(before, MetadataObjects(spec.domain), [], k, o);
    hide FirstAt;
    assert before + MetadataObjects(spec.domain) + [] == before + MetadataObjects(spec.domain);
  }

  function Block(host: string, route: string): seq<Object> {
    if route == "smd" then SMDObjects(host)
    else if route == "metadata-admin" then MetadataObjects(host) else BootObjects(host)
  }

  lemma PositionsInBlocks(spec: Spec, route: string)
    requires route in PROTECTED_ROUTES
    ensures FirstAt(Block(spec.domain, route), InBlock(route), ObjectFor(spec, RouteKey(route)))
    ensures FirstAt(Block(spec.domain, route), InBlock(route) + PolicyDistance(route), ObjectFor(spec, PolicyOf(route)))
  {
    NotPublic(spec, route);
    hide SMDPublic, BootPublic, BootPublicHTTP;
  }

  lemma WhichBlock(spec: Spec, route: string)
    requires route in PROTECTED_ROUTES && Protected(spec, route)
    ensures if route == "smd" then spec.Deploys(SMD)
            else if route == "metadata-admin" then spec.Deploys(MetadataService) else spec.Deploys(BootService)
  {
    hide Spec.Deploys;
  }

  lemma BlockStartOf(spec: Spec, btls: bool, route: string)
    ensures BlockStart(spec, btls, route) == |TrustObjects(spec, btls)| +
      if route == "smd" then 0
      else if route == "metadata-admin" then Count(spec.Deploys(SMD), 3) + Count(spec.Deploys(BootService), 4)
      else Count(spec.Deploys(SMD), 3)
  {
    hide Spec.Deploys;
  }

  /** The offsets of a block, given the place of an object in it. */
  lemma BlockOffsets(spec: Spec, btls: bool, route: string, k: nat, o: Object)
    requires route in PROTECTED_ROUTES && Protected(spec, route) && FirstAt(Block(spec.domain, route), k, o)
    ensures FirstAt(ObjectsRequiringTokensmith(spec, btls), BlockStart(spec, btls, route) + k, o)
  {
    WhichBlock(spec, route);
    hide ObjectsRequiringTokensmith, FirstAt, Spec.Deploys, TrustObjects, SMDObjects, BootObjects, MetadataObjects;
    hide Protected, PROTECTED_ROUTES, Count, BlockStart;
    BlockStartOf(spec, btls, route);
    if route == "smd" {
      SMDFirst(spec, btls, k, o);
    } else if route == "metadata-admin" {
      MetadataFirst(spec, btls, k, o);
    } else {
      BootFirst(spec, btls, k, o);
    }
  }

  lemma GatedPositions(spec: Spec, btls: bool, route: string)
    requires route in PROTECTED_ROUTES && Protected(spec, route)
    ensures FirstAt(ObjectsRequiringTokensmith(spec, btls), RouteOffset(spec, btls, route),
      ObjectFor(spec, RouteKey(route)))
    ensures FirstAt(ObjectsRequiringTokensmith(spec, btls), RouteOffset(spec, btls, route) + PolicyDistance(route),
                    ObjectFor(spec, PolicyOf(route)))
  {
    hide ObjectFor, PolicyOf, ObjectsRequiringTokensmith, FirstAt, BlockStart, InBlock, PolicyDistance, Block;
    hide Protected;
    hide PROTECTED_ROUTES;
    PositionsInBlocks(spec, route);
    BlockOffsets(spec, btls, route, InBlock(route), ObjectFor(spec, RouteKey(route)));
    BlockOffsets(spec, btls, route, InBlock(route) + PolicyDistance(route), ObjectFor(spec, PolicyOf(route)));
  }

  lemma PassPosition(spec: Spec, api: Api, k: nat, o: Object)
    requires !Unready(spec, api) && Gated(KeyOf(o))
      && FirstAt(ObjectsRequiringTokensmith(spec, api.btlsAvailable), k, o)
    ensures FirstAt(PassObjects(spec, api), |ObjectsAlways(spec)| + k, o)
  {
    var always, gated := ObjectsAlways(spec), ObjectsRequiringTokensmith(spec, api.btlsAvailable);
    assert JWTGateOpen(spec, api.tokensmithReady, api.btlsAvailable);
    assert PassObjects(spec, api) == always + gated;
    hide ObjectsAlways, ObjectsRequiringTokensmith, PassObjects, Gated, KeyOf, FirstAt;
    HalvesApart(spec, api.btlsAvailable, o);
    FirstInBlock(always, gated, [], k, o);
    assert always + gated + [] == always + gated;
  }

  lemma PassPositions(spec: Spec, api: Api, route: string)
    requires route in PROTECTED_ROUTES && Protected(spec, route) && !Unready(spec, api)
    ensures FirstAt(PassObjects(spec, api), RoutePosition(spec, api.btlsAvailable, route),
      ObjectFor(spec, RouteKey(route)))
    ensures FirstAt(PassObjects(spec, api), PolicyPosition(spec, api.btlsAvailable, route),
      ObjectFor(spec, PolicyOf(route)))
  {
    hide ObjectsAlways, ObjectsRequiringTokensmith, ObjectFor, PolicyOf, Protected, PassObjects, RouteOffset,
        PolicyDistance;
    hide Gated, KeyOf, FirstAt, Unready, PROTECTED_ROUTES;
    PolicyKeys(spec, route);
    GatedPositions(spec, api.btlsAvailable, route);
    var k := RouteOffset(spec, api.btlsAvailable, route);
    PassPosition(spec, api, k, ObjectFor(spec, RouteKey(route)));
    PassPosition(spec, api, k + PolicyDistance(route), ObjectFor(spec, PolicyOf(route)));
  }

  lemma PairedAfterPass(spec: Spec, api: Api, live: Live, route: string)
    requires route in PROTECTED_ROUTES
    ensures Paired(LiveAfter(spec, api, live), route)
            <==> Paired(Applied(live, PassObjects(spec, api)[..AppliedCount(spec, api)]), route)
  {
    PolicyKeys(spec, route);
    hide PassObjects, ObjectFor, StalePublicRoutes, Applied, Gated, LiveAfter, AppliedCount, PolicyOf, KeyOf,
        PROTECTED_ROUTES;
    var j := PassShape(spec, api, live);
    StaleArePublic(spec, RouteKey(route));
    StaleArePublic(spec, PolicyOf(route));
  }

  /** A pass that may apply gated objects gets to apply the one at this place. */
  predicate Reaches(spec: Spec, api: Api, position: nat) {
    api.certificatesValid && !Unready(spec, api) && (api.applyFails.None? || position < api.applyFails.value)
  }

  lemma ReachedIff(spec: Spec, api: Api, route: string)
    requires route in PROTECTED_ROUTES
    ensures var applied := PassObjects(spec, api)[..AppliedCount(spec, api)]; var btls := api.btlsAvailable;
            && (ObjectFor(spec, RouteKey(route)) in applied <==>
                  Protected(spec, route) && Reaches(spec, api, RoutePosition(spec, btls, route)))
            && (ObjectFor(spec, PolicyOf(route)) in applied <==>
                  Protected(spec, route) && Reaches(spec, api, PolicyPosition(spec, btls, route)))
  {
    var objects, n := PassObjects(spec, api), AppliedCount(spec, api);
    var r, p := ObjectFor(spec, RouteKey(route)), ObjectFor(spec, PolicyOf(route));
    hide PassObjects, ObjectFor, PolicyOf, Protected, Unready, RoutePosition, PolicyPosition, PROTECTED_ROUTES;
    JWTRoutesIff(spec, api, route);
    if Protected(spec, route) && !Unready(spec, api) {
      PassPositions(spec, api, route);
      InPrefix(objects, RoutePosition(spec, api.btlsAvailable, route), r, n);
      InPrefix(objects, PolicyPosition(spec, api.btlsAvailable, route), p, n);
    } else {
      assert forall o :: o in objects[..n] ==> o in objects;
    }
  }

  /**
   From any live state, a pass leaves a JWT route live without its policy if and only if the policy was not live, the
   route was or is reached, and the policy is not reached.
   */
  lemma UnpairedIff(spec: Spec, api: Api, live: Live, route: string)
    requires route in PROTECTED_ROUTES
    ensures !Paired(LiveAfter(spec, api, live), route) <==>
      && PolicyOf(route) !in live
      && (RouteKey(route) in live
          || (Protected(spec, route) && Reaches(spec, api, RoutePosition(spec, api.btlsAvailable, route))))
      && !(Protected(spec, route) && Reaches(spec, api, PolicyPosition(spec, api.btlsAvailable, route)))
  {
    hide PassObjects, ObjectFor, Applied, LiveAfter, PolicyOf, Protected, Reaches, RoutePosition, PolicyPosition;
    hide PROTECTED_ROUTES, KeyOf, Gated, AppliedCount;
    PolicyKeys(spec, route);
    PairedAfterPass(spec, api, live, route);
    LiveAfterPrefix(spec, api, live, AppliedCount(spec, api), RouteKey(route));
    LiveAfterPrefix(spec, api, live, AppliedCount(spec, api), PolicyOf(route));
    ReachedIff(spec, api, route);
  }

  /**
   So a pass breaks the pairing of a route in exactly one way: past the gates, for a deployed service, on a cluster
   where the policy is not live yet, an apply is refused behind the route's place in the list and no later than its
   policy's.
   */
  lemma BreaksPairingIff(spec: Spec, api: Api, live: Live, route: string)
    requires route in PROTECTED_ROUTES && Paired(live, route)
    ensures !Paired(LiveAfter(spec, api, live), route) <==>
      && api.certificatesValid && Protected(spec, route) && !Unready(spec, api) && PolicyOf(route) !in live
      && api.applyFails.Some? && RoutePosition(spec, api.btlsAvailable, route) < api.applyFails.value
      && api.applyFails.value <= PolicyPosition(spec, api.btlsAvailable, route)
  {
    hide LiveAfter, PolicyOf, Protected, Unready, RoutePosition, PROTECTED_ROUTES;
    UnpairedIff(spec, api, live, route);
  }

  /** It does happen: SMD alone, a fresh namespace, and the apply right behind the SMD route refused. */
  lemma InterruptedPassUnpaired() returns (spec: Spec, api: Api)
    ensures !Paired(LiveAfter(spec, api, map[]), "smd")
  {
    var on, off, none := ServiceSpec(true, None), ServiceSpec(false, None), PublicRoutes(Some(false), []);
    spec := Spec("a", "a.example", on, off, off, off, false, none, none, None, NetworkProbe(false, 0, None, None),
        false, map[], map[]);
    api := Api(true, false, false, Some(RoutePosition(spec, false, "smd") + 1), {}, false, false);
    assert spec.Deploys(SMD) && !spec.Deploys(Tokensmith);
    assert Protected(spec, "smd") && !Unready(spec, api) && "smd" in PROTECTED_ROUTES;
    hide LiveAfter, RoutePosition, Protected, Unready, PolicyOf, PROTECTED_ROUTES;
    BreaksPairingIff(spec, api, map[], "smd");
  }
}
