/** What the live objects of a gateway answer after a pass of any run, leftovers of earlier specs included. */
module GatewayLive {
  import opened Options
  import opened ControlPlanes
  import opened PublicPaths
  import opened Routing
  import opened GatewayPass

  predicate IsPublic(k: Key) { k.RouteKey? && k.name in PUBLIC_ROUTES }

  /** The same object, rendered for another domain. */
  function Rehosted(o: Object, host: string): Object {
    match o
    case GatewayListeners(_) => GatewayListeners(host)
    case Route(name, _, listener, matches, action) => Route(name, host, listener, matches, action)
    case _ => o
  }

  /**
   Every live object stands under its own key and, apart from the public routes, is what any spec renders there, up to
   the domain it was rendered for.
   */
  ghost predicate Canonical(spec: Spec, live: Live) {
    forall k :: k in live ==>
      KeyOf(live[k]) == k && (!IsPublic(k) ==> Rehosted(live[k], spec.domain) == ObjectFor(spec, k))
  }

  lemma SameForEverySpec(a: Spec, b: Spec, k: Key)
    requires !IsPublic(k)
    ensures Rehosted(ObjectFor(a, k), b.domain) == ObjectFor(b, k)
  {
    hide SMDPublic, BootPublic, BootPublicHTTP;
  }

  lemma CanonicalForEverySpec(a: Spec, b: Spec, live: Live)
    requires Canonical(a, live)
    ensures Canonical(b, live)
  {
    hide ObjectFor, KeyOf;
    forall k | k in live && !IsPublic(k) ensures Rehosted(live[k], b.domain) == ObjectFor(b, k) {
      SameForEverySpec(a, b, k);
      assert Rehosted(Rehosted(live[k], a.domain), b.domain) == Rehosted(live[k], b.domain);
    }
  }

  lemma RenderedHere(spec: Spec, k: Key)
    requires !IsPublic(k)
    ensures Rehosted(ObjectFor(spec, k), spec.domain) == ObjectFor(spec, k)
  {
    SameForEverySpec(spec, spec, k);
  }

  lemma {:induction false} AppliedCanonical(spec: Spec, live: Live, objects: seq<Object>)
    requires Canonical(spec, live) && forall o :: o in objects ==> o == ObjectFor(spec, KeyOf(o))
    ensures Canonical(spec, Applied(live, objects))
  {
    hide ObjectFor, KeyOf, IsPublic, Rehosted;
    if objects != [] {
      AppliedCanonical(spec, live, objects[..|objects| - 1]);
      var k := KeyOf(objects[|objects| - 1]);
      if !IsPublic(k) {
        RenderedHere(spec, k);
      }
    }
  }

  lemma PassObjectsByKey(spec: Spec, api: Api, o: Object)
    requires o in PassObjects(spec, api)
    ensures o == ObjectFor(spec, KeyOf(o))
  {
    hide Rendered, ObjectFor, KeyOf;
    RenderedByKey(spec, JWTGateOpen(spec, api.tokensmithReady, api.btlsAvailable), api.btlsAvailable, o);
  }

  lemma PassCanonical(spec: Spec, api: Api, live: Live)
    requires Canonical(spec, live)
    ensures Canonical(spec, LiveAfter(spec, api, live))
  {
    hide ObjectFor, KeyOf, IsPublic, PassObjects, AppliedCount, LiveAfter, Applied, StalePublicRoutes, Rehosted;
    var objects := PassObjects(spec, api)[..AppliedCount(spec, api)];
    forall o | o in objects ensures o == ObjectFor(spec, KeyOf(o)) {
      PassObjectsByKey(spec, api, o);
    }
    AppliedCanonical(spec, live, objects);
    var j := PassShape(spec, api, live);
  }

  /** In every run the live objects are canonical for every spec. */
  lemma {:induction false} RunCanonical(states: seq<Live>, passes: seq<(Spec, Api)>, n: nat, spec: Spec)
    requires Run(states, passes) && states[0] == map[] && n < |states|
    ensures Canonical(spec, states[n])
  {
    if n > 0 {
      hide Canonical, LiveAfter;
      var now := passes[n - 1].0;
      RunCanonical(states, passes, n - 1, now);
      PassCanonical(now, passes[n - 1].1, states[n - 1]);
      CanonicalForEverySpec(now, spec, states[n]);
    }
  }

  // ----- the table of the live objects -----

  /** A live route that carries the spec's domain; one stranded on an earlier domain attaches to no listener. */
  predicate Attached(spec: Spec, live: Live, name: string) {
    RouteKey(name) in live && live[RouteKey(name)].Route? && live[RouteKey(name)].host == spec.domain
  }

  function LiveTable(spec: Spec, live: Live): Table {
    Table(spec.domain, Attached(spec, live, "tokensmith"), Attached(spec, live, "metadata-public"),
          Attached(spec, live, "smd"), Attached(spec, live, "boot-service"), Attached(spec, live, "boot-admin"),
          Attached(spec, live, "metadata-admin"),
          if spec.Deploys(SMD) then SMDPublicPaths(spec) else [],
          if spec.Deploys(BootService) then BootPublicPaths(spec) else [],
          BootHTTPPublicPaths(spec))
  }

  lemma LiveTableValid(spec: Spec, live: Live)
    ensures LiveTable(spec, live).Valid()
  {
    PublicPathsUnderPrefix(spec);
    hide SMDPublicPaths, BootPublicPaths;
  }

  lemma ValueIff(spec: Spec, live: Live, o: Object)
    requires Canonical(spec, live)
    ensures o in live.Values <==> KeyOf(o) in live && live[KeyOf(o)] == o
  {
    hide ObjectFor;
  }

  lemma PublicInTable(spec: Spec, live: Live, o: Object)
    requires o.Route? && o.name in PUBLIC_ROUTES
    ensures InTable(LiveTable(spec, live), o) <==> WantsPublic(spec, o.name) && o == ObjectFor(spec, RouteKey(o.name))
  {
    PublicObjects(spec, o.name);
    NamesApart(spec.domain);
    hide SMDPublicPaths, BootPublicPaths, BootHTTPPublicPaths, PublicMatches, Spec.Deploys, ObjectFor, Attached;
    hide PUBLIC_ROUTES, Redirect, TokensmithRoute, SMDRoute, BootRoute, BootAdminRoute;
    hide MetadataRoute, MetadataAdminRoute;
  }

  const FIXED_ROUTES: seq<string> :=
    ["http-redirect", "tokensmith", "metadata-public", "smd", "boot-service", "boot-admin", "metadata-admin"]

  lemma OtherInTable(spec: Spec, live: Live, o: Object)
    requires o.Route? && o.name !in PUBLIC_ROUTES && Attached(spec, live, "http-redirect")
    ensures InTable(LiveTable(spec, live), o) <==>
      o.name in FIXED_ROUTES && Attached(spec, live, o.name) && o == ObjectFor(spec, RouteKey(o.name))
  {
    hide SMDPublicPaths, BootPublicPaths, BootHTTPPublicPaths, PublicMatches, Spec.Deploys, Attached;
  }

  lemma FixedRoutesOnly(spec: Spec, live: Live, name: string)
    requires Canonical(spec, live) && RouteKey(name) in live && name !in PUBLIC_ROUTES
    ensures name in FIXED_ROUTES
  {
    hide SMDPublic, BootPublic, BootPublicHTTP;
    assert KeyOf(Rehosted(live[RouteKey(name)], spec.domain)) == RouteKey(name);
    assert KeyOf(ObjectFor(spec, RouteKey(name))) == RouteKey(name);
  }

  // ----- what a pass keeps -----

  /** Does a pass render this route now? */
  predicate RendersNow(spec: Spec, api: Api, name: string) {
    || name == "http-redirect"
    || (name == "tokensmith" && spec.Deploys(Tokensmith))
    || (name == "metadata-public" && spec.Deploys(MetadataService))
    || (Protected(spec, name) && !Unready(spec, api))
  }

  lemma OpenRouteRendered(spec: Spec, gated: bool, btls: bool, o: Object)
    requires o in [Redirect(spec.domain), TokensmithRoute(spec.domain), MetadataRoute(spec.domain)]
    ensures o in Rendered(spec, gated, btls) <==>
      o == Redirect(spec.domain) || (o == TokensmithRoute(spec.domain) && spec.Deploys(Tokensmith))
          || (o == MetadataRoute(spec.domain) && spec.Deploys(MetadataService))
  {
    OpenObjectsApart(spec, o);
    hide Rendered, Spec.Deploys, WantsSMDPublic, WantsBootPublic, WantsBootPublicHTTP;
    hide SMDPublic, BootPublic, BootPublicHTTP, Redirect, TokensmithRoute, SMDRoute, BootRoute, BootAdminRoute;
    hide MetadataRoute, MetadataAdminRoute;
    RenderedRoutes(spec, gated, btls, o);
  }

  lemma OpenObjectsApart(spec: Spec, o: Object)
    requires o in [Redirect(spec.domain), TokensmithRoute(spec.domain), MetadataRoute(spec.domain)]
    ensures o !in [SMDPublic(spec), BootPublic(spec), BootPublicHTTP(spec)]
    ensures o !in [SMDRoute(spec.domain), BootRoute(spec.domain), BootAdminRoute(spec.domain)]
    ensures o != MetadataAdminRoute(spec.domain)
  {
    hide PublicMatches;
  }

  lemma FixedObjects(spec: Spec, name: string)
    requires name in FIXED_ROUTES
    ensures var o := ObjectFor(spec, RouteKey(name));
            KeyOf(o) == RouteKey(name) && o.Route? && o.host == spec.domain
    ensures name !in PROTECTED_ROUTES ==>
      var o := ObjectFor(spec, RouteKey(name));
      o in [Redirect(spec.domain), TokensmithRoute(spec.domain), MetadataRoute(spec.domain)] && !Protected(spec, name)
      && (o == Redirect(spec.domain) <==> name == "http-redirect")
      && (o == TokensmithRoute(spec.domain) <==> name == "tokensmith")
    ensures name in PROTECTED_ROUTES ==> name !in ["http-redirect", "tokensmith", "metadata-public"]
  {
    hide SMDPublic, BootPublic, BootPublicHTTP, Spec.Deploys;
  }

  lemma RendersNowIff(spec: Spec, api: Api, name: string)
    requires name in FIXED_ROUTES
    ensures ObjectFor(spec, RouteKey(name)) in PassObjects(spec, api) <==> RendersNow(spec, api, name)
  {
    FixedObjects(spec, name);
    if name in PROTECTED_ROUTES {
      hide ObjectFor, PassObjects, Protected, Unready;
      JWTRoutesIff(spec, api, name);
    } else {
      hide Rendered, ObjectFor, Spec.Deploys, JWTGateOpen, Protected, PROTECTED_ROUTES;
      OpenRouteRendered(spec, JWTGateOpen(spec, api.tokensmithReady, api.btlsAvailable), api.btlsAvailable,
          ObjectFor(spec, RouteKey(name)));
    }
  }

  lemma StaleNames(spec: Spec, name: string)
    requires name in StalePublicRoutes(spec)
    ensures name in PUBLIC_ROUTES
  {
    hide Spec.Deploys, SMDPublicPaths, BootPublicPaths, BootHTTPPublicPaths;
  }

  lemma CompletedLookup(spec: Spec, api: Api, live: Live, k: Key)
    requires !IsPublic(k) && KeyOf(ObjectFor(spec, k)) == k
    ensures var after := Completed(spec, api, live);
            if ObjectFor(spec, k) in PassObjects(spec, api) then k in after && after[k] == ObjectFor(spec, k)
            else Same(live, after, k)
  {
    var objects := PassObjects(spec, api);
    hide PassObjects, ObjectFor, Applied, StalePublicRoutes, KeyOf, PUBLIC_ROUTES;
    assert objects[..|objects|] == objects;
    PrefixLookup(spec, api, live, |objects|, k);
    if k.RouteKey? && k.name in StalePublicRoutes(spec) {
      StaleNames(spec, k.name);
    }
  }

  /**
   Routes other than the public ones are never deleted: after a pass that gets through they are live if they were before
   or are rendered now, and on the spec's domain if they already were or are rendered now.
   */
  lemma FixedRouteLiveIff(spec: Spec, api: Api, live: Live, name: string)
    requires name in FIXED_ROUTES
    ensures var after := Completed(spec, api, live);
            && (RouteKey(name) in after <==> RouteKey(name) in live || RendersNow(spec, api, name))
            && (Attached(spec, after, name) <==> Attached(spec, live, name) || RendersNow(spec, api, name))
  {
    assert !IsPublic(RouteKey(name));
    RendersNowIff(spec, api, name);
    FixedObjects(spec, name);
    hide PassObjects, ObjectFor, Completed, KeyOf, RendersNow, FIXED_ROUTES, PUBLIC_ROUTES;
    CompletedLookup(spec, api, live, RouteKey(name));
  }

  /** The Gateway's listeners are rendered by every pass, for the spec's domain. */
  lemma LiveListens(spec: Spec, api: Api, live: Live, host: string)
    requires Canonical(spec, Completed(spec, api, live))
    ensures Listens(Completed(spec, api, live).Values, host) <==> host == spec.domain
  {
    var after := Completed(spec, api, live);
    var o := GatewayListeners(host);
    assert KeyOf(o) == GatewayKey && KeyOf(ObjectFor(spec, GatewayKey)) == GatewayKey && !IsPublic(GatewayKey);
    assert ObjectFor(spec, GatewayKey) == GatewayListeners(spec.domain);
    assert ObjectFor(spec, GatewayKey) in PassObjects(spec, api) by {
      hide Rendered;
      var gate := JWTGateOpen(spec, api.tokensmithReady, api.btlsAvailable);
      RenderedListens(spec, gate, api.btlsAvailable, spec.domain);
    }
    hide Completed, ObjectFor, KeyOf, PassObjects, Canonical, IsPublic;
    CompletedLookup(spec, api, live, GatewayKey);
    ValueIff(spec, after, o);
  }

  lemma RedirectAttached(spec: Spec, api: Api, live: Live)
    ensures Attached(spec, Completed(spec, api, live), "http-redirect")
  {
    hide Completed, Attached, Protected;
    FixedRouteLiveIff(spec, api, live, "http-redirect");
  }

  lemma LiveShows(spec: Spec, api: Api, live: Live)
    requires Canonical(spec, Completed(spec, api, live))
    ensures var after := Completed(spec, api, live);
            LiveTable(spec, after).Valid() && Shows(after.Values, LiveTable(spec, after))
  {
    var after := Completed(spec, api, live);
    RedirectAttached(spec, api, live);
    LiveTableValid(spec, after);
    var t := LiveTable(spec, after);
    assert t.host == spec.domain;
    hide LiveTable, InTable, Completed, ObjectFor, KeyOf, Table.Valid, WantsPublic, Canonical, Listens, Attached;
    forall host ensures Listens(after.Values, host) <==> host == t.host {
      LiveListens(spec, api, live, host);
    }
    forall o: Object | o.Route? && o.host == t.host ensures o in after.Values <==> InTable(t, o) {
      RouteShown(spec, api, live, o);
    }
  }

  lemma RouteShown(spec: Spec, api: Api, live: Live, o: Object)
    requires o.Route? && o.host == spec.domain && Canonical(spec, Completed(spec, api, live))
      && Attached(spec, Completed(spec, api, live), "http-redirect")
    ensures o in Completed(spec, api, live).Values <==> InTable(LiveTable(spec, Completed(spec, api, live)), o)
  {
    var after := Completed(spec, api, live);
    var k := RouteKey(o.name);
    assert KeyOf(o) == k;
    hide LiveTable, InTable, Completed, ObjectFor, KeyOf, WantsPublic, PUBLIC_ROUTES, FIXED_ROUTES;
    ValueIff(spec, after, o);
    if o.name in PUBLIC_ROUTES {
      PublicRoutesConverge(spec, api, live, o.name);
      PublicInTable(spec, after, o);
    } else {
      OtherInTable(spec, after, o);
      if k in after {
        FixedRoutesOnly(spec, after, o.name);
      }
    }
  }

  /** A live policy guards one of the JWT routes, and is that route's own. */
  lemma PolicyIsOwn(spec: Spec, live: Live, o: Object)
    requires Canonical(spec, live) && o in live.Values && o.SecurityPolicy?
    ensures o.target in PROTECTED_ROUTES && PolicyOf(o.target) in live
  {
    ValueIff(spec, live, o);
    assert KeyOf(o) == PolicyKey(o.name) && !IsPublic(PolicyKey(o.name));
    assert o == Rehosted(o, spec.domain) == ObjectFor(spec, PolicyKey(o.name));
    hide Canonical;
  }

  lemma LiveSecuredIff(spec: Spec, live: Live, route: string)
    requires Canonical(spec, live)
    ensures Secured(live.Values, route) <==> route in PROTECTED_ROUTES && PolicyOf(route) in live
  {
    if route in PROTECTED_ROUTES && PolicyOf(route) in live {
      var o := live[PolicyOf(route)];
      assert Rehosted(o, spec.domain) == ObjectFor(spec, PolicyOf(route)) && o in live.Values;
      assert o.SecurityPolicy? && o.target == route;
    }
    hide Canonical, PolicyOf, PROTECTED_ROUTES, ObjectFor, KeyOf;
    forall o | o in live.Values && o.SecurityPolicy? && o.target == route
      ensures route in PROTECTED_ROUTES && PolicyOf(route) in live
    {
      PolicyIsOwn(spec, live, o);
    }
  }

  // ----- what the live gateway answers -----

  /** A JWT route on the spec's domain whose policy an interrupted pass left out. */
  predicate Unguarded(spec: Spec, live: Live, route: string) {
    Attached(spec, live, route) && PolicyOf(route) !in live
  }

  /**
   The requests a live gateway answers over HTTPS without a JWT: GETs on the spec's public paths, tokensmith's paths and
   metadata as far as their routes are on the spec's domain, and whatever lies under a JWT route there that an
   interrupted pass left unguarded. The admin subtree of metadata is open too when its own route is missing from the
   domain: not live yet, or stranded on an earlier domain.
   */
  predicate ServedWithoutJWT(spec: Spec, live: Live, r: Request) {
    r.host == spec.domain &&
    ((r.verb == "GET" && spec.Deploys(SMD) && r.path in SMDPublicPaths(spec))
     || (r.verb == "GET" && spec.Deploys(BootService) && r.path in BootPublicPaths(spec))
     || (Attached(spec, live, "tokensmith") && r.path in TOKENSMITH_PATHS)
     || (Attached(spec, live, "metadata-public") && Under(r.path, "/cloud-init")
         && !(Attached(spec, live, "metadata-admin") && Under(r.path, "/cloud-init/admin")))
     || (Unguarded(spec, live, "smd") && Under(r.path, "/hsm"))
     || (Unguarded(spec, live, "boot-service") && Under(r.path, "/boot"))
     || (Unguarded(spec, live, "boot-admin") && Under(r.path, "/admin/boot"))
     || (Unguarded(spec, live, "metadata-admin") && Under(r.path, "/cloud-init/admin")))
  }

  lemma LiveObjects(states: seq<Live>, passes: seq<(Spec, Api)>, n: nat)
    requires Run(states, passes) && states[0] == map[] && n < |passes| && Clean(passes[n].0, passes[n].1)
    ensures var (spec, live) := (passes[n].0, states[n + 1]);
            && Canonical(spec, live) && LiveTable(spec, live).Valid() && Shows(live.Values, LiveTable(spec, live))
            && live == Completed(spec, passes[n].1, states[n])
  {
    var (spec, api) := passes[n];
    assert states[n + 1] == LiveAfter(spec, api, states[n]);
    hide Run, Canonical, LiveAfter, Completed, LiveTable, Table.Valid, Shows, Clean;
    assert Run(states, passes);
    RunCanonical(states, passes, n + 1, spec);
    CleanPassCompletes(spec, api, states[n]);
    LiveShows(spec, api, states[n]);
  }

  /**
   In every run from an empty namespace, after every pass that gets through, the live objects answer a request over
   HTTPS without a JWT in exactly these cases, however often the spec, its domain included, was edited in between.
   */
  lemma LiveWithoutJWT(states: seq<Live>, passes: seq<(Spec, Api)>, n: nat, r: Request)
    requires Run(states, passes) && states[0] == map[] && n < |passes| && Clean(passes[n].0, passes[n].1)
    requires r.WellFormed() && r.listener == Https
    ensures AnsweredWithoutJWT(states[n + 1].Values, r) <==> ServedWithoutJWT(passes[n].0, states[n + 1], r)
  {
    var spec, live := passes[n].0, states[n + 1];
    LiveObjects(states, passes, n);
    hide Run, Clean, Canonical, Table.Valid, Shows, AnsweredWithoutJWT, Secured, Completed, Attached;
    forall route ensures Secured(live.Values, route) <==> route in PROTECTED_ROUTES && PolicyOf(route) in live {
      LiveSecuredIff(spec, live, route);
    }
    assert GuardsJWTRoutes(live.Values);
    AnsweredWithoutJWTIff(live.Values, LiveTable(spec, live), r);
    hide GuardsJWTRoutes, Under, PolicyOf, SMDPublicPaths, BootPublicPaths, BootHTTPPublicPaths, Spec.Deploys;
  }

  /** On plain HTTP the live objects send everything but the enabled GET of the boot script to HTTPS. */
  lemma LiveRedirects(states: seq<Live>, passes: seq<(Spec, Api)>, n: nat, r: Request, action: Action)
    requires Run(states, passes) && states[0] == map[] && n < |passes| && Clean(passes[n].0, passes[n].1)
    requires r.WellFormed() && r.listener == Http && r.host == passes[n].0.domain
    ensures Served(states[n + 1].Values, r, action) <==>
      action == if WantsBootPublicHTTP(passes[n].0) && r.verb == "GET" && r.path == "/boot/v1/bootscript"
                then Forward(BootService, false) else RedirectToHTTPS
  {
    var spec, live := passes[n].0, states[n + 1];
    LiveObjects(states, passes, n);
    hide Run, Clean, Canonical, Shows, Served, Completed, SMDPublicPaths, BootPublicPaths, BootHTTPPublicPaths;
    hide Attached;
    RedirectedUnlessScript(live.Values, LiveTable(spec, live), r);
  }

  /** Over HTTPS they forward each request they answer to the service that owns its path. */
  lemma LiveForwards(states: seq<Live>, passes: seq<(Spec, Api)>, n: nat, r: Request, action: Action)
    requires Run(states, passes) && states[0] == map[] && n < |passes| && Clean(passes[n].0, passes[n].1)
    requires r.WellFormed() && r.listener == Https
    ensures var (spec, live) := (passes[n].0, states[n + 1]);
            Served(live.Values, r, action) <==>
              Answers(LiveTable(spec, live), r) && Owner(r.path, Attached(spec, live, "metadata-admin")) == Some(action)
  {
    var spec, live := passes[n].0, states[n + 1];
    LiveObjects(states, passes, n);
    assert LiveTable(spec, live).metadataAdmin == Attached(spec, live, "metadata-admin");
    hide Run, Clean, Canonical, Shows, Served, Completed, LiveTable, Table.Valid, Owner, Answers, Attached;
    ForwardedToOwner(live.Values, LiveTable(spec, live), r, action);
  }

  /** Nothing answers for a domain the spec has left behind, on either listener. */
  lemma LiveOtherHosts(states: seq<Live>, passes: seq<(Spec, Api)>, n: nat, o: Object, m: Match, r: Request)
    requires Run(states, passes) && states[0] == map[] && n < |passes| && Clean(passes[n].0, passes[n].1)
    requires r.host != passes[n].0.domain
    ensures !Offers(states[n + 1].Values, o, m, r)
  {
    var spec, live := passes[n].0, states[n + 1];
    LiveObjects(states, passes, n);
    assert LiveTable(spec, live).host == spec.domain;
    hide Run, Clean, Canonical, Shows, Offers, Completed, LiveTable, Table.Valid;
    OtherHostsUnanswered(live.Values, LiveTable(spec, live), o, m, r);
  }

  /** No request to the live gateway needs a tie-breaker either. */
  lemma LiveAtMostOneWinner(states: seq<Live>, passes: seq<(Spec, Api)>, n: nat, r: Request, o: Object, m: Match,
      o': Object, m': Match)
    requires Run(states, passes) && states[0] == map[] && n < |passes| && Clean(passes[n].0, passes[n].1)
    requires r.WellFormed() && Wins(states[n + 1].Values, o, m, r) && Wins(states[n + 1].Values, o', m', r)
    ensures o == o' && m == m'
  {
    var spec, live := passes[n].0, states[n + 1];
    LiveObjects(states, passes, n);
    hide Run, Clean, Canonical, Shows, Wins, Completed, LiveTable;
    AtMostOneWinner(live.Values, LiveTable(spec, live), r, o, m, o', m');
  }

  // ----- the admin subtree of metadata -----

  /** Whatever lies in the admin subtree is on no other route than the two of metadata. */
  lemma AdminOnly(spec: Spec, path: string)
    requires Under(path, "/cloud-init/admin")
    ensures Under(path, "/cloud-init") && !Under(path, "/hsm") && !Under(path, "/boot") && !Under(path, "/admin/boot")
    ensures path !in TOKENSMITH_PATHS && path !in SMDPublicPaths(spec) && path !in BootPublicPaths(spec)
  {
    assert "/cloud-init/admin"[1] == 'c' && path[..17] == "/cloud-init/admin";
    assert path[1] == 'c';
    assert path[..11] == "/cloud-init" && path[11] == '/';
    PublicPathsUnderPrefix(spec);
    hide SMDPublicPaths, BootPublicPaths;
  }

  lemma PolicyLiveIff(spec: Spec, api: Api, live: Live)
    ensures PolicyOf("metadata-admin") in Completed(spec, api, live) <==>
      PolicyOf("metadata-admin") in live || RendersNow(spec, api, "metadata-admin")
  {
    var route := "metadata-admin";
    assert route in PROTECTED_ROUTES && route in FIXED_ROUTES;
    var k := PolicyOf(route);
    assert !IsPublic(k) && KeyOf(ObjectFor(spec, k)) == k;
    hide Completed, ObjectFor, KeyOf, PassObjects, IsPublic, PolicyOf, RendersNow;
    JWTRoutesIff(spec, api, route);
    RendersNowIff(spec, api, route);
    CompletedLookup(spec, api, live, k);
  }

  /**
   Exactly when a pass that gets through leaves the admin subtree of metadata open: its route is on the domain without
   its policy, or it is neither rendered now nor on the domain from before while the public metadata route is.
   */
  lemma AdminOpenIff(states: seq<Live>, passes: seq<(Spec, Api)>, n: nat, r: Request)
    requires Run(states, passes) && states[0] == map[] && n < |passes| && Clean(passes[n].0, passes[n].1)
    requires r.WellFormed() && r.listener == Https && r.host == passes[n].0.domain
    requires Under(r.path, "/cloud-init/admin")
    ensures var (spec, api) := passes[n];
            var before := states[n];
            AnsweredWithoutJWT(states[n + 1].Values, r) <==>
              if Attached(spec, before, "metadata-admin") || RendersNow(spec, api, "metadata-admin") then
                PolicyOf("metadata-admin") !in before && !RendersNow(spec, api, "metadata-admin")
              else
                Attached(spec, before, "metadata-public") || RendersNow(spec, api, "metadata-public")
  {
    var (spec, api) := passes[n];
    LiveObjects(states, passes, n);
    LiveWithoutJWT(states, passes, n, r);
    AdminOnly(spec, r.path);
    assert "metadata-admin" in FIXED_ROUTES && "metadata-public" in FIXED_ROUTES;
    hide Run, Clean, Canonical, LiveTable, Shows, Completed, AnsweredWithoutJWT, Attached, RendersNow, PolicyOf;
    hide Under, SMDPublicPaths, BootPublicPaths, TOKENSMITH_PATHS, FIXED_ROUTES;
    FixedRouteLiveIff(spec, api, states[n], "metadata-admin");
    FixedRouteLiveIff(spec, api, states[n], "metadata-public");
    PolicyLiveIff(spec, api, states[n]);
  }

  /** The domain is edited between two passes that get through, the second without tokensmith ready. */
  predicate MovesWhileUnready(one: Spec, ready: Api, two: Spec, waiting: Api) {
    && Clean(one, ready) && one.Deploys(MetadataService) && !Unready(one, ready)
    && Clean(two, waiting) && two.Deploys(MetadataService) && Unready(two, waiting)
    && one.domain != two.domain
  }

  /**
   After such a pair of passes in any run the admin subtree is open on the new domain, though its route and policy are
   live: the route stays on the domain left behind.
   */
  lemma StrandedAdmin(states: seq<Live>, passes: seq<(Spec, Api)>, n: nat, r: Request)
    requires Run(states, passes) && states[0] == map[] && n + 1 < |passes|
    requires MovesWhileUnready(passes[n].0, passes[n].1, passes[n + 1].0, passes[n + 1].1)
    requires r.WellFormed() && r.listener == Https && r.host == passes[n + 1].0.domain
    requires Under(r.path, "/cloud-init/admin")
    ensures RouteKey("metadata-admin") in states[n + 2] && PolicyOf("metadata-admin") in states[n + 2]
    ensures AnsweredWithoutJWT(states[n + 2].Values, r)
  {
    var route := "metadata-admin";
    var (one, ready) := passes[n];
    var (two, waiting) := passes[n + 1];
    assert RendersNow(one, ready, route) && !RendersNow(two, waiting, route);
    assert RendersNow(two, waiting, "metadata-public");
    assert route in FIXED_ROUTES;
    LiveObjects(states, passes, n);
    LiveObjects(states, passes, n + 1);
    AdminOpenIff(states, passes, n + 1, r);
    hide Run, Clean, Canonical, LiveTable, Shows, Completed, AnsweredWithoutJWT, RendersNow, PolicyOf, Under, Unready;
    hide FIXED_ROUTES, Spec.Deploys;
    FixedRouteLiveIff(one, ready, states[n], route);
    FixedRouteLiveIff(two, waiting, states[n + 1], route);
    PolicyLiveIff(one, ready, states[n]);
    PolicyLiveIff(two, waiting, states[n + 1]);
  }

  lemma CleanWhenNothingFails(spec: Spec, api: Api)
    requires api.certificatesValid && api.applyFails.None? && api.deleteFails == {}
    ensures Clean(spec, api)
  {
    hide StalePublicRoutes, PassObjects;
  }

  lemma MovesWhileUnreadyExist() returns (one: Spec, ready: Api, two: Spec, waiting: Api)
    ensures MovesWhileUnready(one, ready, two, waiting)
  {
    var on, off, none := ServiceSpec(true, None), ServiceSpec(false, None), PublicRoutes(Some(false), []);
    one := Spec("a", "a.example", off, on, off, on, false, none, none, None, NetworkProbe(false, 0, None, None), false,
        map[], map[]);
    two := one.(domain := "b.example");
    assert one.domain[0] != two.domain[0];
    ready, waiting := Api(true, true, true, None, {}, false, true), Api(true, false, true, None, {}, false, true);
    hide Clean;
    CleanWhenNothingFails(one, ready);
    CleanWhenNothingFails(two, waiting);
  }

  lemma StrandedRun(one: Spec, ready: Api, two: Spec, waiting: Api, r: Request) returns (states: seq<Live>)
    requires MovesWhileUnready(one, ready, two, waiting)
    requires r.WellFormed() && r.listener == Https && r.host == two.domain && Under(r.path, "/cloud-init/admin")
    ensures Run(states, [(one, ready), (two, waiting)]) && states[0] == map[]
    ensures RouteKey("metadata-admin") in states[2] && PolicyOf("metadata-admin") in states[2]
    ensures AnsweredWithoutJWT(states[2].Values, r)
  {
    hide Clean, Unready, LiveAfter, Spec.Deploys, Under, AnsweredWithoutJWT, PolicyOf, PassObjects, Completed;
    var first := LiveAfter(one, ready, map[]);
    states := [map[], first, LiveAfter(two, waiting, first)];
    StrandedAdmin(states, [(one, ready), (two, waiting)], 0, r);
  }

  /** Such a run exists. */
  lemma StrandedAdminRun() returns (states: seq<Live>, passes: seq<(Spec, Api)>, r: Request)
    ensures Run(states, passes) && states[0] == map[] && |passes| == 2
    ensures Clean(passes[0].0, passes[0].1) && Clean(passes[1].0, passes[1].1)
    ensures r.WellFormed() && r.listener == Https && r.host == passes[1].0.domain && Under(r.path, "/cloud-init/admin")
    ensures RouteKey("metadata-admin") in states[2] && PolicyOf("metadata-admin") in states[2]
    ensures AnsweredWithoutJWT(states[2].Values, r)
  {
    var one, ready, two, waiting := MovesWhileUnreadyExist();
    r := Request(two.domain, Https, "GET", "/cloud-init/admin/x");
    assert Under(r.path, "/cloud-init/admin") && r.WellFormed();
    hide Run, Clean, Under, AnsweredWithoutJWT, PolicyOf, Unready, Spec.Deploys;
    states := StrandedRun(one, ready, two, waiting, r);
    passes := [(one, ready), (two, waiting)];
  }
}
