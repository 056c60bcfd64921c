/**
 The gateway's routes and policies (internal/reconcilers/gateway.go) and what they mean under the match precedence of
 the Gateway API: Exact before PathPrefix, longer prefixes first, then method matches.
 */
module Routing {
  import opened Options
  import opened ControlPlanes
  import opened PublicPaths

  // ----- requests and matches -----

  datatype Listener = Http | Https

  datatype PathMatch = Exact(value: string) | PathPrefix(value: string)

  /** The only method match the operator ever writes is GET. */
  datatype Match = Match(path: PathMatch, getOnly: bool)

  datatype Request = Request(host: string, listener: Listener, verb: string, path: string) {
    predicate WellFormed() { "/" <= path }
  }

  /** Prefixes match whole path segments. */
  predicate Under(path: string, prefix: string) {
    if prefix == "/" then "/" <= path else path == prefix || prefix + "/" <= path
  }

  predicate Accepts(m: Match, r: Request) {
    && (m.getOnly ==> r.verb == "GET")
    && match m.path
       case Exact(v) => r.path == v
       case PathPrefix(v) => Under(r.path, v)
  }

  /** Strict precedence between two matches of the same request. */
  predicate Better(a: Match, b: Match) {
    match (a.path, b.path)
    case (Exact(_), PathPrefix(_)) => true
    case (PathPrefix(_), Exact(_)) => false
    case (PathPrefix(v), PathPrefix(w)) => |v| > |w| || (|v| == |w| && a.getOnly && !b.getOnly)
    case (Exact(_), Exact(_)) => a.getOnly && !b.getOnly
  }

  /** Matches of one request that neither outranks are the same match: precedence leaves no ties to break. */
  lemma NoTies(a: Match, b: Match, r: Request)
    requires r.WellFormed() && Accepts(a, r) && Accepts(b, r)
    requires !Better(a, b) && !Better(b, a)
    ensures a == b
  {
    if a.path.PathPrefix? {
      var v, w := a.path.value, b.path.value;
      PrefixOf(r.path, v);
      PrefixOf(r.path, w);
      assert v == r.path[..|v|] && w == r.path[..|w|];
    }
  }

  lemma PrefixOf(path: string, prefix: string)
    requires Under(path, prefix)
    ensures prefix <= path
  {
    if prefix != "/" && path != prefix {
      assert path[..|prefix|] == (prefix + "/")[..|prefix|];
    }
  }

  // ----- objects -----

  datatype Action = RedirectToHTTPS | Forward(service: Service, stripPrefix: bool)

  /** Routes and listeners carry the domain of the spec they were rendered from. */
  datatype Object =
    | GatewayListeners(host: string)
    | Route(name: string, host: string, listener: Listener, matches: seq<Match>, action: Action)
    | SecurityPolicy(name: string, target: string)
    | RateLimit(name: string, target: string)
    | BackendTLSPolicy

  /** A route without matches accepts everything. */
  function Redirect(host: string): Object {
    Route("http-redirect", host, Http, [Match(PathPrefix("/"), false)], RedirectToHTTPS)
  }

  const TOKENSMITH_PATHS: seq<string> := ["/.well-known/jwks.json", "/oauth/token", "/oauth/exchange", "/health"]

  function TokensmithRoute(host: string): Object {
    Route("tokensmith", host, Https,
          [Match(Exact("/.well-known/jwks.json"), false), Match(Exact("/oauth/token"), false),
           Match(Exact("/oauth/exchange"), false), Match(Exact("/health"), false)], Forward(Tokensmith, false))
  }

  function PrefixRoute(name: string, host: string, prefix: string, service: Service, stripPrefix: bool): Object {
    Route(name, host, Https, [Match(PathPrefix(prefix), false)], Forward(service, stripPrefix))
  }

  function SMDRoute(host: string): Object { PrefixRoute("smd", host, "/hsm", SMD, false) }
  function BootRoute(host: string): Object { PrefixRoute("boot-service", host, "/boot", BootService, false) }
  function BootAdminRoute(host: string): Object { PrefixRoute("boot-admin", host, "/admin/boot", BootService, true) }

  function MetadataRoute(host: string): Object {
    PrefixRoute("metadata-public", host, "/cloud-init", MetadataService, false)
  }

  function MetadataAdminRoute(host: string): Object {
    PrefixRoute("metadata-admin", host, "/cloud-init/admin", MetadataService, true)
  }

  function PublicMatches(paths: seq<string>): seq<Match> {
    seq(|paths|, i requires 0 <= i < |paths| => Match(Exact(paths[i]), true))
  }

  function PublicRoute(name: string, host: string, listener: Listener, service: Service, paths: seq<string>): Object {
    Route(name, host, listener, PublicMatches(paths), Forward(service, false))
  }

  const SMD_PUBLIC := "smd-public"
  const BOOT_PUBLIC := "boot-service-public"
  const BOOT_PUBLIC_HTTP := "boot-service-public-http"

  function SMDPublic(spec: Spec): Object { PublicRoute(SMD_PUBLIC, spec.domain, Https, SMD, SMDPublicPaths(spec)) }

  function BootPublic(spec: Spec): Object {
    PublicRoute(BOOT_PUBLIC, spec.domain, Https, BootService, BootPublicPaths(spec))
  }

  function BootPublicHTTP(spec: Spec): Object {
    PublicRoute(BOOT_PUBLIC_HTTP, spec.domain, Http, BootService, BootHTTPPublicPaths(spec))
  }

  function If<T>(condition: bool, objects: seq<T>): seq<T> { if condition then objects else [] }

  predicate WantsSMDPublic(spec: Spec) { spec.Deploys(SMD) && SMDPublicPaths(spec) != [] }

  predicate WantsBootPublic(spec: Spec) { spec.Deploys(BootService) && BootPublicPaths(spec) != [] }

  predicate WantsBootPublicHTTP(spec: Spec) { BootHTTPPublicPaths(spec) != [] }

  /** Safe to apply before tokensmith can serve its keys. */
  function ObjectsAlways(spec: Spec): seq<Object> {
    [GatewayListeners(spec.domain), Redirect(spec.domain)]
    + If(spec.Deploys(Tokensmith), [TokensmithRoute(spec.domain)])
    + If(spec.Deploys(MetadataService), [MetadataRoute(spec.domain)])
    + If(WantsSMDPublic(spec), [SMDPublic(spec)])
    + If(WantsBootPublic(spec), [BootPublic(spec)])
    + If(WantsBootPublicHTTP(spec), [BootPublicHTTP(spec)])
  }

  function ObjectsRequiringTokensmith(spec: Spec, btlsAvailable: bool): seq<Object> {
    If(spec.Deploys(Tokensmith) && spec.tokensmithTLS && btlsAvailable, [BackendTLSPolicy])
    + If(spec.Deploys(SMD),
         [SMDRoute(spec.domain), SecurityPolicy("jwt-smd", "smd"), RateLimit("smd-ratelimit", "smd")])
    + If(spec.Deploys(BootService),
         [BootRoute(spec.domain), BootAdminRoute(spec.domain), SecurityPolicy("jwt-boot", "boot-service"),
          SecurityPolicy("jwt-boot-admin", "boot-admin")])
    + If(spec.Deploys(MetadataService),
         [MetadataAdminRoute(spec.domain), SecurityPolicy("jwt-metadata-admin", "metadata-admin")])
  }

  /** What a pass applies: the gated objects are held back until tokensmith is ready. */
  function Rendered(spec: Spec, gated: bool, btlsAvailable: bool): seq<Object> {
    ObjectsAlways(spec) + If(gated, ObjectsRequiringTokensmith(spec, btlsAvailable))
  }

  function Elements(objects: seq<Object>): set<Object> { set o | o in objects }

  predicate Secured(objects: set<Object>, route: string) {
    exists o :: o in objects && o.SecurityPolicy? && o.target == route
  }

  // ----- who answers a request -----

  /** Both listeners carry one hostname; a route attaches only where its own hostname is the listener's. */
  predicate Listens(objects: set<Object>, host: string) { GatewayListeners(host) in objects }

  predicate Offers(objects: set<Object>, o: Object, m: Match, r: Request) {
    && o in objects && o.Route? && o.host == r.host && Listens(objects, r.host)
    && o.listener == r.listener && m in o.matches && Accepts(m, r)
  }

  ghost predicate Wins(objects: set<Object>, o: Object, m: Match, r: Request) {
    Offers(objects, o, m, r) && forall o', m' :: Offers(objects, o', m', r) ==> !Better(m', m)
  }

  /** What happens to a request. */
  ghost predicate Served(objects: set<Object>, r: Request, action: Action) {
    exists o, m :: Wins(objects, o, m, r) && o.action == action
  }

  /** Some route that no SecurityPolicy guards wins the request. */
  ghost predicate AnsweredWithoutJWT(objects: set<Object>, r: Request) {
    exists o, m :: Wins(objects, o, m, r) && !Secured(objects, o.name)
  }

  // ----- route tables -----

  /** The listeners' hostname and the routes attached there; a public route without paths is absent. */
  datatype Table = Table(
    host: string, tokensmith: bool, metadataPublic: bool, smd: bool, boot: bool, bootAdmin: bool, metadataAdmin: bool,
    smdPaths: seq<string>, bootPaths: seq<string>, scriptPaths: seq<string>) {
    predicate Valid() {
      && (forall p :: p in smdPaths ==> "/hsm/" <= p)
      && (forall p :: p in bootPaths ==> "/boot/" <= p)
      && (scriptPaths == [] || scriptPaths == [BOOT_SCRIPT])
    }
    function PublicSMD(): Object { PublicRoute(SMD_PUBLIC, host, Https, SMD, smdPaths) }
    function PublicBoot(): Object { PublicRoute(BOOT_PUBLIC, host, Https, BootService, bootPaths) }
    function PublicScript(): Object { PublicRoute(BOOT_PUBLIC_HTTP, host, Http, BootService, scriptPaths) }
  }

  predicate InTable(t: Table, o: Object) {
    || o == Redirect(t.host)
    || (t.tokensmith && o == TokensmithRoute(t.host))
    || (t.metadataPublic && o == MetadataRoute(t.host))
    || (t.smdPaths != [] && o == t.PublicSMD())
    || (t.bootPaths != [] && o == t.PublicBoot())
    || (t.scriptPaths != [] && o == t.PublicScript())
    || (t.smd && o == SMDRoute(t.host))
    || (t.boot && o == BootRoute(t.host))
    || (t.bootAdmin && o == BootAdminRoute(t.host))
    || (t.metadataAdmin && o == MetadataAdminRoute(t.host))
  }

  /** The objects listen at the table's hostname only, and the routes attached there are exactly those of the table. */
  ghost predicate Shows(objects: set<Object>, t: Table) {
    && (forall host :: Listens(objects, host) <==> host == t.host)
    && (forall o: Object :: o.Route? && o.host == t.host ==> (o in objects <==> InTable(t, o)))
  }

  /** The route a match on a listener belongs to. */
  function RouteOf(t: Table, listener: Listener, m: Match): (o: Object)
    ensures o.Route? && o.listener == listener && o.host == t.host
  {
    if listener.Http? then if m.path.PathPrefix? then Redirect(t.host) else t.PublicScript()
    else if m.path.Exact? then
      if !m.getOnly then TokensmithRoute(t.host) else if "/hsm/" <= m.path.value then t.PublicSMD() else t.PublicBoot()
    else if m.path.value == "/hsm" then SMDRoute(t.host)
    else if m.path.value == "/boot" then BootRoute(t.host)
    else if m.path.value == "/admin/boot" then BootAdminRoute(t.host)
    else if m.path.value == "/cloud-init" then MetadataRoute(t.host)
    else MetadataAdminRoute(t.host)
  }

  /** The matches each listener offers, spelled out. */
  predicate OffersMatch(t: Table, listener: Listener, m: Match) {
    match (listener, m.path)
    case (Http, PathPrefix(v)) => v == "/" && !m.getOnly
    case (Http, Exact(v)) => m.getOnly && v in t.scriptPaths
    case (Https, Exact(v)) =>
      if m.getOnly then v in t.smdPaths || v in t.bootPaths else t.tokensmith && v in TOKENSMITH_PATHS
    case (Https, PathPrefix(v)) =>
      !m.getOnly &&
      ((t.smd && v == "/hsm") || (t.boot && v == "/boot") || (t.bootAdmin && v == "/admin/boot")
       || (t.metadataAdmin && v == "/cloud-init/admin") || (t.metadataPublic && v == "/cloud-init"))
  }

  lemma PublicMatchesMembers(paths: seq<string>, m: Match)
    ensures m in PublicMatches(paths) <==> m.getOnly && m.path.Exact? && m.path.value in paths
  {
    if m.getOnly && m.path.Exact? && m.path.value in paths {
      var i :| 0 <= i < |paths| && paths[i] == m.path.value;
      assert PublicMatches(paths)[i] == m;
    }
  }

  lemma PrefixesApart(p: string)
    ensures "/hsm/" <= p ==> p[1] == 'h'
    ensures "/boot/" <= p ==> p[1] == 'b'
    ensures Under(p, "/cloud-init") ==> |p| > 1 && p[1] == 'c'
  {
    assert "/hsm/"[1] == 'h' && "/boot/"[1] == 'b';
    if Under(p, "/cloud-init") {
      PrefixOf(p, "/cloud-init");
      assert "/cloud-init"[1] == 'c';
    }
  }

  lemma PublicRouteMatch(t: Table, o: Object, m: Match)
    requires t.Valid() && o in [t.PublicSMD(), t.PublicBoot(), t.PublicScript()] && m in o.matches
    ensures o == RouteOf(t, o.listener, m)
    ensures m.getOnly && m.path.Exact?
    ensures m.path.value in
      if o == t.PublicSMD() then t.smdPaths else if o == t.PublicBoot() then t.bootPaths else t.scriptPaths
  {
    PrefixesApart(m.path.value);
    PublicMatchesMembers(t.smdPaths, m);
    PublicMatchesMembers(t.bootPaths, m);
    PublicMatchesMembers(t.scriptPaths, m);
    hide PublicMatches;
  }

  lemma RouteMatch(t: Table, o: Object, m: Match)
    requires t.Valid() && InTable(t, o) && m in o.matches
    ensures o == RouteOf(t, o.listener, m) && OffersMatch(t, o.listener, m)
  {
    if o in [t.PublicSMD(), t.PublicBoot(), t.PublicScript()] {
      hide RouteOf, PublicMatches;
      PublicRouteMatch(t, o, m);
    } else {
      hide PublicMatches, PublicRoute, Table.Valid;
    }
  }

  lemma MatchRoute(t: Table, listener: Listener, m: Match)
    requires t.Valid() && OffersMatch(t, listener, m)
    ensures InTable(t, RouteOf(t, listener, m)) && m in RouteOf(t, listener, m).matches
  {
    PrefixesApart(m.path.value);
    PublicMatchesMembers(t.smdPaths, m);
    PublicMatchesMembers(t.bootPaths, m);
    PublicMatchesMembers(t.scriptPaths, m);
    hide PublicMatches;
  }

  /** The objects offer exactly the matches of their table, each through one route. */
  lemma OffersIff(objects: set<Object>, t: Table, o: Object, m: Match, r: Request)
    requires t.Valid() && Shows(objects, t)
    ensures Offers(objects, o, m, r) <==>
      r.host == t.host && o == RouteOf(t, r.listener, m) && OffersMatch(t, r.listener, m) && Accepts(m, r)
  {
    hide InTable, RouteOf, OffersMatch, Accepts, Table.Valid;
    if o.Route? && InTable(t, o) && m in o.matches {
      RouteMatch(t, o, m);
    }
    if OffersMatch(t, r.listener, m) {
      MatchRoute(t, r.listener, m);
    }
  }

  /**
   Every request has at most one winning match, through one route, with no need for the Gateway API's tie-breakers.
   */
  lemma AtMostOneWinner(objects: set<Object>, t: Table, r: Request, o: Object, m: Match, o': Object, m': Match)
    requires t.Valid() && Shows(objects, t) && r.WellFormed()
    requires Wins(objects, o, m, r) && Wins(objects, o', m', r)
    ensures o == o' && m == m'
  {
    hide Shows, RouteOf, OffersMatch, Accepts, Better, Table.Valid;
    OffersIff(objects, t, o, m, r);
    OffersIff(objects, t, o', m', r);
    NoTies(m, m', r);
  }

  // ----- HTTPS -----

  const PROTECTED_ROUTES := ["smd", "boot-service", "boot-admin", "metadata-admin"]

  /** Policies guard JWT routes only. */
  ghost predicate GuardsJWTRoutes(objects: set<Object>) {
    forall route :: Secured(objects, route) ==> route in PROTECTED_ROUTES
  }

  /**
   The requests answered without a JWT: GETs on public paths, tokensmith's paths, metadata outside a live admin route,
   and whatever lies under a JWT route that lacks its policy.
   */
  predicate OpenTo(t: Table, objects: set<Object>, r: Request) {
    r.host == t.host &&
    ((r.verb == "GET" && (r.path in t.smdPaths || r.path in t.bootPaths))
     || (t.tokensmith && r.path in TOKENSMITH_PATHS)
     || (t.metadataPublic && Under(r.path, "/cloud-init") && !(t.metadataAdmin && Under(r.path, "/cloud-init/admin")))
     || (t.smd && Under(r.path, "/hsm") && !Secured(objects, "smd"))
     || (t.boot && Under(r.path, "/boot") && !Secured(objects, "boot-service"))
     || (t.bootAdmin && Under(r.path, "/admin/boot") && !Secured(objects, "boot-admin"))
     || (t.metadataAdmin && Under(r.path, "/cloud-init/admin") && !Secured(objects, "metadata-admin")))
  }

  /** The winning match of a request, if any match accepts it. */
  function BestMatch(t: Table, r: Request): Match {
    if t.tokensmith && r.path in TOKENSMITH_PATHS then Match(Exact(r.path), false)
    else if r.verb == "GET" && (r.path in t.smdPaths || r.path in t.bootPaths) then Match(Exact(r.path), true)
    else if t.smd && Under(r.path, "/hsm") then Match(PathPrefix("/hsm"), false)
    else if t.boot && Under(r.path, "/boot") then Match(PathPrefix("/boot"), false)
    else if t.bootAdmin && Under(r.path, "/admin/boot") then Match(PathPrefix("/admin/boot"), false)
    else if t.metadataAdmin && Under(r.path, "/cloud-init/admin") then Match(PathPrefix("/cloud-init/admin"), false)
    else Match(PathPrefix("/cloud-init"), false)
  }

  lemma TokensmithPathsApart(p: string)
    requires p in TOKENSMITH_PATHS
    ensures !("/hsm/" <= p) && !("/boot/" <= p) && !Under(p, "/cloud-init")
  {
    PrefixesApart(p);
    assert p[1] in ['.', 'o', 'h'];
    if p == "/health" {
      assert p[2] == 'e' && "/hsm/"[2] == 's';
    }
  }

  lemma AdminUnderMetadata(p: string)
    requires Under(p, "/cloud-init/admin")
    ensures Under(p, "/cloud-init")
  {
    PrefixOf(p, "/cloud-init/admin");
    assert "/cloud-init/" <= "/cloud-init/admin";
    assert p[..|"/cloud-init/"|] == "/cloud-init/admin"[..|"/cloud-init/"|];
  }

  lemma JWTPrefixesApart(p: string)
    ensures Under(p, "/hsm") ==> |p| > 1 && p[1] == 'h' && (p == "/hsm" || "/hsm/" <= p)
    ensures Under(p, "/boot") ==> |p| > 1 && p[1] == 'b' && (p == "/boot" || "/boot/" <= p)
    ensures Under(p, "/admin/boot") ==> |p| > 1 && p[1] == 'a'
    ensures Under(p, "/cloud-init") ==> |p| > 1 && p[1] == 'c'
    ensures "/hsm/" <= p ==> |p| > 1 && p[1] == 'h'
    ensures "/boot/" <= p ==> |p| > 1 && p[1] == 'b'
  {
    PrefixesApart(p);
    assert "/hsm"[1] == 'h' && "/boot"[1] == 'b' && "/admin/boot"[1] == 'a';
    if Under(p, "/hsm") { PrefixOf(p, "/hsm"); }
    if Under(p, "/boot") { PrefixOf(p, "/boot"); }
    if Under(p, "/admin/boot") { PrefixOf(p, "/admin/boot"); }
    assert "/hsm/" + "" == "/hsm" + "/" && "/boot/" == "/boot" + "/";
  }

  /** Some match accepts the request exactly when the best one does, and none outranks it. */
  lemma BestMatchWins(t: Table, r: Request, m: Match)
    requires t.Valid() && r.WellFormed() && r.listener == Https && OffersMatch(t, Https, m) && Accepts(m, r)
    ensures var best := BestMatch(t, r); OffersMatch(t, Https, best) && Accepts(best, r) && !Better(m, best)
  {
    JWTPrefixesApart(r.path);
    if r.path in TOKENSMITH_PATHS { TokensmithPathsApart(r.path); }
    if Under(r.path, "/cloud-init/admin") { AdminUnderMetadata(r.path); }
  }

  /** Over HTTPS, for any objects with this table: answered without a JWT exactly in these cases. */
  lemma AnsweredWithoutJWTIff(objects: set<Object>, t: Table, r: Request)
    requires t.Valid() && Shows(objects, t) && GuardsJWTRoutes(objects) && r.WellFormed() && r.listener == Https
    ensures AnsweredWithoutJWT(objects, r) <==> OpenTo(t, objects, r)
  {
    var best := BestMatch(t, r);
    var o := RouteOf(t, Https, best);
    assert AnsweredWithoutJWT(objects, r) <==>
      r.host == t.host && OffersMatch(t, Https, best) && Accepts(best, r) && !Secured(objects, o.name) by {
      hide BestMatch, OffersMatch, Accepts, Better, RouteOf, Secured, Shows, GuardsJWTRoutes, Table.Valid;
      BestIsTheWinner(objects, t, r);
    }
    hide AnsweredWithoutJWT, Shows, Secured;
    OpenIffBestIsOpen(t, objects, r);
  }

  lemma WinnerIsBest(objects: set<Object>, t: Table, r: Request)
    requires t.Valid() && Shows(objects, t) && r.WellFormed() && r.listener == Https
    ensures var best := BestMatch(t, r); var o := RouteOf(t, Https, best);
            && (Wins(objects, o, best, r) <==> r.host == t.host && OffersMatch(t, Https, best) && Accepts(best, r))
            && forall o', m' :: Wins(objects, o', m', r) ==> o' == o && m' == best
  {
    var best := BestMatch(t, r);
    var o := RouteOf(t, Https, best);
    hide BestMatch, OffersMatch, Accepts, Better, RouteOf, Shows, Table.Valid;
    OffersIff(objects, t, o, best, r);
    forall o', m' | Offers(objects, o', m', r)
      ensures r.host == t.host && OffersMatch(t, Https, best) && Accepts(best, r) && !Better(m', best)
    {
      OffersIff(objects, t, o', m', r);
      BestMatchWins(t, r, m');
    }
    forall o', m' | Wins(objects, o', m', r) ensures o' == o && m' == best {
      assert Offers(objects, o, best, r);
      OffersIff(objects, t, o', m', r);
      AtMostOneWinner(objects, t, r, o, best, o', m');
    }
  }

  lemma BestIsTheWinner(objects: set<Object>, t: Table, r: Request)
    requires t.Valid() && Shows(objects, t) && r.WellFormed() && r.listener == Https
    ensures var best := BestMatch(t, r); var o := RouteOf(t, Https, best);
            AnsweredWithoutJWT(objects, r) <==>
              r.host == t.host && OffersMatch(t, Https, best) && Accepts(best, r) && !Secured(objects, o.name)
  {
    hide BestMatch, OffersMatch, Accepts, RouteOf, Secured, Shows, Table.Valid, Wins;
    WinnerIsBest(objects, t, r);
  }

  /**
   Which service a request over HTTPS is for, and whether the route's prefix is cut off on the way, as the two admin
   routes do; `admin` tells whether the admin route of metadata is there. None is for paths no service owns.
   */
  function Owner(path: string, admin: bool): Option<Action> {
    if path in ["/.well-known/jwks.json", "/oauth/token", "/oauth/exchange", "/health"] then
      Some(Forward(Tokensmith, false))
    else if Under(path, "/hsm") then Some(Forward(SMD, false))
    else if Under(path, "/boot") then Some(Forward(BootService, false))
    else if Under(path, "/admin/boot") then Some(Forward(BootService, true))
    else if admin && Under(path, "/cloud-init/admin") then Some(Forward(MetadataService, true))
    else if Under(path, "/cloud-init") then Some(Forward(MetadataService, false))
    else None
  }

  /** Which requests over HTTPS any route answers, with or without a JWT. */
  predicate Answers(t: Table, r: Request) {
    && r.host == t.host
    && ((r.verb == "GET" && (r.path in t.smdPaths || r.path in t.bootPaths))
        || (t.tokensmith && r.path in TOKENSMITH_PATHS)
        || (t.smd && Under(r.path, "/hsm")) || (t.boot && Under(r.path, "/boot"))
        || (t.bootAdmin && Under(r.path, "/admin/boot")) || (t.metadataAdmin && Under(r.path, "/cloud-init/admin"))
        || (t.metadataPublic && Under(r.path, "/cloud-init")))
  }

  /** Over HTTPS, for any objects with this table: who is answered, and by the service that owns the path. */
  lemma ForwardedToOwner(objects: set<Object>, t: Table, r: Request, action: Action)
    requires t.Valid() && Shows(objects, t) && r.WellFormed() && r.listener == Https
    ensures Served(objects, r, action) <==> Answers(t, r) && Owner(r.path, t.metadataAdmin) == Some(action)
  {
    var best := BestMatch(t, r);
    var o := RouteOf(t, Https, best);
    WinnerIsBest(objects, t, r);
    assert Served(objects, r, action) <==>
      r.host == t.host && OffersMatch(t, Https, best) && Accepts(best, r) && o.action == action by {
      hide BestMatch, OffersMatch, Accepts, RouteOf, Shows, Table.Valid, Wins;
    }
    hide Served, Shows, Wins, BestMatch, RouteOf, OffersMatch, Accepts, Answers, Owner, Table.Valid;
    BestIffAnswers(t, r);
    if Answers(t, r) {
      BestBelongsToOwner(t, r);
    }
  }

  lemma BestIffAnswers(t: Table, r: Request)
    requires t.Valid() && r.WellFormed()
    ensures var best := BestMatch(t, r);
            r.host == t.host && OffersMatch(t, Https, best) && Accepts(best, r) <==> Answers(t, r)
  {
    if Under(r.path, "/cloud-init/admin") { AdminUnderMetadata(r.path); }
    hide Under, RouteOf;
  }

  lemma RouteActions(t: Table, m: Match)
    ensures var action := RouteOf(t, Https, m).action;
            match m.path
            case Exact(v) =>
              action == if !m.getOnly then Forward(Tokensmith, false)
                        else Forward(if "/hsm/" <= v then SMD else BootService, false)
            case PathPrefix(v) =>
              && (v == "/hsm" ==> action == Forward(SMD, false))
              && (v == "/boot" ==> action == Forward(BootService, false))
              && (v == "/admin/boot" ==> action == Forward(BootService, true))
              && (v == "/cloud-init" ==> action == Forward(MetadataService, false))
              && (v == "/cloud-init/admin" ==> action == Forward(MetadataService, true))
  {
    hide PublicMatches;
  }

  lemma BestBelongsToOwner(t: Table, r: Request)
    requires t.Valid() && r.WellFormed() && Answers(t, r)
    ensures Owner(r.path, t.metadataAdmin) == Some(RouteOf(t, Https, BestMatch(t, r)).action)
  {
    JWTPrefixesApart(r.path);
    if r.path in TOKENSMITH_PATHS { TokensmithPathsApart(r.path); }
    if Under(r.path, "/cloud-init/admin") { AdminUnderMetadata(r.path); }
    RouteActions(t, BestMatch(t, r));
    hide Under, RouteOf;
  }

  lemma OpenIffBestIsOpen(t: Table, objects: set<Object>, r: Request)
    requires t.Valid() && GuardsJWTRoutes(objects) && r.WellFormed()
    ensures var best := BestMatch(t, r); var o := RouteOf(t, Https, best);
            OpenTo(t, objects, r) <==>
              r.host == t.host && OffersMatch(t, Https, best) && Accepts(best, r) && !Secured(objects, o.name)
  {
    JWTPrefixesApart(r.path);
    if r.path in TOKENSMITH_PATHS { TokensmithPathsApart(r.path); }
    if Under(r.path, "/cloud-init/admin") { AdminUnderMetadata(r.path); }
    assert "tokensmith" !in PROTECTED_ROUTES && "metadata-public" !in PROTECTED_ROUTES;
    assert SMD_PUBLIC !in PROTECTED_ROUTES && BOOT_PUBLIC !in PROTECTED_ROUTES;
    hide Secured, Under, PublicMatches;
  }

  // ----- HTTP -----

  /** On plain HTTP only the GET of a published boot script reaches a service; everything else is redirected. */
  lemma RedirectedUnlessScript(objects: set<Object>, t: Table, r: Request)
    requires t.Valid() && Shows(objects, t) && r.WellFormed() && r.listener == Http && r.host == t.host
    ensures var script := t.scriptPaths != [] && r.verb == "GET" && r.path == BOOT_SCRIPT;
            forall action :: Served(objects, r, action) <==>
              action == if script then Forward(BootService, false) else RedirectToHTTPS
  {
    hide Shows;
    var script := t.scriptPaths != [] && r.verb == "GET" && r.path == BOOT_SCRIPT;
    var m := if script then Match(Exact(BOOT_SCRIPT), true) else Match(PathPrefix("/"), false);
    OffersIff(objects, t, RouteOf(t, Http, m), m, r);
    forall o', m' | Offers(objects, o', m', r) ensures !Better(m', m) {
      OffersIff(objects, t, o', m', r);
    }
    assert Wins(objects, RouteOf(t, Http, m), m, r);
    forall o', m' | Wins(objects, o', m', r) ensures o' == RouteOf(t, Http, m) {
      AtMostOneWinner(objects, t, r, RouteOf(t, Http, m), m, o', m');
    }
  }

  /** Requests for any other hostname are answered by nothing. */
  lemma OtherHostsUnanswered(objects: set<Object>, t: Table, o: Object, m: Match, r: Request)
    requires t.Valid() && Shows(objects, t) && r.host != t.host
    ensures !Offers(objects, o, m, r)
  {
    OffersIff(objects, t, o, m, r);
    hide *;
  }

  // ----- what one pass renders -----

  predicate RouteIn(spec: Spec, gated: bool, o: Object) {
    || o == Redirect(spec.domain)
    || (spec.Deploys(Tokensmith) && o == TokensmithRoute(spec.domain))
    || (spec.Deploys(MetadataService) && o == MetadataRoute(spec.domain))
    || (WantsSMDPublic(spec) && o == SMDPublic(spec))
    || (WantsBootPublic(spec) && o == BootPublic(spec))
    || (WantsBootPublicHTTP(spec) && o == BootPublicHTTP(spec))
    || (gated && spec.Deploys(SMD) && o == SMDRoute(spec.domain))
    || (gated && spec.Deploys(BootService) && (o == BootRoute(spec.domain) || o == BootAdminRoute(spec.domain)))
    || (gated && spec.Deploys(MetadataService) && o == MetadataAdminRoute(spec.domain))
  }

  lemma InIf<T>(condition: bool, objects: seq<T>, o: T)
    ensures o in If(condition, objects) <==> condition && o in objects
  {
  }

  lemma AlwaysMembers(spec: Spec, o: Object)
    ensures o in ObjectsAlways(spec) <==>
      || o == GatewayListeners(spec.domain) || o == Redirect(spec.domain)
      || (spec.Deploys(Tokensmith) && o == TokensmithRoute(spec.domain))
      || (spec.Deploys(MetadataService) && o == MetadataRoute(spec.domain))
      || (WantsSMDPublic(spec) && o == SMDPublic(spec))
      || (WantsBootPublic(spec) && o == BootPublic(spec))
      || (WantsBootPublicHTTP(spec) && o == BootPublicHTTP(spec))
  {
    hide If, SMDPublic, BootPublic, BootPublicHTTP, WantsSMDPublic, WantsBootPublic, WantsBootPublicHTTP, Spec.Deploys;
    InIf(spec.Deploys(Tokensmith), [TokensmithRoute(spec.domain)], o);
    InIf(spec.Deploys(MetadataService), [MetadataRoute(spec.domain)], o);
    InIf(WantsSMDPublic(spec), [SMDPublic(spec)], o);
    InIf(WantsBootPublic(spec), [BootPublic(spec)], o);
    InIf(WantsBootPublicHTTP(spec), [BootPublicHTTP(spec)], o);
  }

  lemma RequiredMembers(spec: Spec, btls: bool, o: Object)
    ensures o in ObjectsRequiringTokensmith(spec, btls) <==>
      || (spec.Deploys(Tokensmith) && spec.tokensmithTLS && btls && o == BackendTLSPolicy)
      || (spec.Deploys(SMD) &&
          o in [SMDRoute(spec.domain), SecurityPolicy("jwt-smd", "smd"), RateLimit("smd-ratelimit", "smd")])
      || (spec.Deploys(BootService) &&
          o in [BootRoute(spec.domain), BootAdminRoute(spec.domain), SecurityPolicy("jwt-boot", "boot-service"),
                SecurityPolicy("jwt-boot-admin", "boot-admin")])
      || (spec.Deploys(MetadataService) &&
          o in [MetadataAdminRoute(spec.domain), SecurityPolicy("jwt-metadata-admin", "metadata-admin")])
  {
    hide If, Spec.Deploys;
    InIf(spec.Deploys(Tokensmith) && spec.tokensmithTLS && btls, [BackendTLSPolicy], o);
    InIf(spec.Deploys(SMD),
        [SMDRoute(spec.domain), SecurityPolicy("jwt-smd", "smd"), RateLimit("smd-ratelimit", "smd")], o);
    InIf(spec.Deploys(BootService),
        [BootRoute(spec.domain), BootAdminRoute(spec.domain), SecurityPolicy("jwt-boot", "boot-service"),
         SecurityPolicy("jwt-boot-admin", "boot-admin")], o);
    InIf(spec.Deploys(MetadataService),
        [MetadataAdminRoute(spec.domain), SecurityPolicy("jwt-metadata-admin", "metadata-admin")], o);
  }

  lemma RenderedMembers(spec: Spec, gated: bool, btls: bool, o: Object)
    ensures o in Rendered(spec, gated, btls)
            <==> o in ObjectsAlways(spec) || (gated && o in ObjectsRequiringTokensmith(spec, btls))
  {
    hide If, ObjectsAlways, ObjectsRequiringTokensmith;
    InIf(gated, ObjectsRequiringTokensmith(spec, btls), o);
  }

  lemma RenderedRoutes(spec: Spec, gated: bool, btls: bool, o: Object)
    requires o.Route?
    ensures o in Rendered(spec, gated, btls) <==> RouteIn(spec, gated, o)
  {
    hide Rendered, ObjectsAlways, ObjectsRequiringTokensmith, Spec.Deploys;
    hide SMDPublic, BootPublic, BootPublicHTTP, WantsSMDPublic, WantsBootPublic, WantsBootPublicHTTP;
    RenderedMembers(spec, gated, btls, o);
    AlwaysMembers(spec, o);
    RequiredMembers(spec, btls, o);
  }

  /** The table of a pass; `gated` tells whether the JWT routes are rendered. */
  function TableOf(spec: Spec, gated: bool): Table {
    Table(spec.domain, spec.Deploys(Tokensmith), spec.Deploys(MetadataService),
          gated && spec.Deploys(SMD), gated && spec.Deploys(BootService), gated && spec.Deploys(BootService),
          gated && spec.Deploys(MetadataService),
          if spec.Deploys(SMD) then SMDPublicPaths(spec) else [],
          if spec.Deploys(BootService) then BootPublicPaths(spec) else [],
          BootHTTPPublicPaths(spec))
  }

  lemma TableValid(spec: Spec, gated: bool)
    ensures TableOf(spec, gated).Valid()
  {
    PublicPathsUnderPrefix(spec);
    hide SMDPublicPaths, BootPublicPaths;
  }

  lemma RenderedListens(spec: Spec, gated: bool, btls: bool, host: string)
    ensures GatewayListeners(host) in Rendered(spec, gated, btls) <==> host == spec.domain
  {
    hide Rendered, ObjectsAlways, ObjectsRequiringTokensmith, Spec.Deploys;
    hide PublicMatches, WantsSMDPublic, WantsBootPublic, WantsBootPublicHTTP;
    var o := GatewayListeners(host);
    RenderedMembers(spec, gated, btls, o);
    AlwaysMembers(spec, o);
    RequiredMembers(spec, btls, o);
  }

  lemma RouteInTable(spec: Spec, gated: bool, o: Object)
    requires o.Route?
    ensures RouteIn(spec, gated, o) <==> InTable(TableOf(spec, gated), o)
  {
    hide Spec.Deploys, SMDPublicPaths, BootPublicPaths, BootHTTPPublicPaths, PublicRoute, PrefixRoute, Redirect;
    hide TokensmithRoute;
  }

  lemma RenderedShows(spec: Spec, gated: bool, btls: bool)
    ensures TableOf(spec, gated).Valid() && Shows(Elements(Rendered(spec, gated, btls)), TableOf(spec, gated))
  {
    TableValid(spec, gated);
    var t := TableOf(spec, gated);
    assert t.host == spec.domain;
    hide Table.Valid, TableOf, InTable, Rendered, RouteIn;
    forall host ensures Listens(Elements(Rendered(spec, gated, btls)), host) <==> host == t.host {
      RenderedListens(spec, gated, btls, host);
    }
    forall o: Object | o.Route? && o.host == t.host
      ensures o in Elements(Rendered(spec, gated, btls)) <==> InTable(t, o)
    {
      RenderedRoutes(spec, gated, btls, o);
      RouteInTable(spec, gated, o);
    }
  }

  lemma RenderedPolicies(spec: Spec, gated: bool, btls: bool, name: string, route: string)
    ensures SecurityPolicy(name, route) in Rendered(spec, gated, btls) <==>
      gated && ((spec.Deploys(SMD) && name == "jwt-smd" && route == "smd")
                || (spec.Deploys(BootService) && name == "jwt-boot" && route == "boot-service")
                || (spec.Deploys(BootService) && name == "jwt-boot-admin" && route == "boot-admin")
                || (spec.Deploys(MetadataService) && name == "jwt-metadata-admin" && route == "metadata-admin"))
  {
    hide Rendered, ObjectsAlways, ObjectsRequiringTokensmith, Spec.Deploys;
    hide PublicMatches, WantsSMDPublic, WantsBootPublic, WantsBootPublicHTTP;
    var o := SecurityPolicy(name, route);
    RenderedMembers(spec, gated, btls, o);
    AlwaysMembers(spec, o);
    RequiredMembers(spec, btls, o);
  }

  predicate Protected(spec: Spec, route: string) {
    || (spec.Deploys(SMD) && route == "smd")
    || (spec.Deploys(BootService) && (route == "boot-service" || route == "boot-admin"))
    || (spec.Deploys(MetadataService) && route == "metadata-admin")
  }

  /** SMD's route is rate limited whenever it is rendered, and no other route is; nothing else is trusted over TLS. */
  lemma LimitsAndTrust(spec: Spec, gated: bool, btls: bool, name: string, route: string)
    ensures RateLimit(name, route) in Rendered(spec, gated, btls) <==>
      gated && spec.Deploys(SMD) && name == "smd-ratelimit" && route == "smd"
    ensures BackendTLSPolicy in Rendered(spec, gated, btls) <==>
      gated && spec.Deploys(Tokensmith) && spec.tokensmithTLS && btls
  {
    hide Rendered, ObjectsAlways, ObjectsRequiringTokensmith, Spec.Deploys;
    hide PublicMatches, WantsSMDPublic, WantsBootPublic, WantsBootPublicHTTP;
    var o := RateLimit(name, route);
    RenderedMembers(spec, gated, btls, o);
    AlwaysMembers(spec, o);
    RequiredMembers(spec, btls, o);
    RenderedMembers(spec, gated, btls, BackendTLSPolicy);
    AlwaysMembers(spec, BackendTLSPolicy);
    RequiredMembers(spec, btls, BackendTLSPolicy);
  }

  /** The policies of a pass, by the routes they protect. */
  lemma SecuredIff(spec: Spec, gated: bool, btls: bool, route: string)
    ensures Secured(Elements(Rendered(spec, gated, btls)), route) <==> gated && Protected(spec, route)
  {
    var objects := Rendered(spec, gated, btls);
    hide Rendered;
    forall name ensures SecurityPolicy(name, route) in objects ==> gated && Protected(spec, route) {
      RenderedPolicies(spec, gated, btls, name, route);
    }
    var name := if route == "smd" then "jwt-smd" else if route == "boot-service" then "jwt-boot"
                else if route == "boot-admin" then "jwt-boot-admin" else "jwt-metadata-admin";
    RenderedPolicies(spec, gated, btls, name, route);
    assert gated && Protected(spec, route) ==> SecurityPolicy(name, route) in Elements(objects);
    assert forall o :: o in objects && o.SecurityPolicy? ==> o == SecurityPolicy(o.name, o.target);
  }

  /**
   The requests that are meant to be answered over HTTPS without a JWT; `gated` tells whether the JWT routes are live.
   */
  predicate PubliclyServed(spec: Spec, gated: bool, r: Request) {
    r.host == spec.domain &&
    ((r.verb == "GET" && spec.Deploys(SMD) && r.path in SMDPublicPaths(spec))
     || (r.verb == "GET" && spec.Deploys(BootService) && r.path in BootPublicPaths(spec))
     || (spec.Deploys(Tokensmith) && r.path in TOKENSMITH_PATHS)
     || (spec.Deploys(MetadataService) && Under(r.path, "/cloud-init")
         && !(gated && Under(r.path, "/cloud-init/admin"))))
  }

  /**
   Over HTTPS a request is answered by a rendered route without a SecurityPolicy exactly when it is a GET on a
   resolved public path of a deployed service, a tokensmith path, or a metadata path outside the admin subtree. While
   the JWT routes are held back that subtree is still served by the public metadata route.
   */
  lemma HttpsWithoutJWT(spec: Spec, gated: bool, btls: bool, r: Request)
    requires r.WellFormed() && r.listener == Https
    ensures AnsweredWithoutJWT(Elements(Rendered(spec, gated, btls)), r) <==> PubliclyServed(spec, gated, r)
  {
    var objects, t := Elements(Rendered(spec, gated, btls)), TableOf(spec, gated);
    forall route ensures Secured(objects, route) <==> gated && Protected(spec, route) {
      SecuredIff(spec, gated, btls, route);
    }
    assert GuardsJWTRoutes(objects);
    RenderedShows(spec, gated, btls);
    hide Rendered, Elements, Shows, Secured, Table.Valid, AnsweredWithoutJWT, GuardsJWTRoutes, Under;
    AnsweredWithoutJWTIff(objects, t, r);
    hide SMDPublicPaths, BootPublicPaths, BootHTTPPublicPaths, Spec.Deploys;
  }

  /** On plain HTTP only the enabled GET of the boot script reaches a service; everything else is redirected. */
  lemma HttpRedirects(spec: Spec, gated: bool, btls: bool, r: Request, action: Action)
    requires r.WellFormed() && r.listener == Http && r.host == spec.domain
    ensures Served(Elements(Rendered(spec, gated, btls)), r, action) <==>
      action == if WantsBootPublicHTTP(spec) && r.verb == "GET" && r.path == "/boot/v1/bootscript"
                then Forward(BootService, false) else RedirectToHTTPS
  {
    RenderedShows(spec, gated, btls);
    hide Rendered, Elements, Shows, Served, BootPublicPaths, BootHTTPPublicPaths;
    RedirectedUnlessScript(Elements(Rendered(spec, gated, btls)), TableOf(spec, gated), r);
  }

  /** Over HTTPS the objects of one pass forward each request they answer to the service that owns its path. */
  lemma HttpsForwards(spec: Spec, gated: bool, btls: bool, r: Request, action: Action)
    requires r.WellFormed() && r.listener == Https
    ensures Served(Elements(Rendered(spec, gated, btls)), r, action) <==>
      Answers(TableOf(spec, gated), r) && Owner(r.path, gated && spec.Deploys(MetadataService)) == Some(action)
  {
    RenderedShows(spec, gated, btls);
    hide Rendered, Elements, Shows, Served, Owner, Answers, SMDPublicPaths, BootPublicPaths, BootHTTPPublicPaths;
    ForwardedToOwner(Elements(Rendered(spec, gated, btls)), TableOf(spec, gated), r, action);
  }
}
