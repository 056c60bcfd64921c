/**
 Which exact paths the gateway serves without a JWT: resolvePublicPaths and its users in
 internal/reconcilers/gateway.go.
 */
module PublicPaths {
  import opened Options
  import opened ControlPlanes
  import opened Text

  const SMD_PREFIX := "/hsm"
  const BOOT_PREFIX := "/boot"
  const BOOT_SCRIPT := "/boot/v1/bootscript"

  const DEFAULT_SMD_PATHS: seq<string> := [
    "/hsm/v2/service/ready",
    "/hsm/v2/service/liveness",
    "/hsm/v2/service/values",
    "/hsm/v2/service/values/arch",
    "/hsm/v2/service/values/class",
    "/hsm/v2/service/values/flag",
    "/hsm/v2/service/values/nettype",
    "/hsm/v2/service/values/role",
    "/hsm/v2/service/values/subrole",
    "/hsm/v2/service/values/state",
    "/hsm/v2/service/values/type",
    "/hsm/v2/State/Components",
    "/hsm/v2/Inventory/EthernetInterfaces"]

  const DEFAULT_BOOT_PATHS: seq<string> := [BOOT_SCRIPT, "/boot/v1/service/status", "/boot/v1/service/version"]

  /** A non-empty list in the spec replaces the defaults. */
  function Source(routes: PublicRoutes, defaults: seq<string>): seq<string> {
    if |routes.paths| > 0 then routes.paths else defaults
  }

  /** Entries under the service's prefix, each kept once, in order of first appearance. */
  function Kept(paths: seq<string>, prefix: string): seq<string> {
    if paths == [] then []
    else
      var kept, p := Kept(paths[..|paths| - 1], prefix), paths[|paths| - 1];
      if !(prefix + "/" <= p) || p in kept then kept else kept + [p]
  }

  /** The empty list stands for nil: no public route. */
  function Resolve(routes: PublicRoutes, prefix: string, defaults: seq<string>): seq<string> {
    if routes.IsEnabled() then Sort(Kept(Source(routes, defaults), prefix)) else []
  }

  method ResolvePublicPaths(routes: PublicRoutes, prefix: string, defaults: seq<string>)
    returns (out: Option<seq<string>>)
    ensures out == if Resolve(routes, prefix, defaults) == [] then None else Some(Resolve(routes, prefix, defaults))
  {
    if !routes.IsEnabled() {
      return None;
    }
    var src := defaults;
    if |routes.paths| > 0 {
      src := routes.paths;
    }
    var seen: set<string> := {};
    var kept: seq<string> := [];
    for i := 0 to |src|
      invariant kept == Kept(src[..i], prefix)
      invariant forall p :: p in seen <==> p in kept
    {
      assert src[..i + 1][..i] == src[..i];
      var p := src[i];
      if prefix + "/" <= p && p !in seen {
        seen := seen + {p};
        kept := kept + [p];
      }
    }
    assert src[..|src|] == src;
    var sorted := Sort(kept);
    if |sorted| == 0 {
      return None;
    }
    return Some(sorted);
  }

  lemma {:induction false} KeptMembers(paths: seq<string>, prefix: string)
    ensures Distinct(Kept(paths, prefix))
    ensures forall p :: p in Kept(paths, prefix) <==> p in paths && prefix + "/" <= p
  {
    if paths != [] {
      var init := paths[..|paths| - 1];
      KeptMembers(init, prefix);
      assert forall p :: p in paths <==> p in init || p == paths[|paths| - 1];
    }
  }

  /**
   The published list: strictly sorted, and exactly the configured paths under the prefix while the route is enabled.
   */
  lemma ResolveMembers(routes: PublicRoutes, prefix: string, defaults: seq<string>)
    ensures StrictlySorted(Resolve(routes, prefix, defaults))
    ensures forall p :: p in Resolve(routes, prefix, defaults) <==>
      routes.IsEnabled() && p in Source(routes, defaults) && prefix + "/" <= p
  {
    KeptMembers(Source(routes, defaults), prefix);
    SortSorts(Kept(Source(routes, defaults), prefix));
  }

  /** Order and repetition in the spec do not matter. */
  lemma ResolveDependsOnSet(a: PublicRoutes, b: PublicRoutes, prefix: string, defaults: seq<string>)
    requires a.IsEnabled() == b.IsEnabled()
    requires forall p :: p in a.paths <==> p in b.paths
    ensures Resolve(a, prefix, defaults) == Resolve(b, prefix, defaults)
  {
    assert |a.paths| > 0 ==> a.paths[0] in b.paths;
    assert |b.paths| > 0 ==> b.paths[0] in a.paths;
    ResolveMembers(a, prefix, defaults);
    ResolveMembers(b, prefix, defaults);
    SortedUnique(Resolve(a, prefix, defaults), Resolve(b, prefix, defaults));
  }

  function SMDPublicPaths(spec: Spec): seq<string> { Resolve(spec.smdPublicRoutes, SMD_PREFIX, DEFAULT_SMD_PATHS) }

  function BootPublicPaths(spec: Spec): seq<string> { Resolve(spec.bootPublicRoutes, BOOT_PREFIX, DEFAULT_BOOT_PATHS) }

  /** Only the boot script is ever served in plain text, and only while it is public over HTTPS. */
  function BootHTTPPublicPaths(spec: Spec): seq<string> {
    if spec.Deploys(BootService) && (spec.httpBootScript.None? || spec.httpBootScript.value)
       && BOOT_SCRIPT in BootPublicPaths(spec)
    then [BOOT_SCRIPT] else []
  }

  /** Public paths stay below the prefix of their service, whatever the spec says. */
  lemma PublicPathsUnderPrefix(spec: Spec)
    ensures forall p :: p in SMDPublicPaths(spec) ==> "/hsm/" <= p
    ensures forall p :: p in BootPublicPaths(spec) ==> "/boot/" <= p
  {
    ResolveMembers(spec.smdPublicRoutes, SMD_PREFIX, DEFAULT_SMD_PATHS);
    ResolveMembers(spec.bootPublicRoutes, BOOT_PREFIX, DEFAULT_BOOT_PATHS);
    assert SMD_PREFIX + "/" == "/hsm/" && BOOT_PREFIX + "/" == "/boot/";
  }

  /**
   By default SMD publishes its service endpoints and two read-only collections, and the boot service its script, status
   and version.
   */
  lemma DefaultPaths(p: string)
    ensures p in DEFAULT_SMD_PATHS ==>
      "/hsm/v2/service/" <= p || p in {"/hsm/v2/State/Components", "/hsm/v2/Inventory/EthernetInterfaces"}
    ensures p in DEFAULT_BOOT_PATHS <==>
      p in {"/boot/v1/bootscript", "/boot/v1/service/status", "/boot/v1/service/version"}
  {
    hide DEFAULT_BOOT_PATHS;
    assert p in DEFAULT_BOOT_PATHS <==>
        p == "/boot/v1/bootscript" || p == "/boot/v1/service/status" || p == "/boot/v1/service/version" by {
      BootDefaults(p);
    }
  }

  lemma BootDefaults(p: string)
    ensures p in DEFAULT_BOOT_PATHS <==>
      p == "/boot/v1/bootscript" || p == "/boot/v1/service/status" || p == "/boot/v1/service/version"
  {
    hide DEFAULT_SMD_PATHS;
  }

  /** The public paths in the spec's own fields. */
  lemma PublicPathsIff(spec: Spec, p: string)
    ensures p in SMDPublicPaths(spec) <==>
      && (spec.smdPublicRoutes.enabled.None? || spec.smdPublicRoutes.enabled == Some(true)) && "/hsm/" <= p
      && p in if spec.smdPublicRoutes.paths == [] then DEFAULT_SMD_PATHS else spec.smdPublicRoutes.paths
    ensures p in BootPublicPaths(spec) <==>
      && (spec.bootPublicRoutes.enabled.None? || spec.bootPublicRoutes.enabled == Some(true)) && "/boot/" <= p
      && p in if spec.bootPublicRoutes.paths == [] then DEFAULT_BOOT_PATHS else spec.bootPublicRoutes.paths
  {
    assert SMD_PREFIX + "/" == "/hsm/" && BOOT_PREFIX + "/" == "/boot/";
    ResolveMembers(spec.smdPublicRoutes, SMD_PREFIX, DEFAULT_SMD_PATHS);
    ResolveMembers(spec.bootPublicRoutes, BOOT_PREFIX, DEFAULT_BOOT_PATHS);
    hide Resolve, DEFAULT_SMD_PATHS, DEFAULT_BOOT_PATHS;
  }

  /**
   The boot script is published in plain text exactly when the boot service runs here, its public route is on and names
   the script, and plain text was not switched off.
   */
  lemma ScriptPublishedIff(spec: Spec)
    ensures BootHTTPPublicPaths(spec) == [] || BootHTTPPublicPaths(spec) == ["/boot/v1/bootscript"]
    ensures BootHTTPPublicPaths(spec) != [] <==>
      && spec.bootService.enabled && spec.bootService.externalEndpoint.None?
      && (spec.httpBootScript.None? || spec.httpBootScript == Some(true))
      && (spec.bootPublicRoutes.enabled.None? || spec.bootPublicRoutes.enabled == Some(true))
      && (spec.bootPublicRoutes.paths == [] || "/boot/v1/bootscript" in spec.bootPublicRoutes.paths)
  {
    PublicPathsIff(spec, BOOT_SCRIPT);
    assert "/boot/" <= BOOT_SCRIPT && BOOT_SCRIPT in DEFAULT_BOOT_PATHS && BOOT_SCRIPT == "/boot/v1/bootscript";
    assert spec.Deploys(BootService) <==> spec.bootService.enabled && spec.bootService.externalEndpoint.None?;
    hide BootPublicPaths, BOOT_SCRIPT, DEFAULT_BOOT_PATHS, Spec.Deploys;
  }
}
