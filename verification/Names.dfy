/**
 The names derived from a cluster name: Kubernetes namespaces and cluster-scoped objects, Vault paths, roles and OIDC
 clients, and node labels. Distinct cluster names must never meet in any of them.
 */
module Names {
  import opened ControlPlanes
  import opened Text

  /** The CRD's pattern for clusterName: lower-case letters, digits and hyphens, starting with a letter. */
  predicate ValidClusterName(name: string) {
    && 1 <= |name| <= 32
    && 'a' <= name[0] <= 'z'
    && forall i :: 0 <= i < |name| ==> 'a' <= name[i] <= 'z' || '0' <= name[i] <= '9' || name[i] == '-'
  }

  function Namespace(cluster: string): string { "openchami-" + cluster }

  function NetworkProbeRole(cluster: string): string { "openchami-" + cluster + "-network-probe" }

  // ----- node labels (internal/networkprobe/target.go) -----

  function KindName(kind: Kind): string { if kind.Provision? then "provision" else "bmc" }

  function ReadyLabel(cluster: string, kind: Kind): string {
    "openchami.org/" + cluster + "-" + KindName(kind) + "-network-ready"
  }

  function RevisionLabel(cluster: string, kind: Kind): string {
    "openchami.org/" + cluster + "-" + KindName(kind) + "-probe-revision"
  }

  // ----- Vault (internal/vault/paths.go, internal/vault/client_vault.go) -----

  /** The prefix the deletion path passes to DeleteClusterPaths. */
  function KVPrefix(cluster: string): string { "openchami/" + cluster + "/" }

  datatype VaultPaths = VaultPaths(
    dbSMD: string, dbBootService: string, s3: string, logs: string, tokensmithOIDC: string, cliOIDC: string)

  function Paths(cluster: string): VaultPaths {
    var prefix := "openchami/" + cluster;
    VaultPaths(prefix + "/db/smd", prefix + "/db/boot-service", prefix + "/s3/versitygw", prefix + "/s3/logs",
               prefix + "/oidc/tokensmith-client", prefix + "/oidc/cli-client")
  }

  function SecretPaths(cluster: string): set<string> {
    var p := Paths(cluster);
    {p.dbSMD, p.dbBootService, p.s3, p.logs, p.tokensmithOIDC, p.cliOIDC}
  }

  function VaultRole(cluster: string): string { "openchami-" + cluster + "-services" }

  // ----- distinctness -----

  lemma ObjectNamesDistinct(a: string, b: string)
    requires a != b
    ensures Namespace(a) != Namespace(b)
    ensures NetworkProbeRole(a) != NetworkProbeRole(b)
    ensures VaultRole(a) != VaultRole(b)
  {
    if Namespace(a) == Namespace(b) { FrameInjective("openchami-", a, b, ""); }
    if NetworkProbeRole(a) == NetworkProbeRole(b) { FrameInjective("openchami-", a, b, "-network-probe"); }
    if VaultRole(a) == VaultRole(b) { FrameInjective("openchami-", a, b, "-services"); }
  }

  lemma OIDCClientsDisjoint(a: string, b: string)
    requires a != b
    ensures {"openchami-" + a + "-tokensmith", "openchami-" + a + "-cli"}
         !! {"openchami-" + b + "-tokensmith", "openchami-" + b + "-cli"}
  {
    LastDiffers("openchami-" + a, "-tokensmith", "openchami-" + b, "-cli");
    LastDiffers("openchami-" + b, "-tokensmith", "openchami-" + a, "-cli");
    forall suffix | suffix in {"-tokensmith", "-cli"}
      ensures "openchami-" + a + suffix != "openchami-" + b + suffix
    {
      if "openchami-" + a + suffix == "openchami-" + b + suffix { FrameInjective("openchami-", a, b, suffix); }
    }
  }

  function ProbeLabels(cluster: string): set<string> {
    {ReadyLabel(cluster, Provision), ReadyLabel(cluster, Bmc),
     RevisionLabel(cluster, Provision), RevisionLabel(cluster, Bmc)}
  }

  /** The ready labels of each kind, spelled out. */
  lemma ReadyLabels(cluster: string)
    ensures ReadyLabel(cluster, Provision) == "openchami.org/" + cluster + "-provision-network-ready"
    ensures ReadyLabel(cluster, Bmc) == "openchami.org/" + cluster + "-bmc-network-ready"
  {
    var prefix := "openchami.org/" + cluster;
    assert prefix + "-" + "provision" + "-network-ready" == prefix + "-provision-network-ready";
    assert prefix + "-" + "bmc" + "-network-ready" == prefix + "-bmc-network-ready";
  }

  /** And the revision labels. */
  lemma RevisionLabels(cluster: string)
    ensures RevisionLabel(cluster, Provision) == "openchami.org/" + cluster + "-provision-probe-revision"
    ensures RevisionLabel(cluster, Bmc) == "openchami.org/" + cluster + "-bmc-probe-revision"
  {
    var prefix := "openchami.org/" + cluster;
    assert prefix + "-" + "provision" + "-probe-revision" == prefix + "-provision-probe-revision";
    assert prefix + "-" + "bmc" + "-probe-revision" == prefix + "-bmc-probe-revision";
  }

  /** A label key names its family, its kind and its cluster, although cluster names may contain hyphens. */
  lemma LabelsInjective(a: string, k: Kind, b: string, l: Kind)
    ensures ReadyLabel(a, k) != RevisionLabel(b, l)
    ensures ReadyLabel(a, k) == ReadyLabel(b, l) ==> a == b && k == l
    ensures RevisionLabel(a, k) == RevisionLabel(b, l) ==> a == b && k == l
  {
    LastDiffers("openchami.org/" + a + "-" + KindName(k), "-network-ready",
                "openchami.org/" + b + "-" + KindName(l), "-probe-revision");
    KindsInjective(a, k, b, l, "-network-ready");
    KindsInjective(a, k, b, l, "-probe-revision");
  }

  lemma KindsInjective(a: string, k: Kind, b: string, l: Kind, suffix: string)
    ensures "openchami.org/" + a + "-" + KindName(k) + suffix == "openchami.org/" + b + "-" + KindName(l) + suffix
            ==> a == b && k == l
  {
    var x, y := "openchami.org/" + a + "-", "openchami.org/" + b + "-";
    if x + KindName(k) + suffix == y + KindName(l) + suffix {
      SuffixInjective(x + KindName(k), y + KindName(l), suffix);
      if k != l {
        LastDiffers(x, KindName(k), y, KindName(l));
      } else {
        SuffixInjective(x, y, KindName(k));
        FrameInjective("openchami.org/", a, b, "-");
      }
    }
  }

  lemma LabelsDisjoint(a: string, b: string)
    requires a != b
    ensures ProbeLabels(a) !! ProbeLabels(b)
  {
    forall k: Kind, l: Kind
      ensures ReadyLabel(a, k) != RevisionLabel(b, l) && RevisionLabel(a, k) != ReadyLabel(b, l)
      ensures ReadyLabel(a, k) != ReadyLabel(b, l) && RevisionLabel(a, k) != RevisionLabel(b, l)
    {
      LabelsInjective(a, k, b, l);
      LabelsInjective(b, l, a, k);
    }
  }

  /**
   A cluster's KV prefix covers its own secrets and nothing under another cluster's prefix, `foo` against `foobar`
   included.
   */
  lemma KVSubtreesDisjoint(a: string, b: string, rest: string)
    requires ValidClusterName(a) && ValidClusterName(b)
    requires KVPrefix(a) <= KVPrefix(b) + rest
    ensures a == b
  {
    var path := KVPrefix(b) + rest;
    var tail := path[|KVPrefix(a)|..];
    assert path == KVPrefix(a) + tail;
    assert path[|"openchami/"|..] == a + ['/'] + tail;
    SplitUnique(a, tail, b, rest, '/');
  }

  lemma SecretsUnderPrefix(cluster: string)
    ensures forall p :: p in SecretPaths(cluster) ==> KVPrefix(cluster) <= p
  {
  }
}
