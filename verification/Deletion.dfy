/**
 Deleting a control plane under its finalizer (internal/controller/openchamicontrolplane_controller.go,
 reconcileDelete).
 */
module Deletion {
  import opened Options
  import opened KeyValue
  import opened Names
  import Seeding
  import Text

  type Buckets = map<string, set<string>>

  /** What deletion acts on; `finalizers` holds the clusters whose object still carries the operator's finalizer. */
  datatype State = State(
    namespaces: set<string>, kv: Store, buckets: Buckets, bindings: set<string>, roles: set<string>,
    finalizers: set<string>)

  /** The control plane: its opt-in annotations, its bucket overrides and the clients the operator was given. */
  datatype Target = Target(
    cluster: string, cleanupVault: bool, cleanupS3: bool, bucket: string, logBucket: string, logging: bool,
    vaultClient: bool, s3Client: bool) {
    predicate OwesVault() { cleanupVault && vaultClient }
    predicate OwesS3() { cleanupS3 && s3Client }
  }

  function BootBucketName(t: Target): string { if t.bucket != "" then t.bucket else t.cluster + "-boot-images" }

  function LogBucketName(t: Target): string { if t.logBucket != "" then t.logBucket else t.cluster + "-logs" }

  /** The state after the first `k` of the seven deletions; those not owed are skipped. */
  function After(t: Target, s: State, k: nat): State {
    State(
      if k > 0 then s.namespaces - {Namespace(t.cluster)} else s.namespaces,
      if k > 1 && t.OwesVault() then FlatDelete(s.kv, KVPrefix(t.cluster)) else s.kv,
      if k > 3 && t.OwesS3() then s.buckets - {BootBucketName(t), LogBucketName(t)}
      else if k > 2 && t.OwesS3() then s.buckets - {BootBucketName(t)} else s.buckets,
      if k > 4 then s.bindings - {NetworkProbeRole(t.cluster)} else s.bindings,
      if k > 5 then s.roles - {NetworkProbeRole(t.cluster)} else s.roles,
      if k > 6 then s.finalizers - {t.cluster} else s.finalizers)
  }

  /** A deletion that fails may have removed some of a subtree or some of a bucket's objects, and nothing else. */
  ghost predicate Partly(t: Target, k: nat, s: State, s': State) {
    if k == 1 && t.OwesVault() then s' == s.(kv := s'.kv) && OnlyLost(s.kv, s'.kv, KVPrefix(t.cluster))
    else if k == 2 && t.OwesS3() then s' == s.(buckets := s'.buckets)
        && Emptied(s.buckets, s'.buckets, BootBucketName(t))
    else if k == 3 && t.OwesS3() then s' == s.(buckets := s'.buckets)
        && Emptied(s.buckets, s'.buckets, LogBucketName(t))
    else s' == s
  }

  ghost predicate Emptied(before: Buckets, after: Buckets, bucket: string) {
    && before.Keys == after.Keys
    && forall b :: b in before ==> after[b] <= before[b] && (b != bucket ==> after[b] == before[b])
  }

  /** A pass gets through `k` deletions and stops at the next, or finishes all seven. */
  ghost predicate StopsAt(t: Target, s: State, k: nat, s': State) {
    if k == 7 then s' == After(t, s, 7) else k < 7 && Partly(t, k, After(t, s, k), s')
  }

  ghost predicate PassStep(t: Target, s: State, s': State) {
    (t.cluster !in s.finalizers && s' == s) || (t.cluster in s.finalizers && exists k: nat :: StopsAt(t, s, k, s'))
  }

  /** Which calls fail; a bucket deletion that fails leaves `left` of its objects behind. */
  datatype Faults = Faults(
    namespace: bool, listFails: set<string>, deleteFails: set<string>, boot: Option<set<string>>,
    log: Option<set<string>>,
    binding: bool, role: bool, patch: bool) {
    predicate None() {
      !namespace && listFails == {} && deleteFails == {} && boot.None? && log.None? && !binding && !role && !patch
    }
  }

  class World {
    var namespaces: set<string>
    const kv: KV
    var buckets: Buckets
    var bindings: set<string>
    var roles: set<string>
    var finalizers: set<string>

    constructor (kv: KV)
      ensures this.kv == kv && namespaces == {} && buckets == map[] && bindings == {} && roles == {} && finalizers == {}
    {
      this.kv := kv;
      namespaces, buckets, bindings, roles, finalizers := {}, map[], {}, {}, {};
    }

    ghost function Snapshot(): State
      reads this, kv
    {
      State(namespaces, kv.store, buckets, bindings, roles, finalizers)
    }

    /** Emptying comes first, so a failure can leave the bucket with fewer objects; a missing bucket is fine. */
    method DeleteBucket(name: string, fails: Option<set<string>>) returns (ok: bool)
      modifies this`buckets
      ensures ok <==> fails.None?
      ensures if ok then buckets == old(buckets) - {name} else Emptied(old(buckets), buckets, name)
    {
      if fails.Some? {
        if name in buckets {
          buckets := buckets[name := buckets[name] * fails.value];
        }
        return false;
      }
      buckets := buckets - {name};
      return true;
    }

    /** The finalizer goes last, and only when every deletion before it went through. */
    method ReconcileDelete(t: Target, f: Faults) returns (ok: bool)
      requires NoTrailingSlash(kv.store)
      modifies this, kv
      ensures NoTrailingSlash(kv.store)
      ensures PassStep(t, old(Snapshot()), Snapshot())
      ensures ok && t.cluster in old(finalizers) ==> Snapshot() == After(t, old(Snapshot()), 7)
      ensures f.None() || t.cluster !in old(finalizers) ==> ok
    {
      hide Namespace, NetworkProbeRole, BootBucketName, LogBucketName, FlatDelete, OnlyLost;
      ghost var s := Snapshot();
      if t.cluster !in finalizers {
        return true;
      }
      if f.namespace {
        assert StopsAt(t, s, 0, Snapshot());
        return false;
      }
      namespaces := namespaces - {Namespace(t.cluster)};
      assert Snapshot() == After(t, s, 1);
      if t.cleanupVault && t.vaultClient {
        ok := kv.DeleteClusterPaths(KVPrefix(t.cluster), f.listFails, f.deleteFails);
        PrefixIsDirectory(t.cluster);
        if !ok {
          assert StopsAt(t, s, 1, Snapshot());
          return false;
        }
      }
      hide KVPrefix, NoTrailingSlash;
      assert Snapshot() == After(t, s, 2);
      if t.cleanupS3 && t.s3Client {
        ok := DeleteBucket(BootBucketName(t), f.boot);
        if !ok {
          assert StopsAt(t, s, 2, Snapshot());
          return false;
        }
        assert Snapshot() == After(t, s, 3);
        ok := DeleteBucket(LogBucketName(t), f.log);
        if !ok {
          assert StopsAt(t, s, 3, Snapshot());
          return false;
        }
        assert s.buckets - {BootBucketName(t)} - {LogBucketName(t)}
            == s.buckets - {BootBucketName(t), LogBucketName(t)};
      }
      assert Snapshot() == After(t, s, 4);
      ok := DeleteRBAC(t, f, s);
    }

    method DeleteRBAC(t: Target, f: Faults, ghost s: State) returns (ok: bool)
      requires t.cluster in s.finalizers && Snapshot() == After(t, s, 4)
      modifies this`bindings, this`roles, this`finalizers
      ensures PassStep(t, s, Snapshot())
      ensures ok ==> Snapshot() == After(t, s, 7)
      ensures ok <==> !f.binding && !f.role && !f.patch
    {
      hide Namespace, NetworkProbeRole, KVPrefix, BootBucketName, LogBucketName, FlatDelete;
      if f.binding {
        assert StopsAt(t, s, 4, Snapshot());
        return false;
      }
      bindings := bindings - {NetworkProbeRole(t.cluster)};
      if f.role {
        assert StopsAt(t, s, 5, Snapshot());
        return false;
      }
      roles := roles - {NetworkProbeRole(t.cluster)};
      if f.patch {
        assert StopsAt(t, s, 6, Snapshot());
        return false;
      }
      finalizers := finalizers - {t.cluster};
      assert StopsAt(t, s, 7, Snapshot());
      return true;
    }
  }

  lemma PrefixIsDirectory(cluster: string)
    ensures Directory(KVPrefix(cluster)) == KVPrefix(cluster)
  {
    assert Text.EndsInSlash(KVPrefix(cluster));
    DirectoryOfSlash(KVPrefix(cluster));
  }

  // ----- one pass -----

  /** The two buckets a control plane names, or leaves at their defaults. */
  function NamedBuckets(t: Target): set<string> {
    {if t.bucket == "" then t.cluster + "-boot-images" else t.bucket,
     if t.logBucket == "" then t.cluster + "-logs" else t.logBucket}
  }

  /** Nothing owed is left: Vault's subtree and the buckets only if the user asked and the operator has the client. */
  ghost predicate CleanedUp(t: Target, s: State) {
    && "openchami-" + t.cluster !in s.namespaces
    && "openchami-" + t.cluster + "-network-probe" !in s.bindings
    && "openchami-" + t.cluster + "-network-probe" !in s.roles
    && (t.cleanupVault && t.vaultClient ==> forall p :: p in s.kv ==> !("openchami/" + t.cluster + "/" <= p))
    && (t.cleanupS3 && t.s3Client ==> s.buckets.Keys !! NamedBuckets(t))
  }

  lemma CleanedUpSpelled(t: Target, s: State)
    ensures CleanedUp(t, s) <==>
      && Namespace(t.cluster) !in s.namespaces && NetworkProbeRole(t.cluster) !in s.bindings
      && NetworkProbeRole(t.cluster) !in s.roles
      && (t.OwesVault() ==> forall p :: p in s.kv ==> !Under(KVPrefix(t.cluster), p))
      && (t.OwesS3() ==> BootBucketName(t) !in s.buckets && LogBucketName(t) !in s.buckets)
  {
    assert NamedBuckets(t) == {BootBucketName(t), LogBucketName(t)};
    hide NamedBuckets, BootBucketName, LogBucketName;
  }

  /** The finalizer is gone only after a pass at whose end nothing owed is left. */
  lemma FinalizerLast(t: Target, s: State, s': State)
    requires PassStep(t, s, s') && t.cluster in s.finalizers && t.cluster !in s'.finalizers
    ensures s' == After(t, s, 7) && CleanedUp(t, s')
  {
    CleanedUpSpelled(t, s');
    hide CleanedUp;
    var k: nat :| StopsAt(t, s, k, s');
    hide Namespace, NetworkProbeRole, KVPrefix, BootBucketName, LogBucketName;
    assert k == 7;
  }

  /** However a pass ends, it has not deleted the role before the binding that refers to it. */
  lemma BindingBeforeRole(t: Target, s: State, s': State)
    requires PassStep(t, s, s')
    ensures NetworkProbeRole(t.cluster) in s.roles && NetworkProbeRole(t.cluster) !in s'.roles ==>
      NetworkProbeRole(t.cluster) !in s'.bindings
    ensures NetworkProbeRole(t.cluster) in s'.bindings ==> s'.roles == s.roles
  {
    if t.cluster in s.finalizers {
      var k: nat :| StopsAt(t, s, k, s');
      hide Namespace, NetworkProbeRole, KVPrefix, BootBucketName, LogBucketName, OnlyLost, FlatDelete;
    }
  }

  /** Nothing goes before the namespace, buckets go only when the Vault subtree owed is gone, RBAC when all of it is. */
  lemma DeletionOrder(t: Target, s: State, s': State)
    requires PassStep(t, s, s')
    ensures Namespace(t.cluster) in s'.namespaces ==> s' == s
    ensures s'.buckets != s.buckets && t.cleanupVault && t.vaultClient ==>
      forall p :: p in s'.kv ==> !Under(KVPrefix(t.cluster), p)
    ensures s'.bindings != s.bindings && t.cleanupS3 && t.s3Client ==> s'.buckets.Keys !! NamedBuckets(t)
  {
    if t.cluster in s.finalizers {
      var k: nat :| StopsAt(t, s, k, s');
      assert NamedBuckets(t) == {BootBucketName(t), LogBucketName(t)};
      hide Namespace, NetworkProbeRole, KVPrefix, BootBucketName, LogBucketName, OnlyLost, NamedBuckets;
    }
  }

  /** Vault and object storage are touched only when the user opted into that one and the operator has its client. */
  lemma OptInOnly(t: Target, s: State, s': State)
    requires PassStep(t, s, s')
    ensures !(t.cleanupVault && t.vaultClient) ==> s'.kv == s.kv
    ensures !(t.cleanupS3 && t.s3Client) ==> s'.buckets == s.buckets
  {
    if t.cluster in s.finalizers {
      var k: nat :| StopsAt(t, s, k, s');
      hide Namespace, NetworkProbeRole, KVPrefix, BootBucketName, LogBucketName, OnlyLost, FlatDelete;
    }
  }

  // ----- other control planes -----

  /** Everything under another cluster's names is the same. */
  ghost predicate Untouched(cluster: string, s: State, s': State) {
    && (Namespace(cluster) in s.namespaces <==> Namespace(cluster) in s'.namespaces)
    && (NetworkProbeRole(cluster) in s.bindings <==> NetworkProbeRole(cluster) in s'.bindings)
    && (NetworkProbeRole(cluster) in s.roles <==> NetworkProbeRole(cluster) in s'.roles)
    && (cluster in s.finalizers <==> cluster in s'.finalizers)
    && forall p :: Under(KVPrefix(cluster), p) ==>
        (p in s.kv <==> p in s'.kv) && (p in s.kv && p in s'.kv ==> s.kv[p] == s'.kv[p])
  }

  ghost predicate SameBucket(s: State, s': State, b: string) {
    (b in s.buckets <==> b in s'.buckets) && (b in s.buckets && b in s'.buckets ==> s.buckets[b] == s'.buckets[b])
  }

  lemma SubtreesApart(a: string, b: string, p: string)
    requires ValidClusterName(a) && ValidClusterName(b) && a != b && Under(KVPrefix(b), p)
    ensures !Under(KVPrefix(a), p)
  {
    var rest := p[|KVPrefix(b)|..];
    assert p == KVPrefix(b) + rest;
    if KVPrefix(a) <= p {
      KVSubtreesDisjoint(a, b, rest);
    }
  }

  lemma PassLosesOwnSubtree(t: Target, s: State, s': State)
    requires PassStep(t, s, s')
    ensures OnlyLost(s.kv, s'.kv, KVPrefix(t.cluster))
  {
    if t.cluster in s.finalizers {
      var k: nat :| StopsAt(t, s, k, s');
      hide Namespace, NetworkProbeRole, KVPrefix, BootBucketName, LogBucketName;
    }
  }

  lemma PassDeletesOwnObjects(t: Target, s: State, s': State)
    requires PassStep(t, s, s')
    ensures s.namespaces - {Namespace(t.cluster)} <= s'.namespaces <= s.namespaces
    ensures s.bindings - {NetworkProbeRole(t.cluster)} <= s'.bindings <= s.bindings
    ensures s.roles - {NetworkProbeRole(t.cluster)} <= s'.roles <= s.roles
    ensures s.finalizers - {t.cluster} <= s'.finalizers <= s.finalizers
  {
    if t.cluster in s.finalizers {
      var k: nat :| StopsAt(t, s, k, s');
      hide Namespace, NetworkProbeRole, KVPrefix, BootBucketName, LogBucketName, OnlyLost, FlatDelete;
    }
  }

  /** A pass leaves every other cluster alone, `foo` against `foobar` included. */
  lemma OthersUntouched(t: Target, s: State, s': State, other: string)
    requires PassStep(t, s, s') && ValidClusterName(t.cluster) && ValidClusterName(other) && other != t.cluster
    ensures Untouched(other, s, s')
  {
    hide PassStep, ValidClusterName, Namespace, NetworkProbeRole, KVPrefix, Under;
    PassLosesOwnSubtree(t, s, s');
    PassDeletesOwnObjects(t, s, s');
    ObjectNamesDistinct(t.cluster, other);
    forall p | Under(KVPrefix(other), p) ensures !Under(KVPrefix(t.cluster), p) {
      SubtreesApart(t.cluster, other, p);
    }
  }

  /** A bucket is touched only when it is one of the two the target names. */
  lemma OtherBuckets(t: Target, s: State, s': State, b: string)
    requires PassStep(t, s, s') && (t.cleanupS3 && t.s3Client ==> b !in NamedBuckets(t))
    ensures SameBucket(s, s', b)
  {
    assert NamedBuckets(t) == {BootBucketName(t), LogBucketName(t)};
    hide NamedBuckets;
    if t.cluster in s.finalizers {
      var k: nat :| StopsAt(t, s, k, s');
      hide Namespace, NetworkProbeRole, KVPrefix, BootBucketName, LogBucketName, OnlyLost, FlatDelete;
    }
  }

  /**
   Bucket names are per cluster only by default. A bucket, whoever uses it, survives every pass of a deletion exactly
   unless that deletion opted into object storage and names it.
   */
  lemma BucketSurvivesIff(t: Target, s: State, b: string)
    requires t.cluster in s.finalizers && b in s.buckets
    ensures (forall s' :: PassStep(t, s, s') ==> SameBucket(s, s', b)) <==>
      !(t.cleanupS3 && t.s3Client && b in NamedBuckets(t))
  {
    assert StopsAt(t, s, 7, After(t, s, 7)) && PassStep(t, s, After(t, s, 7));
    assert NamedBuckets(t) == {BootBucketName(t), LogBucketName(t)};
    hide NamedBuckets;
    if !(t.cleanupS3 && t.s3Client && b in NamedBuckets(t)) {
      forall s' | PassStep(t, s, s') ensures SameBucket(s, s', b) {
        OtherBuckets(t, s, s', b);
      }
    } else {
      hide BootBucketName, LogBucketName, FlatDelete;
      assert !SameBucket(s, After(t, s, 7), b);
    }
  }

  lemma DefaultBucketsApart(t: Target, other: Target)
    requires t.bucket == t.logBucket == other.bucket == other.logBucket == "" && t.cluster != other.cluster
    ensures NamedBuckets(t) !! NamedBuckets(other)
  {
    var a, b := t.cluster, other.cluster;
    if a + "-boot-images" == b + "-boot-images" { Text.SuffixInjective(a, b, "-boot-images"); }
    if a + "-logs" == b + "-logs" { Text.SuffixInjective(a, b, "-logs"); }
    ImagesAreNotLogs(a, b);
    ImagesAreNotLogs(b, a);
  }

  lemma ImagesAreNotLogs(a: string, b: string)
    ensures a + "-boot-images" != b + "-logs"
  {
    var l, r := a + "-boot-images", b + "-logs";
    assert l[|l| - 2] == 'e' && r[|r| - 2] == 'g';
  }

  // ----- ordinary passes -----

  /** The buckets an ordinary pass makes sure of. */
  function MadeBuckets(t: Target): set<string> {
    if !t.s3Client then {} else if t.logging then {BootBucketName(t), LogBucketName(t)} else {BootBucketName(t)}
  }

  /** The boot images always, and the logs when they are shipped. */
  lemma MadeBucketsNamed(t: Target)
    ensures !t.s3Client ==> MadeBuckets(t) == {}
    ensures t.s3Client && t.logging ==> MadeBuckets(t) == NamedBuckets(t)
    ensures t.s3Client && !t.logging ==>
      MadeBuckets(t) == {if t.bucket == "" then t.cluster + "-boot-images" else t.bucket}
  {
  }

  /** Only what is in `may` was added. */
  ghost predicate Grows(before: set<string>, after: set<string>, may: set<string>) {
    before <= after <= before + may
  }

  /** Only paths under the prefix were added or rewritten. */
  ghost predicate WritesUnder(before: Store, after: Store, prefix: string) {
    && before.Keys <= after.Keys
    && forall p :: p in after && !Under(prefix, p) ==> p in before && after[p] == before[p]
  }

  /**
   As much of what deletion acts on as an ordinary pass may have made when it ends; the first pass of a control plane
   only adds the finalizer.
   */
  ghost predicate BuildStep(t: Target, s: State, s': State) {
    if t.cluster !in s.finalizers then s' == s || s' == s.(finalizers := s.finalizers + {t.cluster})
    else
      && Grows(s.namespaces, s'.namespaces, {Namespace(t.cluster)})
      && Grows(s.bindings, s'.bindings, {NetworkProbeRole(t.cluster)})
      && Grows(s.roles, s'.roles, {NetworkProbeRole(t.cluster)})
      && WritesUnder(s.kv, s'.kv, KVPrefix(t.cluster))
      && Grows(s.buckets.Keys, s'.buckets.Keys, MadeBuckets(t))
      && (forall b :: b in s.buckets ==> s'.buckets[b] == s.buckets[b])
      && s'.finalizers == s.finalizers
  }

  /** The secrets a Vault pass writes are among these. */
  lemma SecretsUnderPrefix(cluster: string, before: Store, after: Store)
    requires Seeding.PassWrites(cluster, before, after)
    ensures WritesUnder(before, after, KVPrefix(cluster))
  {
    forall p | p in SecretPaths(cluster) || p in Seeding.OIDCPaths(cluster) ensures Under(KVPrefix(cluster), p) {
    }
    hide SecretPaths, KVPrefix, Seeding.OIDCPaths;
  }

  lemma BuildLeavesOthers(t: Target, s: State, s': State, other: string)
    requires BuildStep(t, s, s') && ValidClusterName(t.cluster) && ValidClusterName(other) && other != t.cluster
    ensures Untouched(other, s, s')
  {
    hide ValidClusterName, Namespace, NetworkProbeRole, KVPrefix, Under, MadeBuckets;
    ObjectNamesDistinct(t.cluster, other);
    forall p | Under(KVPrefix(other), p) ensures !Under(KVPrefix(t.cluster), p) {
      SubtreesApart(t.cluster, other, p);
    }
  }

  predicate BucketsApart(t: Target, other: Target) {
    t.cleanupS3 && t.s3Client ==> MadeBuckets(other) !! NamedBuckets(t)
  }

  lemma BuildKeepsClean(t: Target, other: Target, s: State, s': State)
    requires CleanedUp(t, s) && t.cluster !in s.finalizers && BuildStep(other, s, s') && BucketsApart(t, other)
    requires ValidClusterName(t.cluster) && ValidClusterName(other.cluster)
    ensures CleanedUp(t, s')
  {
    CleanedUpSpelled(t, s);
    CleanedUpSpelled(t, s');
    assert NamedBuckets(t) == {BootBucketName(t), LogBucketName(t)};
    hide CleanedUp, NamedBuckets;
    hide ValidClusterName, Namespace, NetworkProbeRole, KVPrefix, Under, MadeBuckets, BootBucketName, LogBucketName;
    if other.cluster in s.finalizers {
      ObjectNamesDistinct(other.cluster, t.cluster);
      forall p | Under(KVPrefix(t.cluster), p) ensures !Under(KVPrefix(other.cluster), p) {
        SubtreesApart(other.cluster, t.cluster, p);
      }
    }
  }

  /**
   What a deletion cleaned up stays so through the ordinary passes of another control plane exactly when that one does
   not use a bucket the deletion owed.
   */
  lemma BuildKeepsCleanIff(t: Target, other: Target, s: State)
    requires CleanedUp(t, s) && t.cluster !in s.finalizers && other.cluster in s.finalizers
    requires ValidClusterName(t.cluster) && ValidClusterName(other.cluster)
    ensures (forall s' :: BuildStep(other, s, s') ==> CleanedUp(t, s')) <==> BucketsApart(t, other)
  {
    if BucketsApart(t, other) {
      forall s' | BuildStep(other, s, s') ensures CleanedUp(t, s') {
        BuildKeepsClean(t, other, s, s');
      }
    } else {
      hide Namespace, NetworkProbeRole, KVPrefix, Under, MadeBuckets, NamedBuckets;
      var b :| b in MadeBuckets(other) && b in NamedBuckets(t);
      var s' := s.(buckets := s.buckets[b := {}]);
      assert BuildStep(other, s, s') && !CleanedUp(t, s');
    }
  }

  // ----- runs -----

  datatype Pass = Deletes(target: Target) | Builds(target: Target)

  ghost predicate Step(p: Pass, s: State, s': State) {
    match p
    case Deletes(t) => PassStep(t, s, s')
    case Builds(t) => BuildStep(t, s, s')
  }

  /** Deletion passes and ordinary passes of any control planes, retried and failing in any way. */
  ghost predicate Run(states: seq<State>, passes: seq<Pass>) {
    && |states| == |passes| + 1
    && forall i :: 0 <= i < |passes| ==>
        ValidClusterName(passes[i].target.cluster) && Step(passes[i], states[i], states[i + 1])
  }

  /** A control plane stays as it is through every run of deletions and ordinary passes around it. */
  lemma {:induction false} OthersUntouchedByRun(states: seq<State>, passes: seq<Pass>, n: nat, other: string)
    requires Run(states, passes) && n < |states| && ValidClusterName(other)
    requires forall i :: 0 <= i < |passes| ==> passes[i].target.cluster != other
    ensures Untouched(other, states[0], states[n])
  {
    hide PassStep, BuildStep, ValidClusterName, Namespace, NetworkProbeRole, KVPrefix;
    if n > 0 {
      OthersUntouchedByRun(states, passes, n - 1, other);
      var t := passes[n - 1].target;
      if passes[n - 1].Deletes? {
        OthersUntouched(t, states[n - 1], states[n], other);
      } else {
        BuildLeavesOthers(t, states[n - 1], states[n], other);
      }
    }
  }

  lemma PassKeepsNoBucket(t: Target, s: State, s': State)
    requires PassStep(t, s, s')
    ensures s'.buckets.Keys <= s.buckets.Keys
  {
    if t.cluster in s.finalizers {
      var k: nat :| StopsAt(t, s, k, s');
      hide Namespace, NetworkProbeRole, KVPrefix, BootBucketName, LogBucketName, OnlyLost, FlatDelete;
    }
  }

  lemma DeletionKeepsClean(t: Target, other: Target, s: State, s': State)
    requires CleanedUp(t, s) && PassStep(other, s, s')
    ensures CleanedUp(t, s')
  {
    hide PassStep, NamedBuckets;
    PassLosesOwnSubtree(other, s, s');
    PassDeletesOwnObjects(other, s, s');
    PassKeepsNoBucket(other, s, s');
  }

  /** No ordinary pass of this stretch uses a bucket the deletion owed. */
  ghost predicate LeaveBuckets(t: Target, passes: seq<Pass>, i: nat, n: nat)
    requires n <= |passes|
  {
    forall j :: i <= j < n && passes[j].Builds? ==> BucketsApart(t, passes[j].target)
  }

  lemma {:induction false} StaysClean(states: seq<State>, passes: seq<Pass>, t: Target, i: nat, n: nat)
    requires Run(states, passes) && i <= n < |states| && CleanedUp(t, states[i]) && ValidClusterName(t.cluster)
    requires forall k :: i <= k < n ==> t.cluster !in states[k].finalizers
    requires LeaveBuckets(t, passes, i, n)
    ensures CleanedUp(t, states[n])
    decreases n
  {
    hide PassStep, BuildStep, CleanedUp, BucketsApart, ValidClusterName;
    if i < n {
      StaysClean(states, passes, t, i, n - 1);
      var p := passes[n - 1];
      if p.Deletes? {
        DeletionKeepsClean(t, p.target, states[n - 1], states[n]);
      } else {
        BuildKeepsClean(t, p.target, states[n - 1], states[n]);
      }
    }
  }

  lemma OnlyOwnDeletion(p: Pass, s: State, s': State, cluster: string)
    requires Step(p, s, s') && cluster in s.finalizers && cluster !in s'.finalizers
    ensures p.Deletes? && p.target.cluster == cluster
  {
    if p.Deletes? && p.target.cluster in s.finalizers {
      var k: nat :| StopsAt(p.target, s, k, s');
      hide Namespace, NetworkProbeRole, KVPrefix, BootBucketName, LogBucketName, OnlyLost, FlatDelete;
    }
  }

  /** The pass that took a finalizer that is gone, for the last time. */
  lemma {:induction false} LastRemoval(states: seq<State>, passes: seq<Pass>, cluster: string, n: nat) returns (i: nat)
    requires Run(states, passes) && n < |states|
    requires cluster in states[0].finalizers && cluster !in states[n].finalizers
    ensures i < n && passes[i].Deletes? && passes[i].target.cluster == cluster
    ensures cluster in states[i].finalizers && forall k :: i < k <= n ==> cluster !in states[k].finalizers
  {
    hide Step, ValidClusterName;
    if cluster !in states[n - 1].finalizers {
      i := LastRemoval(states, passes, cluster, n - 1);
    } else {
      i := n - 1;
      OnlyOwnDeletion(passes[i], states[i], states[n], cluster);
    }
  }

  /**
   Over runs with any failures, retries, edits, ordinary passes and re-creations in between: a finalizer that is gone
   was last taken by a deletion pass of its own control plane. Everything that pass owed, under the annotations and
   bucket names it saw, was gone then, and stays gone as long as no ordinary pass of another control plane uses a bucket
   it owed.
   */
  lemma DeletedForGood(states: seq<State>, passes: seq<Pass>, cluster: string, n: nat) returns (i: nat)
    requires Run(states, passes) && n < |states|
    requires cluster in states[0].finalizers && cluster !in states[n].finalizers
    ensures i < n && passes[i].Deletes? && passes[i].target.cluster == cluster
    ensures cluster in states[i].finalizers && cluster !in states[i + 1].finalizers
    ensures CleanedUp(passes[i].target, states[i + 1])
    ensures forall k :: i < k <= n && LeaveBuckets(passes[i].target, passes, i + 1, k) ==>
      CleanedUp(passes[i].target, states[k])
  {
    i := LastRemoval(states, passes, cluster, n);
    var t := passes[i].target;
    assert Step(passes[i], states[i], states[i + 1]) && ValidClusterName(t.cluster);
    FinalizerLast(t, states[i], states[i + 1]);
    hide PassStep, BuildStep, CleanedUp, LeaveBuckets, ValidClusterName;
    forall k | i < k <= n && LeaveBuckets(t, passes, i + 1, k) ensures CleanedUp(t, states[k]) {
      StaysClean(states, passes, t, i + 1, k);
    }
  }
}
