/**
 Seeded credentials in Vault's KV store (internal/reconcilers/vault.go, ensureClusterSecrets and the writes after it).
 */
module Seeding {
  import opened KeyValue
  import opened Names

  /** In the order they are seeded. */
  function SeedPaths(cluster: string): seq<string> {
    var p := Paths(cluster);
    [p.dbSMD, p.dbBootService, p.s3, p.logs, p.tokensmithOIDC]
  }

  /** The paths Reconcile overwrites with what Vault generated for its OIDC clients. */
  function OIDCPaths(cluster: string): set<string> {
    var p := Paths(cluster);
    {p.tokensmithOIDC, p.cliOIDC}
  }

  /** Outcomes of the calls for one path. */
  datatype Calls = Calls(randomFails: bool, getFails: bool, putFails: bool) {
    predicate Succeed() { !randomFails && !getFails && !putFails }
  }

  /** Random seeds go only where nothing is stored yet; everything stored stays as it is, wherever the loop stops. */
  method EnsureClusterSecrets(kv: KV, cluster: string, random: seq<string>, calls: seq<Calls>) returns (ok: bool)
    requires |random| == |calls| == |SeedPaths(cluster)|
    modifies kv
    ensures forall p :: p in old(kv.store) ==> p in kv.store && kv.store[p] == old(kv.store)[p]
    ensures forall p :: p in kv.store && p !in old(kv.store) ==> p in SeedPaths(cluster)
    ensures ok ==> forall p :: p in SeedPaths(cluster) ==> p in kv.store
    ensures (forall c :: c in calls ==> c.Succeed()) ==> ok
  {
    hide SeedPaths;
    var paths := SeedPaths(cluster);
    for i := 0 to |paths|
      invariant forall p :: p in old(kv.store) ==> p in kv.store && kv.store[p] == old(kv.store)[p]
      invariant forall p :: p in kv.store && p !in old(kv.store) ==> p in paths
      invariant forall j :: 0 <= j < i ==> paths[j] in kv.store
    {
      assert calls[i] in calls;
      if calls[i].randomFails {
        return false;
      }
      ok := kv.EnsureSecret(paths[i], random[i], false, calls[i].getFails, calls[i].putFails);
      if !ok {
        return false;
      }
    }
    return true;
  }

  /** What one Vault pass may do to the store. */
  ghost predicate PassWrites(cluster: string, before: Store, after: Store) {
    && (forall p :: p in before && p !in OIDCPaths(cluster) ==> p in after && after[p] == before[p])
    && (forall p :: p in after && p !in before ==> p in SecretPaths(cluster))
    && before.Keys <= after.Keys
  }

  /**
   The KV writes of a pass: seeds, then, with the vault OIDC provider, the generated client credentials over the seed.
   */
  method WriteSecrets(kv: KV, cluster: string, random: seq<string>, calls: seq<Calls>, oidc: bool, client: string,
      cli: string, clientFails: bool, cliFails: bool)
    returns (ok: bool)
    requires |random| == |calls| == |SeedPaths(cluster)|
    modifies kv
    ensures PassWrites(cluster, old(kv.store), kv.store)
    ensures ok ==> forall p :: p in SeedPaths(cluster) ==> p in kv.store
    ensures (forall c :: c in calls ==> c.Succeed()) && !clientFails && !cliFails ==> ok
    ensures ok && oidc ==> kv.store[Paths(cluster).tokensmithOIDC] == client
    ensures ok && oidc && cli != "" ==> Paths(cluster).cliOIDC in kv.store && kv.store[Paths(cluster).cliOIDC] == cli
  {
    var p := Paths(cluster);
    OIDCApart(cluster);
    hide Paths;
    ok := EnsureClusterSecrets(kv, cluster, random, calls);
    if !ok || !oidc {
      return;
    }
    ok := kv.EnsureSecret(p.tokensmithOIDC, client, true, false, clientFails);
    if ok && cli != "" {
      ok := kv.EnsureSecret(p.cliOIDC, cli, true, false, cliFails);
    }
  }

  lemma OIDCApart(cluster: string)
    ensures Paths(cluster).tokensmithOIDC != Paths(cluster).cliOIDC
  {
    var prefix := "openchami/" + cluster;
    assert |Paths(cluster).tokensmithOIDC| != |Paths(cluster).cliOIDC|;
  }

  // ----- over runs -----

  datatype Step = Pass(cluster: string) | Delete(cluster: string)

  /** Any cluster's pass, or a deletion of its subtree that may stop halfway. */
  ghost predicate Next(before: Store, step: Step, after: Store) {
    ValidClusterName(step.cluster)
    && match step
       case Pass(c) => PassWrites(c, before, after)
       case Delete(c) => OnlyLost(before, after, KVPrefix(c))
  }

  ghost predicate Run(states: seq<Store>, steps: seq<Step>) {
    |states| == |steps| + 1 && forall i :: 0 <= i < |steps| ==> Next(states[i], steps[i], states[i + 1])
  }

  /** Credentials the operator only ever seeds. */
  function SeededOnly(cluster: string): set<string> {
    {"openchami/" + cluster + "/db/smd", "openchami/" + cluster + "/db/boot-service",
     "openchami/" + cluster + "/s3/versitygw", "openchami/" + cluster + "/s3/logs"}
  }

  /** A pass that succeeds has seeded all of them, and tokensmith's client. */
  lemma SeedsAre(cluster: string)
    ensures forall p :: p in SeedPaths(cluster) <==>
      p in SeededOnly(cluster) || p == "openchami/" + cluster + "/oidc/tokensmith-client"
  {
    assert "openchami/" + cluster + "/db/smd" == Paths(cluster).dbSMD;
  }

  lemma SeedsEnd(cluster: string, p: string)
    requires p in SeededOnly(cluster)
    ensures p != [] && p[|p| - 1] in ['d', 'e', 'w', 's']
  {
  }

  lemma OIDCPathsEnd(cluster: string, p: string)
    requires p in OIDCPaths(cluster)
    ensures p != [] && p[|p| - 1] == 't'
  {
  }

  lemma SeedIsNotOIDC(cluster: string, other: string, p: string)
    requires p in SeededOnly(cluster)
    ensures p !in OIDCPaths(other)
  {
    hide *;
    SeedsEnd(cluster, p);
    if p in OIDCPaths(other) {
      OIDCPathsEnd(other, p);
    }
  }

  lemma StepKeepsSeed(cluster: string, p: string, before: Store, step: Step, after: Store)
    requires ValidClusterName(cluster) && p in SeededOnly(cluster) && p in before
    requires Next(before, step, after) && step != Delete(cluster)
    ensures p in after && after[p] == before[p]
  {
    match step
    case Pass(c) =>
      SeedIsNotOIDC(cluster, c, p);
    case Delete(c) =>
      SecretsUnderPrefix(cluster);
      assert p in SecretPaths(cluster);
      var rest := p[|KVPrefix(cluster)|..];
      assert p == KVPrefix(cluster) + rest;
      hide Paths, SeededOnly, SecretPaths;
      if KVPrefix(c) <= p {
        KVSubtreesDisjoint(c, cluster, rest);
      }
  }

  /**
   A seeded credential, once stored, keeps its value through every later pass and deletion of any cluster, until its own
   cluster's subtree is deleted.
   */
  lemma {:induction false} SeedsNeverOverwritten(states: seq<Store>, steps: seq<Step>, cluster: string, p: string,
      i: nat, n: nat)
    requires Run(states, steps) && i <= n < |states| && ValidClusterName(cluster)
    requires p in SeededOnly(cluster) && p in states[i]
    requires forall j :: i <= j < n ==> steps[j] != Delete(cluster)
    ensures p in states[n] && states[n][p] == states[i][p]
    decreases n
  {
    hide Next, SeededOnly, ValidClusterName;
    if i < n {
      SeedsNeverOverwritten(states, steps, cluster, p, i, n - 1);
      StepKeepsSeed(cluster, p, states[n - 1], steps[n - 1], states[n]);
    }
  }
}
