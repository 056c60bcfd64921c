/**
 Vault's KV store as the operator uses it: seeding secrets without overwriting, and the recursive deletion of a
 cluster's subtree (internal/vault/client_vault.go) against the flat prefix filter of the in-memory client
 (internal/vault/fake/client.go).
 */
module KeyValue {
  import opened Text

  type Store = map<string, string>

  // ----- paths -----

  /** `strings.TrimSuffix(s, "/")` */
  function TrimSlash(s: string): string { if EndsInSlash(s) then s[..|s| - 1] else s }

  /** The mount is the first segment of a path. */
  function SplitKVPath(path: string): (r: (string, string))
    ensures '/' !in r.0
    ensures (path == r.0 && r.1 == "") || path == r.0 + "/" + r.1
  {
    if path == [] then ("", "")
    else if path[0] == '/' then ("", path[1..])
    else
      var (mount, sub) := SplitKVPath(path[1..]);
      assert path == [path[0]] + path[1..];
      ([path[0]] + mount, sub)
  }

  /** The directory the deletion walks, whether or not its argument ends in a slash. */
  function Directory(prefix: string): string { TrimSlash(prefix) + "/" }

  lemma DirectoryOfSlash(prefix: string)
    requires EndsInSlash(prefix)
    ensures Directory(prefix) == prefix
  {
  }

  /** The directory a LIST of `mount`/metadata/`sub` reads: Vault supplies a missing final slash. */
  function ListedDirectory(mount: string, sub: string): string {
    if sub == "" || EndsInSlash(sub) then mount + "/" + sub else mount + "/" + sub + "/"
  }

  lemma DirectoryListed(prefix: string)
    ensures var (mount, sub) := SplitKVPath(prefix); ListedDirectory(mount, sub) == Directory(prefix)
  {
    var (mount, sub) := SplitKVPath(prefix);
    if prefix == mount && sub == "" {
      assert prefix != [] ==> prefix[|prefix| - 1] in mount;
      assert Directory(prefix) == mount + "/" + sub;
    } else {
      assert sub != [] ==> prefix[|prefix| - 1] == sub[|sub| - 1];
      if sub == "" || EndsInSlash(sub) {
        DirectoryOfSlash(prefix);
      }
    }
  }

  /** Up to and including the first slash; everything when there is none. */
  function FirstSegment(s: string): (r: string)
    ensures r <= s
    ensures !EndsInSlash(r) ==> r == s
  {
    if s == [] then []
    else if s[0] == '/' then "/"
    else
      var rest := FirstSegment(s[1..]);
      assert rest != [] ==> ([s[0]] + rest)[|rest|] == rest[|rest| - 1];
      [s[0]] + rest
  }

  predicate Under(dir: string, p: string) { dir <= p }

  /** The key under which a LIST of `dir` shows path `p`; keys of sub-directories end in a slash. */
  function Child(dir: string, p: string): string
    requires Under(dir, p)
  {
    FirstSegment(p[|dir|..])
  }

  function Children(store: Store, dir: string): set<string> {
    set p | p in store && Under(dir, p) :: Child(dir, p)
  }

  /** A path shown as a sub-directory lies below it; one shown as a key is that key. */
  lemma ChildPath(dir: string, p: string)
    requires Under(dir, p)
    ensures Under(dir + Child(dir, p), p)
    ensures !EndsInSlash(Child(dir, p)) ==> p == dir + Child(dir, p)
  {
    assert p == dir + p[|dir|..];
  }

  // ----- the store -----

  /** The in-memory client's deletion: every path that starts with the prefix. */
  function FlatDelete(store: Store, prefix: string): Store {
    map p | p in store && !Under(prefix, p) :: store[p]
  }

  /** Paths end in a key, never in a slash. */
  ghost predicate NoTrailingSlash(store: Store) { forall p :: p in store ==> !EndsInSlash(p) }

  /** ... and are no longer than `bound`. */
  ghost predicate WellFormed(store: Store, bound: nat) {
    NoTrailingSlash(store) && forall p :: p in store ==> |p| <= bound
  }

  /** Nothing but paths under `dir` has gone, and what is left is unchanged. */
  ghost predicate OnlyLost(before: Store, after: Store, dir: string) {
    && after.Keys <= before.Keys
    && (forall p :: p in after ==> after[p] == before[p])
    && forall p :: p in before && !Under(dir, p) ==> p in after
  }

  /** What is left under `dir` shows up under one of `keys`. */
  ghost predicate Remaining(store: Store, dir: string, keys: set<string>) {
    forall p :: p in store && Under(dir, p) ==> Child(dir, p) in keys
  }

  ghost predicate ChildDeleted(before: Store, after: Store, dir: string, key: string) {
    if EndsInSlash(key) then after == FlatDelete(before, dir + key) else after == before - {dir + key}
  }

  class KV {
    var store: Store

    constructor ()
      ensures store == map[]
    {
      store := map[];
    }

    /** Reads first unless told to overwrite; an existing secret is then left alone. */
    method EnsureSecret(path: string, data: string, overwrite: bool, getFails: bool, putFails: bool) returns (ok: bool)
      modifies this
      ensures ok <==>
        if !overwrite && getFails then false else if !overwrite && path in old(store) then true else !putFails
      ensures store == if ok && (overwrite || path !in old(store)) then old(store)[path := data] else old(store)
    {
      if !overwrite {
        if getFails {
          return false;
        }
        if path in store {
          return true;
        }
      }
      if putFails {
        return false;
      }
      store := store[path := data];
      return true;
    }

    /**
     Lists the directory, recurses into sub-directories and deletes keys, in any order the listing comes in. Any call
     may fail; the deletion then stops and reports it. A deletion that reports success has removed exactly the paths
     that the flat filter removes; one that fails has touched no other path.
     */
    method DeleteClusterPaths(prefix: string, listFails: set<string>, deleteFails: set<string>) returns (ok: bool)
      requires NoTrailingSlash(store)
      modifies this
      ensures NoTrailingSlash(store)
      ensures OnlyLost(old(store), store, Directory(prefix))
      ensures ok ==> store == FlatDelete(old(store), Directory(prefix))
      ensures listFails == {} && deleteFails == {} ==> ok
    {
      ghost var bound := BoundExists(store);
      ok := DeleteTree(prefix, listFails, deleteFails, bound);
    }

    /** The recursion; it ends because every level is longer, and no stored path is longer than `bound`. */
    method DeleteTree(prefix: string, listFails: set<string>, deleteFails: set<string>, ghost bound: nat)
      returns (ok: bool)
      requires WellFormed(store, bound)
      modifies this
      ensures WellFormed(store, bound)
      ensures OnlyLost(old(store), store, Directory(prefix))
      ensures ok ==> store == FlatDelete(old(store), Directory(prefix))
      ensures listFails == {} && deleteFails == {} ==> ok
      decreases if |prefix| <= bound then bound + 1 - |prefix| else 0, 1
    {
      if prefix in listFails {
        return false;
      }
      DirectoryListed(prefix);
      var (mount, sub) := SplitKVPath(prefix);
      var keys := Children(store, ListedDirectory(mount, sub));
      ghost var dir := Directory(prefix);
      hide Child, Directory;
      while keys != {}
        invariant WellFormed(store, bound) && OnlyLost(old(store), store, dir) && Remaining(store, dir, keys)
        invariant forall k :: k in keys ==> |dir + k| <= bound
        decreases keys
      {
        var key :| key in keys;
        ghost var before := store;
        ok := DeleteChild(prefix, key, listFails, deleteFails, bound);
        LostBelow(old(store), before, store, dir, key);
        if !ok {
          return;
        }
        ChildGone(before, store, dir, key, keys);
        keys := keys - {key};
      }
      NothingRemains(old(store), store, dir);
      return true;
    }

    /** The body of the loop: one key of the listing. */
    method DeleteChild(prefix: string, key: string, listFails: set<string>, deleteFails: set<string>, ghost bound: nat)
      returns (ok: bool)
      requires WellFormed(store, bound) && |Directory(prefix) + key| <= bound
      modifies this
      ensures WellFormed(store, bound)
      ensures OnlyLost(old(store), store, Directory(prefix) + key)
      ensures ok ==> ChildDeleted(old(store), store, Directory(prefix), key)
      ensures listFails == {} && deleteFails == {} ==> ok
      decreases if |prefix| <= bound then bound + 1 - |prefix| else 0, 0
    {
      var full := TrimSlash(prefix) + "/" + TrimSlash(key);
      if EndsInSlash(key) {
        assert full + "/" == Directory(prefix) + key;
        DirectoryOfSlash(full + "/");
        ok := DeleteTree(full + "/", listFails, deleteFails, bound);
        return;
      }
      assert full == Directory(prefix) + key;
      if full in deleteFails {
        return false;
      }
      store := store - {full};
      return true;
    }
  }

  lemma LostBelow(start: Store, before: Store, after: Store, dir: string, key: string)
    requires OnlyLost(start, before, dir) && OnlyLost(before, after, dir + key)
    ensures OnlyLost(start, after, dir)
  {
    forall p | Under(dir + key, p) ensures Under(dir, p) {
      assert p[..|dir|] == (dir + key)[..|dir|] == dir;
    }
  }

  lemma ChildGone(before: Store, after: Store, dir: string, key: string, keys: set<string>)
    requires Remaining(before, dir, keys) && after.Keys <= before.Keys && ChildDeleted(before, after, dir, key)
    ensures Remaining(after, dir, keys - {key})
  {
    forall p | p in after && Under(dir, p) ensures Child(dir, p) != key {
      ChildPath(dir, p);
    }
  }

  lemma NothingRemains(before: Store, after: Store, dir: string)
    requires OnlyLost(before, after, dir) && Remaining(after, dir, {})
    ensures after == FlatDelete(before, dir)
  {
  }

  /** Every store is well formed for some bound. */
  lemma {:induction false} BoundExists(store: Store) returns (bound: nat)
    requires NoTrailingSlash(store)
    ensures WellFormed(store, bound)
    decreases |store|
  {
    if store.Keys == {} {
      bound := 0;
    } else {
      var p :| p in store;
      var rest := BoundExists(store - {p});
      bound := if |p| > rest then |p| else rest;
      assert forall q :: q in store ==> q == p || q in store - {p};
    }
  }

  /**
   Without the final slash the two clients differ: the in-memory one also removes `foobar` when asked for `foo`, the
   real one does not. They agree exactly when no stored path continues the prefix by anything but a slash.
   */
  lemma FlatFilterAgrees(store: Store, prefix: string)
    requires !EndsInSlash(prefix)
    ensures FlatDelete(store, prefix) == FlatDelete(store, Directory(prefix))
            <==> forall p :: p in store && Under(prefix, p) ==> Under(prefix + "/", p)
  {
    var flat, walked := FlatDelete(store, prefix), FlatDelete(store, Directory(prefix));
    forall p | Under(prefix + "/", p) ensures Under(prefix, p) {
      assert p[..|prefix|] == (prefix + "/")[..|prefix|] == prefix;
    }
    if forall p :: p in store && Under(prefix, p) ==> Under(prefix + "/", p) {
      assert flat == walked;
    } else {
      var p :| p in store && Under(prefix, p) && !Under(prefix + "/", p);
      assert p in walked && p !in flat;
    }
  }
}
