/** Admission of control planes (api/v1alpha1/openchamicontrolplane_webhook.go) and what it keeps over every run. */
module Admission {
  import opened Options
  import opened ControlPlanes
  import Names
  import Text

  /** A stored or submitted control plane; a submitted one may not have its UID yet. */
  datatype Object = Object(namespace: string, name: string, uid: string, spec: Spec)

  datatype Error =
    DuplicateClusterName | SelectorRequired | SelectorWithoutDiscriminator | DuplicateSelector
        | ProvisionNetworkRequired
    | ImmutableClusterName | Other

  /** An item of the list that stands for the object under validation. */
  predicate IsSelf(item: Object, self: Object) {
    || (item.uid != "" && item.uid == self.uid)
    || (self.uid == "" && item.name == self.name && item.namespace == self.namespace)
  }

  method ListOtherClusters(items: seq<Object>, self: Object) returns (others: seq<Object>)
    ensures forall o :: o in others <==> o in items && !IsSelf(o, self)
  {
    others := [];
    for i := 0 to |items|
      invariant forall o :: o in others <==> o in items[..i] && !IsSelf(o, self)
    {
      if items[i].uid != "" && items[i].uid == self.uid {
        continue;
      }
      if self.uid == "" && items[i].name == self.name && items[i].namespace == self.namespace {
        continue;
      }
      others := others + [items[i]];
    }
  }

  predicate HasDiscriminator(selector: Labels, cluster: string) {
    cluster != "" && exists k :: k in selector && (Text.Contains(k, cluster) || Text.Contains(selector[k], cluster))
  }

  /** The cluster's name occurs somewhere in a key or a value of the selector. */
  ghost predicate NamesCluster(selector: Labels, cluster: string) {
    exists k, i {:trigger selector[k], k[i..]} {:trigger selector[k][i..]} ::
      && k in selector
      && ((0 <= i <= |k| && cluster <= k[i..]) || (0 <= i <= |selector[k]| && cluster <= selector[k][i..]))
  }

  lemma DiscriminatorIff(selector: Labels, cluster: string)
    ensures HasDiscriminator(selector, cluster) <==> cluster != "" && NamesCluster(selector, cluster)
  {
    forall k | k in selector
      ensures Text.Contains(k, cluster) <==> exists i :: 0 <= i <= |k| && cluster <= k[i..]
      ensures Text.Contains(selector[k], cluster) <==>
        exists i :: 0 <= i <= |selector[k]| && cluster <= selector[k][i..]
    {
      Text.ContainsIff(k, cluster);
      Text.ContainsIff(selector[k], cluster);
    }
    hide Text.Contains;
  }

  /** What the checks across clusters demand of an object, next to all others. */
  ghost predicate Admissible(obj: Object, others: iset<Object>) {
    && (forall o :: o in others ==> o.spec.clusterName != obj.spec.clusterName)
    && (!obj.spec.networkProbe.enabled ==>
          && obj.spec.coreDHCPSelector != map[]
          && HasDiscriminator(obj.spec.coreDHCPSelector, obj.spec.clusterName)
          && forall o :: o in others ==> o.spec.coreDHCPSelector != obj.spec.coreDHCPSelector)
    && (obj.spec.networkProbe.enabled && obj.spec.coreDHCPEnabled ==> obj.spec.networkProbe.provision.Some?)
  }

  /**
   Collects the errors of a submitted object; `perObject` are those of the checks that look at nothing but the object
   itself. `items` is None when the list call fails.
   */
  method Validate(obj: Object, items: Option<seq<Object>>, perObject: seq<Error>)
    returns (admitted: bool, errors: seq<Error>)
    ensures admitted <==> items.Some? && errors == []
    ensures admitted <==>
      items.Some? && perObject == [] && Admissible(obj, iset o | o in items.value && !IsSelf(o, obj))
  {
    errors := perObject;
    if items.None? {
      return false, errors;
    }
    var others := ListOtherClusters(items.value, obj);
    ghost var all := iset o | o in items.value && !IsSelf(o, obj);
    assert forall o :: o in others <==> o in all;
    var duplicate := ClusterNameTaken(obj, others);
    if duplicate {
      errors := errors + [DuplicateClusterName];
    }
    if !obj.spec.networkProbe.enabled {
      if obj.spec.coreDHCPSelector == map[] {
        errors := errors + [SelectorRequired];
      } else {
        if !HasDiscriminator(obj.spec.coreDHCPSelector, obj.spec.clusterName) {
          errors := errors + [SelectorWithoutDiscriminator];
        }
        var taken := SelectorTaken(obj, others);
        if taken {
          errors := errors + [DuplicateSelector];
        }
      }
    } else if obj.spec.coreDHCPEnabled && obj.spec.networkProbe.provision.None? {
      errors := errors + [ProvisionNetworkRequired];
    }
    admitted := errors == [];
  }

  method ClusterNameTaken(obj: Object, others: seq<Object>) returns (taken: bool)
    ensures taken <==> exists o :: o in others && o.spec.clusterName == obj.spec.clusterName
  {
    for i := 0 to |others|
      invariant forall j :: 0 <= j < i ==> others[j].spec.clusterName != obj.spec.clusterName
    {
      if others[i].spec.clusterName == obj.spec.clusterName {
        return true;
      }
    }
    return false;
  }

  method SelectorTaken(obj: Object, others: seq<Object>) returns (taken: bool)
    ensures taken <==> exists o :: o in others && o.spec.coreDHCPSelector == obj.spec.coreDHCPSelector
  {
    for i := 0 to |others|
      invariant forall j :: 0 <= j < i ==> others[j].spec.coreDHCPSelector != obj.spec.coreDHCPSelector
    {
      if others[i].spec.coreDHCPSelector == obj.spec.coreDHCPSelector {
        return true;
      }
    }
    return false;
  }

  /** An update may not rename the cluster and must pass everything a create must. */
  method ValidateUpdate(oldObj: Object, newObj: Object, items: Option<seq<Object>>, perObject: seq<Error>)
    returns (admitted: bool)
    ensures admitted <==>
      && items.Some? && perObject == [] && oldObj.spec.clusterName == newObj.spec.clusterName
      && Admissible(newObj, iset o | o in items.value && !IsSelf(o, newObj))
  {
    var valid, errors := Validate(newObj, items, perObject);
    admitted := valid && oldObj.spec.clusterName == newObj.spec.clusterName;
  }

  // ----- runs -----

  type Key = (string, string)

  /** The API server's objects, by namespace and name. */
  type Store = map<Key, Object>

  function KeyOf(o: Object): Key { (o.namespace, o.name) }

  ghost function Items(store: Store): iset<Object> { iset k | k in store :: store[k] }

  datatype Request = Create(obj: Object, seenUID: string) | Update(obj: Object) | Delete(key: Key)

  /**
   Requests are admitted one at a time against the current list. The API server gives each new object a UID of its own,
   before or after admission, and refuses names outside the CRD's pattern.
   */
  ghost predicate Next(store: Store, r: Request, store': Store) {
    match r
    case Create(obj, seenUID) =>
      && KeyOf(obj) !in store && obj.uid != "" && (forall k :: k in store ==> store[k].uid != obj.uid)
      && seenUID in ["", obj.uid] && Names.ValidClusterName(obj.spec.clusterName)
      && Admissible(obj, iset o | o in Items(store) && !IsSelf(o, obj.(uid := seenUID)))
      && store' == store[KeyOf(obj) := obj]
    case Update(obj) =>
      && KeyOf(obj) in store && obj.uid == store[KeyOf(obj)].uid
      && obj.spec.clusterName == store[KeyOf(obj)].spec.clusterName
      && Admissible(obj, iset o | o in Items(store) && !IsSelf(o, obj))
      && store' == store[KeyOf(obj) := obj]
    case Delete(key) => store' == store - {key}
  }

  ghost predicate Run(states: seq<Store>, requests: seq<Request>) {
    |states| == |requests| + 1 && forall i :: 0 <= i < |requests| ==> Next(states[i], requests[i], states[i + 1])
  }

  ghost predicate Filed(store: Store) { forall k :: k in store ==> KeyOf(store[k]) == k && store[k].uid != "" }

  ghost predicate UIDsUnique(store: Store) {
    forall k, l :: k in store && l in store && k != l ==> store[k].uid != store[l].uid
  }

  ghost predicate Apart(a: Object, b: Object) {
    && a.spec.clusterName != b.spec.clusterName
    && (!a.spec.networkProbe.enabled && !b.spec.networkProbe.enabled ==>
        a.spec.coreDHCPSelector != b.spec.coreDHCPSelector)
  }

  /** What admission demands of one object: without probing a selector that names its cluster, else a target. */
  ghost predicate Placed(o: Object) {
    && (!o.spec.networkProbe.enabled ==> NamesCluster(o.spec.coreDHCPSelector, o.spec.clusterName))
    && (o.spec.networkProbe.enabled && o.spec.coreDHCPEnabled ==> o.spec.networkProbe.provision.Some?)
  }

  lemma AdmittedIsPlaced(obj: Object, others: iset<Object>)
    requires Admissible(obj, others)
    ensures Placed(obj)
  {
    hide NamesCluster, HasDiscriminator;
    DiscriminatorIff(obj.spec.coreDHCPSelector, obj.spec.clusterName);
  }

  ghost predicate Inv(store: Store) {
    && Filed(store) && UIDsUnique(store) && (forall k :: k in store ==> Placed(store[k]))
    && (forall k :: k in store ==> Names.ValidClusterName(store[k].spec.clusterName))
    && forall k, l :: k in store && l in store && k != l ==> Apart(store[k], store[l])
  }

  /** Validation sees every stored object but the one it is about. */
  lemma OthersAreOthers(store: Store, obj: Object, seen: Object, k: Key)
    requires Filed(store) && k in store && KeyOf(obj) != k
    requires KeyOf(seen) == KeyOf(obj) && seen.spec == obj.spec && seen.uid in ["", obj.uid] && store[k].uid != obj.uid
    requires Admissible(obj, iset o | o in Items(store) && !IsSelf(o, seen))
    ensures Apart(store[k], obj)
  {
    assert store[k] in Items(store) && !IsSelf(store[k], seen);
    assert store[k] in iset o | o in Items(store) && !IsSelf(o, seen);
  }

  lemma PutKeepsInv(store: Store, obj: Object)
    requires Inv(store) && obj.uid != "" && Names.ValidClusterName(obj.spec.clusterName) && Placed(obj)
    requires forall k :: k in store && k != KeyOf(obj) ==>
      Apart(store[k], obj) && Apart(obj, store[k]) && store[k].uid != obj.uid
    ensures Inv(store[KeyOf(obj) := obj])
  {
    hide Apart, Placed, Names.ValidClusterName;
    var store' := store[KeyOf(obj) := obj];
    assert forall k :: k in store' ==> k == KeyOf(obj) || (k in store && store'[k] == store[k]);
  }

  lemma StepKeepsInv(store: Store, r: Request, store': Store)
    requires Inv(store) && Next(store, r, store')
    ensures Inv(store')
  {
    if r.Delete? {
      hide Apart, Placed, Names.ValidClusterName;
      assert forall k :: k in store' ==> k in store && store'[k] == store[k];
    } else {
      var obj := r.obj;
      var seen := if r.Create? then obj.(uid := r.seenUID) else obj;
      hide Names.ValidClusterName, Admissible, Placed;
      AdmittedIsPlaced(obj, iset o | o in Items(store) && !IsSelf(o, seen));
      forall k | k in store && k != KeyOf(obj)
        ensures Apart(store[k], obj) && Apart(obj, store[k]) && store[k].uid != obj.uid {
        assert store[k].uid != obj.uid;
        OthersAreOthers(store, obj, seen, k);
      }
      hide Apart;
      PutKeepsInv(store, obj);
    }
  }

  /**
   In every run from an empty cluster names stay pairwise distinct, selectors of control planes without probing differ
   and name their cluster, and with probing CoreDHCP has a provision target.
   */
  lemma {:induction false} RunKeepsInv(states: seq<Store>, requests: seq<Request>, n: nat)
    requires Run(states, requests) && states[0] == map[] && n < |states|
    ensures Inv(states[n])
  {
    hide Next;
    if n > 0 {
      RunKeepsInv(states, requests, n - 1);
      hide Inv;
      StepKeepsInv(states[n - 1], requests[n - 1], states[n]);
    }
  }

  /** Validation of a stored object looks at exactly the objects under other keys. */
  lemma OthersOfStored(store: Store, key: Key, o: Object)
    requires Filed(store) && UIDsUnique(store) && key in store
    ensures o in Items(store) && !IsSelf(o, store[key]) <==> exists k :: k in store && k != key && store[k] == o
  {
    if o in Items(store) && !IsSelf(o, store[key]) {
      var k :| k in store && store[k] == o;
      assert k != key;
    }
  }

  lemma NamedIsNotEmpty(selector: Labels, cluster: string)
    ensures NamesCluster(selector, cluster) ==> selector != map[]
  {
  }

  /**
   Submitting a stored object unchanged is admitted, except when its selector counts and another control plane, one with
   probing on, has taken the same one meanwhile.
   */
  lemma NoOpUpdateIff(store: Store, key: Key)
    requires Inv(store) && key in store
    ensures var obj := store[key];
            Next(store, Update(obj), store) <==>
              || obj.spec.networkProbe.enabled
              || forall k :: k in store && k != key ==> store[k].spec.coreDHCPSelector != obj.spec.coreDHCPSelector
  {
    var obj := store[key];
    var others := iset o | o in Items(store) && !IsSelf(o, obj);
    assert KeyOf(obj) == key && store[key := obj] == store && obj.spec.clusterName != "";
    forall o ensures o in others <==> exists k :: k in store && k != key && store[k] == o {
      OthersOfStored(store, key, o);
    }
    hide IsSelf, Items, Names.ValidClusterName, Filed, UIDsUnique, HasDiscriminator, NamesCluster;
    DiscriminatorIff(obj.spec.coreDHCPSelector, obj.spec.clusterName);
    NamedIsNotEmpty(obj.spec.coreDHCPSelector, obj.spec.clusterName);
    assert Next(store, Update(obj), store) <==> Admissible(obj, others);
    assert forall k :: k in store && k != key ==> store[k] in others;
  }

  lemma StepKeepsName(store: Store, r: Request, store': Store, key: Key)
    requires Next(store, r, store') && key in store && key in store'
    ensures store'[key].spec.clusterName == store[key].spec.clusterName
  {
    hide Admissible, Names.ValidClusterName, IsSelf, Items;
  }

  /** An object keeps its cluster name for as long as it exists. */
  lemma {:induction false} NamesImmutable(states: seq<Store>, requests: seq<Request>, i: nat, n: nat, key: Key)
    requires Run(states, requests) && i <= n < |states|
    requires forall j :: i <= j <= n ==> key in states[j]
    ensures states[n][key].spec.clusterName == states[i][key].spec.clusterName
    decreases n
  {
    hide Next;
    if i < n {
      NamesImmutable(states, requests, i, n - 1, key);
      StepKeepsName(states[n - 1], requests[n - 1], states[n], key);
    }
  }

  /** What belongs to a cluster: its namespace, cluster role, Vault role, OIDC clients and node labels. */
  ghost predicate Isolated(a: string, b: string) {
    && Names.Namespace(a) != Names.Namespace(b)
    && Names.NetworkProbeRole(a) != Names.NetworkProbeRole(b)
    && Names.VaultRole(a) != Names.VaultRole(b)
    && {"openchami-" + a + "-tokensmith", "openchami-" + a + "-cli"}
       !! {"openchami-" + b + "-tokensmith", "openchami-" + b + "-cli"}
    && Names.ProbeLabels(a) !! Names.ProbeLabels(b)
    && forall rest: string :: !(Names.KVPrefix(a) <= Names.KVPrefix(b) + rest)
  }

  /** Any two control planes that ever exist side by side share none of it. */
  lemma ControlPlanesIsolated(states: seq<Store>, requests: seq<Request>, n: nat, k: Key, l: Key)
    requires Run(states, requests) && states[0] == map[] && n < |states|
    requires k in states[n] && l in states[n] && k != l
    ensures Isolated(states[n][k].spec.clusterName, states[n][l].spec.clusterName)
  {
    RunKeepsInv(states, requests, n);
    var a, b := states[n][k].spec.clusterName, states[n][l].spec.clusterName;
    assert Apart(states[n][k], states[n][l]);
    assert Names.ValidClusterName(a) && Names.ValidClusterName(b) && a != b;
    hide *;
    NamesIsolate(a, b);
  }

  lemma NamesIsolate(a: string, b: string)
    requires Names.ValidClusterName(a) && Names.ValidClusterName(b) && a != b
    ensures Isolated(a, b)
  {
    hide Names.ValidClusterName, Names.Namespace, Names.NetworkProbeRole, Names.VaultRole, Names.ProbeLabels;
    hide Names.KVPrefix;
    Names.ObjectNamesDistinct(a, b);
    Names.OIDCClientsDisjoint(a, b);
    Names.LabelsDisjoint(a, b);
    forall rest: string ensures !(Names.KVPrefix(a) <= Names.KVPrefix(b) + rest) {
      if Names.KVPrefix(a) <= Names.KVPrefix(b) + rest {
        Names.KVSubtreesDisjoint(a, b, rest);
      }
    }
  }

  // ----- what different selectors do not give -----

  /** Two selectors can claim one node exactly when they agree on the keys they share. */
  lemma OverlapIff(a: Labels, b: Labels)
    ensures (exists labels: Labels :: Matches(a, labels) && Matches(b, labels))
            <==> forall k :: k in a && k in b ==> a[k] == b[k]
  {
    if forall k :: k in a && k in b ==> a[k] == b[k] {
      assert Matches(a, a + b) && Matches(b, a + b);
    }
  }

  /** So the discriminator rule does not keep two admitted selectors off the same node. */
  lemma AdmittedSelectorsMayOverlap(x: Object, y: Object)
    requires x.spec.clusterName == "a" && y.spec.clusterName == "b"
    requires !x.spec.networkProbe.enabled && !y.spec.networkProbe.enabled
    requires x.spec.coreDHCPSelector == map["a" := "yes"] && y.spec.coreDHCPSelector == map["b" := "yes"]
    ensures Admissible(x, iset{y}) && Admissible(y, iset{x})
    ensures exists labels: Labels ::
      Matches(x.spec.coreDHCPSelector, labels) && Matches(y.spec.coreDHCPSelector, labels)
  {
    var a, b := x.spec.coreDHCPSelector, y.spec.coreDHCPSelector;
    assert "a" in a && "b" in b && Text.Contains("a", "a") && Text.Contains("b", "b");
    assert "b" !in a by {
      assert "a"[0] != "b"[0];
    }
    OverlapIff(a, b);
  }
}
