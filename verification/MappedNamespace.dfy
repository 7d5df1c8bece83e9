/**
 The client through which the controllers write to the downstream cluster. Every
 upstream namespace has a downstream one, every object created carries the managed
 labels that all reads are filtered by, and an object is tied to its upstream owner
 through an anchor: a ConfigMap whose deletion lets garbage collection take the rest.
*/
module MappedNamespace {
  import opened Options

  type Labels = map<string, string>

  const CLUSTER_NAME := "meta.datumapis.com/upstream-cluster-name"
  const GROUP := "meta.datumapis.com/upstream-group"
  const KIND := "meta.datumapis.com/upstream-kind"
  const NAME := "meta.datumapis.com/upstream-name"
  const NAMESPACE := "meta.datumapis.com/upstream-namespace"
  const WORKLOAD_UID := "compute.datumapis.com/workload-uid"

  datatype Key = Key(kind: string, namespace: string, name: string)

  /** An owner reference is found again by the kind and the name of the owner. */
  datatype Ref = Ref(kind: string, name: string)

  datatype Object = Object(uid: nat, labels: Labels, annotations: map<string, string>, owners: map<Ref, nat>)

  datatype Store = Store(objects: map<Key, Object>, nextUid: nat)

  /** An upstream object, as far as it can own downstream ones. */
  datatype Owner = Owner(uid: string, group: string, kind: string, namespace: string, name: string)

  /** What a strategy is made with. */
  datatype Config = Config(clusterName: string, managed: Labels)

  // ---------------------------------------------------------------- names

  function ReplaceAll(s: string, from: char, to: char): (t: string)
    ensures |t| == |s|
    ensures forall i | 0 <= i < |s| :: t[i] == if s[i] == from then to else s[i]
  {
    if s == "" then "" else [if s[0] == from then to else s[0]] + ReplaceAll(s[1..], from, to)
  }

  function EncodedCluster(name: string): string {
    "cluster-" + ReplaceAll(name, '/', '_')
  }

  /** The downstream namespace for an upstream one, by its UID. */
  function NamespaceName(uid: string): string {
    "ns-" + uid
  }

  function AnchorName(owner: Owner): string {
    "anchor-" + owner.uid
  }

  function AnchorKey(owner: Owner, namespace: string): Key {
    Key("ConfigMap", namespace, AnchorName(owner))
  }

  function AnchorRef(owner: Owner): Ref {
    Ref("ConfigMap", AnchorName(owner))
  }

  function OwnerAnnotations(c: Config, owner: Owner): map<string, string> {
    map[CLUSTER_NAME := EncodedCluster(c.clusterName), GROUP := owner.group, KIND := owner.kind,
        NAME := owner.name, NAMESPACE := owner.namespace]
  }

  // ---------------------------------------------------------------- what the calls do

  predicate Visible(managed: Labels, labels: Labels) {
    forall k | k in managed :: k in labels && labels[k] == managed[k]
  }

  /** A read sees only what carries the managed labels. */
  function Read(c: Config, s: Store, k: Key): Option<Object> {
    if k in s.objects && Visible(c.managed, s.objects[k].labels) then Some(s.objects[k]) else None
  }

  function Put(s: Store, k: Key, o: Object): Store {
    s.(objects := s.objects[k := o])
  }

  function PutNew(s: Store, k: Key, o: Object): Store {
    Store(s.objects[k := o.(uid := s.nextUid)], s.nextUid + 1)
  }

  /** The store after a call that may fail, having done part of its work. */
  datatype Result = Result(ok: bool, store: Store)

  function NamespaceLabels(c: Config, labels: Labels): Labels {
    labels[CLUSTER_NAME := EncodedCluster(c.clusterName)] + c.managed
  }

  function EnsureNamespace(c: Config, s: Store, namespace: string): Result {
    var k := Key("Namespace", "", namespace);
    if namespace == "" then Result(true, s)
    else
      match Read(c, s, k)
      case Some(o) => Result(true, Put(s, k, o.(labels := NamespaceLabels(c, o.labels))))
      case None =>
        if k in s.objects then Result(false, s)
        else Result(true, PutNew(s, k, Object(0, NamespaceLabels(c, map[]), map[], map[])))
  }

  function Create(c: Config, s: Store, k: Key, o: Object): Result {
    var r := EnsureNamespace(c, s, k.namespace);
    if !r.ok || k in r.store.objects then Result(false, r.store)
    else Result(true, PutNew(r.store, k, o.(labels := o.labels + c.managed)))
  }

  /** The anchor for objects of `owner` in a namespace is there, or is created. */
  function EnsureAnchor(c: Config, s: Store, owner: Owner, namespace: string): Result {
    var k := AnchorKey(owner, namespace);
    if Read(c, s, k).Some? then Result(true, s)
    else Create(c, s, k, Object(0, c.managed, OwnerAnnotations(c, owner), map[]))
  }

  function Decorated(c: Config, owner: Owner, anchor: nat, o: Object): Object {
    o.(owners := o.owners[AnchorRef(owner) := anchor], annotations := o.annotations + OwnerAnnotations(c, owner))
  }

  /** Deletes the anchor if a read shows one; fails when the owner's namespace is not known upstream. */
  function DeleteAnchor(c: Config, s: Store, owner: Owner, upstream: map<string, string>): Result {
    if owner.namespace !in upstream then Result(false, s)
    else
      var k := AnchorKey(owner, NamespaceName(upstream[owner.namespace]));
      Result(true, if Read(c, s, k).Some? then s.(objects := s.objects - {k}) else s)
  }

  function Control(c: Config, s: Store, owner: Owner, k: Key, labels: Labels): Result {
    if owner.namespace == "" || k.namespace == "" then Result(false, s)
    else
      var r := EnsureAnchor(c, s, owner, k.namespace);
      if !r.ok || AnchorKey(owner, k.namespace) !in r.store.objects then Result(false, r.store)
      else
        var anchor := r.store.objects[AnchorKey(owner, k.namespace)].uid;
        match Read(c, s, k)
        case None => Create(c, r.store, k, Decorated(c, owner, anchor, Object(0, labels, map[], map[])))
        case Some(o) => Result(true, Put(r.store, k, Decorated(c, owner, anchor, o)))
  }

  // ---------------------------------------------------------------- what they achieve

  /** Nothing but the objects at `ks` is created, changed or deleted. */
  ghost predicate OnlyAt(s: Store, s': Store, ks: set<Key>) {
    forall j | j !in ks :: (j in s.objects <==> j in s'.objects) && (j in s.objects ==> s.objects[j] == s'.objects[j])
  }

  function NamespaceKey(namespace: string): Key {
    Key("Namespace", "", namespace)
  }

  /** There is a namespace of this name that reads do not show. */
  predicate Hidden(c: Config, s: Store, k: Key) {
    k in s.objects && !Visible(c.managed, s.objects[k].labels)
  }

  /**
   The namespace is there for all reads to see and says which cluster it stands for, unless
   a hidden one is in the way; an existing one stays the same object.
  */
  ghost predicate NamespaceEnsured(c: Config, s: Store, r: Result, namespace: string) {
    var k := NamespaceKey(namespace);
    && (r.ok <==> namespace == "" || !Hidden(c, s, k))
    && (r.ok && namespace != "" ==>
      && k in r.store.objects && Visible(c.managed, r.store.objects[k].labels)
      && (CLUSTER_NAME !in c.managed ==>
        CLUSTER_NAME in r.store.objects[k].labels && r.store.objects[k].labels[CLUSTER_NAME] == EncodedCluster(c.clusterName))
      && (k in s.objects ==> r.store.objects[k].uid == s.objects[k].uid))
    && OnlyAt(s, r.store, if r.ok && namespace != "" then {k} else {})
  }

  /**
   A new object is there for all reads to see, as it was asked for but for managed labels,
   and so is its namespace; this fails for a name that is taken or a hidden namespace.
  */
  ghost predicate Created(c: Config, s: Store, r: Result, k: Key, o: Object) {
    && (r.ok <==> k !in s.objects && (k.namespace == "" || !Hidden(c, s, NamespaceKey(k.namespace))))
    && (r.ok ==>
      && k in r.store.objects && Visible(c.managed, r.store.objects[k].labels)
      && (forall l | l in o.labels && l !in c.managed ::
            l in r.store.objects[k].labels && r.store.objects[k].labels[l] == o.labels[l])
      && r.store.objects[k].annotations == o.annotations && r.store.objects[k].owners == o.owners
      && r.store.objects[k].uid >= s.nextUid
      && (k.namespace != "" ==>
        NamespaceKey(k.namespace) in r.store.objects && !Hidden(c, r.store, NamespaceKey(k.namespace))))
    && OnlyAt(s, r.store, if r.ok then {k, NamespaceKey(k.namespace)} else {NamespaceKey(k.namespace)})
  }

  /** No read shows the anchor any more, and nothing else has changed; only an unknown namespace makes it fail. */
  ghost predicate AnchorGone(c: Config, s: Store, r: Result, owner: Owner, upstream: map<string, string>) {
    && (r.ok <==> owner.namespace in upstream)
    && (r.ok ==>
      var a := AnchorKey(owner, NamespaceName(upstream[owner.namespace]));
      Read(c, r.store, a).None? && OnlyAt(s, r.store, {a}))
    && (!r.ok ==> r.store == s)
  }

  /** The annotations name the owner. */
  predicate Names(c: Config, owner: Owner, annotations: map<string, string>) {
    forall a | a in OwnerAnnotations(c, owner) :: a in annotations && annotations[a] == OwnerAnnotations(c, owner)[a]
  }

  /** An anchor can be found or created: owner and object are namespaced, and nothing hidden is in the way. */
  predicate AnchorPossible(c: Config, s: Store, owner: Owner, namespace: string) {
    var a := AnchorKey(owner, namespace);
    && owner.namespace != "" && namespace != "" && !Hidden(c, s, a)
    && (a in s.objects || !Hidden(c, s, NamespaceKey(namespace)))
  }

  /** And so can the object, which must not be the anchor itself. */
  predicate ControlPossible(c: Config, s: Store, owner: Owner, k: Key) {
    && AnchorPossible(c, s, owner, k.namespace) && !Hidden(c, s, k)
    && (k in s.objects || (k != AnchorKey(owner, k.namespace) && !Hidden(c, s, NamespaceKey(k.namespace))))
  }

  /**
   The object names its owner and hangs on the owner's anchor that is there; besides these
   two only the namespace is touched. It fails exactly when something is in the way.
  */
  ghost predicate Controlled(c: Config, s: Store, r: Result, owner: Owner, k: Key) {
    var a := AnchorKey(owner, k.namespace);
    && (r.ok <==> ControlPossible(c, s, owner, k))
    && (r.ok ==>
      && owner.namespace != "" && k.namespace != ""
      && k in r.store.objects && a in r.store.objects && Names(c, owner, r.store.objects[k].annotations)
      && AnchorRef(owner) in r.store.objects[k].owners
      && r.store.objects[k].owners[AnchorRef(owner)] == r.store.objects[a].uid
      && (k in s.objects ==> r.store.objects[k].uid == s.objects[k].uid && r.store.objects[k].labels == s.objects[k].labels)
      && (a in s.objects ==> r.store.objects[a].uid == s.objects[a].uid))
    && OnlyAt(s, r.store, {k, a, NamespaceKey(k.namespace)})
  }

  lemma EnsureNamespaceMeaning(c: Config, s: Store, namespace: string)
    ensures NamespaceEnsured(c, s, EnsureNamespace(c, s, namespace), namespace)
  {
    hide EncodedCluster;
  }

  lemma CreateMeaning(c: Config, s: Store, k: Key, o: Object)
    ensures Created(c, s, Create(c, s, k, o), k, o)
  {
    hide EncodedCluster, EnsureNamespace;
    EnsureNamespaceMeaning(c, s, k.namespace);
    NextUidGrows(c, s, k.namespace);
  }

  lemma NextUidGrows(c: Config, s: Store, namespace: string)
    ensures EnsureNamespace(c, s, namespace).store.nextUid >= s.nextUid
  {
    hide NamespaceLabels;
  }

  lemma DeleteAnchorMeaning(c: Config, s: Store, owner: Owner, upstream: map<string, string>)
    ensures AnchorGone(c, s, DeleteAnchor(c, s, owner, upstream), owner, upstream)
  {
    hide AnchorName, NamespaceName;
  }

  lemma EnsureAnchorMeaning(c: Config, s: Store, owner: Owner, namespace: string)
    ensures var r := EnsureAnchor(c, s, owner, namespace);
      var a := AnchorKey(owner, namespace);
      && (owner.namespace != "" && namespace != "" ==> (r.ok <==> AnchorPossible(c, s, owner, namespace)))
      && (r.ok ==> a in r.store.objects && (a in s.objects ==> r.store == s))
      && (r.ok && a !in s.objects && namespace != "" ==> !Hidden(c, r.store, NamespaceKey(namespace)))
      && OnlyAt(s, r.store, {a, NamespaceKey(namespace)})
  {
    hide Create, OwnerAnnotations, AnchorName;
    CreateMeaning(c, s, AnchorKey(owner, namespace), Object(0, c.managed, OwnerAnnotations(c, owner), map[]));
  }

  lemma DecoratedMeaning(c: Config, owner: Owner, anchor: nat, o: Object)
    ensures var d := Decorated(c, owner, anchor, o);
      && Names(c, owner, d.annotations) && d.uid == o.uid && d.labels == o.labels
      && AnchorRef(owner) in d.owners && d.owners[AnchorRef(owner)] == anchor
  {
    hide OwnerAnnotations;
  }

  lemma OnlyAtChain(s: Store, s1: Store, s2: Store, ks: set<Key>, js: set<Key>)
    requires OnlyAt(s, s1, ks) && OnlyAt(s1, s2, ks) && ks <= js
    ensures OnlyAt(s, s2, js)
  {
  }

  lemma PutOnlyAt(s: Store, k: Key, o: Object, ks: set<Key>)
    requires k in ks
    ensures OnlyAt(s, Put(s, k, o), ks)
  {
  }

  lemma Wider(s: Store, s': Store, ks: set<Key>, js: set<Key>)
    requires OnlyAt(s, s', ks) && ks <= js
    ensures OnlyAt(s, s', js)
  {
  }

  lemma ControlMeaning(c: Config, s: Store, owner: Owner, k: Key, labels: Labels)
    ensures Controlled(c, s, Control(c, s, owner, k, labels), owner, k)
  {
    hide Create, EnsureAnchor, OwnerAnnotations, AnchorName, Visible, Decorated, Names, OnlyAt;
    var (a, n) := (AnchorKey(owner, k.namespace), NamespaceKey(k.namespace));
    NothingChanged(s, {k, a, n});
    if owner.namespace != "" && k.namespace != "" {
      var s1 := EnsureAnchor(c, s, owner, k.namespace).store;
      EnsureAnchorMeaning(c, s, owner, k.namespace);
      Wider(s, s1, {a, n}, {k, a, n});
      if EnsureAnchor(c, s, owner, k.namespace).ok {
        var uid := s1.objects[a].uid;
        match Read(c, s, k)
        case Some(o) =>
          DecoratedMeaning(c, owner, uid, o);
          PutOnlyAt(s1, k, Decorated(c, owner, uid, o), {k, a, n});
          OnlyAtChain(s, s1, Put(s1, k, Decorated(c, owner, uid, o)), {k, a, n}, {k, a, n});
        case None =>
          var d := Decorated(c, owner, uid, Object(0, labels, map[], map[]));
          DecoratedMeaning(c, owner, uid, Object(0, labels, map[], map[]));
          CreateMeaning(c, s1, k, d);
          NewControlled(c, s, s1, owner, k, d);
      }
    }
  }

  /** The object is created after its anchor was made sure of. */
  lemma NewControlled(c: Config, s: Store, s1: Store, owner: Owner, k: Key, d: Object)
    requires var a := AnchorKey(owner, k.namespace);
      && OnlyAt(s, s1, {a, NamespaceKey(k.namespace)}) && a in s1.objects && (a in s.objects ==> s1 == s)
      && Names(c, owner, d.annotations) && AnchorRef(owner) in d.owners && d.owners[AnchorRef(owner)] == s1.objects[a].uid
    requires AnchorPossible(c, s, owner, k.namespace) && Read(c, s, k).None?
    requires var a := AnchorKey(owner, k.namespace); a in s.objects || !Hidden(c, s1, NamespaceKey(k.namespace))
    requires owner.namespace != "" && k.namespace != "" && Created(c, s1, Create(c, s1, k, d), k, d)
    ensures Controlled(c, s, Create(c, s1, k, d), owner, k)
  {
    hide Create, Names, AnchorName, Visible;
  }

  lemma NothingChanged(s: Store, ks: set<Key>)
    ensures OnlyAt(s, s, ks)
  {
  }

  /** Owners share a downstream namespace exactly when their upstream namespaces have the same UID. */
  lemma NamespacesDiffer(uid1: string, uid2: string)
    ensures NamespaceName(uid1) == NamespaceName(uid2) <==> uid1 == uid2
  {
    var n := |"ns-"|;
    assert NamespaceName(uid1)[n..] == uid1 && NamespaceName(uid2)[n..] == uid2;
  }

  /** Owners share an anchor in a namespace exactly when they have the same UID; it is a config map named after it. */
  lemma AnchorsDiffer(a: Owner, b: Owner, namespace: string)
    ensures AnchorKey(a, namespace) == AnchorKey(b, namespace) <==> a.uid == b.uid
    ensures AnchorKey(a, namespace).kind == "ConfigMap" && "anchor-" <= AnchorKey(a, namespace).name
  {
    var n := |"anchor-"|;
    assert AnchorName(a)[n..] == a.uid && AnchorName(b)[n..] == b.uid;
  }

  // ---------------------------------------------------------------- the client

  class Strategy {
    const config: Config
    var store: Store

    constructor (config: Config)
      ensures this.config == config && store == Store(map[], 0)
    {
      this.config := config;
      store := Store(map[], 0);
    }

    method GetDownstreamNamespaceName(owner: Owner, upstream: map<string, string>) returns (name: Option<string>)
      ensures name == if owner.namespace in upstream then Some(NamespaceName(upstream[owner.namespace])) else None
    {
      if owner.namespace !in upstream {
        return None;
      }
      name := Some(NamespaceName(upstream[owner.namespace]));
    }

    method EnsureDownstreamNamespace(namespace: string) returns (ok: bool)
      modifies this
      ensures Result(ok, store) == EnsureNamespace(config, old(store), namespace)
      ensures NamespaceEnsured(config, old(store), Result(ok, store), namespace)
    {
      hide NamespaceEnsured, EncodedCluster;
      EnsureNamespaceMeaning(config, store, namespace);
      if namespace == "" {
        return true;
      }
      var k := Key("Namespace", "", namespace);
      var found := Read(config, store, k);
      var labels: Labels := if found.Some? then found.value.labels else map[];
      labels := labels[CLUSTER_NAME := EncodedCluster(config.clusterName)];
      labels := labels + config.managed;
      if found.Some? {
        store := Put(store, k, found.value.(labels := labels));
        return true;
      }
      if k in store.objects {
        return false;
      }
      store := PutNew(store, k, Object(0, labels, map[], map[]));
      ok := true;
    }

    method CreateObject(k: Key, o: Object) returns (ok: bool)
      modifies this
      ensures Result(ok, store) == Create(config, old(store), k, o)
      ensures Created(config, old(store), Result(ok, store), k, o)
    {
      hide NamespaceEnsured, Created, EnsureNamespace;
      CreateMeaning(config, store, k, o);
      ok := EnsureDownstreamNamespace(k.namespace);
      if !ok {
        return;
      }
      var labels := o.labels;
      labels := labels + config.managed;
      if k in store.objects {
        return false;
      }
      store := PutNew(store, k, o.(labels := labels));
    }

    /** Ties `o`, which is or will be stored at `k`, to its owner; only the anchor is written. */
    method SetControllerReference(owner: Owner, k: Key, o: Object) returns (ok: bool, decorated: Object)
      modifies this
      ensures owner.namespace == "" || k.namespace == "" ==> !ok && store == old(store)
      ensures owner.namespace != "" && k.namespace != "" ==>
        Result(ok, store) == EnsureAnchor(config, old(store), owner, k.namespace)
      ensures ok <==> AnchorPossible(config, old(store), owner, k.namespace)
      ensures ok ==>
        && AnchorKey(owner, k.namespace) in store.objects
        && decorated == Decorated(config, owner, store.objects[AnchorKey(owner, k.namespace)].uid, o)
      ensures OnlyAt(old(store), store, {AnchorKey(owner, k.namespace), NamespaceKey(k.namespace)})
    {
      hide OnlyAt, Created, Create, OwnerAnnotations, Decorated, AnchorName;
      EnsureAnchorMeaning(config, store, owner, k.namespace);
      NothingChanged(store, {AnchorKey(owner, k.namespace), NamespaceKey(k.namespace)});
      decorated := o;
      if owner.namespace == "" || k.namespace == "" {
        return false, o;
      }
      var anchorKey := AnchorKey(owner, k.namespace);
      var anchor := Read(config, store, anchorKey);
      if anchor.None? {
        ok := CreateObject(anchorKey, Object(0, config.managed, OwnerAnnotations(config, owner), map[]));
        if !ok {
          return;
        }
      }
      ok := true;
      decorated := Decorated(config, owner, store.objects[anchorKey].uid, o);
    }

    method DeleteAnchorForObject(owner: Owner, upstream: map<string, string>) returns (ok: bool)
      modifies this
      ensures Result(ok, store) == DeleteAnchor(config, old(store), owner, upstream)
      ensures AnchorGone(config, old(store), Result(ok, store), owner, upstream)
    {
      hide AnchorGone;
      DeleteAnchorMeaning(config, store, owner, upstream);
      var namespace := GetDownstreamNamespaceName(owner, upstream);
      if namespace.None? {
        return false;
      }
      var k := AnchorKey(owner, namespace.value);
      var found := Read(config, store, k);
      if found.None? {
        return true;
      }
      store := store.(objects := store.objects - {k});
      ok := true;
    }

    /**
     `CreateOrUpdate` with a mutate function that sets the controller reference, as for
     the aggregated secret; `labels` are those of the object when it is created.
    */
    method CreateOrUpdateControlled(owner: Owner, k: Key, labels: Labels) returns (ok: bool)
      modifies this
      ensures Result(ok, store) == Control(config, old(store), owner, k, labels)
      ensures Controlled(config, old(store), Result(ok, store), owner, k)
    {
      hide Controlled, Created, Create, EnsureAnchor, Decorated;
      ControlMeaning(config, store, owner, k, labels);
      var found := Read(config, store, k);
      var decorated;
      ok, decorated := SetControllerReference(owner, k,
        if found.Some? then found.value else Object(0, labels, map[], map[]));
      if !ok {
        return;
      }
      if found.None? {
        ok := CreateObject(k, decorated);
      } else {
        store := Put(store, k, decorated);
      }
    }
  }
}
