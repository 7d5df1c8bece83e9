/**
 What holds in the downstream cluster over any sequence of operations through the
 mapped client: everything the controllers created stays visible to them, all objects
 of an owner in a namespace hang on one anchor, and deleting that anchor lets garbage
 collection take these objects and no others.
*/
module Anchors {
  import opened Options
  import opened MappedNamespace

  datatype Op =
    | Control(owner: Owner, k: Key, labels: Labels)           // create or update, with the controller reference
    | Make(k: Key, labels: Labels, annotations: map<string, string>)
    | Mutate(k: Key, labels: Labels, annotations: map<string, string>)  // a mutate function that sets these
    | Forget(owner: Owner, upstream: map<string, string>)     // the anchor is deleted
    | Collect(k: Key)                                         // garbage collection, if `k` is due
    | Remove(k: Key)                                          // somebody deletes the object

  predicate Alive(s: Store, uid: nat) {
    exists j | j in s.objects :: s.objects[j].uid == uid
  }

  /** Garbage collection takes an object when it has owners and all of them are gone. */
  predicate Orphaned(s: Store, k: Key) {
    && k in s.objects
    && s.objects[k].owners != map[]
    && forall r | r in s.objects[k].owners :: !Alive(s, s.objects[k].owners[r])
  }

  function Drop(s: Store, k: Key): Store {
    s.(objects := s.objects - {k})
  }

  function Step(c: Config, s: Store, op: Op): Store {
    match op
    case Control(owner, k, labels) => MappedNamespace.Control(c, s, owner, k, labels).store
    case Make(k, labels, annotations) => Create(c, s, k, Object(0, labels, annotations, map[])).store
    case Mutate(k, labels, annotations) =>
      match Read(c, s, k) {
        case None => s
        case Some(o) => Put(s, k, o.(labels := o.labels + labels, annotations := o.annotations + annotations))
      }
    case Forget(owner, upstream) => DeleteAnchor(c, s, owner, upstream).store
    case Collect(k) => if Orphaned(s, k) then Drop(s, k) else s
    case Remove(k) => Drop(s, k)
  }

  function Run(c: Config, s: Store, ops: seq<Op>): Store
    decreases |ops|
  {
    if ops == [] then s else Step(c, Run(c, s, ops[..|ops| - 1]), ops[|ops| - 1])
  }

  const Empty := Store(map[], 0)

  // ---------------------------------------------------------------- invariant

  predicate Agree(managed: Labels, labels: Labels) {
    forall k | k in managed && k in labels :: managed[k] == labels[k]
  }

  /** Mutate functions never set a managed label to something else. */
  ghost predicate Respectful(c: Config, ops: seq<Op>) {
    forall op | op in ops && op.Mutate? :: Agree(c.managed, op.labels)
  }

  /** An owner is in the namespace of what it owns, under the kind and name of the reference. */
  ghost predicate RefFits(s: Store, k: Key, r: Ref, uid: nat) {
    uid < s.nextUid && forall j | j in s.objects && s.objects[j].uid == uid :: j == Key(r.kind, k.namespace, r.name)
  }

  ghost predicate Fits(c: Config, s: Store, k: Key, o: Object) {
    && Visible(c.managed, o.labels)
    && o.uid < s.nextUid
    && (forall r | r in o.owners :: RefFits(s, k, r, o.owners[r]))
    && (forall j | j in s.objects && s.objects[j].uid == o.uid :: j == k)
  }

  ghost predicate Inv(c: Config, s: Store) {
    forall k | k in s.objects :: Fits(c, s, k, s.objects[k])
  }

  lemma PutInv(c: Config, s: Store, k: Key, o: Object)
    requires Inv(c, s) && k in s.objects && o.uid == s.objects[k].uid
    requires Visible(c.managed, o.labels) && forall r | r in o.owners :: RefFits(s, k, r, o.owners[r])
    ensures Inv(c, Put(s, k, o))
  {
  }

  lemma PutNewInv(c: Config, s: Store, k: Key, o: Object)
    requires Inv(c, s) && k !in s.objects
    requires Visible(c.managed, o.labels) && forall r | r in o.owners :: RefFits(s, k, r, o.owners[r])
    ensures Inv(c, PutNew(s, k, o))
  {
  }

  lemma DropInv(c: Config, s: Store, k: Key)
    requires Inv(c, s)
    ensures Inv(c, Drop(s, k))
  {
  }

  /** A namespace keeps its identity, and nothing else is touched. */
  lemma EnsureNamespaceInv(c: Config, s: Store, namespace: string)
    requires Inv(c, s)
    ensures var s' := EnsureNamespace(c, s, namespace).store;
      && Inv(c, s') && s'.nextUid >= s.nextUid
      && (forall j | j in s.objects :: j in s'.objects && s'.objects[j].uid == s.objects[j].uid
            && s'.objects[j].owners == s.objects[j].owners)
      && (forall j | j in s'.objects && j !in s.objects :: s'.objects[j].uid >= s.nextUid)
      && (forall j | j in s'.objects && j.namespace != "" :: j in s.objects && s'.objects[j] == s.objects[j])
  {
    var k := Key("Namespace", "", namespace);
    if namespace != "" {
      match Read(c, s, k)
      case Some(o) =>
        assert Fits(c, s, k, o);
        PutInv(c, s, k, o.(labels := NamespaceLabels(c, o.labels)));
      case None =>
        if k !in s.objects {
          PutNewInv(c, s, k, Object(0, NamespaceLabels(c, map[]), map[], map[]));
        }
    }
  }

  /** What a create does to what is already there. */
  ghost predicate Keeps(s: Store, s': Store) {
    && s'.nextUid >= s.nextUid
    && (forall j | j in s.objects :: j in s'.objects && s'.objects[j].uid == s.objects[j].uid
          && (j.namespace != "" ==> s'.objects[j] == s.objects[j])
          && s'.objects[j].owners == s.objects[j].owners)
    && (forall j | j in s'.objects && j !in s.objects :: s'.objects[j].uid >= s.nextUid)
  }

  lemma CreateInv(c: Config, s: Store, k: Key, o: Object)
    requires Inv(c, s) && forall r | r in o.owners :: RefFits(s, k, r, o.owners[r])
    ensures var r := Create(c, s, k, o);
      && Inv(c, r.store) && Keeps(s, r.store)
      && (r.ok ==>
        && k in r.store.objects && k !in s.objects
        && r.store.objects[k].owners == o.owners && r.store.objects[k].annotations == o.annotations)
  {
    EnsureNamespaceInv(c, s, k.namespace);
    var r := EnsureNamespace(c, s, k.namespace);
    if r.ok && k !in r.store.objects {
      forall q | q in o.owners ensures RefFits(r.store, k, q, o.owners[q]) {
        assert RefFits(s, k, q, o.owners[q]);
      }
      PutNewInv(c, r.store, k, o.(labels := o.labels + c.managed));
    }
  }

  /** Under the invariant, what a read does not show is not there. */
  lemma SeesAll(c: Config, s: Store, k: Key)
    requires Inv(c, s)
    ensures Read(c, s, k) == if k in s.objects then Some(s.objects[k]) else None
  {
  }

  lemma EnsureAnchorInv(c: Config, s: Store, owner: Owner, namespace: string)
    requires Inv(c, s)
    ensures var r := EnsureAnchor(c, s, owner, namespace);
      && Inv(c, r.store) && Keeps(s, r.store)
      && (r.ok ==> AnchorKey(owner, namespace) in r.store.objects)
  {
    SeesAll(c, s, AnchorKey(owner, namespace));
    CreateInv(c, s, AnchorKey(owner, namespace), Object(0, c.managed, OwnerAnnotations(c, owner), map[]));
  }

  /** The object hangs on the anchor of `owner` that is there now. */
  ghost predicate Controls(s: Store, owner: Owner, k: Key) {
    && k in s.objects
    && AnchorKey(owner, k.namespace) in s.objects
    && AnchorRef(owner) in s.objects[k].owners
    && s.objects[k].owners[AnchorRef(owner)] == s.objects[AnchorKey(owner, k.namespace)].uid
  }

  lemma AnchorFits(c: Config, s: Store, owner: Owner, namespace: string, name: string, kind: string)
    requires Inv(c, s) && AnchorKey(owner, namespace) in s.objects
    ensures RefFits(s, Key(kind, namespace, name), AnchorRef(owner), s.objects[AnchorKey(owner, namespace)].uid)
  {
  }

  /** A write of an object that was just tied to an anchor. */
  lemma DecoratedInv(c: Config, s: Store, owner: Owner, k: Key, o: Object)
    requires Inv(c, s) && k.namespace != "" && AnchorKey(owner, k.namespace) in s.objects
    requires o.owners == map[] || (k in s.objects && o == s.objects[k])
    ensures var d := Decorated(c, owner, s.objects[AnchorKey(owner, k.namespace)].uid, o);
      && Names(c, owner, d.annotations)
      && AnchorRef(owner) in d.owners && d.owners[AnchorRef(owner)] == s.objects[AnchorKey(owner, k.namespace)].uid
      && (forall r | r in d.owners :: RefFits(s, k, r, d.owners[r]))
      && (k in s.objects && o == s.objects[k] ==> Inv(c, Put(s, k, d)) && Controls(Put(s, k, d), owner, k))
  {
    hide RefFits, Visible, OwnerAnnotations;
    AnchorFits(c, s, owner, k.namespace, k.name, k.kind);
    assert k == Key(k.kind, k.namespace, k.name);
    var d := Decorated(c, owner, s.objects[AnchorKey(owner, k.namespace)].uid, o);
    if k in s.objects {
      assert Fits(c, s, k, s.objects[k]);
      if o == s.objects[k] {
        PutInv(c, s, k, d);
      }
    }
  }

  lemma ControlInv(c: Config, s: Store, owner: Owner, k: Key, labels: Labels)
    requires Inv(c, s)
    ensures var r := MappedNamespace.Control(c, s, owner, k, labels);
      && Inv(c, r.store)
      && (r.ok ==> Controls(r.store, owner, k) && Names(c, owner, r.store.objects[k].annotations))
  {
    hide EnsureAnchor, Create, Fits, Read, OwnerAnnotations, Decorated, Names;
    if owner.namespace != "" && k.namespace != "" {
      var s1 := EnsureAnchor(c, s, owner, k.namespace).store;
      EnsureAnchorInv(c, s, owner, k.namespace);
      SeesAll(c, s, k);
      if EnsureAnchor(c, s, owner, k.namespace).ok {
        var o := Object(0, labels, map[], map[]);
        if k in s.objects {
          DecoratedInv(c, s1, owner, k, s.objects[k]);
        } else {
          DecoratedInv(c, s1, owner, k, o);
          CreateInv(c, s1, k, Decorated(c, owner, s1.objects[AnchorKey(owner, k.namespace)].uid, o));
        }
      }
    }
  }

  /** Everything being visible, tying an object to an owner never fails, unless one of them has no namespace. */
  lemma ControlSucceeds(c: Config, s: Store, owner: Owner, k: Key, labels: Labels)
    requires Inv(c, s)
    ensures MappedNamespace.Control(c, s, owner, k, labels).ok <==>
      owner.namespace != "" && k.namespace != "" && (k != AnchorKey(owner, k.namespace) || k in s.objects)
  {
    hide MappedNamespace.Control, EnsureAnchor, Create, AnchorName;
    ControlMeaning(c, s, owner, k, labels);
    NothingHidden(c, s, k);
    NothingHidden(c, s, AnchorKey(owner, k.namespace));
    NothingHidden(c, s, NamespaceKey(k.namespace));
  }

  lemma NothingHidden(c: Config, s: Store, k: Key)
    requires Inv(c, s)
    ensures !Hidden(c, s, k)
  {
  }

  lemma StepInv(c: Config, s: Store, op: Op)
    requires Inv(c, s) && Respectful(c, [op])
    ensures Inv(c, Step(c, s, op))
  {
    hide MappedNamespace.Control, Create, Fits, Orphaned;
    match op
    case Control(owner, k, labels) => ControlInv(c, s, owner, k, labels);
    case Make(k, labels, annotations) => CreateInv(c, s, k, Object(0, labels, annotations, map[]));
    case Mutate(k, labels, annotations) => assert op in [op]; MutateInv(c, s, k, labels, annotations);
    case Forget(owner, upstream) =>
      if owner.namespace in upstream {
        DropInv(c, s, AnchorKey(owner, NamespaceName(upstream[owner.namespace])));
      }
    case Collect(k) => DropInv(c, s, k);
    case Remove(k) => DropInv(c, s, k);
  }

  lemma MutateInv(c: Config, s: Store, k: Key, labels: Labels, annotations: map<string, string>)
    requires Inv(c, s) && Agree(c.managed, labels)
    ensures Inv(c, Step(c, s, Mutate(k, labels, annotations)))
  {
    hide RefFits;
    if k in s.objects && Read(c, s, k).Some? {
      var o := s.objects[k];
      assert Fits(c, s, k, o);
      PutInv(c, s, k, o.(labels := o.labels + labels, annotations := o.annotations + annotations));
    }
  }

  lemma {:induction false} RunInv(c: Config, ops: seq<Op>)
    requires Respectful(c, ops)
    ensures Inv(c, Run(c, Empty, ops))
    decreases |ops|
  {
    if ops != [] {
      var last := |ops| - 1;
      RunInv(c, ops[..last]);
      assert ops[last] in ops;
      StepInv(c, Run(c, Empty, ops[..last]), ops[last]);
    }
  }

  // ---------------------------------------------------------------- visibility

  /** In every reachable state a read finds exactly what is there, so no create is ever repeated. */
  lemma EverythingIsVisible(c: Config, ops: seq<Op>, k: Key)
    requires Respectful(c, ops)
    ensures var s := Run(c, Empty, ops); Read(c, s, k) == if k in s.objects then Some(s.objects[k]) else None
  {
    RunInv(c, ops);
    SeesAll(c, Run(c, Empty, ops), k);
  }

  predicate VisibleWith(managed: Labels, labels: Labels, uid: string) {
    Visible(managed, labels[WORKLOAD_UID := uid])
  }

  /**
   The one label a mutate function sets: the workload's UID, on the secret version. The
   object stays visible for every UID exactly when that label is not a managed one.
  */
  lemma WorkloadLabelKeepsVisible(managed: Labels, labels: Labels)
    requires Visible(managed, labels)
    ensures (forall uid :: VisibleWith(managed, labels, uid)) <==> WORKLOAD_UID !in managed
  {
    if WORKLOAD_UID in managed {
      var other := managed[WORKLOAD_UID] + "'";
      assert |other| != |managed[WORKLOAD_UID]|;
      assert !VisibleWith(managed, labels, other);
    }
  }

  // ---------------------------------------------------------------- one anchor

  /** Nobody deletes the anchor of `owner` in the namespace, and nobody deletes the object. */
  predicate Spares(op: Op, owner: Owner, k: Key) {
    && (op.Forget? ==> AnchorName(op.owner) != AnchorName(owner) && AnchorName(op.owner) != k.name)
    && (op.Remove? ==> op.k != k && op.k != AnchorKey(owner, k.namespace))
    && (op.Collect? ==> op.k != AnchorKey(owner, k.namespace))
  }

  lemma KeptControl(s: Store, s': Store, owner: Owner, k: Key)
    requires Controls(s, owner, k) && Keeps(s, s') && k.namespace != ""
    ensures Controls(s', owner, k)
  {
  }

  lemma OtherControl(c: Config, s: Store, op: Op, owner: Owner, k: Key)
    requires Inv(c, s) && Controls(s, owner, k) && k.namespace != "" && op.Control?
    ensures Controls(Step(c, s, op), owner, k)
  {
    hide EnsureAnchor, Create, Fits, Read, OwnerAnnotations, Keeps, RefFits;
    if op.owner.namespace != "" && op.k.namespace != "" {
      var s1 := EnsureAnchor(c, s, op.owner, op.k.namespace).store;
      EnsureAnchorInv(c, s, op.owner, op.k.namespace);
      KeptControl(s, s1, owner, k);
      SeesAll(c, s, op.k);
      if EnsureAnchor(c, s, op.owner, op.k.namespace).ok {
        var anchor := s1.objects[AnchorKey(op.owner, op.k.namespace)].uid;
        if op.k in s.objects {
          assert s1.objects[op.k] == s.objects[op.k] by { SameObject(s, s1, op.k); }
        } else {
          DecoratedInv(c, s1, op.owner, op.k, Object(0, op.labels, map[], map[]));
          var d := Decorated(c, op.owner, anchor, Object(0, op.labels, map[], map[]));
          CreateInv(c, s1, op.k, d);
          KeptControl(s1, Create(c, s1, op.k, d).store, owner, k);
        }
      }
    }
  }

  lemma SameObject(s: Store, s': Store, k: Key)
    requires Keeps(s, s') && k in s.objects && k.namespace != ""
    ensures k in s'.objects && s'.objects[k] == s.objects[k]
  {
  }

  /** An object stays on its anchor, whatever else happens, until it is collected itself. */
  lemma StepKeepsControl(c: Config, s: Store, op: Op, owner: Owner, k: Key)
    requires Inv(c, s) && Controls(s, owner, k) && k.namespace != "" && Spares(op, owner, k)
    ensures Controls(Step(c, s, op), owner, k)
  {
    hide Fits, Keeps, RefFits;
    match op
    case Control(_, _, _) => OtherControl(c, s, op, owner, k);
    case Make(j, labels, annotations) =>
      CreateInv(c, s, j, Object(0, labels, annotations, map[]));
      KeptControl(s, Step(c, s, op), owner, k);
    case Mutate(_, _, _) =>
    case Forget(_, _) =>
    case Collect(_) => assert Alive(s, s.objects[AnchorKey(owner, k.namespace)].uid);
    case Remove(_) =>
  }

  /** All operations after the `i`-th spare the anchor and the object. */
  ghost predicate SparedAfter(ops: seq<Op>, i: nat, owner: Owner, k: Key) {
    forall j | i < j < |ops| :: Spares(ops[j], owner, k)
  }

  /**
   Objects tied to the same owner in the same namespace, at whatever times, hang on one
   and the same anchor afterwards, and that anchor is there.
  */
  lemma {:induction false} OneAnchorOwnsAll(c: Config, ops: seq<Op>, i: nat, owner: Owner)
    requires Respectful(c, ops) && i < |ops| && ops[i].Control? && ops[i].owner == owner
    requires MappedNamespace.Control(c, Run(c, Empty, ops[..i]), owner, ops[i].k, ops[i].labels).ok
    requires SparedAfter(ops, i, owner, ops[i].k)
    ensures Controls(Run(c, Empty, ops), owner, ops[i].k) && ops[i].k.namespace != ""
    decreases |ops|
  {
    hide MappedNamespace.Control, Controls, Spares;
    var last := |ops| - 1;
    var s := Run(c, Empty, ops[..last]);
    assert forall op | op in ops[..last] :: op in ops;
    RunInv(c, ops[..last]);
    if i == last {
      ControlInv(c, s, owner, ops[i].k, ops[i].labels);
      ControlNamespace(c, s, owner, ops[i].k, ops[i].labels);
    } else {
      assert ops[..last][..i] == ops[..i];
      OneAnchorOwnsAll(c, ops[..last], i, owner);
      StepKeepsControl(c, s, ops[last], owner, ops[i].k);
    }
  }

  lemma ControlNamespace(c: Config, s: Store, owner: Owner, k: Key, labels: Labels)
    requires MappedNamespace.Control(c, s, owner, k, labels).ok
    ensures k.namespace != ""
  {
  }

  // ---------------------------------------------------------------- garbage collection

  /** Everything that is due. */
  ghost function Due(s: Store): set<Key> {
    set k | k in s.objects && Orphaned(s, k)
  }

  /** The objects that hang on the anchor of `owner` in a namespace, and on nothing else that is alive. */
  ghost function Belongings(s: Store, owner: Owner, namespace: string): set<Key> {
    set k | k in s.objects && k.namespace == namespace && Controls(s, owner, k)
      && forall r | r in s.objects[k].owners && Alive(s, s.objects[k].owners[r]) ::
           s.objects[k].owners[r] == s.objects[AnchorKey(owner, namespace)].uid
  }

  /**
   Deleting the anchor of an owner removes that anchor and nothing else. Due for garbage
   collection is then what was due before and the objects that hung on that anchor alone,
   the anchor itself aside.
  */
  lemma ForgettingReleasesExactly(c: Config, ops: seq<Op>, owner: Owner, upstream: map<string, string>)
    requires Respectful(c, ops) && owner.namespace in upstream
    ensures var s := Run(c, Empty, ops);
      var s' := Step(c, s, Forget(owner, upstream));
      var namespace := NamespaceName(upstream[owner.namespace]);
      && s'.objects == s.objects - {AnchorKey(owner, namespace)}
      && Due(s') == (Due(s) + Belongings(s, owner, namespace)) - {AnchorKey(owner, namespace)}
  {
    var s := Run(c, Empty, ops);
    var s' := Step(c, s, Forget(owner, upstream));
    var namespace := NamespaceName(upstream[owner.namespace]);
    var a := AnchorKey(owner, namespace);
    RunInv(c, ops);
    SeesAll(c, s, a);
    if a in s.objects {
      forall k | k in s'.objects ensures Orphaned(s', k) <==> k in Due(s) || k in Belongings(s, owner, namespace) {
        DueAfterDrop(c, s, owner, namespace, k);
      }
    }
  }

  lemma DueAfterDrop(c: Config, s: Store, owner: Owner, namespace: string, k: Key)
    requires Inv(c, s) && AnchorKey(owner, namespace) in s.objects
    requires k in s.objects && k != AnchorKey(owner, namespace)
    ensures Orphaned(Drop(s, AnchorKey(owner, namespace)), k) <==> k in Due(s) || k in Belongings(s, owner, namespace)
  {
    var a := AnchorKey(owner, namespace);
    var s' := Drop(s, a);
    assert Fits(c, s, a, s.objects[a]) && Fits(c, s, k, s.objects[k]);
    forall uid ensures Alive(s', uid) <==> Alive(s, uid) && uid != s.objects[a].uid {
      if Alive(s, uid) && uid != s.objects[a].uid {
        var j :| j in s.objects && s.objects[j].uid == uid;
        assert j in s'.objects;
      }
      if Alive(s', uid) {
        var j :| j in s'.objects && s'.objects[j].uid == uid;
        assert Fits(c, s, j, s.objects[j]);
      }
    }
    assert Alive(s, s.objects[a].uid);
    if Orphaned(s', k) && k !in Due(s) {
      var r :| r in s.objects[k].owners && Alive(s, s.objects[k].owners[r]);
      assert s.objects[k].owners[r] == s.objects[a].uid;
      assert RefFits(s, k, r, s.objects[k].owners[r]);
    }
  }

  // ---------------------------------------------------------------- collecting everything

  /** `t` is what is left of `s` after something was removed. */
  ghost predicate Part(t: Store, s: Store) {
    forall k | k in t.objects :: k in s.objects && t.objects[k] == s.objects[k]
  }

  function DropAll(s: Store, ks: set<Key>): Store {
    s.(objects := s.objects - ks)
  }

  /** What is due, what becomes due once that is gone, and so on. */
  ghost function Doomed(s: Store): set<Key>
    decreases |s.objects.Keys|
  {
    if Due(s) == {} then {}
    else
      RestIsLess(s);
      Due(s) + Doomed(DropAll(s, Due(s)))
  }

  lemma LessIsLeft(s: Store, ks: set<Key>)
    requires ks != {} && ks <= s.objects.Keys
    ensures DropAll(s, ks).objects.Keys < s.objects.Keys
  {
    var k :| k in ks;
    assert k in s.objects.Keys && k !in DropAll(s, ks).objects.Keys;
  }

  lemma Fewer(a: set<Key>, b: set<Key>)
    requires a < b
    ensures |a| < |b|
  {
    var k :| k in b && k !in a;
    assert a <= b - {k};
    NotMore(a, b - {k});
  }

  lemma {:induction false} NotMore(a: set<Key>, b: set<Key>)
    requires a <= b
    ensures |a| <= |b|
    decreases a
  {
    if a != {} {
      var k :| k in a;
      NotMore(a - {k}, b - {k});
    }
  }

  /** What is due stays due, whatever else goes. */
  lemma DueStaysDue(t: Store, s: Store)
    requires Part(t, s)
    ensures forall k | k in Due(s) && k in t.objects :: k in Due(t)
  {
    forall uid | Alive(t, uid) ensures Alive(s, uid) {
      var j :| j in t.objects && t.objects[j].uid == uid;
      assert j in s.objects;
    }
  }

  lemma DropTwice(s: Store, a: set<Key>, b: set<Key>)
    ensures DropAll(DropAll(s, a), b) == DropAll(s, a + b) && DropAll(s, {}) == s
  {
    assert s.objects - a - b == s.objects - (a + b);
    assert s.objects - {} == s.objects;
  }

  lemma DueIsThere(s: Store)
    ensures Due(s) <= s.objects.Keys
  {
  }

  lemma RestIsLess(s: Store)
    requires Due(s) != {}
    ensures var rest := DropAll(s, Due(s)).objects.Keys; rest < s.objects.Keys && |rest| < |s.objects.Keys|
  {
    LessIsLeft(s, Due(s));
    Fewer(DropAll(s, Due(s)).objects.Keys, s.objects.Keys);
  }

  /** Nothing is due any more once the doomed are gone. */
  lemma {:induction false} NothingDueWithoutDoomed(s: Store)
    ensures Doomed(s) <= s.objects.Keys && Due(DropAll(s, Doomed(s))) == {}
    decreases |s.objects.Keys|
  {
    DueIsThere(s);
    hide Due, DropAll;
    DropTwice(s, {}, {});
    if Due(s) != {} {
      var rest := DropAll(s, Due(s));
      RestIsLess(s);
      NothingDueWithoutDoomed(rest);
      DropTwice(s, Due(s), Doomed(rest));
    }
  }

  /** Of a store in which nothing is due, nothing doomed is left. */
  lemma {:induction false} DoomedAreGone(t: Store, s: Store)
    requires Part(t, s) && Due(t) == {}
    ensures t.objects.Keys !! Doomed(s)
    decreases |s.objects.Keys|
  {
    if Due(s) != {} {
      var rest := DropAll(s, Due(s));
      RestIsLess(s);
      DueStaysDue(t, s);
      DoomedAreGone(t, rest);
    }
  }

  /** Garbage collection, one object after the other. */
  function CollectAll(c: Config, s: Store, ks: seq<Key>): Store
    decreases |ks|
  {
    if ks == [] then s else Step(c, CollectAll(c, s, ks[..|ks| - 1]), Collect(ks[|ks| - 1]))
  }

  /** It takes nothing but the doomed. */
  lemma {:induction false} OnlyDoomedAreTaken(c: Config, s: Store, ks: seq<Key>)
    ensures Part(CollectAll(c, s, ks), s) && Part(DropAll(s, Doomed(s)), CollectAll(c, s, ks))
    decreases |ks|
  {
    hide Doomed;
    NothingDueWithoutDoomed(s);
    if ks != [] {
      var last := |ks| - 1;
      var t := CollectAll(c, s, ks[..last]);
      var kept := DropAll(s, Doomed(s));
      OnlyDoomedAreTaken(c, s, ks[..last]);
      DueStaysDue(kept, t);
      assert Orphaned(t, ks[last]) ==> ks[last] in Due(t);
    }
  }

  /** In whatever order garbage is collected until nothing is due, it is the doomed that go, and they alone. */
  lemma CollectionIsConfluent(c: Config, s: Store, ks: seq<Key>)
    requires Due(CollectAll(c, s, ks)) == {}
    ensures CollectAll(c, s, ks).objects == s.objects - Doomed(s)
  {
    OnlyDoomedAreTaken(c, s, ks);
    DoomedAreGone(CollectAll(c, s, ks), s);
  }

  /** Nothing hangs on something that is due itself, so collecting makes nothing else due. */
  ghost predicate Flat(s: Store) {
    forall k, r, j | k in s.objects && r in s.objects[k].owners && j in Due(s) :: s.objects[k].owners[r] != s.objects[j].uid
  }

  lemma FlatDoomed(s: Store)
    requires Flat(s)
    ensures Doomed(s) == Due(s)
  {
    var rest := DropAll(s, Due(s));
    if Due(s) != {} {
      forall k | k in rest.objects ensures !Orphaned(rest, k) {
        if Orphaned(rest, k) {
          var r :| r in s.objects[k].owners && Alive(s, s.objects[k].owners[r]);
          var j :| j in s.objects && s.objects[j].uid == s.objects[k].owners[r];
          assert j in rest.objects;
          assert Alive(rest, s.objects[k].owners[r]);
        }
      }
      assert Due(rest) == {};
    }
  }

  /** Controllers tie secrets and the like to their owners, never an anchor itself. */
  ghost predicate AnchorsAreFree(ops: seq<Op>) {
    forall op | op in ops && op.Control? :: op.k.kind != "ConfigMap"
  }

  /** Then no anchor has an owner, and whatever has one hangs on anchors. */
  ghost predicate Shallow(s: Store) {
    && (forall k | k in s.objects && k.kind == "ConfigMap" :: s.objects[k].owners == map[])
    && (forall k, r | k in s.objects && r in s.objects[k].owners :: r.kind == "ConfigMap")
  }

  lemma CreateShallow(c: Config, s: Store, k: Key, o: Object)
    requires Shallow(s) && (k.kind == "ConfigMap" ==> o.owners == map[]) && forall r | r in o.owners :: r.kind == "ConfigMap"
    ensures Shallow(Create(c, s, k, o).store)
  {
    hide NamespaceLabels, Visible;
  }

  lemma ControlShallow(c: Config, s: Store, owner: Owner, k: Key, labels: Labels)
    requires Shallow(s) && k.kind != "ConfigMap"
    ensures Shallow(MappedNamespace.Control(c, s, owner, k, labels).store)
  {
    hide Create, Visible, OwnerAnnotations;
    var anchor := Object(0, c.managed, OwnerAnnotations(c, owner), map[]);
    CreateShallow(c, s, AnchorKey(owner, k.namespace), anchor);
    var s1 := EnsureAnchor(c, s, owner, k.namespace).store;
    if AnchorKey(owner, k.namespace) in s1.objects {
      var uid := s1.objects[AnchorKey(owner, k.namespace)].uid;
      CreateShallow(c, s1, k, Decorated(c, owner, uid, Object(0, labels, map[], map[])));
    }
  }

  lemma StepShallow(c: Config, s: Store, op: Op)
    requires Shallow(s) && AnchorsAreFree([op])
    ensures Shallow(Step(c, s, op))
  {
    hide MappedNamespace.Control, Create, Visible, Orphaned;
    assert op in [op];
    match op
    case Control(owner, k, labels) => ControlShallow(c, s, owner, k, labels);
    case Make(k, labels, annotations) => CreateShallow(c, s, k, Object(0, labels, annotations, map[]));
    case Mutate(_, _, _) =>
    case Forget(_, _) =>
    case Collect(_) =>
    case Remove(_) =>
  }

  lemma {:induction false} RunShallow(c: Config, ops: seq<Op>)
    requires AnchorsAreFree(ops)
    ensures Shallow(Run(c, Empty, ops))
    decreases |ops|
  {
    hide Step, Shallow;
    if ops != [] {
      RunShallow(c, ops[..|ops| - 1]);
      assert ops[|ops| - 1] in ops;
      StepShallow(c, Run(c, Empty, ops[..|ops| - 1]), ops[|ops| - 1]);
    } else {
      EmptyShallow();
    }
  }

  lemma EmptyShallow()
    ensures Shallow(Empty)
  {
  }

  lemma ShallowIsFlat(c: Config, s: Store)
    requires Inv(c, s) && Shallow(s)
    ensures Flat(s)
  {
    forall k, r, j | k in s.objects && r in s.objects[k].owners && j in Due(s)
      ensures s.objects[k].owners[r] != s.objects[j].uid
    {
      assert Fits(c, s, k, s.objects[k]) && RefFits(s, k, r, s.objects[k].owners[r]);
    }
  }

  lemma {:induction false} CollectFirst(c: Config, s: Store, k: Key, ks: seq<Key>)
    ensures CollectAll(c, s, [k] + ks) == CollectAll(c, Step(c, s, Collect(k)), ks)
    decreases |ks|
  {
    hide Step;
    if ks == [] {
      assert [k] + ks == [k] && CollectAll(c, s, []) == s;
    } else {
      assert ([k] + ks)[..|ks|] == [k] + ks[..|ks| - 1];
      CollectFirst(c, s, k, ks[..|ks| - 1]);
    }
  }

  /** Collecting comes to an end. */
  lemma {:induction false} CollectionEnds(c: Config, s: Store) returns (ks: seq<Key>)
    ensures Due(CollectAll(c, s, ks)) == {}
    decreases |s.objects.Keys|
  {
    ks := [];
    if Due(s) != {} {
      var k :| k in Due(s);
      assert Step(c, s, Collect(k)).objects == s.objects - {k};
      LessIsLeft(s, {k});
      Fewer((s.objects - {k}).Keys, s.objects.Keys);
      var rest := CollectionEnds(c, Step(c, s, Collect(k)));
      CollectFirst(c, s, k, rest);
      ks := [k] + rest;
    }
  }

  /**
   Deleting the anchor and collecting garbage, in whatever order, until nothing is due:
   gone are then the anchor and the doomed, and everything else is as it was. As long as no
   anchor was ever tied to an owner itself, the doomed are what had been due before and the
   objects that hung on the anchor alone.
  */
  lemma ForgettingCollectsExactly(c: Config, ops: seq<Op>, owner: Owner, upstream: map<string, string>, ks: seq<Key>)
    requires Respectful(c, ops) && owner.namespace in upstream
    requires Due(CollectAll(c, Step(c, Run(c, Empty, ops), Forget(owner, upstream)), ks)) == {}
    ensures var s := Run(c, Empty, ops);
      var s' := Step(c, s, Forget(owner, upstream));
      var a := AnchorKey(owner, NamespaceName(upstream[owner.namespace]));
      && CollectAll(c, s', ks).objects == s.objects - {a} - Doomed(s')
      && (AnchorsAreFree(ops) ==> Doomed(s') == (Due(s) + Belongings(s, owner, a.namespace)) - {a})
  {
    hide Due, Belongings, Doomed, CollectAll, Inv, Shallow, Flat;
    var s := Run(c, Empty, ops);
    var s' := Step(c, s, Forget(owner, upstream));
    CollectionIsConfluent(c, s', ks);
    ForgettingReleasesExactly(c, ops, owner, upstream);
    if AnchorsAreFree(ops) {
      RunInv(c, ops);
      RunShallow(c, ops);
      StepInv(c, s, Forget(owner, upstream));
      StepShallow(c, s, Forget(owner, upstream));
      ShallowIsFlat(c, s');
      FlatDoomed(s');
    }
  }
}
