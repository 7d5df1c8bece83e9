/**
 The rules of a Kubernetes API server that the controllers depend on.

 A store maps a key to an object. Every write stamps the object with a fresh
 resource version, an update carrying an outdated resource version is refused,
 deleting an object that still has finalizers only marks it, no finalizer can be
 added to a marked object, and a marked object that has lost its last finalizer
 is gone.
*/
module Kube {

  type Name = string

  /** Unique over all objects ever created; the API server never hands one out twice. */
  type Uid = nat

  datatype Finalizer = Infra | Crossplane | Other(id: string)

  /** `body` is the part of the object that the status endpoint writes. */
  datatype Obj<B> = Obj(uid: Uid, rv: nat, deleting: bool, fins: set<Finalizer>, body: B)

  datatype Outcome = Ok | NotFound | AlreadyExists | Conflict | Forbidden

  datatype Reply<K, B> = Reply(outcome: Outcome, store: map<K, Obj<B>>)

  /** Writes `o`, or drops it when it is marked for deletion and nothing holds it any more. */
  function Settle<K, B>(store: map<K, Obj<B>>, k: K, o: Obj<B>): map<K, Obj<B>> {
    if o.deleting && o.fins == {} then store - {k} else store[k := o]
  }

  function Create<K, B>(store: map<K, Obj<B>>, k: K, o: Obj<B>): Reply<K, B> {
    if k in store then Reply(AlreadyExists, store) else Reply(Ok, store[k := o])
  }

  function Delete<K, B>(store: map<K, Obj<B>>, k: K, rv: nat): Reply<K, B> {
    if k !in store then Reply(NotFound, store)
    else if store[k].deleting then Reply(Ok, store)
    else Reply(Ok, Settle(store, k, store[k].(deleting := true, rv := rv)))
  }

  /** Replaces the finalizers; the caller's copy must be current. */
  function Update<K, B>(store: map<K, Obj<B>>, k: K, copy: Obj<B>, rv: nat): Reply<K, B> {
    if k !in store then Reply(NotFound, store)
    else if store[k].rv != copy.rv then Reply(Conflict, store)
    else if store[k].deleting && !(copy.fins <= store[k].fins) then Reply(Forbidden, store)
    else Reply(Ok, Settle(store, k, store[k].(fins := copy.fins, rv := rv)))
  }

  /** Replaces the status only; the caller's copy must be current. */
  function UpdateStatus<K, B>(store: map<K, Obj<B>>, k: K, copy: Obj<B>, rv: nat): Reply<K, B> {
    if k !in store then Reply(NotFound, store)
    else if store[k].rv != copy.rv then Reply(Conflict, store)
    else Reply(Ok, store[k := store[k].(body := copy.body, rv := rv)])
  }

  /**
   A merge patch computed from `before`, carrying no resource version. The
   finalizer list is part of the patch only when `after` differs from `before` in
   it, and then the whole list is replaced.
  */
  function Patch<K, B>(store: map<K, Obj<B>>, k: K, before: set<Finalizer>, after: set<Finalizer>, rv: nat): Reply<K, B> {
    if k !in store then Reply(NotFound, store)
    else
      var fins := if before == after then store[k].fins else after;
      if store[k].deleting && !(fins <= store[k].fins) then Reply(Forbidden, store)
      else Reply(Ok, Settle(store, k, store[k].(fins := fins, rv := rv)))
  }

  /** A write by somebody else that changes at most other parties' finalizers and the status. */
  function Touch<K, B>(store: map<K, Obj<B>>, k: K, others: set<Finalizer>, body: B, rv: nat): map<K, Obj<B>> {
    if k !in store then store
    else
      var kept := store[k].fins * {Infra, Crossplane};
      var fins := kept + (others - {Infra, Crossplane});
      if store[k].deleting && !(fins <= store[k].fins) then store
      else Settle(store, k, store[k].(fins := fins, body := body, rv := rv))
  }

  // ---------------------------------------------------------------- the rules

  /** What a write of one object may do to a store, whoever makes it. */
  ghost predicate Lawful<K(!new), B>(a: map<K, Obj<B>>, b: map<K, Obj<B>>, k: K, rv: nat) {
    && (forall j | j != k :: (j in a <==> j in b) && (j in a ==> a[j] == b[j]))
    && (k in b ==> k in a)
    && (k in a && k in b ==>
      && b[k].uid == a[k].uid
      && (b[k] == a[k] || b[k].rv == rv)                          // a fresh version
      && (a[k].deleting ==> b[k].deleting && b[k].fins <= a[k].fins)  // no way back, nothing added
      && (b[k].deleting && b[k] != a[k] ==> b[k].fins != {}))     // held by somebody
    && (k in a && k !in b ==> a[k].fins == {} || a[k].deleting)   // nobody's object is taken away
  }

  /** Deletes, updates, patches and what others write all keep to the rules. */
  lemma AllLawful<K(!new), B>(store: map<K, Obj<B>>, k: K, copy: Obj<B>, before: set<Finalizer>, after: set<Finalizer>,
      others: set<Finalizer>, rv: nat)
    ensures Lawful(store, Delete(store, k, rv).store, k, rv)
    ensures Lawful(store, Update(store, k, copy, rv).store, k, rv)
    ensures Lawful(store, UpdateStatus(store, k, copy, rv).store, k, rv)
      || (k in store && store[k].deleting && store[k].fins == {})
    ensures Lawful(store, Patch(store, k, before, after, rv).store, k, rv)
    ensures Lawful(store, Touch(store, k, others, copy.body, rv), k, rv)
  {
  }

  /**
   A patch never conflicts. It leaves the finalizers alone unless it was computed to change
   them, and then puts its own list in their place; only additions to a marked object are refused.
  */
  lemma PatchExactly<K, B>(store: map<K, Obj<B>>, k: K, before: set<Finalizer>, after: set<Finalizer>, rv: nat)
    requires k in store
    ensures var (o, r) := (store[k], Patch(store, k, before, after, rv));
      && (r.outcome == Forbidden <==> o.deleting && before != after && !(after <= o.fins))
      && (r.outcome != Forbidden ==> r.outcome == Ok)
      && (r.outcome == Ok && k in r.store ==> r.store[k] == o.(fins := if before == after then o.fins else after, rv := rv))
      && (r.outcome == Ok && k !in r.store <==> o.deleting && (if before == after then o.fins == {} else after == {}))
  {
  }

  /** Others can do to an object whatever the rules allow, but for the finalizers of the controllers and Crossplane. */
  lemma TouchExactly<K, B>(store: map<K, Obj<B>>, k: K, others: set<Finalizer>, body: B, rv: nat)
    requires k in store && others !! {Infra, Crossplane}
    requires store[k].deleting ==> others <= store[k].fins && store[k].fins * {Infra, Crossplane} != {}
    ensures var s' := Touch(store, k, others, body, rv);
      && k in s' && s'[k].body == body && s'[k].rv == rv
      && s'[k].fins - {Infra, Crossplane} == others
      && s'[k].fins * {Infra, Crossplane} == store[k].fins * {Infra, Crossplane}
  {
    assert others - {Infra, Crossplane} == others;
  }
}
