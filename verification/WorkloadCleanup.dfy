/**
 Cleaning up after a deleted workload: its anchor, service account, secret and all
 firewalls labelled with its UID are deleted, one call at a time, before the workload
 lets go of its finalizer. The pass may die between any two calls and other parties
 keep writing to both API servers; the one assumption is that the workload's instances
 are quiescent, so that nobody brings its resources back.
*/
module WorkloadCleanup {
  import opened Kube
  import MappedNamespace

  /** Downstream resources; anchors and cluster-scoped resources are named after the workload's UID. */
  datatype Key =
    | Anchor(namespace: string, owner: Uid)
    | Account(owner: Uid)
    | Secret(owner: Uid)
    | Firewall(name: string)

  /** The body of a resource is the UID in its workload label, if it has one. */
  type Resource = Obj<Label>
  datatype Label = NoLabel | WorkloadUid(uid: Uid)

  type Workload = Obj<()>

  datatype Place = Place(namespace: string, name: string)

  /** The call a pass makes next; `w` is the copy of the workload it works from. */
  datatype Pc =
    | Idle
    | AddFinalizer(w: Workload)
    | ReadAnchor(w: Workload)
    | DropAnchor(w: Workload)
    | DropAccount(w: Workload)
    | DropSecret(w: Workload)
    | ListFirewalls(w: Workload)
    | DropFirewalls(w: Workload, rest: seq<Key>)
    | Release(w: Workload)

  datatype Action =
    | Call(n: Place, order: seq<Key>)    // the order in which a list call returns what it finds
    | Crash(n: Place)
    | UserCreate(n: Place, fins: set<Finalizer>)
    | UserDelete(n: Place)
    | UserWrite(n: Place, fins: set<Finalizer>)
    | Others(down: map<Key, Resource>)   // anybody else, downstream

  datatype State = State(
    up: map<Place, Workload>,
    down: map<Key, Resource>,
    namespaces: map<string, string>,     // the UID of every upstream namespace
    pcs: map<Place, Pc>,
    nextUid: Uid,
    nextRv: nat)

  function PcOf(s: State, n: Place): Pc {
    if n in s.pcs then s.pcs[n] else Idle
  }

  function Goto(s: State, n: Place, pc: Pc): State {
    s.(pcs := s.pcs[n := pc])
  }

  function WithUp(s: State, up: map<Place, Workload>): State {
    s.(up := up, nextRv := s.nextRv + 1)
  }

  function WithDown(s: State, down: map<Key, Resource>): State {
    s.(down := down, nextRv := s.nextRv + 1)
  }

  function AnchorOf(s: State, n: Place, u: Uid): Key
    requires n.namespace in s.namespaces
  {
    Anchor(MappedNamespace.NamespaceName(s.namespaces[n.namespace]), u)
  }

  /** What listing the firewalls of a workload finds. */
  function Listed(down: map<Key, Resource>, u: Uid): set<Key> {
    set k | k in down && k.Firewall? && down[k].body == WorkloadUid(u)
  }

  predicate IsListing(order: seq<Key>, down: map<Key, Resource>, u: Uid) {
    (set k | k in order) == Listed(down, u) && |order| == |Listed(down, u)|
  }

  /** Deleting something that may already be gone. */
  function Drop(s: State, n: Place, k: Key, next: Pc): State {
    Goto(WithDown(s, Delete(s.down, k, s.nextRv).store), n, next)
  }

  function AfterFirewall(w: Workload, rest: seq<Key>): Pc {
    if rest == [] then Release(w) else DropFirewalls(w, rest)
  }

  function Start(s: State, n: Place): State {
    if n !in s.up then s
    else
      var w := s.up[n];
      if w.deleting then
        if Infra in w.fins then Goto(s, n, ReadAnchor(w)) else s
      else if Infra !in w.fins then Goto(s, n, AddFinalizer(w))
      else s
  }

  function CallStep(s: State, n: Place, order: seq<Key>): State {
    match PcOf(s, n)
    case Idle => Start(s, n)
    case AddFinalizer(w) => Goto(WithUp(s, Update(s.up, n, w.(fins := w.fins + {Infra}), s.nextRv).store), n, Idle)
    case ReadAnchor(w) =>
      // Without the upstream namespace the anchor cannot be named, and the pass fails.
      if n.namespace !in s.namespaces then Goto(s, n, Idle)
      else if AnchorOf(s, n, w.uid) in s.down then Goto(s, n, DropAnchor(w))
      else Goto(s, n, DropAccount(w))
    case DropAnchor(w) =>
      // Unlike later on, finding it gone meanwhile is an error here.
      if n.namespace !in s.namespaces || AnchorOf(s, n, w.uid) !in s.down then Goto(s, n, Idle)
      else Drop(s, n, AnchorOf(s, n, w.uid), DropAccount(w))
    case DropAccount(w) => Drop(s, n, Account(w.uid), DropSecret(w))
    case DropSecret(w) => Drop(s, n, Secret(w.uid), ListFirewalls(w))
    case ListFirewalls(w) =>
      if IsListing(order, s.down, w.uid) then Goto(s, n, AfterFirewall(w, order)) else Goto(s, n, Idle)
    case DropFirewalls(w, rest) =>
      if rest == [] then Goto(s, n, Release(w)) else Drop(s, n, rest[0], AfterFirewall(w, rest[1..]))
    case Release(w) => Goto(WithUp(s, Update(s.up, n, w.(fins := w.fins - {Infra}), s.nextRv).store), n, Idle)
  }

  /** Users do not touch the infra finalizer of an existing workload. */
  function EnvStep(s: State, a: Action): State
    requires !a.Call?
  {
    match a
    case Crash(n) => Goto(s, n, Idle)
    case UserCreate(n, fins) =>
      if n in s.up then s
      else WithUp(s, s.up[n := Obj(s.nextUid, s.nextRv, false, fins, ())]).(nextUid := s.nextUid + 1)
    case UserDelete(n) => if n in s.up then WithUp(s, Delete(s.up, n, s.nextRv).store) else s
    case UserWrite(n, fins) => if n in s.up then WithUp(s, Touch(s.up, n, fins, (), s.nextRv)) else s
    case Others(down) => WithDown(s, down)
  }

  function Step(s: State, a: Action): State {
    if a.Call? then CallStep(s, a.n, a.order) else EnvStep(s, a)
  }

  function Run(s: State, run: seq<Action>): State
    decreases |run|
  {
    if run == [] then s else Step(Run(s, run[..|run| - 1]), run[|run| - 1])
  }

  // ---------------------------------------------------------------- what must go

  /** A resource of the workload created as `u` under `n`. */
  predicate Mine(s: State, n: Place, u: Uid, k: Key, o: Resource) {
    || (n.namespace in s.namespaces && k == AnchorOf(s, n, u))
    || k == Account(u)
    || k == Secret(u)
    || (k.Firewall? && o.body == WorkloadUid(u))
  }

  /** Still there and not being deleted. */
  predicate Live(s: State, n: Place, u: Uid, k: Key) {
    k in s.down && !s.down[k].deleting && Mine(s, n, u, k, s.down[k])
  }

  ghost predicate Clean(s: State, n: Place, u: Uid) {
    forall k :: !Live(s, n, u, k)
  }

  ghost predicate Held(s: State, n: Place, u: Uid) {
    n in s.up && s.up[n].uid == u && Infra in s.up[n].fins
  }

  /** Nothing of the workload comes to life. */
  ghost predicate NothingNew(s: State, s': State, n: Place, u: Uid) {
    s'.namespaces == s.namespaces && forall k | Live(s', n, u, k) :: Live(s, n, u, k)
  }

  /** Throughout the run, nobody but the controller brings resources of the workload to life. */
  ghost predicate Quiescent(s: State, run: seq<Action>, n: Place, u: Uid)
    decreases |run|
  {
    run == [] ||
      var before := Run(s, run[..|run| - 1]);
      var a := run[|run| - 1];
      && Quiescent(s, run[..|run| - 1], n, u)
      && (a.Others? ==> NothingNew(before, EnvStep(before, a), n, u))
  }

  /** How far the pass has got: what it has passed by is not alive any more. */
  ghost predicate Passed(s: State, n: Place, u: Uid, k: Key) {
    match PcOf(s, n)
    case DropAccount(_) => k.Anchor?
    case DropSecret(_) => k.Anchor? || k.Account?
    case ListFirewalls(_) => !k.Firewall?
    case DropFirewalls(_, rest) => k !in rest
    case Release(_) => true
    case _ => false
  }

  ghost predicate PassInv(s: State, n: Place, u: Uid) {
    var pc := PcOf(s, n);
    && (pc != Idle ==> pc.w.rv < s.nextRv && (n in s.up && s.up[n].rv == pc.w.rv ==> s.up[n] == pc.w))
    && (pc != Idle && pc.w.uid == u ==> forall k | Passed(s, n, u, k) :: !Live(s, n, u, k))
    && (pc != Idle && !pc.AddFinalizer? && !pc.ReadAnchor? ==> n.namespace in s.namespaces)
  }

  ghost predicate Inv(s: State, n: Place, u: Uid) {
    && u < s.nextUid
    && (n in s.up ==> s.up[n].rv < s.nextRv)
    && (Held(s, n, u) || Clean(s, n, u))
    && PassInv(s, n, u)
  }

  /** No delete of anybody's pass brings anything to life. */
  lemma DropNothingNew(s: State, m: Place, k: Key, next: Pc, n: Place, u: Uid)
    ensures NothingNew(s, Drop(s, m, k, next), n, u)
    ensures !Live(Drop(s, m, k, next), n, u, k)
  {
  }

  lemma NothingNewClean(s: State, s': State, n: Place, u: Uid)
    requires NothingNew(s, s', n, u) && (Held(s, n, u) ==> Held(s', n, u) || Clean(s, n, u))
    requires Held(s, n, u) || Clean(s, n, u)
    ensures Held(s', n, u) || Clean(s', n, u)
  {
  }

  /** The calls on downstream resources. */
  lemma DropCallInv(s: State, n: Place, order: seq<Key>, u: Uid)
    requires Inv(s, n, u)
    requires PcOf(s, n).DropAnchor? || PcOf(s, n).DropAccount? || PcOf(s, n).DropSecret? || PcOf(s, n).DropFirewalls?
    ensures Inv(CallStep(s, n, order), n, u)
  {
    hide Delete, Clean;
    var pc := PcOf(s, n);
    var s' := CallStep(s, n, order);
    if pc.DropAnchor? {
      DropNothingNew(s, n, AnchorOf(s, n, pc.w.uid), DropAccount(pc.w), n, u);
    } else if pc.DropAccount? {
      DropNothingNew(s, n, Account(pc.w.uid), DropSecret(pc.w), n, u);
    } else if pc.DropSecret? {
      DropNothingNew(s, n, Secret(pc.w.uid), ListFirewalls(pc.w), n, u);
    } else if pc.rest != [] {
      DropNothingNew(s, n, pc.rest[0], AfterFirewall(pc.w, pc.rest[1..]), n, u);
      assert pc.rest == [pc.rest[0]] + pc.rest[1..];
    }
    NothingNewClean(s, s', n, u);
  }

  /** Looking for the anchor, and listing the firewalls. */
  lemma ReadCallInv(s: State, n: Place, order: seq<Key>, u: Uid)
    requires Inv(s, n, u) && (PcOf(s, n).ReadAnchor? || PcOf(s, n).ListFirewalls?)
    ensures Inv(CallStep(s, n, order), n, u)
  {
    hide Clean, IsListing;
    var pc := PcOf(s, n);
    var s' := CallStep(s, n, order);
    NothingNewClean(s, s', n, u);
    if pc.ListFirewalls? && IsListing(order, s.down, pc.w.uid) {
      forall k | pc.w.uid == u && Live(s, n, u, k) ensures k in order {
        assert !Passed(s, n, u, k);
        ListingHasAll(s.down, order, u, k);
      }
    }
  }

  lemma ListingHasAll(down: map<Key, Resource>, order: seq<Key>, u: Uid, k: Key)
    requires IsListing(order, down, u)
    ensures k in order <==> k in down && k.Firewall? && down[k].body == WorkloadUid(u)
  {
    assert k in order <==> k in (set j | j in order);
    assert k in Listed(down, u) <==> k in down && k.Firewall? && down[k].body == WorkloadUid(u);
  }

  /** The calls on the workload itself. */
  lemma UpstreamCallInv(s: State, n: Place, order: seq<Key>, u: Uid)
    requires Inv(s, n, u) && (PcOf(s, n).Idle? || PcOf(s, n).AddFinalizer? || PcOf(s, n).Release?)
    ensures Inv(CallStep(s, n, order), n, u)
  {
    hide Clean, Live;
    var s' := CallStep(s, n, order);
    assert NothingNew(s, s', n, u) by { SameDown(s, s', n, u); }
    if PcOf(s, n).Release? && PcOf(s, n).w.uid == u {
      assert Clean(s, n, u) by { PassedAll(s, n, u); }
    }
    NothingNewClean(s, s', n, u);
  }

  lemma SameDown(s: State, s': State, n: Place, u: Uid)
    requires s'.down == s.down && s'.namespaces == s.namespaces
    ensures NothingNew(s, s', n, u) && NothingNew(s', s, n, u)
  {
  }

  lemma PassedAll(s: State, n: Place, u: Uid)
    requires PassInv(s, n, u) && PcOf(s, n).Release? && PcOf(s, n).w.uid == u
    ensures Clean(s, n, u)
  {
  }

  /** No call of any pass brings a resource of any workload to life. */
  lemma CallNothingNew(s: State, m: Place, order: seq<Key>, n: Place, u: Uid)
    ensures NothingNew(s, CallStep(s, m, order), n, u)
  {
    hide NothingNew, Drop, IsListing, Listed, Update, AnchorOf;
    var pc := PcOf(s, m);
    var s' := CallStep(s, m, order);
    if s'.down == s.down && s'.namespaces == s.namespaces {
      SameDown(s, s', n, u);
    } else {
      match pc
      case DropAnchor(w) => DropNothingNew(s, m, AnchorOf(s, m, w.uid), DropAccount(w), n, u);
      case DropAccount(w) => DropNothingNew(s, m, Account(w.uid), DropSecret(w), n, u);
      case DropSecret(w) => DropNothingNew(s, m, Secret(w.uid), ListFirewalls(w), n, u);
      case DropFirewalls(w, rest) => DropNothingNew(s, m, rest[0], AfterFirewall(w, rest[1..]), n, u);
    }
  }

  /** From `s` to `s'`, the workload at `n` and its pass are left alone. */
  predicate Elsewhere(s: State, s': State, n: Place) {
    && PcOf(s', n) == PcOf(s, n) && s'.nextRv >= s.nextRv && s'.nextUid == s.nextUid
    && (n in s.up <==> n in s'.up) && (n in s.up ==> s.up[n] == s'.up[n])
  }

  lemma DropElsewhere(s: State, m: Place, k: Key, next: Pc, n: Place)
    requires m != n
    ensures Elsewhere(s, Drop(s, m, k, next), n)
  {
    hide Delete;
  }

  lemma UpdateElsewhere(s: State, m: Place, w: Workload, n: Place)
    requires m != n
    ensures Elsewhere(s, Goto(WithUp(s, Update(s.up, m, w, s.nextRv).store), m, Idle), n)
  {
  }

  lemma GotoElsewhere(s: State, m: Place, next: Pc, n: Place)
    requires m != n
    ensures Elsewhere(s, Goto(s, m, next), n)
  {
  }

  lemma CallElsewhere(s: State, m: Place, order: seq<Key>, n: Place)
    requires m != n
    ensures Elsewhere(s, CallStep(s, m, order), n)
  {
    hide Elsewhere, Goto, Drop, WithUp, Update, IsListing, Listed, AnchorOf;
    var s' := CallStep(s, m, order);
    match PcOf(s, m)
    case AddFinalizer(w) => UpdateElsewhere(s, m, w.(fins := w.fins + {Infra}), n);
    case Release(w) => UpdateElsewhere(s, m, w.(fins := w.fins - {Infra}), n);
    case DropAccount(w) => DropElsewhere(s, m, Account(w.uid), DropSecret(w), n);
    case DropSecret(w) => DropElsewhere(s, m, Secret(w.uid), ListFirewalls(w), n);
    case _ =>
      forall next ensures Elsewhere(s, Goto(s, m, next), n) { GotoElsewhere(s, m, next, n); }
      forall k, next ensures Elsewhere(s, Drop(s, m, k, next), n) { DropElsewhere(s, m, k, next, n); }
      SameElsewhere(s, n);
  }

  lemma SameElsewhere(s: State, n: Place)
    ensures Elsewhere(s, s, n)
  {
  }

  /** A call of some other workload's pass. */
  lemma ForeignCallInv(s: State, m: Place, order: seq<Key>, n: Place, u: Uid)
    requires Inv(s, n, u) && m != n
    ensures Inv(CallStep(s, m, order), n, u)
  {
    hide Inv, CallStep, NothingNew;
    CallNothingNew(s, m, order, n, u);
    CallElsewhere(s, m, order, n);
    OthersKeepInv(s, CallStep(s, m, order), n, u);
  }

  /** Whatever leaves this workload and its pass alone keeps the invariant. */
  lemma OthersKeepInv(s: State, s': State, n: Place, u: Uid)
    requires Inv(s, n, u) && NothingNew(s, s', n, u) && s'.nextRv >= s.nextRv && s'.nextUid >= s.nextUid
    requires n in s.up <==> n in s'.up
    requires n in s.up ==> s.up[n] == s'.up[n]
    requires PcOf(s', n) == PcOf(s, n) || PcOf(s', n) == Idle
    ensures Inv(s', n, u)
  {
  }

  lemma EnvInv(s: State, a: Action, n: Place, u: Uid)
    requires Inv(s, n, u) && !a.Call? && (a.Others? ==> NothingNew(s, EnvStep(s, a), n, u))
    ensures Inv(EnvStep(s, a), n, u)
  {
    if a.Crash? || a.Others? || a.n != n {
      ElsewhereInv(s, a, n, u);
    } else {
      OwnUserInv(s, a, n, u);
    }
  }

  /** A crash, others, and what users do to other workloads. */
  lemma ElsewhereInv(s: State, a: Action, n: Place, u: Uid)
    requires Inv(s, n, u) && !a.Call? && (a.Others? ==> NothingNew(s, EnvStep(s, a), n, u))
    requires a.Crash? || a.Others? || a.n != n
    ensures Inv(EnvStep(s, a), n, u)
  {
    hide Clean, Live, Inv;
    var s' := EnvStep(s, a);
    if !a.Others? {
      SameDown(s, s', n, u);
    }
    OthersKeepInv(s, s', n, u);
  }

  /** What users do to the workload itself. */
  lemma OwnUserInv(s: State, a: Action, n: Place, u: Uid)
    requires Inv(s, n, u) && (a.UserCreate? || a.UserDelete? || a.UserWrite?) && a.n == n
    ensures Inv(EnvStep(s, a), n, u)
  {
    hide Clean, Live;
    var s' := EnvStep(s, a);
    SameDown(s, s', n, u);
    NothingNewClean(s, s', n, u);
    assert PcOf(s', n) == PcOf(s, n);
    forall k | Passed(s', n, u, k) ensures Passed(s, n, u, k) {
    }
  }

  lemma StepInv(s: State, a: Action, n: Place, u: Uid)
    requires Inv(s, n, u) && (a.Others? ==> NothingNew(s, EnvStep(s, a), n, u))
    ensures Inv(Step(s, a), n, u)
  {
    hide Inv, NothingNew;
    if !a.Call? {
      EnvInv(s, a, n, u);
    } else if a.n != n {
      ForeignCallInv(s, a.n, a.order, n, u);
    } else {
      match PcOf(s, n)
      case Idle | AddFinalizer(_) | Release(_) => UpstreamCallInv(s, n, a.order, u);
      case ReadAnchor(_) | ListFirewalls(_) => ReadCallInv(s, n, a.order, u);
      case DropAnchor(_) | DropAccount(_) | DropSecret(_) | DropFirewalls(_, _) => DropCallInv(s, n, a.order, u);
    }
  }

  lemma {:induction false} RunInv(s: State, run: seq<Action>, n: Place, u: Uid)
    requires Inv(s, n, u) && Quiescent(s, run, n, u)
    ensures Inv(Run(s, run), n, u)
    decreases |run|
  {
    hide Inv, NothingNew, Step;
    if run != [] {
      RunInv(s, run[..|run| - 1], n, u);
      StepInv(Run(s, run[..|run| - 1]), run[|run| - 1], n, u);
    }
  }

  /** A workload that holds its finalizer, with no pass working on it yet. */
  ghost predicate Sound(s: State, n: Place, u: Uid) {
    && Held(s, n, u) && s.up[n].rv < s.nextRv && u < s.nextUid
    && PcOf(s, n) == Idle
  }

  /**
   However many passes were cut short and whatever else was going on: by the time a
   workload has let go of its finalizer, its anchor, service account, secret and all
   firewalls carrying its label are gone or being deleted, and they stay so.
  */
  lemma ReleasedIsClean(s: State, run: seq<Action>, n: Place, u: Uid)
    requires Sound(s, n, u) && Quiescent(s, run, n, u) && !Held(Run(s, run), n, u)
    ensures Clean(Run(s, run), n, u)
  {
    RunInv(s, run, n, u);
  }

  // ---------------------------------------------------------------- other workloads

  /**
   A firewall's name tells whose it is, once and for all: it is made from the UID of one
   deployment (`PolicyPass.NameInjective`), and a deployment belongs to one workload.
  */
  ghost predicate NamesTell(down: map<Key, Resource>, whose: string -> Label) {
    forall k | k in down && k.Firewall? :: down[k].body == whose(k.name)
  }

  ghost predicate AlwaysTell(s: State, run: seq<Action>, whose: string -> Label) {
    forall i | 0 <= i <= |run| :: NamesTell(Run(s, run[..i]).down, whose)
  }

  ghost predicate RestInv(s: State, n: Place, whose: string -> Label) {
    PcOf(s, n).DropFirewalls? ==>
      forall k | k in PcOf(s, n).rest :: k.Firewall? && whose(k.name) == WorkloadUid(PcOf(s, n).w.uid)
  }

  lemma RestStepInv(s: State, a: Action, n: Place, whose: string -> Label)
    requires RestInv(s, n, whose) && NamesTell(s.down, whose)
    ensures RestInv(Step(s, a), n, whose)
  {
    hide IsListing, Listed, Update, Delete, Touch, AnchorOf;
    if a.Call? && a.n != n {
      CallElsewhere(s, a.n, a.order, n);
    } else if a.Call? && PcOf(s, n).ListFirewalls? && IsListing(a.order, s.down, PcOf(s, n).w.uid) {
      forall k | k in a.order ensures k.Firewall? && whose(k.name) == WorkloadUid(PcOf(s, n).w.uid) {
        ListingHasAll(s.down, a.order, PcOf(s, n).w.uid, k);
      }
    }
  }

  lemma {:induction false} RestRunInv(s: State, run: seq<Action>, n: Place, whose: string -> Label)
    requires AlwaysTell(s, run, whose) && RestInv(s, n, whose)
    ensures RestInv(Run(s, run), n, whose)
    decreases |run|
  {
    hide Step, RestInv, NamesTell;
    if run != [] {
      var front := run[..|run| - 1];
      forall i | 0 <= i <= |front| ensures NamesTell(Run(s, front[..i]).down, whose) {
        assert front[..i] == run[..i];
      }
      RestRunInv(s, front, n, whose);
      assert run[..|front|] == front;
      RestStepInv(Run(s, front), run[|front|], n, whose);
    }
  }

  lemma DropLeavesOthers(s: State, n: Place, j: Key, next: Pc, k: Key)
    requires k in s.down && k != j
    ensures k in Drop(s, n, j, next).down && Drop(s, n, j, next).down[k] == s.down[k]
  {
  }

  /** In any run, whatever call the pass of a workload makes, resources that are not its own stay as they are. */
  lemma OthersUntouched(s: State, run: seq<Action>, n: Place, order: seq<Key>, whose: string -> Label, k: Key)
    requires AlwaysTell(s, run, whose) && PcOf(s, n) == Idle
    requires var t := Run(s, run);
      && k in t.down
      && (PcOf(t, n) != Idle ==> !Mine(t, n, PcOf(t, n).w.uid, k, t.down[k]))
    ensures var t := Run(s, run);
      var t' := CallStep(t, n, order);
      k in t'.down && t'.down[k] == t.down[k]
  {
    hide IsListing, Listed, Update, Delete;
    var t := Run(s, run);
    RestRunInv(s, run, n, whose);
    assert run[..|run|] == run;
    var pc := PcOf(t, n);
    if CallStep(t, n, order).down != t.down {
      match pc
      case DropAnchor(w) => DropLeavesOthers(t, n, AnchorOf(t, n, w.uid), DropAccount(w), k);
      case DropAccount(w) => DropLeavesOthers(t, n, Account(w.uid), DropSecret(w), k);
      case DropSecret(w) => DropLeavesOthers(t, n, Secret(w.uid), ListFirewalls(w), k);
      case DropFirewalls(w, rest) =>
        assert rest[0] in rest;
        DropLeavesOthers(t, n, rest[0], AfterFirewall(w, rest[1..]), k);
    }
  }

  // ---------------------------------------------------------------- one good pass

  function CallsLeft(pc: Pc, order: seq<Key>): nat {
    match pc
    case Idle => 0
    case AddFinalizer(_) | Release(_) => 1
    case DropFirewalls(_, rest) => |rest| + 2
    case ListFirewalls(_) => |order| + 3
    case DropSecret(_) => |order| + 4
    case DropAccount(_) => |order| + 5
    case DropAnchor(_) => |order| + 6
    case ReadAnchor(_) => |order| + 7
  }

  lemma CallProgresses(s: State, n: Place, order: seq<Key>)
    requires PcOf(s, n) != Idle
    ensures CallsLeft(PcOf(CallStep(s, n, order), n), order) < CallsLeft(PcOf(s, n), order)
  {
  }

  /** The rest of the pass in flight, undisturbed. */
  function Finish(s: State, n: Place, order: seq<Key>): State
    decreases CallsLeft(PcOf(s, n), order)
  {
    if PcOf(s, n) == Idle then s
    else
      CallProgresses(s, n, order);
      Finish(CallStep(s, n, order), n, order)
  }

  function Pass(s: State, n: Place, order: seq<Key>): State {
    Finish(CallStep(s, n, order), n, order)
  }

  lemma {:induction false} FinishInv(s: State, n: Place, order: seq<Key>, u: Uid)
    requires Inv(s, n, u)
    ensures Inv(Finish(s, n, order), n, u)
    decreases CallsLeft(PcOf(s, n), order)
  {
    hide Inv, CallStep;
    if PcOf(s, n) != Idle {
      StepInv(s, Call(n, order), n, u);
      CallProgresses(s, n, order);
      FinishInv(CallStep(s, n, order), n, order, u);
    }
  }

  lemma DropLeavesListing(s: State, n: Place, k: Key, next: Pc, u: Uid)
    requires !k.Firewall?
    ensures Listed(Drop(s, n, k, next).down, u) == Listed(s.down, u)
  {
  }

  /** Past the anchor, nothing can stop an undisturbed pass. */
  lemma {:induction false} FinishReleases(s: State, n: Place, order: seq<Key>)
    requires PcOf(s, n).DropAccount? || PcOf(s, n).DropSecret? || PcOf(s, n).ListFirewalls?
      || PcOf(s, n).DropFirewalls? || PcOf(s, n).Release?
    requires var w := PcOf(s, n).w;
      && n in s.up && s.up[n] == w
      && (PcOf(s, n).DropFirewalls? || PcOf(s, n).Release? || IsListing(order, s.down, w.uid))
    ensures !Held(Finish(s, n, order), n, PcOf(s, n).w.uid)
    decreases CallsLeft(PcOf(s, n), order)
  {
    hide Delete, Listed, Settle;
    var pc := PcOf(s, n);
    var s' := CallStep(s, n, order);
    CallProgresses(s, n, order);
    if pc.Release? {
      assert !Held(s', n, pc.w.uid) by { ReleaseWorks(s, n, order); }
      assert Finish(s, n, order) == s';
    } else {
      if pc.DropAccount? {
        DropLeavesListing(s, n, Account(pc.w.uid), DropSecret(pc.w), pc.w.uid);
      } else if pc.DropSecret? {
        DropLeavesListing(s, n, Secret(pc.w.uid), ListFirewalls(pc.w), pc.w.uid);
      }
      FinishReleases(s', n, order);
    }
  }

  lemma ReleaseWorks(s: State, n: Place, order: seq<Key>)
    requires PcOf(s, n).Release? && n in s.up && s.up[n] == PcOf(s, n).w
    ensures !Held(CallStep(s, n, order), n, s.up[n].uid) && PcOf(CallStep(s, n, order), n) == Idle
  {
  }

  /**
   An undisturbed pass over a deleted workload, in whatever order the firewalls are listed
   and whatever earlier passes did, releases it if and only if the workload's namespace is
   still known upstream; and when it does, nothing of the workload is left alive.
   A namespace that is being deleted the usual way stays known as long as the workload holds
   its finalizer; one that was finalized by force does not.
  */
  lemma PassReleases(s: State, n: Place, u: Uid, order: seq<Key>)
    requires Sound(s, n, u) && s.up[n].deleting && IsListing(order, s.down, u)
    ensures var s' := Pass(s, n, order);
      && (!Held(s', n, u) <==> n.namespace in s.namespaces)
      && (!Held(s', n, u) ==> Clean(s', n, u))
  {
    hide IsListing, Delete, Listed, Update, Clean, Live;
    var w := s.up[n];
    var s1 := CallStep(s, n, order);
    var s2 := CallStep(s1, n, order);
    StepInv(s, Call(n, order), n, u);
    FinishInv(s1, n, order, u);
    CallProgresses(s1, n, order);
    assert Finish(s1, n, order) == Finish(s2, n, order);
    if n.namespace in s.namespaces {
      if PcOf(s2, n).DropAnchor? {
        var s3 := CallStep(s2, n, order);
        CallProgresses(s2, n, order);
        DropLeavesListing(s2, n, AnchorOf(s, n, u), DropAccount(w), u);
        assert IsListing(order, s3.down, u) by { SameListing(s.down, s3.down, order, u); }
        FinishReleases(s3, n, order);
      } else {
        FinishReleases(s2, n, order);
      }
    }
  }

  lemma SameListing(a: map<Key, Resource>, b: map<Key, Resource>, order: seq<Key>, u: Uid)
    requires Listed(a, u) == Listed(b, u) && IsListing(order, a, u)
    ensures IsListing(order, b, u)
  {
  }

  // ---------------------------------------------------------------- from the beginning

  /** Nothing upstream yet; downstream may be anything. */
  predicate Initial(s: State) {
    s.up == map[] && s.pcs == map[]
  }

  /** What a pass may rely on at any time, whatever others do downstream. */
  ghost predicate Basic(s: State, n: Place) {
    var pc := PcOf(s, n);
    && (n in s.up ==> s.up[n].rv < s.nextRv && s.up[n].uid < s.nextUid)
    && (pc != Idle ==>
      && pc.w.rv < s.nextRv && pc.w.uid < s.nextUid
      && (n in s.up && s.up[n].rv == pc.w.rv ==> s.up[n] == pc.w))
    && (pc != Idle && !pc.AddFinalizer? ==> pc.w.deleting && (n in s.up && s.up[n].uid == pc.w.uid ==> s.up[n].deleting))
    && (pc != Idle && !pc.AddFinalizer? && !pc.ReadAnchor? ==> n.namespace in s.namespaces)
  }

  lemma OwnCallBasic(s: State, n: Place, order: seq<Key>)
    requires Basic(s, n)
    ensures Basic(CallStep(s, n, order), n)
  {
    hide Delete, IsListing, AnchorOf;
    match PcOf(s, n)
    case Idle =>
    case AddFinalizer(_) =>
    case ReadAnchor(_) =>
    case DropAnchor(_) =>
    case DropAccount(_) =>
    case DropSecret(_) =>
    case ListFirewalls(_) =>
    case DropFirewalls(_, _) =>
    case Release(_) =>
  }

  lemma CallNamespaces(s: State, m: Place, order: seq<Key>)
    ensures CallStep(s, m, order).namespaces == s.namespaces
  {
    CallNothingNew(s, m, order, m, 0);
  }

  lemma EnvBasic(s: State, a: Action, n: Place)
    requires Basic(s, n) && !a.Call?
    ensures Basic(EnvStep(s, a), n)
  {
  }

  lemma StepBasic(s: State, a: Action, n: Place)
    requires Basic(s, n)
    ensures Basic(Step(s, a), n)
  {
    if !a.Call? {
      EnvBasic(s, a, n);
    } else if a.n == n {
      OwnCallBasic(s, n, a.order);
    } else {
      hide CallStep;
      CallElsewhere(s, a.n, a.order, n);
      CallNamespaces(s, a.n, a.order);
    }
  }

  lemma {:induction false} RunBasic(s: State, run: seq<Action>, n: Place)
    requires Initial(s)
    ensures Basic(Run(s, run), n)
    decreases |run|
  {
    hide Step;
    if run != [] {
      RunBasic(s, run[..|run| - 1], n);
      StepBasic(Run(s, run[..|run| - 1]), run[|run| - 1], n);
    }
  }

  /**
   The whole life of a workload, over any interleaving: if it holds the finalizer at some
   time before it is deleted, and from then on nobody but the controller brings its
   resources to life, then by the time it has let go of the finalizer, or is gone, nothing
   of it is left alive.
  */
  lemma HeldThenClean(s: State, before: seq<Action>, after: seq<Action>, n: Place, u: Uid)
    requires Initial(s)
    requires var t := Run(s, before);
      && Held(t, n, u) && !t.up[n].deleting
      && Quiescent(t, after, n, u) && !Held(Run(t, after), n, u)
    ensures Clean(Run(Run(s, before), after), n, u)
  {
    RunBasic(s, before, n);
    BasicIsInv(Run(s, before), n, u);
    RunInv(Run(s, before), after, n, u);
  }

  lemma BasicIsInv(s: State, n: Place, u: Uid)
    requires Basic(s, n) && Held(s, n, u) && !s.up[n].deleting
    ensures Inv(s, n, u)
  {
  }

  /**
   A pass that is not about deletion, undisturbed: a live workload holds the finalizer
   afterwards, and nothing else has changed; one that holds it already, or is deleted
   without it, is left alone.
  */
  lemma PassAdopts(s: State, n: Place, order: seq<Key>)
    requires PcOf(s, n) == Idle && n in s.up && !(s.up[n].deleting && Infra in s.up[n].fins)
    ensures var (s', w) := (Pass(s, n, order), s.up[n]);
      && s'.down == s.down && s'.namespaces == s.namespaces && PcOf(s', n) == Idle
      && n in s'.up && s'.up[n].(rv := w.rv) == (if w.deleting then w else w.(fins := w.fins + {Infra}))
      && (!w.deleting ==> Held(s', n, w.uid))
      && (w.deleting || Infra in w.fins ==> s' == s)
      && forall m | m != n :: (m in s'.up <==> m in s.up) && (m in s.up ==> s'.up[m] == s.up[m])
  {
    var s1 := CallStep(s, n, order);
    if PcOf(s1, n) != Idle {
      var s2 := CallStep(s1, n, order);
      assert Finish(s1, n, order) == Finish(s2, n, order) == s2;
    }
  }

  /**
   From any reachable state: a pass over a live workload adopts it, and when it is deleted
   afterwards and its namespace is known, one more pass cleans up and releases it.
  */
  lemma LifeCycle(s: State, run: seq<Action>, n: Place, first: seq<Key>, second: seq<Key>)
    requires Initial(s)
    requires var t := Run(s, run); n in t.up && !t.up[n].deleting && n.namespace in t.namespaces
    requires var t := Run(s, run);
      IsListing(second, EnvStep(Pass(EnvStep(t, Crash(n)), n, first), UserDelete(n)).down, t.up[n].uid)
    ensures var t := Run(s, run);
      var u := t.up[n].uid;
      var adopted := Pass(EnvStep(t, Crash(n)), n, first);
      var end := Pass(EnvStep(adopted, UserDelete(n)), n, second);
      && Held(adopted, n, u) && adopted.down == t.down
      && !Held(end, n, u) && Clean(end, n, u)
  {
    hide Pass, IsListing, Clean, Step;
    var t := EnvStep(Run(s, run), Crash(n));
    RunBasic(s, run, n);
    EnvBasic(Run(s, run), Crash(n), n);
    var (adopted, u) := (Pass(t, n, first), t.up[n].uid);
    PassAdopts(t, n, first);
    PassBasic(t, n, first);
    var deleted := EnvStep(adopted, UserDelete(n));
    EnvBasic(adopted, UserDelete(n), n);
    assert Sound(deleted, n, u);
    PassReleases(deleted, n, u, second);
  }

  lemma {:induction false} FinishBasic(s: State, n: Place, order: seq<Key>)
    requires Basic(s, n)
    ensures Basic(Finish(s, n, order), n) && Finish(s, n, order).namespaces == s.namespaces
    decreases CallsLeft(PcOf(s, n), order)
  {
    hide CallStep, Basic;
    if PcOf(s, n) != Idle {
      CallProgresses(s, n, order);
      OwnCallBasic(s, n, order);
      CallNamespaces(s, n, order);
      FinishBasic(CallStep(s, n, order), n, order);
    }
  }

  lemma PassBasic(s: State, n: Place, order: seq<Key>)
    requires Basic(s, n)
    ensures Basic(Pass(s, n, order), n) && Pass(s, n, order).namespaces == s.namespaces
  {
    hide CallStep, Basic, Finish;
    OwnCallBasic(s, n, order);
    CallNamespaces(s, n, order);
    FinishBasic(CallStep(s, n, order), n, order);
  }

  lemma {:induction false} FinishIsRun(s: State, n: Place, order: seq<Key>, start: State, run: seq<Action>)
      returns (longer: seq<Action>)
    requires Run(start, run) == s
    ensures Run(start, longer) == Finish(s, n, order)
    decreases CallsLeft(PcOf(s, n), order)
  {
    hide CallStep, CallsLeft;
    longer := run;
    if PcOf(s, n) != Idle {
      CallProgresses(s, n, order);
      longer := OneMore(s, Call(n, order), start, run);
      longer := FinishIsRun(CallStep(s, n, order), n, order, start, longer);
    }
  }

  lemma OneMore(s: State, a: Action, start: State, run: seq<Action>) returns (longer: seq<Action>)
    requires Run(start, run) == s
    ensures Run(start, longer) == Step(s, a)
  {
    longer := run + [a];
    assert longer[..|run|] == run;
  }

  lemma PassIsRun(s: State, n: Place, order: seq<Key>, start: State, run: seq<Action>) returns (longer: seq<Action>)
    requires Run(start, run) == s
    ensures Run(start, longer) == Pass(s, n, order)
  {
    hide CallStep, Finish;
    longer := OneMore(s, Call(n, order), start, run);
    longer := FinishIsRun(CallStep(s, n, order), n, order, start, longer);
  }

  /** A firewall and an account of a workload that is yet to be created as `u`. */
  function Belongings(u: Uid): map<Key, Resource> {
    map[Firewall("rule") := Obj(7, 0, false, {Other("x")}, WorkloadUid(u)),
        Account(u) := Obj(8, 0, false, {}, NoLabel)]
  }

  /**
   What is said of all runs is said of this one too: a workload is created and adopted, a
   firewall and an account appear, it is deleted, and a pass marks the firewall, which
   somebody else holds, removes the account and lets the workload go.
  */
  lemma WorkloadComesAndGoes(start: State, n: Place) returns (run: seq<Action>, u: Uid)
    requires Initial(start) && start.down == map[] && n.namespace in start.namespaces
    ensures var t := Run(start, run);
      && u == start.nextUid && n !in t.up && Account(u) !in t.down
      && Firewall("rule") in t.down && t.down[Firewall("rule")].deleting
  {
    hide CallStep, Pass, Finish, Basic, IsListing;
    u := start.nextUid;
    assert Run(start, []) == start;
    run := OneMore(start, UserCreate(n, {}), start, []);
    var created := Run(start, run);
    assert created == Step(start, UserCreate(n, {}));
    assert PcOf(created, n) == Idle && n in created.up && created.up[n] == Obj(u, start.nextRv, false, {}, ());
    PassAdopts(created, n, []);
    run := PassIsRun(created, n, [], start, run);
    var adopted := Pass(created, n, []);
    RunBasic(start, run, n);
    run := OneMore(adopted, Others(Belongings(u)), start, run);
    var busy := Step(adopted, Others(Belongings(u)));
    run := OneMore(busy, UserDelete(n), start, run);
    var deleted := Step(busy, UserDelete(n));
    var order := [Firewall("rule")];
    assert IsListing(order, deleted.down, u) by { OneFirewall(deleted.down, u); }
    run := PassIsRun(deleted, n, order, start, run);
    CleanedUp(deleted, n, u, order);
  }

  lemma OneFirewall(down: map<Key, Resource>, u: Uid)
    requires down == Belongings(u)
    ensures IsListing([Firewall("rule")], down, u)
  {
    assert Listed(down, u) == {Firewall("rule")};
    assert (set k | k in [Firewall("rule")]) == {Firewall("rule")};
  }

  /** The last pass, call by call: first what has a name, then what is listed. */
  lemma CleanedUp(s: State, n: Place, u: Uid, order: seq<Key>)
    requires PcOf(s, n) == Idle && n in s.up && n.namespace in s.namespaces
    requires s.up[n].uid == u && s.up[n].deleting && s.up[n].fins == {Infra}
    requires s.down == Belongings(u) && order == [Firewall("rule")] && IsListing(order, s.down, u)
    ensures var t := Pass(s, n, order);
      && n !in t.up && Account(u) !in t.down && Firewall("rule") in t.down && t.down[Firewall("rule")].deleting
  {
    hide IsListing, Listed;
    var s1 := CallStep(s, n, order);
    var s2 := CallStep(s1, n, order);
    assert PcOf(s2, n) == DropAccount(s.up[n]) && s2.down == s.down && s2.up == s.up;
    var s3 := CallStep(s2, n, order);
    DropLeavesListing(s2, n, Account(u), DropSecret(s.up[n]), u);
    var s4 := CallStep(s3, n, order);
    DropLeavesListing(s3, n, Secret(u), ListFirewalls(s.up[n]), u);
    SameListing(s.down, s4.down, order, u);
    assert Finish(s1, n, order) == Finish(s2, n, order) == Finish(s3, n, order) == Finish(s4, n, order);
    ListedCleanedUp(s4, n, u, order);
  }

  lemma ListedCleanedUp(s: State, n: Place, u: Uid, order: seq<Key>)
    requires n in s.up && PcOf(s, n) == ListFirewalls(s.up[n])
    requires s.up[n].uid == u && s.up[n].deleting && s.up[n].fins == {Infra}
    requires order == [Firewall("rule")] && IsListing(order, s.down, u)
    requires Account(u) !in s.down && Firewall("rule") in s.down && s.down[Firewall("rule")].fins != {}
    ensures var t := Finish(s, n, order);
      && n !in t.up && Account(u) !in t.down && Firewall("rule") in t.down && t.down[Firewall("rule")].deleting
  {
    hide IsListing, Listed;
    var s5 := CallStep(s, n, order);
    assert PcOf(s5, n) == DropFirewalls(s.up[n], order);
    var s6 := CallStep(s5, n, order);
    assert PcOf(s6, n) == Release(s.up[n]) && s6.up == s.up;
    var s7 := CallStep(s6, n, order);
    assert {Infra} - {Infra} == {};
    assert Finish(s, n, order) == Finish(s5, n, order) == Finish(s6, n, order) == Finish(s7, n, order) == s7;
  }
}
