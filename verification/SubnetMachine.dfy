/**
 The subnet controller as a state machine, one API call per step, under the same
 assumptions as the instance controller: one pass in flight per upstream name,
 linearizable reads, and an environment that may act between any two calls.

 Unlike an instance, a subnet is released as soon as the delete of its downstream
 resource was accepted, and the downstream resource carries no infra finalizer.
*/
module SubnetMachine {
  import opened Kube

  /** The two conditions of a Subnet that matter; only this controller writes `programmed`. */
  datatype Conditions = Conditions(hasPrefix: bool, programmed: bool)

  type Subnet = Obj<Conditions>
  type Subnetwork = Obj<bool>   // the body says whether Crossplane reports it Ready

  datatype Pc =
    | Idle
    | AddFinalizer(sub: Subnet)
    | FinDelete(sub: Subnet)
    | FinRelease(sub: Subnet)
    | ReadDown(sub: Subnet)
    | CreateDown(sub: Subnet)
    | Publish(sub: Subnet, programmed: bool)

  datatype Action =
    | Call(n: Name, bail: bool)     // `bail`: a location, network or context is missing
    | Crash(n: Name)
    | UserCreate(n: Name, fins: set<Finalizer>, hasPrefix: bool)
    | UserDelete(n: Name)
    | UserWrite(n: Name, fins: set<Finalizer>, hasPrefix: bool)
    | DownDelete(u: Uid)
    | DownWrite(u: Uid, fins: set<Finalizer>, ready: bool)

  datatype State = State(
    up: map<Name, Subnet>,
    down: map<Uid, Subnetwork>,
    pcs: map<Name, Pc>,
    born: map<Uid, Name>,     // history: the name each UID was created under
    nextUid: Uid,
    nextRv: nat)

  const Init := State(map[], map[], map[], map[], 0, 0)

  function PcOf(s: State, n: Name): Pc {
    if n in s.pcs then s.pcs[n] else Idle
  }

  function Goto(s: State, n: Name, pc: Pc): State {
    s.(pcs := s.pcs[n := pc])
  }

  function WithUp(s: State, up: map<Name, Subnet>): State {
    s.(up := up, nextRv := s.nextRv + 1)
  }

  function WithDown(s: State, down: map<Uid, Subnetwork>): State {
    s.(down := down, nextRv := s.nextRv + 1)
  }

  /** `Reconcile` up to its first write or its read of the downstream resource. */
  function Start(s: State, n: Name, bail: bool): State {
    if n !in s.up || bail then s
    else
      var sub := s.up[n];
      if sub.deleting then
        if Infra in sub.fins then Goto(s, n, FinDelete(sub)) else s
      else if Infra !in sub.fins then Goto(s, n, AddFinalizer(sub))
      else if sub.body.programmed then s
      else if !sub.body.hasPrefix then Goto(s, n, Publish(sub, false))
      else Goto(s, n, ReadDown(sub))
  }

  function CallReadDown(s: State, n: Name, sub: Subnet, bail: bool): State {
    if bail then Goto(s, n, Publish(sub, false))
    else if sub.uid !in s.down then Goto(s, n, CreateDown(sub))
    else Goto(s, n, Publish(sub, s.down[sub.uid].body))
  }

  /** A resource just created is not Ready, and a failed create leaves the condition False too. */
  function CallCreateDown(s: State, n: Name, sub: Subnet): State {
    Goto(WithDown(s, Create(s.down, sub.uid, Obj(sub.uid, s.nextRv, false, {}, false)).store), n, Publish(sub, false))
  }

  /** The deferred status write; a conflict is not reported to anybody. */
  function CallPublish(s: State, n: Name, sub: Subnet, programmed: bool): State {
    Goto(WithUp(s, UpdateStatus(s.up, n, sub.(body := sub.body.(programmed := programmed)), s.nextRv).store), n, Idle)
  }

  /** A missing downstream resource counts as deleted. */
  function CallFinDelete(s: State, n: Name, sub: Subnet): State {
    Goto(WithDown(s, Delete(s.down, sub.uid, s.nextRv).store), n, FinRelease(sub))
  }

  function CallStep(s: State, n: Name, bail: bool): State {
    match PcOf(s, n)
    case Idle => Start(s, n, bail)
    case AddFinalizer(sub) =>
      Goto(WithUp(s, Update(s.up, n, sub.(fins := sub.fins + {Infra}), s.nextRv).store), n, Idle)
    case FinDelete(sub) => CallFinDelete(s, n, sub)
    case FinRelease(sub) =>
      Goto(WithUp(s, Update(s.up, n, sub.(fins := sub.fins - {Infra}), s.nextRv).store), n, Idle)
    case ReadDown(sub) => CallReadDown(s, n, sub, bail)
    case CreateDown(sub) => CallCreateDown(s, n, sub)
    case Publish(sub, programmed) => CallPublish(s, n, sub, programmed)
  }

  /** Downstream, anybody may rewrite finalizers and readiness; upstream, nobody else touches infra or Programmed. */
  function EnvStep(s: State, a: Action): State
    requires !a.Call?
  {
    match a
    case Crash(n) => Goto(s, n, Idle)
    case UserCreate(n, fins, hasPrefix) =>
      if n in s.up then s
      else
        WithUp(s, s.up[n := Obj(s.nextUid, s.nextRv, false, fins, Conditions(hasPrefix, false))])
          .(born := s.born[s.nextUid := n], nextUid := s.nextUid + 1)
    case UserDelete(n) => if n in s.up then WithUp(s, Delete(s.up, n, s.nextRv).store) else s
    case UserWrite(n, fins, hasPrefix) =>
      if n in s.up then
        WithUp(s, Touch(s.up, n, fins, Conditions(hasPrefix, s.up[n].body.programmed), s.nextRv))
      else s
    case DownDelete(u) => if u in s.down then WithDown(s, Delete(s.down, u, s.nextRv).store) else s
    case DownWrite(u, fins, ready) =>
      if u in s.down && (s.down[u].deleting ==> fins <= s.down[u].fins) then
        WithDown(s, Settle(s.down, u, s.down[u].(fins := fins, body := ready, rv := s.nextRv)))
      else s
  }

  function Step(s: State, a: Action): State {
    if a.Call? then CallStep(s, a.n, a.bail) else EnvStep(s, a)
  }

  function Run(s: State, run: seq<Action>): State
    decreases |run|
  {
    if run == [] then s else Step(Run(s, run[..|run| - 1]), run[|run| - 1])
  }
}
