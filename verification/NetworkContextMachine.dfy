/**
 The network context controller as a state machine, one API call per step. Several
 contexts may share one network: the downstream resource is named after the network's
 UID, and every context's pass creates it or patches it.
*/
module NetworkContextMachine {
  import opened Kube

  /** `network` is the name in the spec; only this controller writes `programmed`. */
  datatype Body = Body(network: Name, programmed: bool)

  type Context = Obj<Body>

  /** What Crossplane reports: the Ready condition, and ReconcileError as the reason of Synced. */
  datatype Health = Health(ready: bool, reconcileError: bool)

  type Network = Obj<Health>

  /** `net` is the UID of the network the pass read upstream. */
  datatype Pc =
    | Idle
    | ReadNetwork(ctx: Context)
    | ReadDown(ctx: Context, net: Uid)
    | CreateDown(ctx: Context, net: Uid)
    | PatchDown(ctx: Context, net: Uid)
    | Publish(ctx: Context, net: Uid, programmed: bool)

  /** `bail`: the location is missing or not ours; `changed`: the mutated network differs from the one read. */
  datatype Hint = Hint(bail: bool, changed: bool)

  datatype Action =
    | Call(n: Name, hint: Hint)
    | Crash(n: Name)
    | UserCreate(n: Name, fins: set<Finalizer>, network: Name)
    | UserDelete(n: Name)
    | UserWrite(n: Name, fins: set<Finalizer>, network: Name)
    | NetworkCreate(network: Name)
    | NetworkDelete(network: Name)
    | DownDelete(u: Uid)
    | DownWrite(u: Uid, fins: set<Finalizer>, health: Health)

  datatype State = State(
    up: map<Name, Context>,
    networks: map<Name, Uid>,  // the upstream networks
    down: map<Uid, Network>,
    pcs: map<Name, Pc>,
    born: map<Uid, Name>,      // history: the name each context's UID was created under
    nextUid: Uid,
    nextRv: nat)

  const Init := State(map[], map[], map[], map[], map[], 0, 0)

  function PcOf(s: State, n: Name): Pc {
    if n in s.pcs then s.pcs[n] else Idle
  }

  function Goto(s: State, n: Name, pc: Pc): State {
    s.(pcs := s.pcs[n := pc])
  }

  function WithUp(s: State, up: map<Name, Context>): State {
    s.(up := up, nextRv := s.nextRv + 1)
  }

  function WithDown(s: State, down: map<Uid, Network>): State {
    s.(down := down, nextRv := s.nextRv + 1)
  }

  /** The verdict on the network as the last answer of the API server shows it. */
  predicate Good(h: Health) {
    h.ready && !h.reconcileError
  }

  function Start(s: State, n: Name, hint: Hint): State {
    if n !in s.up || hint.bail || s.up[n].deleting || s.up[n].body.programmed then s
    else Goto(s, n, ReadNetwork(s.up[n]))
  }

  /** Without its network the pass fails, and the deferred write says not programmed. */
  function CallReadNetwork(s: State, n: Name, ctx: Context): State {
    if ctx.body.network !in s.networks then Goto(s, n, Publish(ctx, 0, false))
    else Goto(s, n, ReadDown(ctx, s.networks[ctx.body.network]))
  }

  function CallReadDown(s: State, n: Name, ctx: Context, net: Uid, hint: Hint): State {
    if net !in s.down then Goto(s, n, CreateDown(ctx, net))
    else if hint.changed then Goto(s, n, PatchDown(ctx, net))
    else Goto(s, n, Publish(ctx, net, Good(s.down[net].body)))
  }

  /** Created by another context's pass meanwhile, or just created and not Ready: not programmed either way. */
  function CallCreateDown(s: State, n: Name, ctx: Context, net: Uid): State {
    Goto(WithDown(s, Create(s.down, net, Obj(net, s.nextRv, false, {}, Health(false, false))).store), n,
         Publish(ctx, net, false))
  }

  /** The patch carries no resource version; its answer shows the network as it is now. */
  function CallPatchDown(s: State, n: Name, ctx: Context, net: Uid): State {
    var r := Patch(s.down, net, {}, {}, s.nextRv);
    Goto(WithDown(s, r.store), n, Publish(ctx, net, r.outcome == Ok && net in r.store && Good(r.store[net].body)))
  }

  /** The deferred status write. */
  function CallPublish(s: State, n: Name, ctx: Context, programmed: bool): State {
    Goto(WithUp(s, UpdateStatus(s.up, n, ctx.(body := ctx.body.(programmed := programmed)), s.nextRv).store), n, Idle)
  }

  function CallStep(s: State, n: Name, hint: Hint): State {
    match PcOf(s, n)
    case Idle => Start(s, n, hint)
    case ReadNetwork(ctx) => CallReadNetwork(s, n, ctx)
    case ReadDown(ctx, net) => CallReadDown(s, n, ctx, net, hint)
    case CreateDown(ctx, net) => CallCreateDown(s, n, ctx, net)
    case PatchDown(ctx, net) => CallPatchDown(s, n, ctx, net)
    case Publish(ctx, _, programmed) => CallPublish(s, n, ctx, programmed)
  }

  /** Downstream, anybody may rewrite finalizers and health; upstream, nobody else touches Programmed. */
  function EnvStep(s: State, a: Action): State
    requires !a.Call?
  {
    match a
    case Crash(n) => Goto(s, n, Idle)
    case UserCreate(n, fins, network) =>
      if n in s.up then s
      else
        WithUp(s, s.up[n := Obj(s.nextUid, s.nextRv, false, fins, Body(network, false))])
          .(born := s.born[s.nextUid := n], nextUid := s.nextUid + 1)
    case UserDelete(n) => if n in s.up then WithUp(s, Delete(s.up, n, s.nextRv).store) else s
    case UserWrite(n, fins, network) =>
      if n in s.up then WithUp(s, Touch(s.up, n, fins, Body(network, s.up[n].body.programmed), s.nextRv)) else s
    case NetworkCreate(network) =>
      if network in s.networks then s
      else s.(networks := s.networks[network := s.nextUid], nextUid := s.nextUid + 1)
    case NetworkDelete(network) => s.(networks := s.networks - {network})
    case DownDelete(u) => if u in s.down then WithDown(s, Delete(s.down, u, s.nextRv).store) else s
    case DownWrite(u, fins, health) =>
      if u in s.down && (s.down[u].deleting ==> fins <= s.down[u].fins) then
        WithDown(s, Settle(s.down, u, s.down[u].(fins := fins, body := health, rv := s.nextRv)))
      else s
  }

  function Step(s: State, a: Action): State {
    if a.Call? then CallStep(s, a.n, a.hint) else EnvStep(s, a)
  }

  function Run(s: State, run: seq<Action>): State
    decreases |run|
  {
    if run == [] then s else Step(Run(s, run[..|run| - 1]), run[|run| - 1])
  }
}
