/**
 The instance controller as a state machine. One step is one API call of the
 controller together with the local computation up to its next call, or one step
 of the environment: users, Crossplane, anybody else writing to either API
 server, or a crash that loses the controller's local copies.

 Any number of instances are reconciled at once; per upstream name there is one
 pass in flight, and reads are linearizable. The downstream resource of an
 instance is named after its UID, so the downstream store is keyed by UID.
*/
module InstanceMachine {
  import opened Options
  import opened Kube

  type Status = nat
  type Up = Obj<Status>
  type Down = Obj<Status>

  /** Where a pass stands: the API call it makes next, and the copies it holds. */
  datatype Pc =
    | Idle
    | AddFinalizer(inst: Up)
    | ReadDown(inst: Up)
    | CreateDown(inst: Up)
    | PatchDown(inst: Up, cr: Down)
    | RetryDown(inst: Up, cr: Down)
    | PowerState(inst: Up)
    | Publish(inst: Up)
    | FinRead(inst: Up)
    | FinDelete(inst: Up, cr: Down)
    | FinPower(inst: Up)
    | FinStrip(inst: Up, cr: Down)
    | FinRelease(inst: Up)
  {
    predicate Creating() {
      ReadDown? || CreateDown? || PatchDown? || RetryDown? || PowerState? || Publish?
    }
    predicate Finalizing() {
      FinRead? || FinDelete? || FinPower? || FinStrip? || FinRelease?
    }
  }

  /** What a pass finds out from state that is not modelled. */
  datatype Hint = Hint(
    bail: bool,              // a scheduling gate, a missing object, a firewall, service account or secret not there yet
    changed: bool,           // the mutated resource differs from the one read
    retry: bool,             // the resource is Ready while the machine is STOPPING
    status: Option<Status>)  // the status to write, if it changed

  datatype Action =
    | Call(n: Name, hint: Hint)
    | Crash(n: Name)
    | UserCreate(n: Name, fins: set<Finalizer>, status: Status)
    | UserDelete(n: Name)
    | UserWrite(n: Name, fins: set<Finalizer>, status: Status)
    | DownDelete(u: Uid)
    | DownWrite(u: Uid, fins: set<Finalizer>, status: Status)
    | XpAdopt(u: Uid)
    | XpCreateVm(u: Uid)
    | XpDeleteVm(u: Uid)
    | XpRelease(u: Uid)
    | VmLost(u: Uid)

  datatype State = State(
    up: map<Name, Up>,
    down: map<Uid, Down>,
    vms: set<Uid>,            // machines that exist at the provider
    pcs: map<Name, Pc>,
    born: map<Uid, Name>,     // history: the name each UID was created under
    nextUid: Uid,
    nextRv: nat)

  const Init := State(map[], map[], {}, map[], map[], 0, 0)

  function PcOf(s: State, n: Name): Pc {
    if n in s.pcs then s.pcs[n] else Idle
  }

  function Goto(s: State, n: Name, pc: Pc): State {
    s.(pcs := s.pcs[n := pc])
  }

  function WithUp(s: State, up: map<Name, Up>): State {
    s.(up := up, nextRv := s.nextRv + 1)
  }

  function WithDown(s: State, down: map<Uid, Down>): State {
    s.(down := down, nextRv := s.nextRv + 1)
  }

  /** `Reconcile` reads the instance and decides which way to go. */
  function Start(s: State, n: Name, hint: Hint): State {
    if n !in s.up || hint.bail then s
    else
      var inst := s.up[n];
      if inst.deleting then
        if Infra in inst.fins then Goto(s, n, FinRead(inst)) else s
      else if Infra !in inst.fins then Goto(s, n, AddFinalizer(inst))
      else Goto(s, n, ReadDown(inst))
  }

  function CallAddFinalizer(s: State, n: Name, inst: Up): State {
    Goto(WithUp(s, Update(s.up, n, inst.(fins := inst.fins + {Infra}), s.nextRv).store), n, Idle)
  }

  /** Writing the instance's status, if it changed. */
  function WriteStatus(s: State, n: Name, inst: Up, status: Option<Status>): State {
    if status.None? then s
    else WithUp(s, UpdateStatus(s.up, n, inst.(body := status.value), s.nextRv).store)
  }

  /** What follows once the resource is as it should be; the copy is the last answer of the API server. */
  function AfterDown(s: State, n: Name, inst: Up, hint: Hint): State {
    if hint.retry && inst.uid in s.down then Goto(s, n, RetryDown(inst, s.down[inst.uid]))
    else Goto(s, n, PowerState(inst))
  }

  /** A resource that the mutate function leaves as it is is not written at all. */
  function CallReadDown(s: State, n: Name, inst: Up, hint: Hint): State {
    if hint.bail then Goto(s, n, Publish(inst))
    else if inst.uid !in s.down then Goto(s, n, CreateDown(inst))
    else if hint.changed || Infra !in s.down[inst.uid].fins then Goto(s, n, PatchDown(inst, s.down[inst.uid]))
    else AfterDown(s, n, inst, hint)
  }

  function CallCreateDown(s: State, n: Name, inst: Up, hint: Hint): State {
    var r := Create(s.down, inst.uid, Obj(inst.uid, s.nextRv, false, {Infra}, 0));
    var s' := WithDown(s, r.store);
    if r.outcome == Ok then AfterDown(s', n, inst, hint) else Goto(s', n, Publish(inst))
  }

  function CallPatchDown(s: State, n: Name, inst: Up, cr: Down, hint: Hint): State {
    var r := Patch(s.down, inst.uid, cr.fins, cr.fins + {Infra}, s.nextRv);
    var s' := WithDown(s, r.store);
    if r.outcome == Ok then AfterDown(s', n, inst, hint) else Goto(s', n, Publish(inst))
  }

  function CallRetryDown(s: State, n: Name, inst: Up, cr: Down): State {
    Goto(WithDown(s, Update(s.down, inst.uid, cr, s.nextRv).store), n, Publish(inst))
  }

  /** A successful write leaves the pass with the server's answer as its copy. */
  function CallPowerState(s: State, n: Name, inst: Up, hint: Hint): State {
    var s' := WriteStatus(s, n, inst, hint.status);
    var current := n in s.up && s.up[n].rv == inst.rv;
    Goto(s', n, Publish(if current then s'.up[n] else inst))
  }

  function CallPublish(s: State, n: Name, inst: Up, hint: Hint): State {
    Goto(WriteStatus(s, n, inst, hint.status), n, Idle)
  }

  /** What `Finalize` does after its own delete, still looking at the copy it read before. */
  function FinNext(inst: Up, cr: Down): Pc {
    if Crossplane in cr.fins then FinPower(inst)
    else if Infra in cr.fins then FinStrip(inst, cr)
    else FinRelease(inst)
  }

  function CallFinRead(s: State, n: Name, inst: Up): State {
    if inst.uid !in s.down then Goto(s, n, FinRelease(inst))
    else
      var cr := s.down[inst.uid];
      if !cr.deleting then Goto(s, n, FinDelete(inst, cr)) else Goto(s, n, FinNext(inst, cr))
  }

  function CallFinDelete(s: State, n: Name, inst: Up, cr: Down): State {
    var r := Delete(s.down, inst.uid, s.nextRv);
    Goto(WithDown(s, r.store), n, if r.outcome == Ok then FinNext(inst, cr) else Idle)
  }

  function CallFinPower(s: State, n: Name, inst: Up, hint: Hint): State {
    Goto(WriteStatus(s, n, inst, hint.status), n, Idle)
  }

  function CallFinStrip(s: State, n: Name, inst: Up, cr: Down): State {
    var r := Update(s.down, inst.uid, cr.(fins := cr.fins - {Infra}), s.nextRv);
    Goto(WithDown(s, r.store), n, if r.outcome == Ok then FinRelease(inst) else Idle)
  }

  function CallFinRelease(s: State, n: Name, inst: Up): State {
    Goto(WithUp(s, Update(s.up, n, inst.(fins := inst.fins - {Infra}), s.nextRv).store), n, Idle)
  }

  /** One API call of the pass in flight for `n`, or the first call of a new pass. */
  function CallStep(s: State, n: Name, hint: Hint): State {
    match PcOf(s, n)
    case Idle => Start(s, n, hint)
    case AddFinalizer(inst) => CallAddFinalizer(s, n, inst)
    case ReadDown(inst) => CallReadDown(s, n, inst, hint)
    case CreateDown(inst) => CallCreateDown(s, n, inst, hint)
    case PatchDown(inst, cr) => CallPatchDown(s, n, inst, cr, hint)
    case RetryDown(inst, cr) => CallRetryDown(s, n, inst, cr)
    case PowerState(inst) => CallPowerState(s, n, inst, hint)
    case Publish(inst) => CallPublish(s, n, inst, hint)
    case FinRead(inst) => CallFinRead(s, n, inst)
    case FinDelete(inst, cr) => CallFinDelete(s, n, inst, cr)
    case FinPower(inst) => CallFinPower(s, n, inst, hint)
    case FinStrip(inst, cr) => CallFinStrip(s, n, inst, cr)
    case FinRelease(inst) => CallFinRelease(s, n, inst)
  }

  /**
   Everybody else. Users may create, delete and rewrite instances but do not touch
   the infra finalizer of an existing one; Crossplane creates a machine only for a
   resource that carries its finalizer, and drops that finalizer only from a resource
   being deleted whose machine is gone.
  */
  function EnvStep(s: State, a: Action): State
    requires !a.Call?
  {
    match a
    case Crash(n) => Goto(s, n, Idle)
    case UserCreate(n, fins, status) =>
      if n in s.up then s
      else
        WithUp(s, s.up[n := Obj(s.nextUid, s.nextRv, false, fins, status)])
          .(born := s.born[s.nextUid := n], nextUid := s.nextUid + 1)
    case UserDelete(n) => if n in s.up then WithUp(s, Delete(s.up, n, s.nextRv).store) else s
    case UserWrite(n, fins, status) =>
      if n in s.up then WithUp(s, Touch(s.up, n, fins, status, s.nextRv)) else s
    case DownDelete(u) => if u in s.down then WithDown(s, Delete(s.down, u, s.nextRv).store) else s
    case DownWrite(u, fins, status) =>
      if u in s.down then WithDown(s, Touch(s.down, u, fins, status, s.nextRv)) else s
    case XpAdopt(u) =>
      if u in s.down && !s.down[u].deleting then
        WithDown(s, s.down[u := s.down[u].(fins := s.down[u].fins + {Crossplane}, rv := s.nextRv)])
      else s
    case XpCreateVm(u) =>
      if u in s.down && Crossplane in s.down[u].fins then s.(vms := s.vms + {u}) else s
    case XpDeleteVm(u) =>
      if u in s.down && s.down[u].deleting then s.(vms := s.vms - {u}) else s
    case XpRelease(u) =>
      if u in s.down && s.down[u].deleting && u !in s.vms then
        WithDown(s, Settle(s.down, u, s.down[u].(fins := s.down[u].fins - {Crossplane}, rv := s.nextRv)))
      else s
    case VmLost(u) => s.(vms := s.vms - {u})
  }

  function Step(s: State, a: Action): State {
    if a.Call? then CallStep(s, a.n, a.hint) else EnvStep(s, a)
  }

  function Run(s: State, run: seq<Action>): State
    decreases |run|
  {
    if run == [] then s else Run(Step(s, run[0]), run[1..])
  }
}
