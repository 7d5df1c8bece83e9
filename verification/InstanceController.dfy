/**
 The instance controller as it is written: methods that call two API servers one call
 at a time, keep working from copies they read earlier, and may die between any two
 calls. Each method leaves both servers exactly as the state machine does when it is
 driven through the same turns, so everything that holds in all of the machine's runs
 holds while these methods run.
*/
module InstanceController {
  import opened Options
  import opened Kube
  import opened InstanceMachine
  import opened InstanceSafety
  import opened InstanceLiveness

  /** What everybody else does before a call, and what the call finds out beside its answer. */
  datatype Turn = Turn(others: seq<Action>, hint: Hint)

  datatype Ending = Crashed | Failed | Ended | Waiting | Released(u: Uid)

  /** There is one pass in flight per instance, so nobody else moves the pass for `n`. */
  predicate Elsewhere(a: Action, n: Name) {
    a.Call? || a.Crash? ==> a.n != n
  }

  ghost predicate AllElsewhere(turns: seq<Turn>, n: Name) {
    forall t, a | t in turns && a in t.others :: Elsewhere(a, n)
  }

  lemma {:induction false} RunAppend(s: State, a: seq<Action>, b: seq<Action>)
    ensures Run(s, a + b) == Run(Run(s, a), b)
    decreases |a|
  {
    hide Step;
    if a == [] {
      assert a + b == b;
    } else {
      assert (a + b)[1..] == a[1..] + b;
      RunAppend(Step(s, a[0]), a[1..], b);
    }
  }

  lemma StepElsewhere(s: State, a: Action, n: Name)
    requires Elsewhere(a, n)
    ensures PcOf(Step(s, a), n) == PcOf(s, n)
  {
    if a.Call? {
      CallElsewhere(s, a.n, a.hint, n);
    } else {
      hide CallStep, Touch, Delete, Settle;
    }
  }

  lemma CallElsewhere(s: State, m: Name, hint: Hint, n: Name)
    requires m != n
    ensures PcOf(CallStep(s, m, hint), n) == PcOf(s, n)
  {
    hide Update, UpdateStatus, Create, Patch, Delete, FinNext;
    match PcOf(s, m)
    case Idle =>
    case AddFinalizer(_) =>
    case ReadDown(_) =>
    case CreateDown(_) =>
    case PatchDown(_, _) =>
    case RetryDown(_, _) =>
    case PowerState(_) =>
    case Publish(_) =>
    case FinRead(_) =>
    case FinDelete(_, _) =>
    case FinPower(_) =>
    case FinStrip(_, _) =>
    case FinRelease(_) =>
  }

  lemma {:induction false} OthersLeavePass(s: State, acts: seq<Action>, n: Name)
    requires forall a | a in acts :: Elsewhere(a, n)
    ensures PcOf(Run(s, acts), n) == PcOf(s, n)
    decreases |acts|
  {
    hide Step, PcOf;
    if acts != [] {
      StepElsewhere(s, acts[0], n);
      OthersLeavePass(Step(s, acts[0]), acts[1..], n);
    }
  }

  /** The pass in flight for `n`, call by call, each after everybody else had a turn; without turns left it dies. */
  function Drive(s: State, n: Name, turns: seq<Turn>, k: nat): State
    decreases |turns| - k
  {
    if k >= |turns| then EnvStep(s, Crash(n)) else AfterOthers(Run(s, turns[k].others), n, turns, k)
  }

  function AfterOthers(s: State, n: Name, turns: seq<Turn>, k: nat): State
    requires k < |turns|
    decreases |turns| - k, 0
  {
    var next := CallStep(s, n, turns[k].hint);
    if PcOf(next, n) == Idle then next else Drive(next, n, turns, k + 1)
  }

  /** What a pass reports when the call it is about to make is its last, by the answer of the API server. */
  function Report(s: State, n: Name): Ending {
    match PcOf(s, n)
    case AddFinalizer(inst) =>
      if Update(s.up, n, inst.(fins := inst.fins + {Infra}), s.nextRv).outcome == Ok then Ended else Failed
    case FinDelete(_, _) | FinStrip(_, _) => Failed
    case FinPower(_) => Waiting
    case FinRelease(inst) =>
      if Update(s.up, n, inst.(fins := inst.fins - {Infra}), s.nextRv).outcome == Ok then Released(inst.uid) else Failed
    case _ => Ended
  }

  /** What a driven pass reports. */
  function DriveEnding(s: State, n: Name, turns: seq<Turn>, k: nat): Ending
    decreases |turns| - k
  {
    if k >= |turns| then Crashed else EndingAfter(Run(s, turns[k].others), n, turns, k)
  }

  function EndingAfter(s: State, n: Name, turns: seq<Turn>, k: nat): Ending
    requires k < |turns|
    decreases |turns| - k, 0
  {
    var next := CallStep(s, n, turns[k].hint);
    if PcOf(next, n) == Idle then Report(s, n) else DriveEnding(next, n, turns, k + 1)
  }

  /** A release is reported by exactly the call that ends the instance's hold, and for that instance. */
  lemma ReleaseIsReported(s: State, n: Name, hint: Hint, u: Uid)
    requires Inv(s)
    ensures Report(s, n) == Released(u) <==> PcOf(s, n).FinRelease? && Held(s, u) && !Held(CallStep(s, n, hint), u)
  {
    assert PcInv(s, n);
    if PcOf(s, n).FinRelease? {
      assert UpInv(s, n);
    }
  }

  /** Being driven is a run of the machine. */
  lemma {:induction false} DriveIsRun(s: State, n: Name, turns: seq<Turn>, k: nat) returns (run: seq<Action>)
    ensures Drive(s, n, turns, k) == Run(s, run)
    decreases |turns| - k
  {
    hide CallStep;
    if k >= |turns| {
      run := [Crash(n)];
      assert Run(s, run) == Run(EnvStep(s, Crash(n)), []);
    } else {
      var t := Run(s, turns[k].others);
      var next := CallStep(t, n, turns[k].hint);
      var rest := [];
      if PcOf(next, n) != Idle {
        rest := DriveIsRun(next, n, turns, k + 1);
      }
      run := turns[k].others + ([Call(n, turns[k].hint)] + rest);
      RunAppend(s, turns[k].others, [Call(n, turns[k].hint)] + rest);
      assert ([Call(n, turns[k].hint)] + rest)[1..] == rest;
    }
  }

  lemma {:induction false} DriveUndisturbed(s: State, n: Name, turns: seq<Turn>, k: nat, hint: Hint)
    requires forall t | t in turns :: t == Turn([], hint)
    requires k + CallsLeft(PcOf(CallStep(s, n, hint), n)) < |turns|
    ensures Drive(s, n, turns, k) == Pass(s, n, hint)
    decreases CallsLeft(PcOf(CallStep(s, n, hint), n))
  {
    hide CallStep, CallsLeft;
    assert turns[k] in turns;
    var next := CallStep(s, n, hint);
    if PcOf(next, n) != Idle {
      CallProgresses(next, n, hint);
      DriveUndisturbed(next, n, turns, k + 1, hint);
    } else {
      assert Finish(next, n, hint) == next;
    }
  }

  /** Five calls that nobody disturbs are a whole pass, as the liveness theorems know it. */
  lemma UndisturbedPass(s: State, n: Name, turns: seq<Turn>, hint: Hint)
    requires (forall t | t in turns :: t == Turn([], hint)) && |turns| >= 5 && PcOf(s, n) == Idle
    ensures Drive(s, n, turns, 0) == Pass(s, n, hint)
  {
    assert CallsLeft(PcOf(CallStep(s, n, hint), n)) <= 4;
    DriveUndisturbed(s, n, turns, 0, hint);
  }

  class Clusters {
    var st: State

    constructor ()
      ensures st == Init && Inv(st)
    {
      st := Init;
      new;
      InitInv();
    }

    // -------------------------------------------------------------- API calls

    method GetUp(n: Name) returns (inst: Option<Up>)
      ensures inst == if n in st.up then Some(st.up[n]) else None
    {
      inst := if n in st.up then Some(st.up[n]) else None;
    }

    method GetDown(u: Uid) returns (cr: Option<Down>)
      ensures cr == if u in st.down then Some(st.down[u]) else None
    {
      cr := if u in st.down then Some(st.down[u]) else None;
    }

    method UpdateUp(n: Name, copy: Up) returns (outcome: Outcome)
      modifies this`st
      ensures var r := Update(old(st.up), n, copy, old(st.nextRv)); outcome == r.outcome && st == WithUp(old(st), r.store)
    {
      var r := Update(st.up, n, copy, st.nextRv);
      st, outcome := WithUp(st, r.store), r.outcome;
    }

    /** Writes the status if there is a change to write; the copy becomes the server's answer. */
    method WriteInstanceStatus(n: Name, copy: Up, status: Option<Status>) returns (answer: Up)
      modifies this`st
      ensures st == WriteStatus(old(st), n, copy, status)
      ensures answer == if n in old(st.up) && old(st.up)[n].rv == copy.rv then st.up[n] else copy
    {
      answer := copy;
      var current := n in st.up && st.up[n].rv == copy.rv;
      if status.Some? {
        st := WithUp(st, UpdateStatus(st.up, n, copy.(body := status.value), st.nextRv).store);
      }
      if current {
        answer := st.up[n];
      }
    }

    method CreateDown(u: Uid) returns (outcome: Outcome)
      modifies this`st
      ensures var r := Create(old(st.down), u, Obj(u, old(st.nextRv), false, {Infra}, 0));
        outcome == r.outcome && st == WithDown(old(st), r.store)
    {
      var r := Create(st.down, u, Obj(u, st.nextRv, false, {Infra}, 0));
      st, outcome := WithDown(st, r.store), r.outcome;
    }

    method PatchDown(u: Uid, before: set<Finalizer>, after: set<Finalizer>) returns (outcome: Outcome)
      modifies this`st
      ensures var r := Patch(old(st.down), u, before, after, old(st.nextRv));
        outcome == r.outcome && st == WithDown(old(st), r.store)
    {
      var r := Patch(st.down, u, before, after, st.nextRv);
      st, outcome := WithDown(st, r.store), r.outcome;
    }

    method UpdateDown(u: Uid, copy: Down) returns (outcome: Outcome)
      modifies this`st
      ensures var r := Update(old(st.down), u, copy, old(st.nextRv));
        outcome == r.outcome && st == WithDown(old(st), r.store)
    {
      var r := Update(st.down, u, copy, st.nextRv);
      st, outcome := WithDown(st, r.store), r.outcome;
    }

    method DeleteDown(u: Uid) returns (outcome: Outcome)
      modifies this`st
      ensures var r := Delete(old(st.down), u, old(st.nextRv));
        outcome == r.outcome && st == WithDown(old(st), r.store)
    {
      var r := Delete(st.down, u, st.nextRv);
      st, outcome := WithDown(st, r.store), r.outcome;
    }

    // -------------------------------------------------------------- between two calls

    /** Everybody else has a turn, or the process dies. */
    method Before(n: Name, turns: seq<Turn>, k: nat) returns (alive: bool)
      requires Inv(st) && AllElsewhere(turns, n)
      modifies this
      ensures Inv(st) && (alive <==> k < |turns|)
      ensures alive ==>
        && st == Run(old(st), turns[k].others)
        && PcOf(st, n) == old(PcOf(st, n))
        && AfterOthers(st, n, turns, k) == Drive(old(st), n, turns, k)
        && EndingAfter(st, n, turns, k) == DriveEnding(old(st), n, turns, k)
      ensures !alive ==>
        && st == Drive(old(st), n, turns, k) && PcOf(st, n) == Idle
        && DriveEnding(old(st), n, turns, k) == Crashed
    {
      hide AfterOthers, EndingAfter;
      alive := k < |turns|;
      if alive {
        assert turns[k] in turns;
        OthersLeavePass(st, turns[k].others, n);
        RunInv(st, turns[k].others);
        st := Run(st, turns[k].others);
      } else {
        StepInv(st, Crash(n));
        st := EnvStep(st, Crash(n));
      }
    }

    /** The pass for `n` made its call number `k` in the state `before` and now stands at `pc`. */
    method Advance(n: Name, pc: Pc, ghost turns: seq<Turn>, ghost k: nat, ghost before: State)
      requires Inv(before) && k < |turns| && Goto(st, n, pc) == CallStep(before, n, turns[k].hint)
      modifies this
      ensures Inv(st) && st == CallStep(before, n, turns[k].hint) && PcOf(st, n) == pc
      ensures AfterOthers(before, n, turns, k) == if pc == Idle then st else Drive(st, n, turns, k + 1)
      ensures EndingAfter(before, n, turns, k) == if pc == Idle then Report(before, n) else DriveEnding(st, n, turns, k + 1)
    {
      hide CallStep, Report;
      st := Goto(st, n, pc);
      CallInv(before, n, turns[k].hint);
    }

    // -------------------------------------------------------------- the controller

    /**
     Finalization, from the copy `instance` that `Reconcile` read. When it runs to its
     end, the instance has let go and the resource is absent, or marked and free of both
     finalizers, although other parties have been active all the time.
    */
    method Finalize(n: Name, instance: Up, turns: seq<Turn>) returns (ending: Ending)
      requires Inv(st) && AllElsewhere(turns, n) && PcOf(st, n) == FinRead(instance)
      modifies this
      ensures Inv(st) && st == Drive(old(st), n, turns, 1) && ending == DriveEnding(old(st), n, turns, 1)
      ensures ending.Released? ==> ending.u == instance.uid && !Held(st, ending.u) && Spent(st, ending.u)
    {
      var k := 1;
      var alive := Before(n, turns, k);
      if !alive {
        return Crashed;
      }
      ghost var s := st;
      var found := GetDown(instance.uid);
      if found.Some? && !found.value.deleting {
        Advance(n, FinDelete(instance, found.value), turns, k, s);
        k := 2;
        alive := Before(n, turns, k);
        if !alive {
          return Crashed;
        }
        s := st;
        var deleted := DeleteDown(instance.uid);
        if deleted != Ok {
          Advance(n, Idle, turns, k, s);
          return Failed;
        }
      }
      ending := AfterDelete(n, instance, found, turns, k, s);
    }

    /** The second half of `Finalize`, still looking at the copy read before its own delete. */
    method AfterDelete(n: Name, instance: Up, found: Option<Down>, turns: seq<Turn>, k: nat, ghost s: State)
        returns (ending: Ending)
      requires Inv(s) && AllElsewhere(turns, n) && k < |turns|
      requires Goto(st, n, if found.None? then FinRelease(instance) else FinNext(instance, found.value))
        == CallStep(s, n, turns[k].hint)
      modifies this
      ensures Inv(st) && st == AfterOthers(s, n, turns, k) && ending == EndingAfter(s, n, turns, k)
      ensures ending.Released? ==> ending.u == instance.uid && !Held(st, ending.u) && Spent(st, ending.u)
    {
      hide Run, Held, Spent, Create, Patch, Update, Delete, AllElsewhere, Drive, AfterOthers, DriveEnding, EndingAfter;
      if found.Some? && Crossplane in found.value.fins {
        Advance(n, FinPower(instance), turns, k, s);
        ending := AwaitCrossplane(n, instance, turns, k + 1);
        return;
      }
      var j := k;
      ghost var s2 := s;
      if found.Some? && Infra in found.value.fins {
        Advance(n, FinStrip(instance, found.value), turns, k, s);
        j := k + 1;
        var alive := Before(n, turns, j);
        if !alive {
          return Crashed;
        }
        s2 := st;
        var stripped := UpdateDown(instance.uid, found.value.(fins := found.value.fins - {Infra}));
        if stripped != Ok {
          Advance(n, Idle, turns, j, s2);
          return Failed;
        }
      }
      Advance(n, FinRelease(instance), turns, j, s2);
      ending := Release(n, instance, turns, j + 1);
    }

    /** Crossplane still holds the resource: the instance is shown as stopping. */
    method AwaitCrossplane(n: Name, instance: Up, turns: seq<Turn>, k: nat) returns (ending: Ending)
      requires Inv(st) && AllElsewhere(turns, n) && PcOf(st, n) == FinPower(instance)
      modifies this
      ensures Inv(st) && st == Drive(old(st), n, turns, k) && ending == DriveEnding(old(st), n, turns, k) && !ending.Released?
    {
      hide Run, Held, Spent, Update, UpdateStatus, AllElsewhere;
      var alive := Before(n, turns, k);
      if !alive {
        return Crashed;
      }
      ghost var s := st;
      var _ := WriteInstanceStatus(n, instance, turns[k].hint.status);
      Advance(n, Idle, turns, k, s);
      ending := Waiting;
    }

    /** The last call of `Finalize`. */
    method Release(n: Name, instance: Up, turns: seq<Turn>, k: nat) returns (ending: Ending)
      requires Inv(st) && AllElsewhere(turns, n) && PcOf(st, n) == FinRelease(instance)
      modifies this
      ensures Inv(st) && st == Drive(old(st), n, turns, k) && ending == DriveEnding(old(st), n, turns, k)
      ensures ending.Released? ==> ending.u == instance.uid && !Held(st, ending.u) && Spent(st, ending.u)
    {
      var alive := Before(n, turns, k);
      if !alive {
        return Crashed;
      }
      ghost var s := st;
      assert PcInv(s, n);
      var released := UpdateUp(n, instance.(fins := instance.fins - {Infra}));
      Advance(n, Idle, turns, k, s);
      ending := if released == Ok then Released(instance.uid) else Failed;
    }

    /** The deferred status write. */
    method PublishStatus(n: Name, instance: Up, turns: seq<Turn>, k: nat) returns (ending: Ending)
      requires Inv(st) && AllElsewhere(turns, n) && PcOf(st, n) == Publish(instance)
      modifies this
      ensures Inv(st) && st == Drive(old(st), n, turns, k) && ending == DriveEnding(old(st), n, turns, k) && !ending.Released?
    {
      hide Run, Held, Spent, Update, UpdateStatus, AllElsewhere;
      var alive := Before(n, turns, k);
      if !alive {
        return Crashed;
      }
      ghost var s := st;
      var _ := WriteInstanceStatus(n, instance, turns[k].hint.status);
      Advance(n, Idle, turns, k, s);
      ending := Ended;
    }

    /** Creating or patching the resource, once everything it needs is there. */
    method ReconcileInstance(n: Name, instance: Up, turns: seq<Turn>) returns (ending: Ending)
      requires Inv(st) && AllElsewhere(turns, n) && PcOf(st, n) == ReadDown(instance)
      modifies this
      ensures Inv(st) && st == Drive(old(st), n, turns, 1) && ending == DriveEnding(old(st), n, turns, 1) && !ending.Released?
    {
      hide Run, Held, Spent, Update, UpdateStatus, AllElsewhere;
      var alive := Before(n, turns, 1);
      if !alive {
        return Crashed;
      }
      ghost var s := st;
      if turns[1].hint.bail {
        Advance(n, Publish(instance), turns, 1, s);
        ending := PublishStatus(n, instance, turns, 2);
        return;
      }
      var found := GetDown(instance.uid);
      if found.Some? && !turns[1].hint.changed && Infra in found.value.fins {
        ending := AfterWrite(n, instance, found, turns, 1, s);
        return;
      }
      Advance(n, if found.None? then Pc.CreateDown(instance) else Pc.PatchDown(instance, found.value), turns, 1, s);
      ending := CreateOrPatch(n, instance, found, turns);
    }

    /** `CreateOrPatch`, and what the answer leads to. */
    method CreateOrPatch(n: Name, instance: Up, found: Option<Down>, turns: seq<Turn>) returns (ending: Ending)
      requires Inv(st) && AllElsewhere(turns, n)
      requires PcOf(st, n) == if found.None? then Pc.CreateDown(instance) else Pc.PatchDown(instance, found.value)
      modifies this
      ensures Inv(st) && st == Drive(old(st), n, turns, 2) && ending == DriveEnding(old(st), n, turns, 2) && !ending.Released?
    {
      hide Run, Held, Spent, Create, Patch, Update, Delete, AllElsewhere;
      var alive := Before(n, turns, 2);
      if !alive {
        return Crashed;
      }
      ghost var s := st;
      var outcome: Outcome;
      if found.None? {
        outcome := CreateDown(instance.uid);
      } else {
        outcome := PatchDown(instance.uid, found.value.fins, found.value.fins + {Infra});
      }
      var answer := GetDown(instance.uid);
      if outcome != Ok {
        Advance(n, Publish(instance), turns, 2, s);
        ending := PublishStatus(n, instance, turns, 3);
        return;
      }
      ending := AfterWrite(n, instance, answer, turns, 2, s);
    }

    /** The resource is as it should be, and `answer` is the last the pass heard of it. */
    method AfterWrite(n: Name, instance: Up, answer: Option<Down>, turns: seq<Turn>, k: nat, ghost s: State)
        returns (ending: Ending)
      requires Inv(s) && AllElsewhere(turns, n) && k < |turns|
      requires answer == if instance.uid in st.down then Some(st.down[instance.uid]) else None
      requires AfterDown(st, n, instance, turns[k].hint) == CallStep(s, n, turns[k].hint)
      modifies this
      ensures Inv(st) && st == AfterOthers(s, n, turns, k) && ending == EndingAfter(s, n, turns, k) && !ending.Released?
    {
      hide CallStep, Run, AllElsewhere;
      if turns[k].hint.retry && answer.Some? {
        Advance(n, RetryDown(instance, answer.value), turns, k, s);
        ending := RetryCreate(n, instance, answer.value, turns, k + 1);
      } else {
        Advance(n, PowerState(instance), turns, k, s);
        ending := SyncPowerState(n, instance, turns, k + 1);
      }
    }

    method RetryCreate(n: Name, instance: Up, cr: Down, turns: seq<Turn>, k: nat) returns (ending: Ending)
      requires Inv(st) && AllElsewhere(turns, n) && PcOf(st, n) == RetryDown(instance, cr)
      modifies this
      ensures Inv(st) && st == Drive(old(st), n, turns, k) && ending == DriveEnding(old(st), n, turns, k) && !ending.Released?
    {
      hide Run, Held, Spent, Update, UpdateStatus, AllElsewhere, Report, Inv, Drive, AfterOthers, DriveEnding, EndingAfter;
      var alive := Before(n, turns, k);
      if !alive {
        return Crashed;
      }
      ghost var s := st;
      var _ := UpdateDown(instance.uid, cr);
      Advance(n, Publish(instance), turns, k, s);
      ending := PublishStatus(n, instance, turns, k + 1);
    }

    method SyncPowerState(n: Name, instance: Up, turns: seq<Turn>, k: nat) returns (ending: Ending)
      requires Inv(st) && AllElsewhere(turns, n) && PcOf(st, n) == PowerState(instance)
      modifies this
      ensures Inv(st) && st == Drive(old(st), n, turns, k) && ending == DriveEnding(old(st), n, turns, k) && !ending.Released?
    {
      hide Run, Held, Spent, Update, UpdateStatus, AllElsewhere;
      var alive := Before(n, turns, k);
      if !alive {
        return Crashed;
      }
      ghost var s := st;
      var answer := WriteInstanceStatus(n, instance, turns[k].hint.status);
      Advance(n, Publish(answer), turns, k, s);
      ending := PublishStatus(n, answer, turns, k + 1);
    }

    /** A whole pass, from its first read to its end or to wherever it dies. */
    method Reconcile(n: Name, turns: seq<Turn>) returns (ending: Ending)
      requires Inv(st) && AllElsewhere(turns, n) && PcOf(st, n) == Idle
      modifies this
      ensures Inv(st) && st == Drive(old(st), n, turns, 0) && ending == DriveEnding(old(st), n, turns, 0)
      ensures ending.Released? ==> !Held(st, ending.u) && Spent(st, ending.u)
    {
      var alive := Before(n, turns, 0);
      if !alive {
        return Crashed;
      }
      ghost var s := st;
      var found := GetUp(n);
      if found.None? || turns[0].hint.bail {
        return Ended;
      }
      var instance := found.value;
      if instance.deleting {
        if Infra in instance.fins {
          Advance(n, FinRead(instance), turns, 0, s);
          ending := Finalize(n, instance, turns);
          return;
        }
        return Ended;
      }
      if Infra !in instance.fins {
        Advance(n, AddFinalizer(instance), turns, 0, s);
        ending := Adopt(n, instance, turns);
        return;
      }
      Advance(n, ReadDown(instance), turns, 0, s);
      ending := ReconcileInstance(n, instance, turns);
    }

    /** The pass that only puts the infra finalizer on the instance. */
    method Adopt(n: Name, instance: Up, turns: seq<Turn>) returns (ending: Ending)
      requires Inv(st) && AllElsewhere(turns, n) && PcOf(st, n) == AddFinalizer(instance)
      modifies this
      ensures Inv(st) && st == Drive(old(st), n, turns, 1) && ending == DriveEnding(old(st), n, turns, 1) && !ending.Released?
    {
      hide Run, Held, Spent, Update, UpdateStatus, AllElsewhere;
      var alive := Before(n, turns, 1);
      if !alive {
        return Crashed;
      }
      ghost var s := st;
      var adopted := UpdateUp(n, instance.(fins := instance.fins + {Infra}));
      Advance(n, Idle, turns, 1, s);
      ending := if adopted == Ok then Ended else Failed;
    }
  }
}
