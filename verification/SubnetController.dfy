/**
 The subnet controller as it is written, with other parties at work between any two of
 its calls. Each method leaves both servers exactly as the state machine does when it is
 driven through the same turns.
*/
module SubnetController {
  import opened Options
  import opened Kube
  import opened SubnetMachine
  import opened SubnetSafety
  import opened SubnetLiveness

  /** What everybody else does before a call, and whether something the pass needs is missing. */
  datatype Turn = Turn(others: seq<Action>, bail: bool)

  /** `Published(programmed)`: the status was written without a conflict. */
  datatype Ending = Crashed | Failed | Ended | Published(u: Uid, programmed: bool) | Released(u: Uid)

  predicate Elsewhere(a: Action, n: Name) {
    a.Call? || a.Crash? ==> a.n != n
  }

  ghost predicate AllElsewhere(turns: seq<Turn>, n: Name) {
    forall t, a | t in turns && a in t.others :: Elsewhere(a, n)
  }

  lemma StepElsewhere(s: State, a: Action, n: Name)
    requires Elsewhere(a, n)
    ensures PcOf(Step(s, a), n) == PcOf(s, n)
  {
    hide Update, UpdateStatus, Create, Delete, Touch, Settle;
  }

  /** The pass in flight for `n`, call by call, each after everybody else had a turn; without turns left it dies. */
  function Drive(s: State, n: Name, turns: seq<Turn>, k: nat): State
    decreases |turns| - k
  {
    if k >= |turns| then EnvStep(s, Crash(n)) else AfterOthers(Run(s, turns[k].others), n, turns, k)
  }

  function AfterOthers(s: State, n: Name, turns: seq<Turn>, k: nat): State
    requires k < |turns|
    decreases |turns| - k, 0
  {
    var next := CallStep(s, n, turns[k].bail);
    if PcOf(next, n) == Idle then next else Drive(next, n, turns, k + 1)
  }

  lemma {:induction false} RunAppend(s: State, a: seq<Action>, b: seq<Action>)
    ensures Run(s, a + b) == Run(Run(s, a), b)
    decreases |b|
  {
    hide Step;
    if b == [] {
      assert a + b == a;
    } else {
      assert (a + b)[..|a + b| - 1] == a + b[..|b| - 1];
      RunAppend(s, a, b[..|b| - 1]);
    }
  }

  /** What a pass reports when the call it is about to make is its last, by the answer of the API server. */
  function Report(s: State, n: Name): Ending {
    match PcOf(s, n)
    case AddFinalizer(sub) =>
      if Update(s.up, n, sub.(fins := sub.fins + {Infra}), s.nextRv).outcome == Ok then Ended else Failed
    case FinRelease(sub) =>
      if Update(s.up, n, sub.(fins := sub.fins - {Infra}), s.nextRv).outcome == Ok then Released(sub.uid) else Failed
    case Publish(sub, programmed) =>
      if UpdateStatus(s.up, n, sub, s.nextRv).outcome == Ok then Published(sub.uid, programmed) else Ended
    case _ => Ended
  }

  /** What a driven pass reports. */
  function DriveEnding(s: State, n: Name, turns: seq<Turn>, k: nat): Ending
    decreases |turns| - k
  {
    if k >= |turns| then Crashed else EndingAfter(Run(s, turns[k].others), n, turns, k)
  }

  function EndingAfter(s: State, n: Name, turns: seq<Turn>, k: nat): Ending
    requires k < |turns|
    decreases |turns| - k, 0
  {
    var next := CallStep(s, n, turns[k].bail);
    if PcOf(next, n) == Idle then Report(s, n) else DriveEnding(next, n, turns, k + 1)
  }

  /** A release is reported by exactly the call that ends the subnet's hold, and for that subnet. */
  lemma ReleaseIsReported(s: State, n: Name, bail: bool, u: Uid)
    requires Inv(s)
    ensures Report(s, n) == Released(u) <==> PcOf(s, n).FinRelease? && Held(s, u) && !Held(CallStep(s, n, bail), u)
  {
    assert PcInv(s, n) && UpInv(s, n);
  }

  /** A verdict that is reported is the one the subnet carries from then on. */
  lemma VerdictIsReported(s: State, n: Name, bail: bool, u: Uid, programmed: bool)
    requires Inv(s) && PcOf(s, n).Publish? && Report(s, n) == Published(u, programmed)
    ensures var s' := CallStep(s, n, bail);
      n in s'.up && s'.up[n].uid == u && s'.up[n].body.programmed == programmed
  {
    assert PcInv(s, n) && UpInv(s, n);
  }

  /** Being driven is a run of the machine. */
  lemma {:induction false} DriveIsRun(s: State, n: Name, turns: seq<Turn>, k: nat) returns (run: seq<Action>)
    ensures Drive(s, n, turns, k) == Run(s, run)
    decreases |turns| - k
  {
    hide CallStep;
    if k >= |turns| {
      run := [Crash(n)];
      assert Run(s, run) == EnvStep(Run(s, []), Crash(n));
    } else {
      var t := Run(s, turns[k].others);
      var call := [Call(n, turns[k].bail)];
      var next := CallStep(t, n, turns[k].bail);
      assert Run(t, call) == Step(Run(t, []), call[0]);
      var rest := [];
      if PcOf(next, n) != Idle {
        rest := DriveIsRun(next, n, turns, k + 1);
      }
      run := turns[k].others + (call + rest);
      RunAppend(s, turns[k].others, call + rest);
      RunAppend(t, call, rest);
    }
  }

  lemma {:induction false} OthersLeavePass(s: State, acts: seq<Action>, n: Name)
    requires forall a | a in acts :: Elsewhere(a, n)
    ensures PcOf(Run(s, acts), n) == PcOf(s, n)
    decreases |acts|
  {
    hide Step, PcOf;
    if acts != [] {
      OthersLeavePass(s, acts[..|acts| - 1], n);
      StepElsewhere(Run(s, acts[..|acts| - 1]), acts[|acts| - 1], n);
    }
  }

  lemma {:induction false} DriveUndisturbed(s: State, n: Name, turns: seq<Turn>, k: nat, bail: bool)
    requires forall t | t in turns :: t == Turn([], bail)
    requires k + CallsLeft(PcOf(CallStep(s, n, bail), n)) < |turns|
    ensures Drive(s, n, turns, k) == Pass(s, n, bail)
    decreases CallsLeft(PcOf(CallStep(s, n, bail), n))
  {
    hide CallStep, CallsLeft;
    assert turns[k] in turns;
    var next := CallStep(s, n, bail);
    if PcOf(next, n) != Idle {
      CallProgresses(next, n, bail);
      DriveUndisturbed(next, n, turns, k + 1, bail);
    } else {
      assert Finish(next, n, bail) == next;
    }
  }

  /** Four calls that nobody disturbs are a whole pass. */
  lemma UndisturbedPass(s: State, n: Name, turns: seq<Turn>, bail: bool)
    requires (forall t | t in turns :: t == Turn([], bail)) && |turns| >= 4 && PcOf(s, n) == Idle
    ensures Drive(s, n, turns, 0) == Pass(s, n, bail)
  {
    assert CallsLeft(PcOf(CallStep(s, n, bail), n)) < 4;
    DriveUndisturbed(s, n, turns, 0, bail);
  }

  class Clusters {
    var st: State

    constructor ()
      ensures st == Init && Inv(st)
    {
      st := Init;
      new;
      assert Inv(Init);
    }

    // -------------------------------------------------------------- API calls

    method GetUp(n: Name) returns (sub: Option<Subnet>)
      ensures sub == if n in st.up then Some(st.up[n]) else None
    {
      sub := if n in st.up then Some(st.up[n]) else None;
    }

    method GetDown(u: Uid) returns (down: Option<Subnetwork>)
      ensures down == if u in st.down then Some(st.down[u]) else None
    {
      down := if u in st.down then Some(st.down[u]) else None;
    }

    method UpdateUp(n: Name, copy: Subnet) returns (outcome: Outcome)
      modifies this`st
      ensures var r := Update(old(st.up), n, copy, old(st.nextRv)); outcome == r.outcome && st == WithUp(old(st), r.store)
    {
      var r := Update(st.up, n, copy, st.nextRv);
      st, outcome := WithUp(st, r.store), r.outcome;
    }

    method UpdateSubnetStatus(n: Name, copy: Subnet) returns (outcome: Outcome)
      modifies this`st
      ensures var r := UpdateStatus(old(st.up), n, copy, old(st.nextRv));
        outcome == r.outcome && st == WithUp(old(st), r.store)
    {
      var r := UpdateStatus(st.up, n, copy, st.nextRv);
      st, outcome := WithUp(st, r.store), r.outcome;
    }

    method CreateSubnetwork(u: Uid) returns (outcome: Outcome)
      modifies this`st
      ensures var r := Create(old(st.down), u, Obj(u, old(st.nextRv), false, {}, false));
        outcome == r.outcome && st == WithDown(old(st), r.store)
    {
      var r := Create(st.down, u, Obj(u, st.nextRv, false, {}, false));
      st, outcome := WithDown(st, r.store), r.outcome;
    }

    method DeleteSubnetwork(u: Uid) returns (outcome: Outcome)
      modifies this`st
      ensures var r := Delete(old(st.down), u, old(st.nextRv)); outcome == r.outcome && st == WithDown(old(st), r.store)
    {
      var r := Delete(st.down, u, st.nextRv);
      st, outcome := WithDown(st, r.store), r.outcome;
    }

    // -------------------------------------------------------------- between two calls

    /** Everybody else has a turn, or the process dies. */
    method Before(n: Name, turns: seq<Turn>, k: nat) returns (alive: bool)
      requires Inv(st) && AllElsewhere(turns, n)
      modifies this
      ensures Inv(st) && (alive <==> k < |turns|)
      ensures alive ==>
        && st == Run(old(st), turns[k].others)
        && PcOf(st, n) == old(PcOf(st, n))
        && AfterOthers(st, n, turns, k) == Drive(old(st), n, turns, k)
        && EndingAfter(st, n, turns, k) == DriveEnding(old(st), n, turns, k)
      ensures !alive ==> st == Drive(old(st), n, turns, k) && PcOf(st, n) == Idle && DriveEnding(old(st), n, turns, k) == Crashed
    {
      hide AfterOthers, EndingAfter;
      alive := k < |turns|;
      if alive {
        assert turns[k] in turns;
        OthersLeavePass(st, turns[k].others, n);
        RunInv(st, turns[k].others);
        st := Run(st, turns[k].others);
      } else {
        EnvInv(st, Crash(n));
        st := EnvStep(st, Crash(n));
      }
    }

    /** The pass for `n` made its call number `k` in the state `before` and now stands at `pc`. */
    method Advance(n: Name, pc: Pc, ghost turns: seq<Turn>, ghost k: nat, ghost before: State)
      requires Inv(before) && k < |turns| && Goto(st, n, pc) == CallStep(before, n, turns[k].bail)
      modifies this
      ensures Inv(st) && st == CallStep(before, n, turns[k].bail) && PcOf(st, n) == pc
      ensures AfterOthers(before, n, turns, k) == if pc == Idle then st else Drive(st, n, turns, k + 1)
      ensures EndingAfter(before, n, turns, k) == if pc == Idle then Report(before, n) else DriveEnding(st, n, turns, k + 1)
    {
      hide CallStep, Report;
      st := Goto(st, n, pc);
      StepInv(before, Call(n, turns[k].bail));
    }

    // -------------------------------------------------------------- the controller

    /**
     A pass over the subnet `n`. A subnet it releases has no live downstream resource at
     that moment; one it reports as programmed is then marked so.
    */
    method Reconcile(n: Name, turns: seq<Turn>) returns (ending: Ending)
      requires Inv(st) && AllElsewhere(turns, n) && PcOf(st, n) == Idle
      modifies this
      ensures Inv(st) && st == Drive(old(st), n, turns, 0) && ending == DriveEnding(old(st), n, turns, 0)
      ensures ending.Released? ==> !Held(st, ending.u) && (ending.u in st.down ==> st.down[ending.u].deleting)
      ensures ending.Published? && ending.programmed ==> Programmed(st, n, ending.u)
    {
      var alive := Before(n, turns, 0);
      if !alive {
        return Crashed;
      }
      ghost var s := st;
      var found := GetUp(n);
      if found.None? || turns[0].bail {
        return Ended;
      }
      var subnet := found.value;
      if subnet.deleting {
        if Infra in subnet.fins {
          Advance(n, FinDelete(subnet), turns, 0, s);
          ending := Finalize(n, subnet, turns);
          return;
        }
        return Ended;
      }
      if Infra !in subnet.fins {
        Advance(n, AddFinalizer(subnet), turns, 0, s);
        ending := Adopt(n, subnet, turns);
        return;
      }
      if subnet.body.programmed {
        return Ended;
      }
      if !subnet.body.hasPrefix {
        Advance(n, Publish(subnet, false), turns, 0, s);
        ending := PublishStatus(n, subnet, false, turns, 1);
        return;
      }
      Advance(n, ReadDown(subnet), turns, 0, s);
      ending := Program(n, subnet, turns);
    }

    method Adopt(n: Name, subnet: Subnet, turns: seq<Turn>) returns (ending: Ending)
      requires Inv(st) && AllElsewhere(turns, n) && PcOf(st, n) == AddFinalizer(subnet)
      modifies this
      ensures Inv(st) && st == Drive(old(st), n, turns, 1) && ending == DriveEnding(old(st), n, turns, 1)
      ensures ending.Failed? || ending.Ended? || ending.Crashed?
    {
      var alive := Before(n, turns, 1);
      if !alive {
        return Crashed;
      }
      ghost var s := st;
      var adopted := UpdateUp(n, subnet.(fins := subnet.fins + {Infra}));
      Advance(n, Idle, turns, 1, s);
      ending := if adopted == Ok then Ended else Failed;
    }

    method Finalize(n: Name, subnet: Subnet, turns: seq<Turn>) returns (ending: Ending)
      requires Inv(st) && AllElsewhere(turns, n) && PcOf(st, n) == FinDelete(subnet)
      modifies this
      ensures Inv(st) && st == Drive(old(st), n, turns, 1) && ending == DriveEnding(old(st), n, turns, 1) && !ending.Published?
      ensures ending.Released? ==> !Held(st, ending.u) && (ending.u in st.down ==> st.down[ending.u].deleting)
    {
      var alive := Before(n, turns, 1);
      if !alive {
        return Crashed;
      }
      ghost var s := st;
      var _ := DeleteSubnetwork(subnet.uid);
      Advance(n, FinRelease(subnet), turns, 1, s);
      alive := Before(n, turns, 2);
      if !alive {
        return Crashed;
      }
      s := st;
      assert PcInv(s, n);
      var released := UpdateUp(n, subnet.(fins := subnet.fins - {Infra}));
      Advance(n, Idle, turns, 2, s);
      ending := if released == Ok then Released(subnet.uid) else Failed;
    }

    /** Finding or creating the downstream resource, and looking at its readiness. */
    method Program(n: Name, subnet: Subnet, turns: seq<Turn>) returns (ending: Ending)
      requires Inv(st) && AllElsewhere(turns, n) && PcOf(st, n) == ReadDown(subnet)
      modifies this
      ensures Inv(st) && st == Drive(old(st), n, turns, 1) && ending == DriveEnding(old(st), n, turns, 1) && !ending.Released?
      ensures ending.Published? && ending.programmed ==> Programmed(st, n, ending.u)
    {
      hide Create, UpdateStatus, Programmed, AllElsewhere, Run;
      var alive := Before(n, turns, 1);
      if !alive {
        return Crashed;
      }
      ghost var s := st;
      if turns[1].bail {
        Advance(n, Publish(subnet, false), turns, 1, s);
        ending := PublishStatus(n, subnet, false, turns, 2);
        return;
      }
      var found := GetDown(subnet.uid);
      if found.Some? {
        Advance(n, Publish(subnet, found.value.body), turns, 1, s);
        ending := PublishStatus(n, subnet, found.value.body, turns, 2);
        return;
      }
      Advance(n, CreateDown(subnet), turns, 1, s);
      alive := Before(n, turns, 2);
      if !alive {
        return Crashed;
      }
      s := st;
      var _ := CreateSubnetwork(subnet.uid);
      Advance(n, Publish(subnet, false), turns, 2, s);
      ending := PublishStatus(n, subnet, false, turns, 3);
    }

    /** The deferred status write; its error reaches nobody. */
    method PublishStatus(n: Name, subnet: Subnet, programmed: bool, turns: seq<Turn>, k: nat) returns (ending: Ending)
      requires Inv(st) && AllElsewhere(turns, n) && PcOf(st, n) == Publish(subnet, programmed)
      modifies this
      ensures Inv(st) && st == Drive(old(st), n, turns, k) && ending == DriveEnding(old(st), n, turns, k) && !ending.Released?
      ensures ending.Published? && ending.programmed ==> Programmed(st, n, ending.u)
    {
      var alive := Before(n, turns, k);
      if !alive {
        return Crashed;
      }
      ghost var s := st;
      assert PcInv(s, n);
      var outcome := UpdateSubnetStatus(n, subnet.(body := subnet.body.(programmed := programmed)));
      Advance(n, Idle, turns, k, s);
      ending := if outcome == Ok then Published(subnet.uid, programmed) else Ended;
    }
  }
}
