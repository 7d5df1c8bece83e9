/**
 The workload controller as it is written: one call after the other, a loop over the
 firewalls it listed, and other parties at work between any two calls. Each method
 leaves both servers exactly as the state machine does when it is driven through the
 same turns.
*/
module WorkloadController {
  import opened Options
  import opened Kube
  import opened WorkloadCleanup

  datatype Ending = Crashed | Failed | Ended | Released(u: Uid)

  /** There is one pass in flight per workload, so nobody else moves the pass for `n`. */
  predicate Elsewhere(a: Action, n: Place) {
    a.Call? || a.Crash? ==> a.n != n
  }

  /** What everybody else does before a call, and the order in which a list call returns what it finds. */
  datatype Turn = Turn(others: seq<Action>, order: seq<Key>)

  ghost predicate AllElsewhere(turns: seq<Turn>, n: Place) {
    forall t, a | t in turns && a in t.others :: Elsewhere(a, n)
  }

  lemma StepElsewhere(s: State, a: Action, n: Place)
    requires Elsewhere(a, n)
    ensures PcOf(Step(s, a), n) == PcOf(s, n)
  {
    hide CallStep, Delete, Touch;
    if a.Call? {
      CallElsewhere(s, a.n, a.order, n);
    }
  }

  /** The pass in flight for `n`, call by call, each after everybody else had a turn; without turns left it dies. */
  function Drive(s: State, n: Place, turns: seq<Turn>, k: nat): State
    decreases |turns| - k
  {
    if k >= |turns| then EnvStep(s, Crash(n)) else AfterOthers(Run(s, turns[k].others), n, turns, k)
  }

  function AfterOthers(s: State, n: Place, turns: seq<Turn>, k: nat): State
    requires k < |turns|
    decreases |turns| - k, 0
  {
    var next := CallStep(s, n, turns[k].order);
    if PcOf(next, n) == Idle then next else Drive(next, n, turns, k + 1)
  }

  lemma {:induction false} RunAppend(s: State, a: seq<Action>, b: seq<Action>)
    ensures Run(s, a + b) == Run(Run(s, a), b)
    decreases |b|
  {
    hide Step;
    if b == [] {
      assert a + b == a;
    } else {
      assert (a + b)[..|a + b| - 1] == a + b[..|b| - 1];
      RunAppend(s, a, b[..|b| - 1]);
    }
  }

  /** What a pass reports when the call it is about to make is its last, by the answer of the API server. */
  function Report(s: State, n: Place): Ending {
    match PcOf(s, n)
    case Idle => Ended
    case AddFinalizer(w) =>
      if Update(s.up, n, w.(fins := w.fins + {Infra}), s.nextRv).outcome == Ok then Ended else Failed
    case Release(w) =>
      if Update(s.up, n, w.(fins := w.fins - {Infra}), s.nextRv).outcome == Ok then Released(w.uid) else Failed
    case _ => Failed
  }

  /** What a driven pass reports. */
  function DriveEnding(s: State, n: Place, turns: seq<Turn>, k: nat): Ending
    decreases |turns| - k
  {
    if k >= |turns| then Crashed else EndingAfter(Run(s, turns[k].others), n, turns, k)
  }

  function EndingAfter(s: State, n: Place, turns: seq<Turn>, k: nat): Ending
    requires k < |turns|
    decreases |turns| - k, 0
  {
    var next := CallStep(s, n, turns[k].order);
    if PcOf(next, n) == Idle then Report(s, n) else DriveEnding(next, n, turns, k + 1)
  }

  /** A release is reported by exactly the call that ends the workload's hold, and for that workload. */
  lemma ReleaseIsReported(s: State, n: Place, order: seq<Key>, u: Uid)
    requires Basic(s, n)
    ensures Report(s, n) == Released(u) && Infra in PcOf(s, n).w.fins ==> Held(s, n, u)
    ensures Report(s, n) == Released(u) ==> !Held(CallStep(s, n, order), n, u)
    ensures Held(s, n, u) && !Held(CallStep(s, n, order), n, u) ==> Report(s, n) == Released(u)
  {
    hide Delete, IsListing;
    match PcOf(s, n)
    case Idle =>
    case AddFinalizer(_) =>
    case ReadAnchor(_) =>
    case DropAnchor(_) =>
    case DropAccount(_) =>
    case DropSecret(_) =>
    case ListFirewalls(_) =>
    case DropFirewalls(_, _) =>
    case Release(_) =>
  }

  /** Being driven is a run of the machine. */
  lemma {:induction false} DriveIsRun(s: State, n: Place, turns: seq<Turn>, k: nat) returns (run: seq<Action>)
    ensures Drive(s, n, turns, k) == Run(s, run)
    decreases |turns| - k
  {
    hide CallStep;
    if k >= |turns| {
      run := [Crash(n)];
      assert Run(s, run) == EnvStep(Run(s, []), Crash(n));
    } else {
      var t := Run(s, turns[k].others);
      var call := [Call(n, turns[k].order)];
      var next := CallStep(t, n, turns[k].order);
      assert Run(t, call) == Step(Run(t, []), call[0]);
      var rest := [];
      if PcOf(next, n) != Idle {
        rest := DriveIsRun(next, n, turns, k + 1);
      }
      run := turns[k].others + (call + rest);
      RunAppend(s, turns[k].others, call + rest);
      RunAppend(t, call, rest);
    }
  }

  lemma {:induction false} OthersLeavePass(s: State, acts: seq<Action>, n: Place)
    requires forall a | a in acts :: Elsewhere(a, n)
    ensures PcOf(Run(s, acts), n) == PcOf(s, n)
    decreases |acts|
  {
    hide Step, PcOf;
    if acts != [] {
      OthersLeavePass(s, acts[..|acts| - 1], n);
      StepElsewhere(Run(s, acts[..|acts| - 1]), acts[|acts| - 1], n);
    }
  }

  lemma {:induction false} DriveUndisturbed(s: State, n: Place, turns: seq<Turn>, k: nat, order: seq<Key>)
    requires forall t | t in turns :: t == Turn([], order)
    requires k + CallsLeft(PcOf(CallStep(s, n, order), n), order) < |turns|
    ensures Drive(s, n, turns, k) == Pass(s, n, order)
    decreases CallsLeft(PcOf(CallStep(s, n, order), n), order)
  {
    hide CallStep, CallsLeft;
    assert turns[k] in turns;
    var next := CallStep(s, n, order);
    if PcOf(next, n) != Idle {
      CallProgresses(next, n, order);
      DriveUndisturbed(next, n, turns, k + 1, order);
    } else {
      assert Finish(next, n, order) == next;
    }
  }

  /** As many calls as there are firewalls, and eight more, are a whole pass if nobody disturbs them. */
  lemma UndisturbedPass(s: State, n: Place, turns: seq<Turn>, order: seq<Key>)
    requires (forall t | t in turns :: t == Turn([], order)) && |turns| >= |order| + 8 && PcOf(s, n) == Idle
    ensures Drive(s, n, turns, 0) == Pass(s, n, order)
  {
    DriveUndisturbed(s, n, turns, 0, order);
  }

  class Clusters {
    var st: State

    constructor (start: State)
      ensures st == start
    {
      st := start;
    }

    // -------------------------------------------------------------- API calls

    method GetUp(n: Place) returns (w: Option<Workload>)
      ensures w == if n in st.up then Some(st.up[n]) else None
    {
      w := if n in st.up then Some(st.up[n]) else None;
    }

    method UpdateUp(n: Place, copy: Workload) returns (outcome: Outcome)
      modifies this`st
      ensures var r := Update(old(st.up), n, copy, old(st.nextRv)); outcome == r.outcome && st == WithUp(old(st), r.store)
    {
      var r := Update(st.up, n, copy, st.nextRv);
      st, outcome := WithUp(st, r.store), r.outcome;
    }

    method DeleteDown(k: Key) returns (outcome: Outcome)
      modifies this`st
      ensures var r := Delete(old(st.down), k, old(st.nextRv)); outcome == r.outcome && st == WithDown(old(st), r.store)
    {
      var r := Delete(st.down, k, st.nextRv);
      st, outcome := WithDown(st, r.store), r.outcome;
    }

    /** The firewalls carrying the label of the workload; `order` is the order the server puts them in. */
    method List(u: Uid, order: seq<Key>) returns (found: Option<seq<Key>>)
      ensures found == if IsListing(order, st.down, u) then Some(order) else None
    {
      found := if IsListing(order, st.down, u) then Some(order) else None;
    }

    // -------------------------------------------------------------- between two calls

    /** Everybody else has a turn, or the process dies. */
    method Before(n: Place, turns: seq<Turn>, k: nat) returns (alive: bool)
      requires AllElsewhere(turns, n)
      modifies this
      ensures alive <==> k < |turns|
      ensures alive ==>
        && st == Run(old(st), turns[k].others)
        && PcOf(st, n) == old(PcOf(st, n))
        && AfterOthers(st, n, turns, k) == Drive(old(st), n, turns, k)
        && EndingAfter(st, n, turns, k) == DriveEnding(old(st), n, turns, k)
      ensures !alive ==> st == Drive(old(st), n, turns, k) && DriveEnding(old(st), n, turns, k) == Crashed
    {
      hide AfterOthers, EndingAfter;
      alive := k < |turns|;
      if alive {
        assert turns[k] in turns;
        OthersLeavePass(st, turns[k].others, n);
        st := Run(st, turns[k].others);
      } else {
        st := EnvStep(st, Crash(n));
      }
    }

    /** The pass for `n` made its call number `k` in the state `before` and now stands at `pc`. */
    method Advance(n: Place, pc: Pc, ghost turns: seq<Turn>, ghost k: nat, ghost before: State)
      requires k < |turns| && Goto(st, n, pc) == CallStep(before, n, turns[k].order)
      modifies this
      ensures st == CallStep(before, n, turns[k].order) && PcOf(st, n) == pc
      ensures AfterOthers(before, n, turns, k) == if pc == Idle then st else Drive(st, n, turns, k + 1)
      ensures EndingAfter(before, n, turns, k) == if pc == Idle then Report(before, n) else DriveEnding(st, n, turns, k + 1)
    {
      hide CallStep, Report;
      st := Goto(st, n, pc);
    }

    // -------------------------------------------------------------- the controller

    /**
     A pass over the workload at `n`: its anchor, service account, secret and firewalls are
     deleted one after the other before the workload lets go.
    */
    method Reconcile(n: Place, turns: seq<Turn>) returns (ending: Ending)
      requires AllElsewhere(turns, n) && PcOf(st, n) == Idle
      modifies this
      ensures st == Drive(old(st), n, turns, 0) && ending == DriveEnding(old(st), n, turns, 0)
      ensures ending.Released? ==> !Held(st, n, ending.u)
    {
      var alive := Before(n, turns, 0);
      if !alive {
        return Crashed;
      }
      ghost var s := st;
      var found := GetUp(n);
      if found.None? {
        return Ended;
      }
      var workload := found.value;
      if workload.deleting {
        if Infra in workload.fins {
          Advance(n, ReadAnchor(workload), turns, 0, s);
          ending := CleanUp(n, workload, turns);
          return;
        }
        return Ended;
      }
      if Infra in workload.fins {
        return Ended;
      }
      Advance(n, AddFinalizer(workload), turns, 0, s);
      alive := Before(n, turns, 1);
      if !alive {
        return Crashed;
      }
      s := st;
      var added := UpdateUp(n, workload.(fins := workload.fins + {Infra}));
      Advance(n, Idle, turns, 1, s);
      ending := if added == Ok then Ended else Failed;
    }

    /** The anchor first; then everything that is deleted by name. */
    method CleanUp(n: Place, workload: Workload, turns: seq<Turn>) returns (ending: Ending)
      requires AllElsewhere(turns, n) && PcOf(st, n) == ReadAnchor(workload)
      modifies this
      ensures st == Drive(old(st), n, turns, 1) && ending == DriveEnding(old(st), n, turns, 1)
      ensures ending.Released? ==> ending.u == workload.uid && !Held(st, n, ending.u)
    {
      var alive := Before(n, turns, 1);
      if !alive {
        return Crashed;
      }
      ghost var s := st;
      if n.namespace !in st.namespaces {
        Advance(n, Idle, turns, 1, s);
        return Failed;
      }
      var anchor := AnchorOf(st, n, workload.uid);
      var k := 1;
      if anchor in st.down {
        Advance(n, DropAnchor(workload), turns, k, s);
        k := 2;
        alive := Before(n, turns, k);
        if !alive {
          return Crashed;
        }
        s := st;
        if n.namespace !in st.namespaces || AnchorOf(st, n, workload.uid) !in st.down {
          Advance(n, Idle, turns, k, s);
          return Failed;
        }
        var _ := DeleteDown(AnchorOf(st, n, workload.uid));
      }
      Advance(n, DropAccount(workload), turns, k, s);
      ending := CleanUpNamed(n, workload, turns, k + 1);
    }

    /** The service account and the secret. */
    method CleanUpNamed(n: Place, workload: Workload, turns: seq<Turn>, k: nat) returns (ending: Ending)
      requires AllElsewhere(turns, n) && PcOf(st, n) == DropAccount(workload)
      modifies this
      ensures st == Drive(old(st), n, turns, k) && ending == DriveEnding(old(st), n, turns, k)
      ensures ending.Released? ==> ending.u == workload.uid && !Held(st, n, ending.u)
    {
      hide Delete, Listed, IsListing, Run, Held;
      var alive := Before(n, turns, k);
      if !alive {
        return Crashed;
      }
      ghost var s := st;
      var _ := DeleteDown(Account(workload.uid));
      Advance(n, DropSecret(workload), turns, k, s);
      alive := Before(n, turns, k + 1);
      if !alive {
        return Crashed;
      }
      s := st;
      var _ := DeleteDown(Secret(workload.uid));
      Advance(n, ListFirewalls(workload), turns, k + 1, s);
      ending := CleanUpFirewalls(n, workload, turns, k + 2);
    }

    /** The firewalls, and the finalizer at the very end. */
    method CleanUpFirewalls(n: Place, workload: Workload, turns: seq<Turn>, k: nat) returns (ending: Ending)
      requires AllElsewhere(turns, n) && PcOf(st, n) == ListFirewalls(workload)
      modifies this
      ensures st == Drive(old(st), n, turns, k) && ending == DriveEnding(old(st), n, turns, k)
      ensures ending.Released? ==> ending.u == workload.uid && !Held(st, n, ending.u)
    {
      hide Delete, IsListing, Run, Held, Drive, AfterOthers, DriveEnding, EndingAfter, AllElsewhere;
      var alive := Before(n, turns, k);
      if !alive {
        return Crashed;
      }
      ghost var s := st;
      var listed := List(workload.uid, turns[k].order);
      if listed.None? {
        Advance(n, Idle, turns, k, s);
        return Failed;
      }
      var firewalls := listed.value;
      Advance(n, AfterFirewall(workload, firewalls), turns, k, s);
      ending := CleanUpListed(n, workload, firewalls, turns, k + 1);
    }

    /** The loop over what was listed, and what follows it. */
    method CleanUpListed(n: Place, workload: Workload, firewalls: seq<Key>, turns: seq<Turn>, k: nat) returns (ending: Ending)
      requires AllElsewhere(turns, n) && PcOf(st, n) == AfterFirewall(workload, firewalls)
      modifies this
      ensures st == Drive(old(st), n, turns, k) && ending == DriveEnding(old(st), n, turns, k)
      ensures ending.Released? ==> ending.u == workload.uid && !Held(st, n, ending.u)
    {
      hide Delete, Update, IsListing, Run, Held, Drive, AfterOthers, DriveEnding, EndingAfter, AllElsewhere;
      for i := 0 to |firewalls|
        invariant PcOf(st, n) == AfterFirewall(workload, firewalls[i..])
        invariant Drive(st, n, turns, k + i) == Drive(old(st), n, turns, k)
        invariant DriveEnding(st, n, turns, k + i) == DriveEnding(old(st), n, turns, k)
      {
        var alive := Before(n, turns, k + i);
        if !alive {
          return Crashed;
        }
        ghost var s := st;
        assert firewalls[i..][0] == firewalls[i] && firewalls[i..][1..] == firewalls[i + 1..];
        var _ := DeleteDown(firewalls[i]);
        Advance(n, AfterFirewall(workload, firewalls[i + 1..]), turns, k + i, s);
      }
      ending := LetGo(n, workload, turns, k + |firewalls|);
    }

    method LetGo(n: Place, workload: Workload, turns: seq<Turn>, k: nat) returns (ending: Ending)
      requires AllElsewhere(turns, n) && PcOf(st, n) == Release(workload)
      modifies this
      ensures st == Drive(old(st), n, turns, k) && ending == DriveEnding(old(st), n, turns, k)
      ensures ending.Released? ==> ending.u == workload.uid && !Held(st, n, ending.u)
    {
      var alive := Before(n, turns, k);
      if !alive {
        return Crashed;
      }
      ghost var s := st;
      var released := UpdateUp(n, workload.(fins := workload.fins - {Infra}));
      Advance(n, Idle, turns, k, s);
      ending := if released == Ok then Released(workload.uid) else Failed;
    }
  }
}
