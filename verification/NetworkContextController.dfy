/**
 The network context controller as it is written, with other parties at work between
 any two of its calls. Each method leaves both servers exactly as the state machine does
 when it is driven through the same turns.
*/
module NetworkContextController {
  import opened Options
  import opened Kube
  import opened NetworkContextMachine
  import opened NetworkContextSafety
  import opened NetworkContextLiveness

  /** What everybody else does before a call, and what the call finds out beside its answer. */
  datatype Turn = Turn(others: seq<Action>, hint: Hint)

  datatype Ending = Crashed | Ended | Published(u: Uid, programmed: bool)

  predicate Elsewhere(a: Action, n: Name) {
    a.Call? || a.Crash? ==> a.n != n
  }

  ghost predicate AllElsewhere(turns: seq<Turn>, n: Name) {
    forall t, a | t in turns && a in t.others :: Elsewhere(a, n)
  }

  lemma StepElsewhere(s: State, a: Action, n: Name)
    requires Elsewhere(a, n)
    ensures PcOf(Step(s, a), n) == PcOf(s, n)
  {
    hide CallStep, Delete, Touch, Settle;
    if a.Call? {
      CallElsewhere(s, a.n, a.hint, n);
    }
  }

  /** The pass in flight for `n`, call by call, each after everybody else had a turn; without turns left it dies. */
  function Drive(s: State, n: Name, turns: seq<Turn>, k: nat): State
    decreases |turns| - k
  {
    if k >= |turns| then EnvStep(s, Crash(n)) else AfterOthers(Run(s, turns[k].others), n, turns, k)
  }

  function AfterOthers(s: State, n: Name, turns: seq<Turn>, k: nat): State
    requires k < |turns|
    decreases |turns| - k, 0
  {
    var next := CallStep(s, n, turns[k].hint);
    if PcOf(next, n) == Idle then next else Drive(next, n, turns, k + 1)
  }

  lemma {:induction false} RunAppend(s: State, a: seq<Action>, b: seq<Action>)
    ensures Run(s, a + b) == Run(Run(s, a), b)
    decreases |b|
  {
    hide Step;
    if b == [] {
      assert a + b == a;
    } else {
      assert (a + b)[..|a + b| - 1] == a + b[..|b| - 1];
      RunAppend(s, a, b[..|b| - 1]);
    }
  }

  /** What a pass reports when the call it is about to make is its last, by the answer of the API server. */
  function Report(s: State, n: Name): Ending {
    match PcOf(s, n)
    case Publish(ctx, _, programmed) =>
      if UpdateStatus(s.up, n, ctx, s.nextRv).outcome == Ok then Published(ctx.uid, programmed) else Ended
    case _ => Ended
  }

  /** What a driven pass reports. */
  function DriveEnding(s: State, n: Name, turns: seq<Turn>, k: nat): Ending
    decreases |turns| - k
  {
    if k >= |turns| then Crashed else EndingAfter(Run(s, turns[k].others), n, turns, k)
  }

  function EndingAfter(s: State, n: Name, turns: seq<Turn>, k: nat): Ending
    requires k < |turns|
    decreases |turns| - k, 0
  {
    var next := CallStep(s, n, turns[k].hint);
    if PcOf(next, n) == Idle then Report(s, n) else DriveEnding(next, n, turns, k + 1)
  }

  /** A verdict that is reported is the one the context carries from then on. */
  lemma VerdictIsReported(s: State, n: Name, hint: Hint, u: Uid, programmed: bool)
    requires Inv(s) && PcOf(s, n).Publish? && Report(s, n) == Published(u, programmed)
    ensures var s' := CallStep(s, n, hint);
      n in s'.up && s'.up[n].uid == u && s'.up[n].body.programmed == programmed
  {
    assert PcInv(s, n);
  }

  /** Being driven is a run of the machine. */
  lemma {:induction false} DriveIsRun(s: State, n: Name, turns: seq<Turn>, k: nat) returns (run: seq<Action>)
    ensures Drive(s, n, turns, k) == Run(s, run)
    decreases |turns| - k
  {
    hide CallStep;
    if k >= |turns| {
      run := [Crash(n)];
      assert Run(s, run) == EnvStep(Run(s, []), Crash(n));
    } else {
      var t := Run(s, turns[k].others);
      var call := [Call(n, turns[k].hint)];
      var next := CallStep(t, n, turns[k].hint);
      assert Run(t, call) == Step(Run(t, []), call[0]);
      var rest := [];
      if PcOf(next, n) != Idle {
        rest := DriveIsRun(next, n, turns, k + 1);
      }
      run := turns[k].others + (call + rest);
      RunAppend(s, turns[k].others, call + rest);
      RunAppend(t, call, rest);
    }
  }

  lemma {:induction false} OthersLeavePass(s: State, acts: seq<Action>, n: Name)
    requires forall a | a in acts :: Elsewhere(a, n)
    ensures PcOf(Run(s, acts), n) == PcOf(s, n)
    decreases |acts|
  {
    hide Step, PcOf;
    if acts != [] {
      OthersLeavePass(s, acts[..|acts| - 1], n);
      StepElsewhere(Run(s, acts[..|acts| - 1]), acts[|acts| - 1], n);
    }
  }

  lemma {:induction false} DriveUndisturbed(s: State, n: Name, turns: seq<Turn>, k: nat, hint: Hint)
    requires forall t | t in turns :: t == Turn([], hint)
    requires k + CallsLeft(PcOf(CallStep(s, n, hint), n)) < |turns|
    ensures Drive(s, n, turns, k) == Pass(s, n, hint)
    decreases CallsLeft(PcOf(CallStep(s, n, hint), n))
  {
    hide CallStep, CallsLeft;
    assert turns[k] in turns;
    var next := CallStep(s, n, hint);
    if PcOf(next, n) != Idle {
      CallProgresses(next, n, hint);
      DriveUndisturbed(next, n, turns, k + 1, hint);
    } else {
      assert Finish(next, n, hint) == next;
    }
  }

  /** Five calls that nobody disturbs are a whole pass. */
  lemma UndisturbedPass(s: State, n: Name, turns: seq<Turn>, hint: Hint)
    requires (forall t | t in turns :: t == Turn([], hint)) && |turns| >= 5 && PcOf(s, n) == Idle
    ensures Drive(s, n, turns, 0) == Pass(s, n, hint)
  {
    assert CallsLeft(PcOf(CallStep(s, n, hint), n)) < 5;
    DriveUndisturbed(s, n, turns, 0, hint);
  }

  class Clusters {
    var st: State

    constructor ()
      ensures st == Init && Inv(st)
    {
      st := Init;
      new;
      assert Inv(Init);
    }

    // -------------------------------------------------------------- API calls

    method GetUp(n: Name) returns (ctx: Option<Context>)
      ensures ctx == if n in st.up then Some(st.up[n]) else None
    {
      ctx := if n in st.up then Some(st.up[n]) else None;
    }

    method GetNetwork(n: Name) returns (uid: Option<Uid>)
      ensures uid == if n in st.networks then Some(st.networks[n]) else None
    {
      uid := if n in st.networks then Some(st.networks[n]) else None;
    }

    method GetDown(u: Uid) returns (network: Option<Network>)
      ensures network == if u in st.down then Some(st.down[u]) else None
    {
      network := if u in st.down then Some(st.down[u]) else None;
    }

    method CreateNetwork(u: Uid) returns (outcome: Outcome)
      modifies this`st
      ensures var r := Create(old(st.down), u, Obj(u, old(st.nextRv), false, {}, Health(false, false)));
        outcome == r.outcome && st == WithDown(old(st), r.store)
    {
      var r := Create(st.down, u, Obj(u, st.nextRv, false, {}, Health(false, false)));
      st, outcome := WithDown(st, r.store), r.outcome;
    }

    method PatchNetwork(u: Uid) returns (outcome: Outcome)
      modifies this`st
      ensures var r := Patch(old(st.down), u, {}, {}, old(st.nextRv));
        outcome == r.outcome && st == WithDown(old(st), r.store)
    {
      var r := Patch(st.down, u, {}, {}, st.nextRv);
      st, outcome := WithDown(st, r.store), r.outcome;
    }

    method UpdateContextStatus(n: Name, copy: Context) returns (outcome: Outcome)
      modifies this`st
      ensures var r := UpdateStatus(old(st.up), n, copy, old(st.nextRv));
        outcome == r.outcome && st == WithUp(old(st), r.store)
    {
      var r := UpdateStatus(st.up, n, copy, st.nextRv);
      st, outcome := WithUp(st, r.store), r.outcome;
    }

    // -------------------------------------------------------------- between two calls

    /** Everybody else has a turn, or the process dies. */
    method Before(n: Name, turns: seq<Turn>, k: nat) returns (alive: bool)
      requires Inv(st) && AllElsewhere(turns, n)
      modifies this
      ensures Inv(st) && (alive <==> k < |turns|)
      ensures alive ==>
        && st == Run(old(st), turns[k].others)
        && PcOf(st, n) == old(PcOf(st, n))
        && AfterOthers(st, n, turns, k) == Drive(old(st), n, turns, k)
        && EndingAfter(st, n, turns, k) == DriveEnding(old(st), n, turns, k)
      ensures !alive ==> st == Drive(old(st), n, turns, k) && PcOf(st, n) == Idle && DriveEnding(old(st), n, turns, k) == Crashed
    {
      hide AfterOthers, EndingAfter;
      alive := k < |turns|;
      if alive {
        assert turns[k] in turns;
        OthersLeavePass(st, turns[k].others, n);
        RunInv(st, turns[k].others);
        st := Run(st, turns[k].others);
      } else {
        EnvInv(st, Crash(n));
        st := EnvStep(st, Crash(n));
      }
    }

    /** The pass for `n` made its call number `k` in the state `before` and now stands at `pc`. */
    method Advance(n: Name, pc: Pc, ghost turns: seq<Turn>, ghost k: nat, ghost before: State)
      requires Inv(before) && k < |turns| && Goto(st, n, pc) == CallStep(before, n, turns[k].hint)
      modifies this
      ensures Inv(st) && st == CallStep(before, n, turns[k].hint) && PcOf(st, n) == pc
      ensures AfterOthers(before, n, turns, k) == if pc == Idle then st else Drive(st, n, turns, k + 1)
      ensures EndingAfter(before, n, turns, k) == if pc == Idle then Report(before, n) else DriveEnding(st, n, turns, k + 1)
    {
      hide CallStep, Report;
      st := Goto(st, n, pc);
      CallInv(before, n, turns[k].hint);
    }

    // -------------------------------------------------------------- the controller

    /** A pass over the context `n`; one it reports as programmed is then marked so. */
    method Reconcile(n: Name, turns: seq<Turn>) returns (ending: Ending)
      requires Inv(st) && AllElsewhere(turns, n) && PcOf(st, n) == Idle
      modifies this
      ensures Inv(st) && st == Drive(old(st), n, turns, 0) && ending == DriveEnding(old(st), n, turns, 0)
      ensures ending.Published? && ending.programmed ==> Programmed(st, n, ending.u)
    {
      var alive := Before(n, turns, 0);
      if !alive {
        return Crashed;
      }
      ghost var s := st;
      var found := GetUp(n);
      if found.None? || turns[0].hint.bail || found.value.deleting || found.value.body.programmed {
        return Ended;
      }
      var ctx := found.value;
      Advance(n, ReadNetwork(ctx), turns, 0, s);
      alive := Before(n, turns, 1);
      if !alive {
        return Crashed;
      }
      s := st;
      var net := GetNetwork(ctx.body.network);
      if net.None? {
        Advance(n, Publish(ctx, 0, false), turns, 1, s);
        ending := PublishStatus(n, ctx, 0, false, turns, 2);
        return;
      }
      Advance(n, ReadDown(ctx, net.value), turns, 1, s);
      ending := CreateOrPatch(n, ctx, net.value, turns);
    }

    method CreateOrPatch(n: Name, ctx: Context, net: Uid, turns: seq<Turn>) returns (ending: Ending)
      requires Inv(st) && AllElsewhere(turns, n) && PcOf(st, n) == ReadDown(ctx, net)
      modifies this
      ensures Inv(st) && st == Drive(old(st), n, turns, 2) && ending == DriveEnding(old(st), n, turns, 2)
      ensures ending.Published? && ending.programmed ==> Programmed(st, n, ending.u)
    {
      var alive := Before(n, turns, 2);
      if !alive {
        return Crashed;
      }
      ghost var s := st;
      var found := GetDown(net);
      if found.Some? && !turns[2].hint.changed {
        Advance(n, Publish(ctx, net, Good(found.value.body)), turns, 2, s);
        ending := PublishStatus(n, ctx, net, Good(found.value.body), turns, 3);
        return;
      }
      Advance(n, if found.None? then CreateDown(ctx, net) else PatchDown(ctx, net), turns, 2, s);
      ending := Write(n, ctx, net, found.None?, turns);
    }

    /** The write of `CreateOrPatch`, and what its answer says. */
    method Write(n: Name, ctx: Context, net: Uid, missing: bool, turns: seq<Turn>) returns (ending: Ending)
      requires Inv(st) && AllElsewhere(turns, n)
      requires PcOf(st, n) == if missing then CreateDown(ctx, net) else PatchDown(ctx, net)
      modifies this
      ensures Inv(st) && st == Drive(old(st), n, turns, 3) && ending == DriveEnding(old(st), n, turns, 3)
      ensures ending.Published? && ending.programmed ==> Programmed(st, n, ending.u)
    {
      var alive := Before(n, turns, 3);
      if !alive {
        return Crashed;
      }
      ghost var s := st;
      var programmed := false;
      if missing {
        var _ := CreateNetwork(net);
      } else {
        var outcome := PatchNetwork(net);
        var answer := GetDown(net);
        programmed := outcome == Ok && answer.Some? && Good(answer.value.body);
      }
      Advance(n, Publish(ctx, net, programmed), turns, 3, s);
      ending := PublishStatus(n, ctx, net, programmed, turns, 4);
    }

    /** The deferred status write. */
    method PublishStatus(n: Name, ctx: Context, net: Uid, programmed: bool, turns: seq<Turn>, k: nat)
        returns (ending: Ending)
      requires Inv(st) && AllElsewhere(turns, n) && PcOf(st, n) == Publish(ctx, net, programmed)
      modifies this
      ensures Inv(st) && st == Drive(old(st), n, turns, k) && ending == DriveEnding(old(st), n, turns, k)
      ensures ending.Published? && ending.programmed ==> Programmed(st, n, ending.u)
    {
      var alive := Before(n, turns, k);
      if !alive {
        return Crashed;
      }
      ghost var s := st;
      assert PcInv(s, n);
      var outcome := UpdateContextStatus(n, ctx.(body := ctx.body.(programmed := programmed)));
      Advance(n, Idle, turns, k, s);
      ending := if outcome == Ok then Published(ctx.uid, programmed) else Ended;
    }
  }
}
