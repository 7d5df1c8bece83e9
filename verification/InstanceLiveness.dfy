/**
 Undisturbed passes get there: two of them bring up the resource of an instance, and
 two of them release a deleted instance once Crossplane has let go. Nobody can take
 back what finalization has achieved.
*/
module InstanceLiveness {
  import opened Kube
  import opened InstanceMachine
  import opened InstanceSafety

  /** An upper bound on the calls left in a pass. */
  function CallsLeft(pc: Pc): nat {
    match pc
    case Idle => 0
    case AddFinalizer(_) | Publish(_) | FinPower(_) | FinRelease(_) => 1
    case RetryDown(_, _) | PowerState(_) | FinStrip(_, _) => 2
    case CreateDown(_) | PatchDown(_, _) | FinDelete(_, _) => 3
    case ReadDown(_) | FinRead(_) => 4
  }

  lemma CallProgresses(s: State, n: Name, hint: Hint)
    requires PcOf(s, n) != Idle
    ensures CallsLeft(PcOf(CallStep(s, n, hint), n)) < CallsLeft(PcOf(s, n))
  {
  }

  /** The rest of the pass in flight for `n`, undisturbed. */
  function Finish(s: State, n: Name, hint: Hint): State
    decreases CallsLeft(PcOf(s, n))
  {
    if PcOf(s, n) == Idle then s
    else
      CallProgresses(s, n, hint);
      Finish(CallStep(s, n, hint), n, hint)
  }

  /** A whole pass for `n`, undisturbed. */
  function Pass(s: State, n: Name, hint: Hint): State {
    Finish(CallStep(s, n, hint), n, hint)
  }

  lemma {:induction false} FinishInv(s: State, n: Name, hint: Hint)
    requires Inv(s)
    ensures Inv(Finish(s, n, hint)) && PcOf(Finish(s, n, hint), n) == Idle
    decreases CallsLeft(PcOf(s, n))
  {
    if PcOf(s, n) != Idle {
      hide CallStep;
      CallInv(s, n, hint);
      CallProgresses(s, n, hint);
      FinishInv(CallStep(s, n, hint), n, hint);
    }
  }

  /** The instance created as `u` under `n` is being deleted and no pass is working on it. */
  ghost predicate Finalizable(s: State, n: Name, u: Uid) {
    && Inv(s)
    && PcOf(s, n) == Idle
    && n in s.up && s.up[n].uid == u && s.up[n].deleting && Infra in s.up[n].fins
  }

  /** Both of the controller's finalizers are gone. */
  ghost predicate Released(s: State, u: Uid) {
    !Held(s, u) && Spent(s, u)
  }

  /** With the resource absent or marked, and Crossplane gone from it, one pass releases everything. */
  lemma OnePass(s: State, n: Name, u: Uid, hint: Hint)
    requires Finalizable(s, n, u) && !hint.bail
    requires u in s.down ==> s.down[u].deleting && Crossplane !in s.down[u].fins
    ensures Released(Pass(s, n, hint), u)
  {
    assert UpInv(s, n) && DownInv(s, u);
    var s1 := CallStep(s, n, hint);
    var s2 := CallStep(s1, n, hint);
    var s3 := CallStep(s2, n, hint);
    assert Pass(s, n, hint) == Finish(s2, n, hint) == Finish(s3, n, hint);
    if u in s.down && Infra in s.down[u].fins {
      assert Finish(s3, n, hint) == CallStep(s3, n, hint);
    }
  }

  /** With the resource not yet marked, a pass marks it and keeps the instance. */
  lemma MarkingPass(s: State, n: Name, u: Uid, hint: Hint)
    requires Finalizable(s, n, u) && !hint.bail
    requires u in s.down && !s.down[u].deleting && Crossplane !in s.down[u].fins
    ensures var s' := Pass(s, n, hint);
      && Finalizable(s', n, u)
      && u in s'.down && s'.down[u].deleting && Crossplane !in s'.down[u].fins
  {
    assert UpInv(s, n) && DownInv(s, u);
    var s1 := CallStep(s, n, hint);
    var s2 := CallStep(s1, n, hint);
    var s3 := CallStep(s2, n, hint);
    var s4 := CallStep(s3, n, hint);
    assert Pass(s, n, hint) == Finish(s2, n, hint) == Finish(s3, n, hint) == s4;
    CallInv(s, n, hint);
    FinishInv(s1, n, hint);
  }

  /** The status after a pass that may write one. */
  function NewStatus(hint: Hint, before: Status): Status {
    if hint.status.Some? then hint.status.value else before
  }

  /** As long as Crossplane holds the resource, a pass marks it and waits, leaving everything else to Crossplane. */
  lemma CrossplaneIsTold(s: State, n: Name, u: Uid, hint: Hint)
    requires Finalizable(s, n, u) && !hint.bail
    requires u in s.down && Crossplane in s.down[u].fins
    ensures var s' := Pass(s, n, hint);
      && Finalizable(s', n, u) && Held(s', u) && s'.up[n].body == NewStatus(hint, s.up[n].body)
      && u in s'.down && s'.down[u].deleting && s'.down[u].fins == s.down[u].fins
      && s'.vms == s.vms
  {
    assert UpInv(s, n) && DownInv(s, u);
    var s1 := CallStep(s, n, hint);
    var s2 := CallStep(s1, n, hint);
    var s3 := CallStep(s2, n, hint);
    assert Pass(s, n, hint) == Finish(s2, n, hint) == Finish(s3, n, hint);
    if !s.down[u].deleting {
      assert Finish(s3, n, hint) == CallStep(s3, n, hint);
    }
    CallInv(s, n, hint);
    FinishInv(s1, n, hint);
  }

  /**
   Every finalizing pass: the resource is marked afterwards if it is still there, and the
   instance is released if and only if the resource was absent, or marked already and free
   of Crossplane's finalizer.
  */
  lemma FinalizingPass(s: State, n: Name, u: Uid, hint: Hint)
    requires Finalizable(s, n, u) && !hint.bail
    ensures var s' := Pass(s, n, hint);
      && (u in s'.down ==> s'.down[u].deleting)
      && (Held(s', u) <==> u in s.down && (!s.down[u].deleting || Crossplane in s.down[u].fins))
      && (u in s.down && Crossplane in s.down[u].fins ==> u in s'.down && s'.down[u].fins == s.down[u].fins)
      && s'.vms == s.vms
  {
    hide CallStep;
    SameMachines(s, n, hint);
    if u in s.down && Crossplane in s.down[u].fins {
      CrossplaneIsTold(s, n, u, hint);
    } else if u in s.down && !s.down[u].deleting {
      MarkingPass(s, n, u, hint);
      assert UpInv(Pass(s, n, hint), n);
    } else {
      OnePass(s, n, u, hint);
    }
  }

  /** The controller makes and deletes no machines. */
  lemma {:induction false} FinishSameMachines(s: State, n: Name, hint: Hint)
    ensures Finish(s, n, hint).vms == s.vms && Finish(s, n, hint).born == s.born
    decreases CallsLeft(PcOf(s, n))
  {
    hide CallStep;
    if PcOf(s, n) != Idle {
      CallProgresses(s, n, hint);
      CallSameMachines(s, n, hint);
      FinishSameMachines(CallStep(s, n, hint), n, hint);
    }
  }

  lemma CallSameMachines(s: State, n: Name, hint: Hint)
    ensures CallStep(s, n, hint).vms == s.vms && CallStep(s, n, hint).born == s.born
  {
    hide Create, Patch, Update, UpdateStatus, Delete;
    match PcOf(s, n)
    case Idle =>
    case AddFinalizer(_) =>
    case ReadDown(_) =>
    case CreateDown(_) =>
    case PatchDown(_, _) =>
    case RetryDown(_, _) =>
    case PowerState(_) =>
    case Publish(_) =>
    case FinRead(_) =>
    case FinDelete(_, _) =>
    case FinPower(_) =>
    case FinStrip(_, _) =>
    case FinRelease(_) =>
  }

  lemma SameMachines(s: State, n: Name, hint: Hint)
    ensures Pass(s, n, hint).vms == s.vms && Pass(s, n, hint).born == s.born
  {
    hide CallStep;
    CallSameMachines(s, n, hint);
    FinishSameMachines(CallStep(s, n, hint), n, hint);
  }

  /** The instance created as `u` is being deleted or gone, and no pass still works to create its resource. */
  ghost predicate Doomed(s: State, u: Uid) {
    && u in s.born
    && (Present(s, u) ==> s.up[s.born[u]].deleting)
    && (PcOf(s, s.born[u]).Creating() ==> PcOf(s, s.born[u]).inst.uid != u)
  }

  /** What is still to be done for `u`: mark the resource, strip its finalizer, release the instance. */
  ghost function Pending(s: State, u: Uid): nat {
    (if u in s.down && !s.down[u].deleting then 1 else 0)
    + (if u in s.down && Infra in s.down[u].fins then 1 else 0)
    + (if Held(s, u) then 1 else 0)
  }

  lemma OwnPassKeepsProgress(s: State, n: Name, hint: Hint, u: Uid)
    requires PcInv(s, n) && UpInv(s, n) && DownInv(s, u) && Doomed(s, u)
    requires n == s.born[u] && (PcOf(s, n) == Idle || PcOf(s, n).inst.uid == u)
    ensures Doomed(CallStep(s, n, hint), u) && Pending(CallStep(s, n, hint), u) <= Pending(s, u)
  {
    match PcOf(s, n)
    case Idle =>
    case AddFinalizer(_) =>
    case FinRead(_) =>
    case FinDelete(_, _) =>
    case FinPower(_) =>
    case FinStrip(_, _) =>
    case FinRelease(_) =>
  }

  lemma ElsewhereKeepsProgress(s: State, s': State, u: Uid)
    requires Doomed(s, u) && s'.born == s.born
    requires Same(s.up, s'.up, s.born[u]) && Same(s.pcs, s'.pcs, s.born[u]) && Same(s.down, s'.down, u)
    ensures Doomed(s', u) && Pending(s', u) <= Pending(s, u)
  {
  }

  /** A pass goes on with the instance it started with. */
  lemma PassKeepsUid(s: State, n: Name, hint: Hint)
    requires PcOf(s, n) != Idle && PcInv(s, n)
    ensures var pc' := PcOf(CallStep(s, n, hint), n);
      pc' != Idle ==> pc'.inst.uid == PcOf(s, n).inst.uid && (pc'.Creating() ==> PcOf(s, n).Creating())
  {
    hide Create, Patch, Update, Delete, Held, DownCopy;
  }

  /** A pass that works from a copy of an earlier instance of the same name. */
  lemma OtherCopyKeepsProgress(s: State, n: Name, hint: Hint, u: Uid)
    requires PcInv(s, n) && Doomed(s, u)
    requires n == s.born[u] && PcOf(s, n) != Idle && PcOf(s, n).inst.uid != u
    requires Local(s, CallStep(s, n, hint), n, PcOf(s, n).inst.uid)
    ensures Doomed(CallStep(s, n, hint), u) && Pending(CallStep(s, n, hint), u) <= Pending(s, u)
  {
    hide CallStep, PcInv;
    PassKeepsUid(s, n, hint);
    assert Same(s.down, CallStep(s, n, hint).down, u);
  }

  lemma NothingToStart(s: State, n: Name, hint: Hint)
    requires PcOf(s, n) == Idle && n !in s.up
    ensures CallStep(s, n, hint) == s
  {
  }

  lemma CallKeepsProgress(s: State, n: Name, hint: Hint, u: Uid)
    requires Inv(s) && Doomed(s, u)
    ensures Doomed(CallStep(s, n, hint), u) && Pending(CallStep(s, n, hint), u) <= Pending(s, u)
  {
    hide CallStep, Pending;
    assert PcInv(s, n) && UpInv(s, n) && DownInv(s, u);
    var s' := CallStep(s, n, hint);
    CallInv(s, n, hint);
    if PcOf(s, n) == Idle && n !in s.up {
      NothingToStart(s, n, hint);
    } else if n != s.born[u] {
      assert Same(s.up, s'.up, s.born[u]) && Same(s.pcs, s'.pcs, s.born[u]) && Same(s.down, s'.down, u);
      ElsewhereKeepsProgress(s, s', u);
    } else if PcOf(s, n) != Idle && PcOf(s, n).inst.uid != u {
      assert Same(s.down, s'.down, u);
      OtherCopyKeepsProgress(s, n, hint, u);
    } else {
      OwnPassKeepsProgress(s, n, hint, u);
    }
  }

  lemma UserKeepsProgress(s: State, a: Action, u: Uid)
    requires u in s.born && u < s.nextUid && UpInv(s, s.born[u])
    requires a.Crash? || a.UserCreate? || a.UserDelete? || a.UserWrite?
    ensures Pending(EnvStep(s, a), u) <= Pending(s, u)
    ensures Doomed(s, u) ==> Doomed(EnvStep(s, a), u)
  {
  }

  lemma DownstreamKeepsProgress(s: State, a: Action, u: Uid)
    requires u in s.born && !a.Call? && !a.Crash? && !a.UserCreate? && !a.UserDelete? && !a.UserWrite?
    ensures Pending(EnvStep(s, a), u) <= Pending(s, u)
    ensures Doomed(s, u) ==> Doomed(EnvStep(s, a), u)
  {
  }

  /** Crashes, users, Crossplane and everybody else never add to what is to be done, whatever passes are in flight. */
  lemma EnvKeepsProgress(s: State, a: Action, u: Uid)
    requires Inv(s) && u in s.born && !a.Call?
    ensures Pending(EnvStep(s, a), u) <= Pending(s, u)
    ensures Doomed(s, u) ==> Doomed(EnvStep(s, a), u)
  {
    hide EnvStep, Pending, Doomed;
    assert UpInv(s, s.born[u]);
    if a.Crash? || a.UserCreate? || a.UserDelete? || a.UserWrite? {
      UserKeepsProgress(s, a, u);
    } else {
      DownstreamKeepsProgress(s, a, u);
    }
  }

  lemma OwnCallAdds(s: State, n: Name, hint: Hint, u: Uid)
    requires PcInv(s, n) && UpInv(s, n) && DownInv(s, u) && u in s.born
    requires n == s.born[u] && (PcOf(s, n) == Idle || PcOf(s, n).inst.uid == u)
    requires !PcOf(s, n).AddFinalizer? && !PcOf(s, n).CreateDown?
    ensures Pending(CallStep(s, n, hint), u) <= Pending(s, u)
  {
    match PcOf(s, n)
    case Idle =>
    case ReadDown(_) =>
    case PatchDown(_, _) =>
    case RetryDown(_, _) =>
    case PowerState(_) =>
    case Publish(_) =>
    case FinRead(_) =>
    case FinDelete(_, _) =>
    case FinPower(_) =>
    case FinStrip(_, _) =>
    case FinRelease(_) =>
  }

  lemma ElsewherePending(s: State, s': State, u: Uid)
    requires u in s.born && s'.born == s.born && Same(s.up, s'.up, s.born[u]) && Same(s.down, s'.down, u)
    ensures Pending(s', u) == Pending(s, u)
  {
  }

  lemma OtherCopyPending(s: State, s': State, n: Name, w: Uid, u: Uid)
    requires u in s.born && n == s.born[u] && w != u && Local(s, s', n, w)
    ensures Pending(s', u) <= Pending(s, u)
  {
    assert Same(s.down, s'.down, u);
  }

  /**
   Of all the controller's calls, only two ever add to what finalization has to do for an
   instance: its own pass putting the finalizer on it, and its own pass creating its resource.
  */
  lemma OnlyCreatorsAdd(s: State, n: Name, hint: Hint, u: Uid)
    requires Inv(s) && u in s.born && Pending(CallStep(s, n, hint), u) > Pending(s, u)
    ensures (PcOf(s, n).AddFinalizer? || PcOf(s, n).CreateDown?) && PcOf(s, n).inst.uid == u
  {
    hide CallStep, Pending;
    assert PcInv(s, n) && UpInv(s, n) && DownInv(s, u);
    var s' := CallStep(s, n, hint);
    CallInv(s, n, hint);
    if PcOf(s, n) == Idle && n !in s.up {
      NothingToStart(s, n, hint);
    } else if n != s.born[u] {
      assert Same(s.up, s'.up, s.born[u]) && Same(s.down, s'.down, u);
      ElsewherePending(s, s', u);
    } else if PcOf(s, n) != Idle && PcOf(s, n).inst.uid != u {
      OtherCopyPending(s, s', n, PcOf(s, n).inst.uid, u);
    } else if !PcOf(s, n).AddFinalizer? && !PcOf(s, n).CreateDown? {
      OwnCallAdds(s, n, hint, u);
    }
  }

  /**
   Once no pass is about to create anything for a deleted instance, no step of anybody, a
   crash included, undoes what finalization has achieved.
  */
  lemma {:induction false} ProgressIsKept(s: State, run: seq<Action>, u: Uid)
    requires Inv(s) && Doomed(s, u)
    ensures Doomed(Run(s, run), u) && Pending(Run(s, run), u) <= Pending(s, u)
    decreases |run|
  {
    if run != [] {
      StepInv(s, run[0]);
      if run[0].Call? {
        CallKeepsProgress(s, run[0].n, run[0].hint, u);
      } else {
        EnvKeepsProgress(s, run[0], u);
      }
      ProgressIsKept(Step(s, run[0]), run[1..], u);
    }
  }

  /** A pass is a run of calls. */
  lemma {:induction false} FinishIsRun(s: State, n: Name, hint: Hint) returns (run: seq<Action>)
    ensures Run(s, run) == Finish(s, n, hint)
    decreases CallsLeft(PcOf(s, n))
  {
    run := [];
    if PcOf(s, n) != Idle {
      CallProgresses(s, n, hint);
      var rest := FinishIsRun(CallStep(s, n, hint), n, hint);
      run := [Call(n, hint)] + rest;
      assert run[1..] == rest;
    }
  }

  lemma ReleasedIsKept(s: State, n: Name, u: Uid, hint: Hint)
    requires Inv(s) && Doomed(s, u) && !Held(s, u)
    ensures Released(Pass(s, n, hint), u)
  {
    assert DownInv(s, u);
    CallInv(s, n, hint);
    CallKeepsProgress(s, n, hint, u);
    var run := FinishIsRun(CallStep(s, n, hint), n, hint);
    ProgressIsKept(CallStep(s, n, hint), run, u);
    FinishInv(CallStep(s, n, hint), n, hint);
    assert DownInv(Pass(s, n, hint), u);
  }

  /**
   From any reachable state in which an instance is being deleted and Crossplane does
   not hold its resource, two undisturbed passes release both finalizers, and one pass
   is enough exactly when the resource is absent or already marked.
  */
  lemma TwoPasses(run: seq<Action>, n: Name, u: Uid, h1: Hint, h2: Hint)
    requires var s := Run(Init, run);
      && n in s.up && s.up[n].uid == u && s.up[n].deleting && Infra in s.up[n].fins
      && (u in s.down ==> Crossplane !in s.down[u].fins)
    requires !h1.bail && !h2.bail
    ensures var s := EnvStep(Run(Init, run), Crash(n));
      && Released(Pass(Pass(s, n, h1), n, h2), u)
      && (Released(Pass(s, n, h1), u) <==> (u in s.down ==> s.down[u].deleting))
  {
    RunInv(Init, run);
    var s := EnvStep(Run(Init, run), Crash(n));
    StepInv(Run(Init, run), Crash(n));
    assert UpInv(s, n);
    var s' := Pass(s, n, h1);
    if u in s.down && !s.down[u].deleting {
      MarkingPass(s, n, u, h1);
      assert UpInv(s', n);
      OnePass(s', n, u, h2);
    } else {
      OnePass(s, n, u, h1);
      var calls := FinishIsRun(CallStep(s, n, h1), n, h1);
      CallInv(s, n, h1);
      CallKeepsProgress(s, n, h1, u);
      ProgressIsKept(CallStep(s, n, h1), calls, u);
      FinishInv(CallStep(s, n, h1), n, h1);
      ReleasedIsKept(s', n, u, h2);
    }
  }

  /**
   From deletion to the end: from any reachable state in which an instance is being deleted,
   a pass tells Crossplane, which deletes the machine and lets go, and a second pass releases
   both finalizers. No machine is left.
  */
  lemma DeletionCompletes(run: seq<Action>, n: Name, u: Uid, h1: Hint, h2: Hint)
    requires var s := Run(Init, run); n in s.up && s.up[n].uid == u && s.up[n].deleting && Infra in s.up[n].fins
    requires !h1.bail && !h2.bail
    ensures var told := Pass(EnvStep(Run(Init, run), Crash(n)), n, h1);
      var done := EnvStep(EnvStep(told, XpDeleteVm(u)), XpRelease(u));
      var end := Pass(done, n, h2);
      Released(end, u) && u !in end.vms
  {
    hide CallStep, Pass, EnvStep, Finish, Pending;
    RunInv(Init, run);
    var s := EnvStep(Run(Init, run), Crash(n));
    StepInv(Run(Init, run), Crash(n));
    CrashedIsIdle(Run(Init, run), n);
    assert UpInv(s, n) && DownInv(s, u);
    var told := Pass(s, n, h1);
    PassInv(s, n, h1);
    FinalizingPass(s, n, u, h1);
    PassDoomed(s, n, u, h1);
    SameMachines(s, n, h1);
    var gone := EnvStep(told, XpDeleteVm(u));
    StepInv(told, XpDeleteVm(u));
    var done := EnvStep(gone, XpRelease(u));
    StepInv(gone, XpRelease(u));
    assert DownInv(told, u) && DownInv(done, u) && UpInv(done, n);
    CrossplaneIsDone(told, u);
    SameMachines(done, n, h2);
    if Held(told, u) {
      OnePass(done, n, u, h2);
    } else {
      EnvKeepsProgress(told, XpDeleteVm(u), u);
      EnvKeepsProgress(gone, XpRelease(u), u);
      ReleasedIsKept(done, n, u, h2);
    }
  }

  lemma CrashedIsIdle(s: State, n: Name)
    ensures var s' := EnvStep(s, Crash(n));
      PcOf(s', n) == Idle && s'.up == s.up && s'.down == s.down && s'.vms == s.vms && s'.born == s.born
  {
  }

  lemma PassInv(s: State, n: Name, hint: Hint)
    requires Inv(s)
    ensures Inv(Pass(s, n, hint)) && PcOf(Pass(s, n, hint), n) == Idle
  {
    hide CallStep;
    CallInv(s, n, hint);
    FinishInv(CallStep(s, n, hint), n, hint);
  }

  lemma PassDoomed(s: State, n: Name, u: Uid, hint: Hint)
    requires Inv(s) && Doomed(s, u)
    ensures Doomed(Pass(s, n, hint), u)
  {
    hide CallStep, Doomed, Pending;
    CallInv(s, n, hint);
    CallKeepsProgress(s, n, hint, u);
    var calls := FinishIsRun(CallStep(s, n, hint), n, hint);
    ProgressIsKept(CallStep(s, n, hint), calls, u);
  }

  /** Crossplane's part, once the resource is marked. */
  lemma CrossplaneIsDone(told: State, u: Uid)
    requires DownInv(told, u) && (u in told.down ==> told.down[u].deleting)
    ensures var done := EnvStep(EnvStep(told, XpDeleteVm(u)), XpRelease(u));
      && u !in done.vms && (u in done.down ==> done.down[u].deleting && Crossplane !in done.down[u].fins)
      && done.up == told.up && done.pcs == told.pcs && done.born == told.born
  {
  }

  // ---------------------------------------------------------------- bringing up

  /** The instance created as `u` under `n` is wanted and no pass is working on it. */
  ghost predicate Wanted(s: State, n: Name, u: Uid) {
    Inv(s) && PcOf(s, n) == Idle && n in s.up && s.up[n].uid == u && !s.up[n].deleting
  }

  /** Its resource is there and holds the infra finalizer. */
  ghost predicate Provided(s: State, u: Uid) {
    u in s.down && Infra in s.down[u].fins
  }

  /** Nothing is done about an instance that is gone, has let go, or for which the pass finds that it is not its turn. */
  lemma NothingToDo(s: State, n: Name, hint: Hint)
    requires PcOf(s, n) == Idle && (n !in s.up || hint.bail || (s.up[n].deleting && Infra !in s.up[n].fins))
    ensures Pass(s, n, hint) == s
  {
  }

  /** A live resource that has lost the infra finalizer, against all rules, gets it back. */
  lemma FinalizerIsRestored(s: State, n: Name, hint: Hint)
    requires PcOf(s, n).ReadDown? && !hint.bail
    requires var u := PcOf(s, n).inst.uid; u in s.down && !s.down[u].deleting
    ensures var u := PcOf(s, n).inst.uid; u in Finish(s, n, hint).down && Infra in Finish(s, n, hint).down[u].fins
  {
    var u := PcOf(s, n).inst.uid;
    var s1 := CallStep(s, n, hint);
    assert Finish(s, n, hint) == Finish(s1, n, hint);
    if PcOf(s1, n).PatchDown? {
      var s2 := CallStep(s1, n, hint);
      assert Finish(s1, n, hint) == Finish(s2, n, hint);
      LateCallsKeepFinalizer(s2, n, hint, u);
    } else {
      LateCallsKeepFinalizer(s1, n, hint, u);
    }
  }

  lemma {:induction false} LateCallsKeepFinalizer(s: State, n: Name, hint: Hint, u: Uid)
    requires PcOf(s, n).RetryDown? || PcOf(s, n).PowerState? || PcOf(s, n).Publish?
    requires u in s.down && Infra in s.down[u].fins && PcOf(s, n).inst.uid == u
    requires PcOf(s, n).RetryDown? ==> PcOf(s, n).cr == s.down[u]
    ensures u in Finish(s, n, hint).down && Infra in Finish(s, n, hint).down[u].fins
    decreases CallsLeft(PcOf(s, n))
  {
    var s1 := CallStep(s, n, hint);
    CallProgresses(s, n, hint);
    assert u in s1.down && Infra in s1.down[u].fins;
    if PcOf(s1, n) != Idle {
      assert PcOf(s1, n).Publish?;
      var s2 := CallStep(s1, n, hint);
      assert Finish(s1, n, hint) == Finish(s2, n, hint) == s2 && s2.down == s1.down;
    }
  }

  /** The first pass puts the finalizer on the instance and does nothing else. */
  lemma AdoptingPass(s: State, n: Name, u: Uid, hint: Hint)
    requires Wanted(s, n, u) && Infra !in s.up[n].fins && !hint.bail
    ensures var s' := Pass(s, n, hint);
      Wanted(s', n, u) && Infra in s'.up[n].fins && s'.down == s.down
  {
    assert UpInv(s, n);
    var s1 := CallStep(s, n, hint);
    CallInv(s, n, hint);
    FinishInv(s1, n, hint);
    assert Finish(s1, n, hint) == CallStep(s1, n, hint);
  }

  /** Past the write of the resource, the pass leaves it there. */
  lemma {:induction false} FinishKeepsResource(s: State, n: Name, hint: Hint, u: Uid)
    requires PcOf(s, n).RetryDown? || PcOf(s, n).PowerState? || PcOf(s, n).Publish?
    requires PcOf(s, n).inst.uid == u && Provided(s, u) && PcInv(s, n) && Inv(s)
    ensures Provided(Finish(s, n, hint), u)
    decreases CallsLeft(PcOf(s, n))
  {
    var s' := CallStep(s, n, hint);
    CallProgresses(s, n, hint);
    CallInv(s, n, hint);
    assert Provided(s', u) by { CallKeepsResource(s, n, hint, u); }
    if PcOf(s', n) != Idle {
      FinishKeepsResource(s', n, hint, u);
    }
  }

  lemma CallKeepsResource(s: State, n: Name, hint: Hint, u: Uid)
    requires PcOf(s, n).RetryDown? || PcOf(s, n).PowerState? || PcOf(s, n).Publish?
    requires PcOf(s, n).inst.uid == u && Provided(s, u) && PcInv(s, n)
    ensures var s' := CallStep(s, n, hint);
      && Provided(s', u)
      && (PcOf(s', n) == Idle || (PcOf(s', n).Publish? && PcOf(s', n).inst.uid == u))
  {
  }

  /** The pass is past the write, and the resource is there. */
  ghost predicate Written(s: State, n: Name, u: Uid) {
    Provided(s, u) && (PcOf(s, n).RetryDown? || PcOf(s, n).PowerState?) && PcOf(s, n).inst.uid == u
  }

  /** Reading the resource undisturbed leads to a write of it, or past that when it is as it should be. */
  lemma ReadProvides(s: State, n: Name, hint: Hint, u: Uid)
    requires Wanted(s, n, u) && Infra in s.up[n].fins && !hint.bail
    ensures var s2 := CallStep(CallStep(s, n, hint), n, hint);
      Written(s2, n, u) || PcOf(s2, n).CreateDown? || PcOf(s2, n).PatchDown?
  {
    assert DownInv(s, u) && UpInv(s, n);
  }

  /** Writing the resource undisturbed succeeds. */
  lemma WriteProvides(s: State, n: Name, hint: Hint, u: Uid)
    requires Wanted(s, n, u) && Infra in s.up[n].fins && !hint.bail
    requires var s2 := CallStep(CallStep(s, n, hint), n, hint); PcOf(s2, n).CreateDown? || PcOf(s2, n).PatchDown?
    ensures Written(CallStep(CallStep(CallStep(s, n, hint), n, hint), n, hint), n, u)
  {
    assert DownInv(s, u) && UpInv(s, n);
    var s2 := CallStep(CallStep(s, n, hint), n, hint);
    assert s2.down == s.down && PcOf(s2, n).inst.uid == u;
  }

  /** `a` is `b` but for status and version. */
  predicate SameButStatus(a: Up, b: Up) {
    a.uid == b.uid && a.deleting == b.deleting && a.fins == b.fins
  }

  /** The pass for `n` works from the instance as it is. */
  ghost predicate UpToDate(s: State, n: Name) {
    PcOf(s, n).Creating() && n in s.up && s.up[n] == PcOf(s, n).inst
  }

  lemma CallPublishes(s: State, n: Name, hint: Hint)
    requires UpToDate(s, n)
    ensures var s' := CallStep(s, n, hint);
      && n in s'.up && SameButStatus(s'.up[n], s.up[n])
      && (PcOf(s', n) == Idle || UpToDate(s', n))
      && (s'.up[n].body == s.up[n].body || s'.up[n].body == NewStatus(hint, s.up[n].body))
      && (PcOf(s', n) == Idle ==> s'.up[n].body == NewStatus(hint, s.up[n].body))
  {
    hide Create, Patch, Update;
    match PcOf(s, n)
    case ReadDown(_) =>
    case CreateDown(_) =>
    case PatchDown(_, _) =>
    case RetryDown(_, _) =>
    case PowerState(_) =>
    case Publish(_) =>
  }

  /** Wherever a creating pass stands and whatever is missing to it, undisturbed it ends with the status written. */
  lemma {:induction false} StatusIsPublished(s: State, n: Name, hint: Hint)
    requires UpToDate(s, n)
    ensures var s' := Finish(s, n, hint);
      && n in s'.up && SameButStatus(s'.up[n], s.up[n]) && s'.up[n].body == NewStatus(hint, s.up[n].body)
    decreases CallsLeft(PcOf(s, n))
  {
    hide CallStep, CallsLeft;
    CallPublishes(s, n, hint);
    CallProgresses(s, n, hint);
    if PcOf(CallStep(s, n, hint), n) != Idle {
      StatusIsPublished(CallStep(s, n, hint), n, hint);
    }
  }

  /**
   The resource after a pass that brings it up: one that was there is as it was, under the
   infra finalizer, and is written only if it differs from what is wanted or is to be retried;
   one that was not is new. No other resource is touched.
  */
  ghost predicate BroughtUp(s: State, s': State, u: Uid, hint: Hint) {
    && (forall v | v != u :: Same(s.down, s'.down, v))
    && u in s'.down
    && s'.down[u] == (if u in s.down then s.down[u].(rv := s'.down[u].rv) else Obj(u, s'.down[u].rv, false, {Infra}, 0))
    && (if u !in s.down || hint.changed || hint.retry then s'.down[u].rv >= s.nextRv else s'.down == s.down)
  }

  /** How far the pass has got with its resource, seen from the state `s0` in which it started. */
  ghost predicate OnItsWay(s0: State, s: State, n: Name, u: Uid, hint: Hint) {
    var pc := PcOf(s, n);
    && (pc == Idle || (UpToDate(s, n) && pc.inst.uid == u)) && s.nextRv >= s0.nextRv
    && (u in s.down ==> s.down[u].rv < s.nextRv && Infra in s.down[u].fins)
    && (pc.ReadDown? ==> s.down == s0.down)
    && (pc.CreateDown? ==> s.down == s0.down && u !in s.down)
    && (pc.PatchDown? ==> s.down == s0.down && u in s.down && pc.cr == s.down[u] && hint.changed)
    && (pc.RetryDown? ==> hint.retry && BroughtUp(s0, s, u, hint.(retry := false)) && pc.cr == s.down[u])
    && (pc.PowerState? || pc.Publish? || pc == Idle ==> BroughtUp(s0, s, u, hint))
  }

  lemma CallBringsUp(s0: State, s: State, n: Name, u: Uid, hint: Hint)
    requires OnItsWay(s0, s, n, u, hint) && PcOf(s, n) != Idle && !hint.bail
    ensures OnItsWay(s0, CallStep(s, n, hint), n, u, hint)
  {
    CallPublishes(s, n, hint);
    if PcOf(s, n).ReadDown? {
      ReadBringsUp(s0, s, n, u, hint);
    } else if PcOf(s, n).CreateDown? || PcOf(s, n).PatchDown? {
      WriteBringsUp(s0, s, n, u, hint);
    } else {
      LateCallBringsUp(s0, s, n, u, hint);
    }
  }

  lemma ReadBringsUp(s0: State, s: State, n: Name, u: Uid, hint: Hint)
    requires OnItsWay(s0, s, n, u, hint) && PcOf(s, n).ReadDown? && !hint.bail && UpToDate(CallStep(s, n, hint), n)
    ensures OnItsWay(s0, CallStep(s, n, hint), n, u, hint)
  {
  }

  lemma WriteBringsUp(s0: State, s: State, n: Name, u: Uid, hint: Hint)
    requires OnItsWay(s0, s, n, u, hint) && (PcOf(s, n).CreateDown? || PcOf(s, n).PatchDown?)
    requires UpToDate(CallStep(s, n, hint), n)
    ensures OnItsWay(s0, CallStep(s, n, hint), n, u, hint)
  {
    if PcOf(s, n).PatchDown? {
      assert s.down[u].fins + {Infra} == s.down[u].fins;
    }
  }

  lemma LateCallBringsUp(s0: State, s: State, n: Name, u: Uid, hint: Hint)
    requires OnItsWay(s0, s, n, u, hint) && (PcOf(s, n).RetryDown? || PcOf(s, n).PowerState? || PcOf(s, n).Publish?)
    requires PcOf(CallStep(s, n, hint), n) == Idle || UpToDate(CallStep(s, n, hint), n)
    ensures OnItsWay(s0, CallStep(s, n, hint), n, u, hint)
  {
    var s' := CallStep(s, n, hint);
    if PcOf(s, n).RetryDown? {
      assert s'.down == s.down[u := s.down[u].(rv := s.nextRv)];
      forall v | v != u ensures Same(s0.down, s'.down, v) {
        assert Same(s0.down, s.down, v);
      }
    }
  }

  lemma {:induction false} FinishBringsUp(s0: State, s: State, n: Name, u: Uid, hint: Hint)
    requires OnItsWay(s0, s, n, u, hint) && !hint.bail
    ensures BroughtUp(s0, Finish(s, n, hint), u, hint)
    decreases CallsLeft(PcOf(s, n))
  {
    hide CallStep, BroughtUp, CallsLeft;
    if PcOf(s, n) != Idle {
      CallProgresses(s, n, hint);
      CallBringsUp(s0, s, n, u, hint);
      FinishBringsUp(s0, CallStep(s, n, hint), n, u, hint);
    }
  }

  lemma OnItsWayAtFirst(s: State, n: Name, u: Uid, hint: Hint)
    requires Wanted(s, n, u) && Infra in s.up[n].fins && !hint.bail
    ensures OnItsWay(s, CallStep(s, n, hint), n, u, hint)
  {
    assert DownInv(s, u) && UpInv(s, n);
  }

  /** A write of the resource that is refused is the pass's last: it goes on to the status alone. */
  lemma RefusedIsLast(s: State, n: Name, hint: Hint)
    requires var pc := PcOf(s, n);
      || (pc.CreateDown? && pc.inst.uid in s.down)
      || (pc.PatchDown? && pc.inst.uid !in s.down)
      || (pc.PatchDown? && s.down[pc.inst.uid].deleting && Infra !in pc.cr.fins
          && !(pc.cr.fins + {Infra} <= s.down[pc.inst.uid].fins))
    ensures Finish(s, n, hint).down == s.down
  {
    var s1 := CallStep(s, n, hint);
    assert PcOf(s1, n).Publish? && s1.down == s.down;
    var s2 := CallStep(s1, n, hint);
    assert PcOf(s2, n) == Idle && s2.down == s.down;
    assert Finish(s, n, hint) == Finish(s1, n, hint) == Finish(s2, n, hint) == s2;
  }

  /** The status written at the end of the pass stands, whatever was written before it. */
  lemma LastStatusStands(s: State, n: Name, h1: Hint, h2: Hint)
    requires PcOf(s, n).PowerState? && UpToDate(s, n)
    ensures var s2 := CallStep(CallStep(s, n, h1), n, h2);
      && PcOf(s2, n) == Idle && n in s2.up && SameButStatus(s2.up[n], s.up[n])
      && s2.up[n].body == NewStatus(h2, NewStatus(h1, s.up[n].body))
  {
  }

  /**
   With the finalizer on the instance, a pass makes sure of the resource: it creates it,
   patches it or finds it as it should be. Of the instance it changes only the status.
  */
  lemma CreatingPass(s: State, n: Name, u: Uid, hint: Hint)
    requires Wanted(s, n, u) && Infra in s.up[n].fins && !hint.bail
    ensures var s' := Pass(s, n, hint);
      && Provided(s', u) && BroughtUp(s, s', u, hint)
      && n in s'.up && SameButStatus(s'.up[n], s.up[n]) && s'.up[n].body == NewStatus(hint, s.up[n].body)
  {
    OnItsWayAtFirst(s, n, u, hint);
    FinishBringsUp(s, CallStep(s, n, hint), n, u, hint);
    StartsUpToDate(s, n, hint);
    StatusIsPublished(CallStep(s, n, hint), n, hint);
    hide CallStep, Provided, CallsLeft, BroughtUp;
    var s1 := CallStep(s, n, hint);
    var s2 := CallStep(s1, n, hint);
    var s3 := CallStep(s2, n, hint);
    CallInv(s, n, hint);
    CallInv(s1, n, hint);
    CallInv(s2, n, hint);
    ReadProvides(s, n, hint, u);
    StillBusy(s, n, hint);
    assert Finish(s1, n, hint) == Finish(s2, n, hint) == Finish(s3, n, hint);
    if Written(s2, n, u) {
      FinishKeepsResource(s2, n, hint, u);
    } else {
      WriteProvides(s, n, hint, u);
      FinishKeepsResource(s3, n, hint, u);
    }
  }

  lemma StartsUpToDate(s: State, n: Name, hint: Hint)
    requires PcOf(s, n) == Idle && n in s.up && !s.up[n].deleting && Infra in s.up[n].fins && !hint.bail
    ensures UpToDate(CallStep(s, n, hint), n) && CallStep(s, n, hint).up == s.up
  {
  }

  lemma StillBusy(s: State, n: Name, hint: Hint)
    requires PcOf(s, n) == Idle && n in s.up && !s.up[n].deleting && Infra in s.up[n].fins && !hint.bail
    ensures PcOf(CallStep(s, n, hint), n) != Idle && PcOf(CallStep(CallStep(s, n, hint), n, hint), n) != Idle
  {
  }

  /**
   From any reachable state, two undisturbed passes in which nothing else is missing bring
   up the resource of an instance that is not being deleted, under the infra finalizer.
  */
  lemma TwoPassesCreate(run: seq<Action>, n: Name, u: Uid, h1: Hint, h2: Hint)
    requires var s := Run(Init, run); n in s.up && s.up[n].uid == u && !s.up[n].deleting && Infra !in s.up[n].fins
    requires !h1.bail && !h2.bail
    ensures var s := EnvStep(Run(Init, run), Crash(n));
      Held(Pass(s, n, h1), u) && Provided(Pass(Pass(s, n, h1), n, h2), u)
  {
    RunInv(Init, run);
    var s := EnvStep(Run(Init, run), Crash(n));
    StepInv(Run(Init, run), Crash(n));
    AdoptingPass(s, n, u, h1);
    assert UpInv(Pass(s, n, h1), n);
    CreatingPass(Pass(s, n, h1), n, u, h2);
  }

  /**
   From nothing to a machine: an instance is created, two undisturbed passes bring up its
   resource, and Crossplane takes it over and creates the machine. So what is said of all
   reachable states is said of these too; and deleted then, the instance waits for its
   machine, which is where `DeletionCompletes` goes on.
  */
  lemma MachineComesUp(n: Name, h1: Hint, h2: Hint) returns (s: State)
    requires !h1.bail && !h2.bail
    ensures var created := EnvStep(Init, UserCreate(n, {}, 0));
      var passed := Pass(Pass(created, n, h1), n, h2);
      && s == EnvStep(EnvStep(passed, XpAdopt(0)), XpCreateVm(0))
      && Inv(s) && Held(s, 0) && 0 in s.vms && 0 in s.down && s.down[0].fins == {Infra, Crossplane}
    ensures var t := EnvStep(s, UserDelete(n)); n in t.up && t.up[n].uid == 0 && t.up[n].deleting && Held(t, 0) && 0 in t.vms
  {
    hide CallStep, Pass, BroughtUp, Finish;
    InitInv();
    var created := EnvStep(Init, UserCreate(n, {}, 0));
    StepInv(Init, UserCreate(n, {}, 0));
    assert Wanted(created, n, 0);
    AdoptingPass(created, n, 0, h1);
    var adopted := Pass(created, n, h1);
    PassInv(adopted, n, h2);
    CreatingPass(adopted, n, 0, h2);
    var passed := Pass(adopted, n, h2);
    assert passed.down[0] == Obj(0, passed.down[0].rv, false, {Infra}, 0) by { NewResource(adopted, passed, 0, h2); }
    StepInv(passed, XpAdopt(0));
    s := EnvStep(EnvStep(passed, XpAdopt(0)), XpCreateVm(0));
    StepInv(EnvStep(passed, XpAdopt(0)), XpCreateVm(0));
    assert DownInv(s, 0);
  }

  lemma NewResource(s: State, s': State, u: Uid, hint: Hint)
    requires BroughtUp(s, s', u, hint) && u !in s.down
    ensures u in s'.down && s'.down[u] == Obj(u, s'.down[u].rv, false, {Infra}, 0)
  {
  }
}
