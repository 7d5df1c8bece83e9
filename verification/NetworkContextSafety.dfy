/**
 What Programmed on a network context means, over every interleaving.
*/
module NetworkContextSafety {
  import opened Kube
  import opened NetworkContextMachine

  ghost predicate UpInv(s: State, n: Name) {
    n in s.up ==> s.up[n].uid in s.born && s.born[s.up[n].uid] == n && s.up[n].rv < s.nextRv
  }

  /** The copy a pass works from is outdated, or exact; and it was not programmed. */
  ghost predicate PcInv(s: State, n: Name) {
    var pc := PcOf(s, n);
    pc != Idle ==>
      && pc.ctx.uid in s.born && s.born[pc.ctx.uid] == n
      && pc.ctx.rv < s.nextRv
      && (n in s.up && s.up[n].rv == pc.ctx.rv ==> s.up[n] == pc.ctx)
      && !pc.ctx.body.programmed
  }

  /** What is being deleted and held by nobody is gone. */
  ghost predicate Settled(s: State) {
    forall u | u in s.down && s.down[u].deleting :: s.down[u].fins != {}
  }

  ghost predicate Inv(s: State) {
    && (forall u :: u in s.born ==> u < s.nextUid)
    && Settled(s)
    && (forall n :: UpInv(s, n))
    && (forall n :: PcInv(s, n))
  }

  /** A step that leaves the contexts alone and moves at most the pass for `n`. */
  lemma DownstreamInv(s: State, s': State, n: Name)
    requires Inv(s) && s'.up == s.up && s'.born == s.born && s'.nextUid >= s.nextUid && s'.nextRv >= s.nextRv
    requires forall m | m != n :: PcOf(s', m) == PcOf(s, m)
    requires PcInv(s', n) && Settled(s')
    ensures Inv(s')
  {
    hide Settled;
    forall m ensures UpInv(s', m) && PcInv(s', m) {
      assert UpInv(s, m) && PcInv(s, m);
    }
  }

  lemma CallSettled(s: State, n: Name, hint: Hint)
    requires Settled(s)
    ensures Settled(CallStep(s, n, hint))
  {
  }

  lemma EnvSettled(s: State, a: Action)
    requires Settled(s) && !a.Call?
    ensures Settled(EnvStep(s, a))
  {
  }

  lemma CallInv(s: State, n: Name, hint: Hint)
    requires Inv(s)
    ensures Inv(CallStep(s, n, hint))
  {
    hide Create, Patch, UpdateStatus, Settled;
    CallSettled(s, n, hint);
    assert UpInv(s, n) && PcInv(s, n);
    if PcOf(s, n).Publish? {
      PublishInv(s, n, hint);
    } else {
      DownstreamInv(s, CallStep(s, n, hint), n);
    }
  }

  lemma PublishInv(s: State, n: Name, hint: Hint)
    requires Inv(s) && PcOf(s, n).Publish?
    ensures Inv(CallStep(s, n, hint))
  {
    var s' := CallStep(s, n, hint);
    forall m ensures UpInv(s', m) && PcInv(s', m) {
      assert UpInv(s, m) && PcInv(s, m);
    }
  }

  lemma EnvInv(s: State, a: Action)
    requires Inv(s) && !a.Call?
    ensures Inv(EnvStep(s, a))
  {
    hide Inv;
    if a.UserCreate? || a.UserDelete? || a.UserWrite? {
      UserInv(s, a);
    } else {
      hide Delete, Settle, Settled;
      assert Settled(s) by { ReachableSettled(s); }
      EnvSettled(s, a);
      var n := if a.Crash? then a.n else "";
      assert PcInv(s, n) by { PassInv(s, n); }
      DownstreamInv(s, EnvStep(s, a), n);
    }
  }

  lemma ReachableSettled(s: State)
    requires Inv(s)
    ensures Settled(s)
  {
  }

  lemma PassInv(s: State, n: Name)
    requires Inv(s)
    ensures PcInv(s, n)
  {
  }

  lemma UserInv(s: State, a: Action)
    requires Inv(s) && (a.UserCreate? || a.UserDelete? || a.UserWrite?)
    ensures Inv(EnvStep(s, a))
  {
    var s' := EnvStep(s, a);
    forall m ensures UpInv(s', m) && PcInv(s', m) {
      assert UpInv(s, m) && PcInv(s, m);
    }
  }

  lemma {:induction false} RunInv(s: State, run: seq<Action>)
    requires Inv(s)
    ensures Inv(Run(s, run))
    decreases |run|
  {
    hide Inv, CallStep, EnvStep;
    if run != [] {
      var (front, a) := (run[..|run| - 1], run[|run| - 1]);
      RunInv(s, front);
      if a.Call? {
        CallInv(Run(s, front), a.n, a.hint);
      } else {
        EnvInv(Run(s, front), a);
      }
    }
  }

  lemma InitInv()
    ensures Inv(Init)
  {
  }

  // ---------------------------------------------------------------- Programmed

  ghost predicate Programmed(s: State, n: Name, u: Uid) {
    n in s.up && s.up[n].uid == u && s.up[n].body.programmed
  }

  /** The pass for the context `u` is about to publish that the network `net` is in place. */
  ghost predicate Announcing(s: State, n: Name, u: Uid, net: Uid) {
    var pc := PcOf(s, n);
    pc.Publish? && pc.programmed && pc.ctx.uid == u && pc.net == net
  }

  /** The pass for the context `u` works on the resource of the network `net`. */
  ghost predicate WorksOn(s: State, n: Name, u: Uid, net: Uid) {
    var pc := PcOf(s, n);
    !pc.Idle? && !pc.ReadNetwork? && pc.ctx.uid == u && pc.net == net
  }

  /** In `s`, the action is the pass for `u` seeing the network's resource Ready, without a reconcile error. */
  ghost predicate SeesGood(s: State, a: Action, n: Name, u: Uid, net: Uid) {
    && a.Call? && a.n == n
    && (PcOf(s, n).ReadDown? || PcOf(s, n).PatchDown?) && WorksOn(s, n, u, net)
    && net in s.down && Good(s.down[net].body)
  }

  /** In `s`, the action is the pass for `u` reading its network upstream and finding the UID `net`. */
  ghost predicate FindsNetwork(s: State, a: Action, n: Name, u: Uid, net: Uid) {
    && a.Call? && a.n == n
    && PcOf(s, n).ReadNetwork? && PcOf(s, n).ctx.uid == u
    && PcOf(s, n).ctx.body.network in s.networks && s.networks[PcOf(s, n).ctx.body.network] == net
  }

  /** The pass for `u` has the network `net` in hand. */
  ghost predicate Bound(s: State, n: Name, u: Uid, net: Uid) {
    (PcOf(s, n).ReadDown? || PcOf(s, n).PatchDown? || PcOf(s, n).CreateDown?) && WorksOn(s, n, u, net)
  }

  ghost predicate StaysProgrammed(s: State, n: Name, u: Uid) {
    u in s.born && s.born[u] == n && (n in s.up && s.up[n].uid == u ==> s.up[n].body.programmed)
  }

  /** A call of another context's pass. */
  lemma CallElsewhere(s: State, m: Name, hint: Hint, n: Name)
    requires m != n
    ensures var s' := CallStep(s, m, hint);
      PcOf(s', n) == PcOf(s, n) && s'.born == s.born && (n in s'.up <==> n in s.up) && (n in s.up ==> s'.up[n] == s.up[n])
  {
    hide Create, Patch, Good;
    match PcOf(s, m)
    case Idle =>
    case ReadNetwork(_) =>
    case ReadDown(_, _) =>
    case CreateDown(_, _) =>
    case PatchDown(_, _) =>
    case Publish(_, _, _) =>
  }

  lemma ReadProgrammed(s: State, n: Name, hint: Hint, u: Uid, net: Uid)
    requires !PcOf(s, n).Publish?
    ensures var s' := CallStep(s, n, hint);
      && (Announcing(s', n, u, net) ==> SeesGood(s, Call(n, hint), n, u, net))
      && (Bound(s', n, u, net) ==> Bound(s, n, u, net) || FindsNetwork(s, Call(n, hint), n, u, net))
      && s'.up == s.up && s'.born == s.born
  {
    hide Create, Good;
  }

  lemma PublishProgrammed(s: State, n: Name, hint: Hint, u: Uid, net: Uid)
    requires PcOf(s, n).Publish? && PcInv(s, n) && UpInv(s, n)
    ensures var s' := CallStep(s, n, hint);
      && !Announcing(s', n, u, net) && !Bound(s', n, u, net)
      && (Programmed(s', n, u) ==> Programmed(s, n, u) || Announcing(s, n, u, PcOf(s, n).net))
      && (StaysProgrammed(s, n, u) ==> StaysProgrammed(s', n, u))
  {
  }

  lemma CallProgrammed(s: State, m: Name, hint: Hint, n: Name, u: Uid, net: Uid)
    requires PcInv(s, m) && UpInv(s, m)
    ensures var s' := CallStep(s, m, hint);
      && (Announcing(s', n, u, net) ==> Announcing(s, n, u, net) || SeesGood(s, Call(m, hint), n, u, net))
      && (Programmed(s', n, u) ==> Programmed(s, n, u) || (m == n && exists k :: Announcing(s, n, u, k)))
      && (Bound(s', n, u, net) ==> Bound(s, n, u, net) || FindsNetwork(s, Call(m, hint), n, u, net))
      && (StaysProgrammed(s, n, u) ==> StaysProgrammed(s', n, u))
  {
    hide CallStep, Good;
    if m != n {
      CallElsewhere(s, m, hint, n);
    } else if PcOf(s, n).Publish? {
      PublishProgrammed(s, n, hint, u, net);
    } else {
      ReadProgrammed(s, n, hint, u, net);
    }
  }

  lemma EnvProgrammed(s: State, a: Action, n: Name, u: Uid, net: Uid)
    requires Inv(s) && !a.Call?
    ensures var s' := EnvStep(s, a);
      && (Announcing(s', n, u, net) ==> Announcing(s, n, u, net))
      && (Programmed(s', n, u) ==> Programmed(s, n, u))
      && (Bound(s', n, u, net) ==> Bound(s, n, u, net))
      && (StaysProgrammed(s, n, u) ==> StaysProgrammed(s', n, u))
  {
    hide Announcing, Bound, StaysProgrammed, Programmed, EnvStep;
    if a.UserCreate? || a.UserDelete? || a.UserWrite? {
      assert UpInv(s, n);
      UserProgrammed(s, a, n, u);
    } else {
      OthersProgrammed(s, a, n, u, net);
    }
    SamePass(s, a, n, u, net);
  }

  lemma UserProgrammed(s: State, a: Action, n: Name, u: Uid)
    requires UpInv(s, n) && (forall v :: v in s.born ==> v < s.nextUid) && (a.UserCreate? || a.UserDelete? || a.UserWrite?)
    ensures var s' := EnvStep(s, a);
      && (Programmed(s', n, u) ==> Programmed(s, n, u))
      && (StaysProgrammed(s, n, u) ==> StaysProgrammed(s', n, u))
  {
  }

  lemma OthersProgrammed(s: State, a: Action, n: Name, u: Uid, net: Uid)
    requires !a.Call? && !a.UserCreate? && !a.UserDelete? && !a.UserWrite?
    ensures var s' := EnvStep(s, a);
      && (Programmed(s', n, u) ==> Programmed(s, n, u))
      && (StaysProgrammed(s, n, u) ==> StaysProgrammed(s', n, u))
  {
    hide Delete, Settle;
    assert EnvStep(s, a).up == s.up && EnvStep(s, a).born == s.born;
  }

  lemma SamePass(s: State, a: Action, n: Name, u: Uid, net: Uid)
    requires !a.Call?
    ensures var s' := EnvStep(s, a);
      (Announcing(s', n, u, net) ==> Announcing(s, n, u, net)) && (Bound(s', n, u, net) ==> Bound(s, n, u, net))
  {
    hide Delete, Settle, Touch;
  }

  lemma StepProgrammed(s: State, a: Action, n: Name, u: Uid, net: Uid)
    requires Inv(s)
    ensures Announcing(Step(s, a), n, u, net) ==> Announcing(s, n, u, net) || SeesGood(s, a, n, u, net)
    ensures Programmed(Step(s, a), n, u) ==>
      Programmed(s, n, u) || (a.Call? && a.n == n && exists k :: Announcing(s, n, u, k))
    ensures Bound(Step(s, a), n, u, net) ==> Bound(s, n, u, net) || FindsNetwork(s, a, n, u, net)
    ensures StaysProgrammed(s, n, u) ==> StaysProgrammed(Step(s, a), n, u)
  {
    if a.Call? {
      assert PcInv(s, a.n) && UpInv(s, a.n);
      CallProgrammed(s, a.n, a.hint, n, u, net);
    } else {
      EnvProgrammed(s, a, n, u, net);
    }
  }

  /** From the state after `j` actions up to the one after `k`, the pass has the network in hand. */
  ghost predicate BoundFrom(run: seq<Action>, j: nat, k: nat, n: Name, u: Uid, net: Uid) {
    forall i | j < i <= k <= |run| :: Bound(Run(Init, run[..i]), n, u, net)
  }

  /** From the state after `k` actions up to the one after `p`, the pass is about to publish. */
  ghost predicate AnnouncingFrom(run: seq<Action>, k: nat, p: nat, n: Name, u: Uid, net: Uid) {
    forall i | k < i <= p <= |run| :: Announcing(Run(Init, run[..i]), n, u, net)
  }

  lemma Longer(run: seq<Action>, last: nat, j: nat, k: nat, n: Name, u: Uid, net: Uid)
    requires k <= last <= |run|
    ensures BoundFrom(run[..last], j, k, n, u, net) ==> BoundFrom(run, j, k, n, u, net)
    ensures AnnouncingFrom(run[..last], j, k, n, u, net) ==> AnnouncingFrom(run, j, k, n, u, net)
  {
    hide Announcing, Bound, Run;
    assert forall i | j < i <= k :: run[..last][..i] == run[..i];
  }

  /** A network in hand was read upstream by the pass that has it in hand. */
  lemma {:induction false} BoundWasFound(run: seq<Action>, n: Name, u: Uid, net: Uid) returns (j: nat)
    requires Bound(Run(Init, run), n, u, net)
    ensures j < |run| && FindsNetwork(Run(Init, run[..j]), run[j], n, u, net) && BoundFrom(run, j, |run|, n, u, net)
    decreases |run|
  {
    hide Step, Bound, FindsNetwork, Announcing, SeesGood, StaysProgrammed, Programmed, Inv;
    assert run != [] by { InitIdle(n, u, net); }
    var last := |run| - 1;
    var s := Run(Init, run[..last]);
    InitInv();
    RunInv(Init, run[..last]);
    StepProgrammed(s, run[last], n, u, net);
    assert run[..|run|] == run;
    if FindsNetwork(s, run[last], n, u, net) {
      j := last;
    } else {
      j := BoundWasFound(run[..last], n, u, net);
      assert run[..last][..j] == run[..j];
      Longer(run, last, j, last, n, u, net);
    }
  }

  lemma InitIdle(n: Name, u: Uid, net: Uid)
    ensures !Bound(Init, n, u, net) && !Announcing(Init, n, u, net) && !Programmed(Init, n, u)
  {
  }

  /** What is announced was seen by the pass that announces it. */
  lemma {:induction false} AnnouncedWasSeen(run: seq<Action>, n: Name, u: Uid, net: Uid) returns (k: nat)
    requires Announcing(Run(Init, run), n, u, net)
    ensures k < |run| && SeesGood(Run(Init, run[..k]), run[k], n, u, net) && AnnouncingFrom(run, k, |run|, n, u, net)
    decreases |run|
  {
    hide Step, Bound, FindsNetwork, Announcing, SeesGood, StaysProgrammed, Programmed, Inv;
    assert run != [] by { InitIdle(n, u, net); }
    var last := |run| - 1;
    var s := Run(Init, run[..last]);
    InitInv();
    RunInv(Init, run[..last]);
    StepProgrammed(s, run[last], n, u, net);
    assert run[..|run|] == run;
    if SeesGood(s, run[last], n, u, net) {
      k := last;
    } else {
      k := AnnouncedWasSeen(run[..last], n, u, net);
      assert run[..last][..k] == run[..k];
      Longer(run, last, k, last, n, u, net);
    }
  }

  /**
   A context that is Programmed became so by the call number `p` of one pass, which read its
   network upstream in its call number `j`, had that network in hand from then on, saw the
   resource named after that very network Ready and without a reconcile error in its call
   number `k`, and was about to publish this from then on.
  */
  lemma {:induction false} ProgrammedWasGood(run: seq<Action>, n: Name, u: Uid) returns (j: nat, k: nat, p: nat, net: Uid)
    requires Programmed(Run(Init, run), n, u)
    ensures j < k < p < |run|
    ensures FindsNetwork(Run(Init, run[..j]), run[j], n, u, net) && BoundFrom(run, j, k, n, u, net)
    ensures SeesGood(Run(Init, run[..k]), run[k], n, u, net) && AnnouncingFrom(run, k, p, n, u, net)
    ensures run[p].Call? && run[p].n == n
    ensures !Programmed(Run(Init, run[..p]), n, u) && Programmed(Run(Init, run[..p + 1]), n, u)
    decreases |run|
  {
    hide Step, Bound, FindsNetwork, Announcing, SeesGood, StaysProgrammed, Programmed, Inv, BoundFrom, AnnouncingFrom;
    assert run != [] by { InitIdle(n, u, 0); }
    var last := |run| - 1;
    var s := Run(Init, run[..last]);
    InitInv();
    RunInv(Init, run[..last]);
    StepProgrammed(s, run[last], n, u, 0);
    if Programmed(s, n, u) {
      j, k, p, net := ProgrammedWasGood(run[..last], n, u);
      assert run[..last][..j] == run[..j] && run[..last][..k] == run[..k];
      assert run[..last][..p] == run[..p] && run[..last][..p + 1] == run[..p + 1];
      Longer(run, last, j, k, n, u, net);
    } else {
      p := last;
      net :| Announcing(s, n, u, net);
      k := AnnouncedWasSeen(run[..last], n, u, net);
      assert run[..last][..k] == run[..k] && run[..p + 1] == run;
      SeenIsBound(Run(Init, run[..k]), run[k], n, u, net);
      j := BoundWasFound(run[..k], n, u, net);
      assert run[..k][..j] == run[..j];
      Longer(run, k, j, k, n, u, net);
    }
    Longer(run, last, k, p, n, u, net);
  }

  lemma SeenIsBound(s: State, a: Action, n: Name, u: Uid, net: Uid)
    requires SeesGood(s, a, n, u, net)
    ensures Bound(s, n, u, net)
  {
  }

  /** Once Programmed, a context stays so for as long as it exists, whatever becomes of the network. */
  lemma {:induction false} ProgrammedIsSticky(run: seq<Action>, k: nat, n: Name, u: Uid)
    requires k <= |run| && Programmed(Run(Init, run[..k]), n, u)
    ensures StaysProgrammed(Run(Init, run), n, u)
    decreases |run|
  {
    hide Step, Bound, FindsNetwork, Announcing, SeesGood;
    InitInv();
    RunInv(Init, run[..k]);
    assert UpInv(Run(Init, run[..k]), n);
    if k == |run| {
      assert run[..k] == run;
    } else {
      var last := |run| - 1;
      assert run[..last][..k] == run[..k];
      ProgrammedIsSticky(run[..last], k, n, u);
      InitInv();
      RunInv(Init, run[..last]);
      StepProgrammed(Run(Init, run[..last]), run[last], n, u, 0);
    }
  }
}
