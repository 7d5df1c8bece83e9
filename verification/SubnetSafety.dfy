/**
 The lifecycle of a subnet and the meaning of its Programmed condition, over every
 interleaving.
*/
module SubnetSafety {
  import opened Kube
  import opened SubnetMachine

  /** The subnet created as `u` is still there and holds the infra finalizer. */
  ghost predicate Held(s: State, u: Uid) {
    && u in s.born
    && s.born[u] in s.up
    && s.up[s.born[u]].uid == u
    && Infra in s.up[s.born[u]].fins
  }

  ghost predicate DownInv(s: State, u: Uid) {
    u in s.down ==> u in s.born && (!s.down[u].deleting ==> Held(s, u))
  }

  ghost predicate UpInv(s: State, n: Name) {
    n in s.up ==> s.up[n].uid in s.born && s.born[s.up[n].uid] == n && s.up[n].rv < s.nextRv
  }

  ghost predicate Copy(s: State, n: Name, sub: Subnet) {
    && sub.uid in s.born && s.born[sub.uid] == n
    && sub.rv < s.nextRv
    && (n in s.up && s.up[n].rv == sub.rv ==> s.up[n] == sub)
  }

  ghost predicate PcInv(s: State, n: Name) {
    var pc := PcOf(s, n);
    && (pc != Idle ==> Copy(s, n, pc.sub))
    && (pc != Idle && !pc.AddFinalizer? ==> Held(s, pc.sub.uid))
    && (pc.FinDelete? || pc.FinRelease? ==> s.up[n].deleting)
    && (pc.FinRelease? && pc.sub.uid in s.down ==> s.down[pc.sub.uid].deleting)
    && (pc.ReadDown? || pc.CreateDown? || pc.Publish? ==> !pc.sub.body.programmed)
    && (pc.ReadDown? || pc.CreateDown? || (pc.Publish? && pc.programmed) ==> pc.sub.body.hasPrefix)
  }

  ghost predicate Inv(s: State) {
    && (forall u :: u in s.born ==> u < s.nextUid)
    && (forall u :: DownInv(s, u))
    && (forall n :: UpInv(s, n))
    && (forall n :: PcInv(s, n))
  }

  /** Moving a pass on without writing anything. */
  lemma GotoInv(s: State, n: Name, pc: Pc)
    requires Inv(s) && PcInv(Goto(s, n, pc), n)
    ensures Inv(Goto(s, n, pc))
  {
    var s' := Goto(s, n, pc);
    forall u ensures DownInv(s', u) {
      assert DownInv(s, u);
    }
    forall m ensures UpInv(s', m) && PcInv(s', m) {
      assert UpInv(s, m) && (m != n ==> PcInv(s, m));
    }
  }

  /** Starting a pass, or reading the downstream resource. */
  lemma ReadCallInv(s: State, n: Name, bail: bool)
    requires Inv(s) && (PcOf(s, n).Idle? || PcOf(s, n).ReadDown?)
    ensures Inv(CallStep(s, n, bail))
  {
    var s' := CallStep(s, n, bail);
    assert UpInv(s, n) && PcInv(s, n);
    if s' != s {
      GotoInv(s, n, PcOf(s', n));
    }
  }

  /** Writing the subnet. */
  lemma UpstreamCallInv(s: State, n: Name, bail: bool)
    requires Inv(s) && (PcOf(s, n).AddFinalizer? || PcOf(s, n).FinRelease? || PcOf(s, n).Publish?)
    ensures Inv(CallStep(s, n, bail))
  {
    var s' := CallStep(s, n, bail);
    assert UpInv(s, n) && PcInv(s, n);
    forall u ensures DownInv(s', u) {
      assert DownInv(s, u);
    }
    forall m ensures UpInv(s', m) {
      assert UpInv(s, m);
    }
    forall m ensures PcInv(s', m) {
      assert PcInv(s, m);
    }
  }

  /** Creating or deleting the downstream resource. */
  lemma DownstreamCallInv(s: State, n: Name, bail: bool)
    requires Inv(s) && (PcOf(s, n).CreateDown? || PcOf(s, n).FinDelete?)
    ensures Inv(CallStep(s, n, bail))
  {
    var s' := CallStep(s, n, bail);
    assert UpInv(s, n) && PcInv(s, n);
    forall u ensures DownInv(s', u) {
      assert DownInv(s, u);
    }
    forall m ensures UpInv(s', m) {
      assert UpInv(s, m);
    }
    forall m ensures PcInv(s', m) {
      assert PcInv(s, m);
    }
  }

  lemma UserInv(s: State, a: Action)
    requires Inv(s) && (a.Crash? || a.UserCreate? || a.UserDelete?)
    ensures Inv(EnvStep(s, a))
  {
    var s' := EnvStep(s, a);
    forall u ensures DownInv(s', u) {
      assert DownInv(s, u);
    }
    forall m ensures UpInv(s', m) {
      assert UpInv(s, m);
    }
    forall m ensures PcInv(s', m) {
      assert PcInv(s, m);
    }
  }

  lemma UserWriteInv(s: State, a: Action)
    requires Inv(s) && a.UserWrite?
    ensures Inv(EnvStep(s, a))
  {
    var s' := EnvStep(s, a);
    forall u ensures DownInv(s', u) {
      assert DownInv(s, u);
    }
    forall m ensures UpInv(s', m) {
      assert UpInv(s, m);
    }
    forall m ensures PcInv(s', m) {
      assert PcInv(s, m);
    }
  }

  lemma DownstreamInv(s: State, a: Action)
    requires Inv(s) && (a.DownDelete? || a.DownWrite?)
    ensures Inv(EnvStep(s, a))
  {
    var s' := EnvStep(s, a);
    forall u ensures DownInv(s', u) {
      assert DownInv(s, u);
    }
    forall m ensures UpInv(s', m) {
      assert UpInv(s, m);
    }
    forall m ensures PcInv(s', m) {
      assert PcInv(s, m);
    }
  }

  lemma EnvInv(s: State, a: Action)
    requires Inv(s) && !a.Call?
    ensures Inv(EnvStep(s, a))
  {
    hide Inv, EnvStep;
    match a
    case Crash(_) | UserCreate(_, _, _) | UserDelete(_) => UserInv(s, a);
    case UserWrite(_, _, _) => UserWriteInv(s, a);
    case DownDelete(_) | DownWrite(_, _, _) => DownstreamInv(s, a);
  }

  lemma StepInv(s: State, a: Action)
    requires Inv(s)
    ensures Inv(Step(s, a))
  {
    if !a.Call? {
      EnvInv(s, a);
    } else if PcOf(s, a.n).Idle? || PcOf(s, a.n).ReadDown? {
      ReadCallInv(s, a.n, a.bail);
    } else if PcOf(s, a.n).CreateDown? || PcOf(s, a.n).FinDelete? {
      DownstreamCallInv(s, a.n, a.bail);
    } else {
      UpstreamCallInv(s, a.n, a.bail);
    }
  }

  lemma {:induction false} RunInv(s: State, run: seq<Action>)
    requires Inv(s)
    ensures Inv(Run(s, run))
    decreases |run|
  {
    hide Inv, Step;
    if run != [] {
      RunInv(s, run[..|run| - 1]);
      StepInv(Run(s, run[..|run| - 1]), run[|run| - 1]);
    }
  }

  /** In every reachable state, a downstream resource that is not being deleted has a subnet that holds it. */
  lemma LiveResourceIsHeld(run: seq<Action>, u: Uid)
    requires u in Run(Init, run).down && !Run(Init, run).down[u].deleting
    ensures Held(Run(Init, run), u)
  {
    RunInv(Init, run);
    assert DownInv(Run(Init, run), u);
  }

  // ---------------------------------------------------------------- Programmed

  /** The subnet created as `u` is there and Programmed. */
  ghost predicate Programmed(s: State, n: Name, u: Uid) {
    n in s.up && s.up[n].uid == u && s.up[n].body.programmed
  }

  /** In `s`, the action is a pass seeing the resource named after `u` Ready, for a subnet with a prefix. */
  ghost predicate SeesReady(s: State, a: Action, n: Name, u: Uid) {
    && a == Call(n, false)
    && PcOf(s, n).ReadDown? && PcOf(s, n).sub.uid == u && PcOf(s, n).sub.body.hasPrefix
    && u in s.down && s.down[u].body
  }

  /** The pass for `n` is about to publish that the subnet `u` is Programmed. */
  ghost predicate Announcing(s: State, n: Name, u: Uid) {
    PcOf(s, n).Publish? && PcOf(s, n).programmed && PcOf(s, n).sub.uid == u
  }

  /** `u` was created under `n`, and while that subnet is there it is Programmed. */
  ghost predicate StaysProgrammed(s: State, n: Name, u: Uid) {
    u in s.born && s.born[u] == n && (n in s.up && s.up[n].uid == u ==> s.up[n].body.programmed)
  }

  lemma CallProgrammed(s: State, m: Name, bail: bool, n: Name, u: Uid)
    requires PcInv(s, m) && UpInv(s, m) && UpInv(s, n)
    ensures var s' := CallStep(s, m, bail);
      && (Announcing(s', n, u) ==> Announcing(s, n, u) || SeesReady(s, Call(m, bail), n, u))
      && (Programmed(s', n, u) ==> Programmed(s, n, u) || (m == n && Announcing(s, n, u)))
      && (StaysProgrammed(s, n, u) ==> StaysProgrammed(s', n, u))
  {
  }

  lemma EnvProgrammed(s: State, a: Action, n: Name, u: Uid)
    requires Inv(s) && !a.Call?
    ensures var s' := EnvStep(s, a);
      && (Announcing(s', n, u) ==> Announcing(s, n, u))
      && (Programmed(s', n, u) ==> Programmed(s, n, u))
      && (StaysProgrammed(s, n, u) ==> StaysProgrammed(s', n, u))
  {
  }

  lemma StepProgrammed(s: State, a: Action, n: Name, u: Uid)
    requires Inv(s)
    ensures Announcing(Step(s, a), n, u) ==> Announcing(s, n, u) || SeesReady(s, a, n, u)
    ensures Programmed(Step(s, a), n, u) ==> Programmed(s, n, u) || (a.Call? && a.n == n && Announcing(s, n, u))
    ensures StaysProgrammed(s, n, u) ==> StaysProgrammed(Step(s, a), n, u)
  {
    if a.Call? {
      assert PcInv(s, a.n) && UpInv(s, a.n) && UpInv(s, n);
      CallProgrammed(s, a.n, a.bail, n, u);
    } else {
      EnvProgrammed(s, a, n, u);
    }
  }

  /** From the state after `k` actions up to the one after `p`, the pass is about to publish. */
  ghost predicate AnnouncingFrom(run: seq<Action>, k: nat, p: nat, n: Name, u: Uid) {
    forall i | k < i <= p <= |run| :: Announcing(Run(Init, run[..i]), n, u)
  }

  lemma LongerAnnouncing(run: seq<Action>, last: nat, k: nat, p: nat, n: Name, u: Uid)
    requires last <= |run| && p <= last && AnnouncingFrom(run[..last], k, p, n, u)
    ensures AnnouncingFrom(run, k, p, n, u)
  {
    hide Announcing, Run;
    forall i | k < i <= p ensures Announcing(Run(Init, run[..i]), n, u) {
      assert run[..last][..i] == run[..i];
    }
  }

  /** A pass that is about to publish has seen the resource Ready and has been about to publish ever since. */
  lemma {:induction false} AnnouncedWasReady(run: seq<Action>, n: Name, u: Uid) returns (k: nat)
    requires Announcing(Run(Init, run), n, u)
    ensures k < |run| && SeesReady(Run(Init, run[..k]), run[k], n, u) && AnnouncingFrom(run, k, |run|, n, u)
    decreases |run|
  {
    hide Step, Announcing, SeesReady, Inv;
    assert run != [] by { InitQuiet(n, u); }
    var last := |run| - 1;
    var s := Run(Init, run[..last]);
    assert Inv(Init) by { InitInv(); }
    RunInv(Init, run[..last]);
    StepProgrammed(s, run[last], n, u);
    assert run[..|run|] == run;
    if SeesReady(s, run[last], n, u) {
      k := last;
    } else {
      k := AnnouncedWasReady(run[..last], n, u);
      assert run[..last][..k] == run[..k];
      LongerAnnouncing(run, last, k, last, n, u);
    }
  }

  lemma InitQuiet(n: Name, u: Uid)
    ensures !Announcing(Init, n, u) && !Programmed(Init, n, u)
  {
  }

  lemma InitInv()
    ensures Inv(Init)
  {
  }

  /**
   A subnet that is Programmed became so by the call number `p` of one pass, which saw the
   subnet's own resource Ready in its call number `k`, while the subnet had a prefix, and
   was about to publish this from then on.
  */
  lemma {:induction false} ProgrammedWasReady(run: seq<Action>, n: Name, u: Uid) returns (k: nat, p: nat)
    requires Programmed(Run(Init, run), n, u)
    ensures k < p < |run| && SeesReady(Run(Init, run[..k]), run[k], n, u) && AnnouncingFrom(run, k, p, n, u)
    ensures run[p].Call? && run[p].n == n
    ensures !Programmed(Run(Init, run[..p]), n, u) && Programmed(Run(Init, run[..p + 1]), n, u)
    decreases |run|
  {
    hide Step, Announcing, SeesReady, Programmed, Inv;
    assert run != [] by { InitQuiet(n, u); }
    var last := |run| - 1;
    var s := Run(Init, run[..last]);
    assert Inv(Init) by { InitInv(); }
    RunInv(Init, run[..last]);
    StepProgrammed(s, run[last], n, u);
    if Programmed(s, n, u) {
      k, p := ProgrammedWasReady(run[..last], n, u);
      assert run[..last][..k] == run[..k] && run[..last][..p] == run[..p] && run[..last][..p + 1] == run[..p + 1];
    } else {
      p := last;
      k := AnnouncedWasReady(run[..last], n, u);
      assert run[..last][..k] == run[..k] && run[..p + 1] == run;
    }
    LongerAnnouncing(run, last, k, p, n, u);
  }

  /** Once Programmed, a subnet stays so for as long as it exists. */
  lemma {:induction false} ProgrammedIsSticky(run: seq<Action>, k: nat, n: Name, u: Uid)
    requires k <= |run| && Programmed(Run(Init, run[..k]), n, u)
    ensures StaysProgrammed(Run(Init, run), n, u)
    decreases |run|
  {
    hide Step, Announcing, SeesReady;
    if k == |run| {
      assert run[..k] == run;
      RunInv(Init, run);
      assert UpInv(Run(Init, run), n);
    } else {
      var last := |run| - 1;
      assert run[..last][..k] == run[..k];
      ProgrammedIsSticky(run[..last], k, n, u);
      RunInv(Init, run[..last]);
      StepProgrammed(Run(Init, run[..last]), run[last], n, u);
    }
  }
}
