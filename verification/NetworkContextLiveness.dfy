/**
 What a single undisturbed pass of the network context controller achieves.
*/
module NetworkContextLiveness {
  import opened Kube
  import opened NetworkContextMachine
  import opened NetworkContextSafety

  /** An upper bound on the calls left in a pass. */
  function CallsLeft(pc: Pc): nat {
    match pc
    case Idle => 0
    case Publish(_, _, _) => 1
    case CreateDown(_, _) | PatchDown(_, _) => 2
    case ReadDown(_, _) => 3
    case ReadNetwork(_) => 4
  }

  lemma CallProgresses(s: State, n: Name, hint: Hint)
    requires PcOf(s, n) != Idle
    ensures CallsLeft(PcOf(CallStep(s, n, hint), n)) < CallsLeft(PcOf(s, n))
  {
  }

  /** The rest of the pass in flight for `n`, undisturbed. */
  function Finish(s: State, n: Name, hint: Hint): State
    decreases CallsLeft(PcOf(s, n))
  {
    if PcOf(s, n) == Idle then s
    else
      CallProgresses(s, n, hint);
      Finish(CallStep(s, n, hint), n, hint)
  }

  function Pass(s: State, n: Name, hint: Hint): State {
    Finish(CallStep(s, n, hint), n, hint)
  }

  /** Only the entry at `k` differs. */
  ghost predicate OnlyAt<K(!new), V>(a: map<K, V>, b: map<K, V>, k: K) {
    forall j | j != k :: (j in a <==> j in b) && (j in a ==> a[j] == b[j])
  }

  /** The context is there as it was, but for whether it is programmed, and its version; so are all others. */
  ghost predicate Became(s: State, s': State, n: Name, programmed: bool)
    requires n in s.up
  {
    && OnlyAt(s.up, s'.up, n) && n in s'.up
    && s'.up[n] == s.up[n].(body := s.up[n].body.(programmed := programmed), rv := s'.up[n].rv)
  }

  /**
   The network's resource is there as it was, but for its version, or new: under no finalizer
   and not Ready. One that is as it should be is not written at all.
  */
  ghost predicate Provided(s: State, s': State, net: Uid, hint: Hint) {
    && (if net in s.down && !hint.changed then s'.down == s.down else net in s'.down && s'.down[net].rv >= s.nextRv)
    && OnlyAt(s.down, s'.down, net) && net in s'.down
    && s'.down[net] ==
      (if net in s.down then s.down[net].(rv := s'.down[net].rv)
       else Obj(net, s'.down[net].rv, false, {}, Health(false, false)))
  }

  /** The status write at the end, undisturbed. */
  lemma PublishingEnds(s: State, n: Name, hint: Hint)
    requires PcOf(s, n).Publish? && n in s.up && s.up[n] == PcOf(s, n).ctx
    ensures var s' := Finish(s, n, hint);
      s'.down == s.down && s'.networks == s.networks && Became(s, s', n, PcOf(s, n).programmed)
  {
  }

  /** What the pass will publish after looking at the network's resource. */
  predicate Verdict(s: State, net: Uid) {
    net in s.down && Good(s.down[net].body)
  }

  /** Reading the resource leads to the verdict at once, or to a write. */
  lemma ReadCall(s: State, n: Name, hint: Hint, ctx: Context, net: Uid)
    requires PcOf(s, n) == ReadDown(ctx, net)
    ensures var s' := CallStep(s, n, hint);
      && s'.up == s.up && s'.down == s.down && s'.networks == s.networks
      && (|| (net in s.down && PcOf(s', n) == Publish(ctx, net, Verdict(s, net)))
          || PcOf(s', n) == if net in s.down then PatchDown(ctx, net) else CreateDown(ctx, net))
      && (PcOf(s', n).Publish? <==> net in s.down && !hint.changed) && s'.nextRv == s.nextRv
  {
  }

  /** The write leads to the same verdict, and the resource is there. */
  lemma WriteCall(s: State, n: Name, hint: Hint, ctx: Context, net: Uid)
    requires PcOf(s, n) == (if net in s.down then PatchDown(ctx, net) else CreateDown(ctx, net)) && Settled(s)
    requires net in s.down ==> hint.changed
    ensures var s' := CallStep(s, n, hint);
      && s'.up == s.up && s'.networks == s.networks && Provided(s, s', net, hint)
      && PcOf(s', n) == Publish(ctx, net, Verdict(s, net))
  {
  }

  /** From the read of the resource on, undisturbed. */
  lemma WritingEnds(s: State, n: Name, hint: Hint, ctx: Context, net: Uid)
    requires PcOf(s, n) == ReadDown(ctx, net) && n in s.up && s.up[n] == ctx && Settled(s)
    ensures var s' := Finish(s, n, hint);
      s'.networks == s.networks && Provided(s, s', net, hint) && Became(s, s', n, Verdict(s, net))
  {
    hide CallStep, Verdict, Settled;
    var s1 := CallStep(s, n, hint);
    assert Finish(s, n, hint) == Finish(s1, n, hint);
    ReadCall(s, n, hint, ctx, net);
    if PcOf(s1, n).Publish? {
      PublishingEnds(s1, n, hint);
    } else {
      var s2 := CallStep(s1, n, hint);
      assert Finish(s1, n, hint) == Finish(s2, n, hint);
      assert Settled(s1) && Verdict(s1, net) == Verdict(s, net) by { SameResources(s, s1, net); }
      WriteCall(s1, n, hint, ctx, net);
      PublishingEnds(s2, n, hint);
    }
  }

  lemma SameResources(s: State, s': State, net: Uid)
    requires s'.down == s.down && Settled(s)
    ensures Settled(s') && Verdict(s', net) == Verdict(s, net)
  {
  }

  /** The pass reads the context and looks for its network. */
  lemma FirstCalls(s: State, n: Name, hint: Hint)
    requires PcOf(s, n) == Idle && n in s.up && !s.up[n].deleting && !s.up[n].body.programmed && !hint.bail
    ensures var s1 := CallStep(s, n, hint);
      var s2 := CallStep(s1, n, hint);
      var network := s.up[n].body.network;
      && PcOf(s1, n) != Idle && s2.up == s.up && s2.down == s.down && s2.networks == s.networks && s2.nextRv == s.nextRv
      && PcOf(s2, n) ==
        (if network in s.networks then ReadDown(s.up[n], s.networks[network]) else Publish(s.up[n], 0, false))
  {
  }

  lemma SameStart(s: State, t: State, s': State, n: Name, programmed: bool, net: Uid, hint: Hint)
    requires s.up == t.up && s.down == t.down && s.nextRv == t.nextRv && n in s.up
    ensures Became(s, s', n, programmed) <==> Became(t, s', n, programmed)
    ensures Provided(s, s', net, hint) <==> Provided(t, s', net, hint)
  {
  }

  /**
   A pass over a context that is not programmed makes sure of the resource of its network,
   if there is such a network, and programs the context exactly when that resource was
   there before, Ready and without a reconcile error. Whether it patches it does not matter.
   Of the context it changes nothing else, and of the resource nothing but its version.
  */
  lemma ProgrammingPass(s: State, n: Name, hint: Hint)
    requires PcOf(s, n) == Idle && n in s.up && !s.up[n].deleting && !s.up[n].body.programmed && !hint.bail
    requires Inv(s)
    ensures var s' := Pass(s, n, hint);
      var network := s.up[n].body.network;
      && Became(s, s', n,
            network in s.networks && s.networks[network] in s.down &&
            s.down[s.networks[network]].body.ready && !s.down[s.networks[network]].body.reconcileError)
      && s'.networks == s.networks
      && (network in s.networks ==> Provided(s, s', s.networks[network], hint))
      && (network !in s.networks ==> s'.down == s.down)
  {
    FirstCalls(s, n, hint);
    hide CallStep, Became, Provided;
    var s1 := CallStep(s, n, hint);
    var s2 := CallStep(s1, n, hint);
    assert Pass(s, n, hint) == Finish(s1, n, hint) == Finish(s2, n, hint);
    if s.up[n].body.network in s.networks {
      var net := s.networks[s.up[n].body.network];
      WritingEnds(s2, n, hint, s.up[n], net);
      SameStart(s, s2, Finish(s2, n, hint), n, Verdict(s, net), net, hint);
    } else {
      PublishingEnds(s2, n, hint);
      SameStart(s, s2, Finish(s2, n, hint), n, false, 0, hint);
    }
  }

  /** A programmed context, a deleted one and one whose location is missing are left alone. */
  lemma NothingToDo(s: State, n: Name, hint: Hint)
    requires PcOf(s, n) == Idle
    requires n !in s.up || hint.bail || s.up[n].deleting || s.up[n].body.programmed
    ensures Pass(s, n, hint) == s
  {
  }

  // ---------------------------------------------------------------- a run

  lemma OneMore(s: State, a: Action, run: seq<Action>) returns (longer: seq<Action>)
    requires Run(Init, run) == s
    ensures Run(Init, longer) == Step(s, a)
  {
    longer := run + [a];
    assert longer[..|run|] == run;
  }

  lemma {:induction false} FinishIsRun(s: State, n: Name, hint: Hint, run: seq<Action>) returns (longer: seq<Action>)
    requires Run(Init, run) == s
    ensures Run(Init, longer) == Finish(s, n, hint) && PcOf(Finish(s, n, hint), n) == Idle
    decreases CallsLeft(PcOf(s, n))
  {
    hide CallStep, CallsLeft;
    longer := run;
    if PcOf(s, n) != Idle {
      CallProgresses(s, n, hint);
      longer := OneMore(s, Call(n, hint), run);
      longer := FinishIsRun(CallStep(s, n, hint), n, hint, longer);
    }
  }

  lemma PassIsRun(s: State, n: Name, hint: Hint, run: seq<Action>) returns (longer: seq<Action>)
    requires Run(Init, run) == s
    ensures Run(Init, longer) == Pass(s, n, hint) && PcOf(Pass(s, n, hint), n) == Idle
  {
    hide CallStep, Finish;
    longer := OneMore(s, Call(n, hint), run);
    longer := FinishIsRun(CallStep(s, n, hint), n, hint, longer);
  }

  /**
   What is said of all runs is said of this one too: a network and a context of it are
   created, a pass creates the network's resource, and once that is Ready another pass
   programs the context.
  */
  lemma ContextIsProgrammed(n: Name, network: Name) returns (run: seq<Action>)
    ensures var s := Run(Init, run); n in s.up && s.up[n].body == Body(network, true) && 0 in s.down
  {
    hide CallStep, Pass, Finish, Inv;
    var hint := Hint(false, false);
    assert Run(Init, []) == Init;
    run := OneMore(Init, NetworkCreate(network), []);
    var networked := Step(Init, NetworkCreate(network));
    run := OneMore(networked, UserCreate(n, {}, network), run);
    var created := Step(networked, UserCreate(n, {}, network));
    assert created.up[n].body == Body(network, false) && created.networks == map[network := 0];
    InitInv();
    RunInv(Init, run);
    ProgrammingPass(created, n, hint);
    run := PassIsRun(created, n, hint, run);
    var provided := Pass(created, n, hint);
    run := OneMore(provided, DownWrite(0, {}, Health(true, false)), run);
    var ready := Step(provided, DownWrite(0, {}, Health(true, false)));
    assert 0 in ready.down && ready.down[0].body == Health(true, false) && ready.up == provided.up;
    RunInv(Init, run);
    ProgrammingPass(ready, n, hint);
    run := PassIsRun(ready, n, hint, run);
  }
}
