/**
 What a single undisturbed pass of the subnet controller achieves.
*/
module SubnetLiveness {
  import opened Kube
  import opened SubnetMachine
  import opened SubnetSafety

  /** An upper bound on the calls left in a pass. */
  function CallsLeft(pc: Pc): nat {
    match pc
    case Idle => 0
    case AddFinalizer(_) | FinRelease(_) | Publish(_, _) => 1
    case FinDelete(_) | CreateDown(_) => 2
    case ReadDown(_) => 3
  }

  lemma CallProgresses(s: State, n: Name, bail: bool)
    requires PcOf(s, n) != Idle
    ensures CallsLeft(PcOf(CallStep(s, n, bail), n)) < CallsLeft(PcOf(s, n))
  {
  }

  /** The rest of the pass in flight for `n`, undisturbed. */
  function Finish(s: State, n: Name, bail: bool): State
    decreases CallsLeft(PcOf(s, n))
  {
    if PcOf(s, n) == Idle then s
    else
      CallProgresses(s, n, bail);
      Finish(CallStep(s, n, bail), n, bail)
  }

  function Pass(s: State, n: Name, bail: bool): State {
    Finish(CallStep(s, n, bail), n, bail)
  }

  /** The subnet created as `u` under `n` is there and no pass is working on it. */
  ghost predicate Ready(s: State, n: Name, u: Uid) {
    Inv(s) && PcOf(s, n) == Idle && n in s.up && s.up[n].uid == u
  }

  /** Only the entry at `k` differs. */
  ghost predicate OnlyAt<K(!new), V>(a: map<K, V>, b: map<K, V>, k: K) {
    forall j | j != k :: (j in a <==> j in b) && (j in a ==> a[j] == b[j])
  }

  /** The subnet is there as it was, but for its finalizers, whether it is programmed, and its version. */
  ghost predicate Became(s: State, s': State, n: Name, fins: set<Finalizer>, programmed: bool)
    requires n in s.up
  {
    && OnlyAt(s.up, s'.up, n) && n in s'.up
    && s'.up[n] == s.up[n].(fins := fins, body := s.up[n].body.(programmed := programmed), rv := s'.up[n].rv)
  }

  /** The first pass over a subnet puts the finalizer on it and does nothing else. */
  lemma AdoptingPass(s: State, n: Name, u: Uid)
    requires Ready(s, n, u) && !s.up[n].deleting && Infra !in s.up[n].fins
    ensures var s' := Pass(s, n, false);
      && Held(s', u) && s'.down == s.down && PcOf(s', n) == Idle
      && Became(s, s', n, s.up[n].fins + {Infra}, s.up[n].body.programmed)
  {
    assert UpInv(s, n);
    var s1 := CallStep(s, n, false);
    assert Finish(s1, n, false) == CallStep(s1, n, false);
  }

  /** A programmed subnet, one that is deleted and already released, and one whose location is missing are left alone. */
  lemma NothingToDo(s: State, n: Name, bail: bool)
    requires PcOf(s, n) == Idle
    requires n !in s.up || bail || (s.up[n].deleting && Infra !in s.up[n].fins)
      || (!s.up[n].deleting && Infra in s.up[n].fins && s.up[n].body.programmed)
    ensures Pass(s, n, bail) == s
  {
  }

  /**
   A pass over a subnet that is held and not yet programmed makes sure of its downstream
   resource when the subnet has a prefix, and programs it exactly when that resource was
   there and Ready before. The verdict is written in any case, and nothing else of the subnet
   changes; at most the resource is created, under no finalizer and not Ready.
  */
  lemma ProgrammingPass(s: State, n: Name, u: Uid)
    requires Ready(s, n, u) && !s.up[n].deleting && Infra in s.up[n].fins && !s.up[n].body.programmed
    ensures var s' := Pass(s, n, false);
      var programmed := s.up[n].body.hasPrefix && u in s.down && s.down[u].body;
      && (Programmed(s', n, u) <==> programmed)
      && Became(s, s', n, s.up[n].fins, programmed) && s'.up[n].rv >= s.nextRv
      && (s.up[n].body.hasPrefix && u !in s.down ==>
        && OnlyAt(s.down, s'.down, u)
        && u in s'.down && s'.down[u] == Obj(u, s'.down[u].rv, false, {}, false))
      && (!s.up[n].body.hasPrefix || u in s.down ==> s'.down == s.down)
  {
    assert UpInv(s, n);
    var s1 := CallStep(s, n, false);
    var s2 := CallStep(s1, n, false);
    if !s.up[n].body.hasPrefix {
      assert Finish(s1, n, false) == s2;
    } else {
      var s3 := CallStep(s2, n, false);
      assert Finish(s1, n, false) == Finish(s2, n, false) == Finish(s3, n, false);
      if u !in s.down {
        var s4 := CallStep(s3, n, false);
        assert Finish(s3, n, false) == s4;
      }
    }
  }

  /** When something is missing behind the prefix, the subnet is reported as not programmed and nothing is created. */
  lemma BailingPass(s: State, n: Name, u: Uid)
    requires Inv(s) && n in s.up && s.up[n].uid == u && PcOf(s, n) == ReadDown(s.up[n])
    ensures var s' := Finish(s, n, true);
      s'.down == s.down && Became(s, s', n, s.up[n].fins, false)
  {
    assert UpInv(s, n);
    var s1 := CallStep(s, n, true);
    var s2 := CallStep(s1, n, true);
    assert Finish(s, n, true) == Finish(s1, n, true) == s2;
  }

  /**
   A pass over a deleted subnet marks its downstream resource and releases the subnet, all in
   one go: the subnet is gone unless others hold it, and so is the resource.
  */
  lemma FinalizingPass(s: State, n: Name, u: Uid)
    requires Ready(s, n, u) && s.up[n].deleting && Infra in s.up[n].fins
    ensures var s' := Pass(s, n, false);
      && !Held(s', u)
      && (if s.up[n].fins == {Infra} then s'.up == s.up - {n}
          else Became(s, s', n, s.up[n].fins - {Infra}, s.up[n].body.programmed))
      && OnlyAt(s.down, s'.down, u)
      && (u in s'.down <==> u in s.down && (s.down[u].deleting || s.down[u].fins != {}))
      && (u in s'.down ==> s'.down[u] == s.down[u].(deleting := true, rv := s'.down[u].rv))
  {
    assert UpInv(s, n);
    var s1 := CallStep(s, n, false);
    var s2 := CallStep(s1, n, false);
    var s3 := CallStep(s2, n, false);
    assert Finish(s1, n, false) == Finish(s2, n, false) == s3;
    assert s.up[n].fins - {Infra} == {} <==> s.up[n].fins == {Infra};
  }

  // ---------------------------------------------------------------- a run

  lemma OneMore(s: State, a: Action, run: seq<Action>) returns (longer: seq<Action>)
    requires Run(Init, run) == s
    ensures Run(Init, longer) == Step(s, a)
  {
    longer := run + [a];
    assert longer[..|run|] == run;
  }

  lemma {:induction false} FinishIsRun(s: State, n: Name, bail: bool, run: seq<Action>) returns (longer: seq<Action>)
    requires Run(Init, run) == s
    ensures Run(Init, longer) == Finish(s, n, bail)
    decreases CallsLeft(PcOf(s, n))
  {
    hide CallStep, CallsLeft;
    longer := run;
    if PcOf(s, n) != Idle {
      CallProgresses(s, n, bail);
      longer := OneMore(s, Call(n, bail), run);
      longer := FinishIsRun(CallStep(s, n, bail), n, bail, longer);
    }
  }

  lemma PassIsRun(s: State, n: Name, bail: bool, run: seq<Action>) returns (longer: seq<Action>)
    requires Run(Init, run) == s
    ensures Run(Init, longer) == Pass(s, n, bail)
  {
    hide CallStep, Finish;
    longer := OneMore(s, Call(n, bail), run);
    longer := FinishIsRun(CallStep(s, n, bail), n, bail, longer);
  }

  /** The end of a pass, in any reachable state. */
  lemma PassIdle(s: State, n: Name, bail: bool)
    ensures PcOf(Pass(s, n, bail), n) == Idle
  {
    hide CallStep;
    FinishIdle(CallStep(s, n, bail), n, bail);
  }

  lemma {:induction false} FinishIdle(s: State, n: Name, bail: bool)
    ensures PcOf(Finish(s, n, bail), n) == Idle
    decreases CallsLeft(PcOf(s, n))
  {
    hide CallStep, CallsLeft;
    if PcOf(s, n) != Idle {
      CallProgresses(s, n, bail);
      FinishIdle(CallStep(s, n, bail), n, bail);
    }
  }

  /**
   What is said of all runs is said of this one too: a subnet is created, adopted, gets a
   prefix and its resource, is programmed once that is Ready, and after it is deleted its
   resource is marked and it is gone.
  */
  lemma SubnetComesAndGoes(n: Name) returns (programmed: seq<Action>, gone: seq<Action>)
    ensures Programmed(Run(Init, programmed), n, 0) && 0 in Run(Init, programmed).down
    ensures n !in Run(Init, gone).up && 0 in Run(Init, gone).down && Run(Init, gone).down[0].deleting
  {
    hide CallStep, Pass, Finish, Inv;
    assert Run(Init, []) == Init;
    var run := OneMore(Init, UserCreate(n, {}, false), []);
    var created := Step(Init, UserCreate(n, {}, false));
    InitInv();
    RunInv(Init, run);
    AdoptingPass(created, n, 0);
    run := PassIsRun(created, n, false, run);
    var adopted := Pass(created, n, false);
    PassIdle(created, n, false);
    run := OneMore(adopted, UserWrite(n, {}, true), run);
    var prefixed := Step(adopted, UserWrite(n, {}, true));
    assert prefixed.up[n].fins == {Infra} && prefixed.up[n].body == Conditions(true, false);
    RunInv(Init, run);
    ProgrammingPass(prefixed, n, 0);
    run := PassIsRun(prefixed, n, false, run);
    var provided := Pass(prefixed, n, false);
    PassIdle(prefixed, n, false);
    run := OneMore(provided, DownWrite(0, {Crossplane}, true), run);
    var ready := Step(provided, DownWrite(0, {Crossplane}, true));
    RunInv(Init, run);
    ProgrammingPass(ready, n, 0);
    programmed := PassIsRun(ready, n, false, run);
    var done := Pass(ready, n, false);
    PassIdle(ready, n, false);
    gone := OneMore(done, UserDelete(n), programmed);
    var deleted := Step(done, UserDelete(n));
    RunInv(Init, gone);
    FinalizingPass(deleted, n, 0);
    gone := PassIsRun(deleted, n, false, gone);
  }
}
