/**
 Safety of the instance controller over every interleaving: an external machine
 never outlives its instance's hold on it, and a downstream resource whose
 instance has let go is already past the point where it could own a machine.
*/
module InstanceSafety {
  import opened Kube
  import opened InstanceMachine

  /** The instance created as `u` is still there. */
  ghost predicate Present(s: State, u: Uid) {
    u in s.born && s.born[u] in s.up && s.up[s.born[u]].uid == u
  }

  /** It is still there and still holds the infra finalizer. */
  ghost predicate Held(s: State, u: Uid) {
    Present(s, u) && Infra in s.up[s.born[u]].fins
  }

  /** Nothing is left of `u` that Crossplane or the controller would still act upon. */
  ghost predicate Spent(s: State, u: Uid) {
    u in s.down ==> s.down[u].deleting && s.down[u].fins !! {Infra, Crossplane}
  }

  ghost predicate DownInv(s: State, u: Uid) {
    && (u in s.vms ==> u in s.down && Crossplane in s.down[u].fins)
    && (u in s.down ==>
      && u in s.born
      && s.down[u].uid == u
      && s.down[u].rv < s.nextRv
      && (s.down[u].deleting ==> s.down[u].fins != {})
      && (!s.down[u].deleting ==> Infra in s.down[u].fins)
      && (!Spent(s, u) ==> Held(s, u))
      && (Present(s, u) && (!Held(s, u) || Infra !in s.down[u].fins) ==> s.up[s.born[u]].deleting))
  }

  ghost predicate UpInv(s: State, n: Name) {
    n in s.up ==>
      && s.up[n].uid in s.born
      && s.born[s.up[n].uid] == n
      && s.up[n].rv < s.nextRv
      && (s.up[n].deleting ==> s.up[n].fins != {})
  }

  /** A copy of the instance held by the pass for `n`: outdated, or exact. */
  ghost predicate UpCopy(s: State, n: Name, inst: Up) {
    && inst.uid in s.born
    && s.born[inst.uid] == n
    && inst.rv < s.nextRv
    && (n in s.up && s.up[n].rv == inst.rv ==> s.up[n] == inst)
  }

  ghost predicate DownCopy(s: State, u: Uid, cr: Down) {
    && cr.uid == u
    && cr.rv < s.nextRv
    && (u in s.down && s.down[u].rv == cr.rv ==> s.down[u] == cr)
  }

  /** The copy predates a delete that has since succeeded, so writing it back must conflict. */
  ghost predicate Outdated(s: State, u: Uid, cr: Down) {
    u in s.down ==> s.down[u].rv != cr.rv
  }

  ghost predicate PcInv(s: State, n: Name) {
    var pc := PcOf(s, n);
    && (pc != Idle ==> UpCopy(s, n, pc.inst))
    && (pc.Creating() || pc.Finalizing() ==> Held(s, pc.inst.uid) && Infra in pc.inst.fins)
    && (pc.Finalizing() ==> pc.inst.deleting && s.up[n].deleting)
    && (pc.Creating() ==> pc.inst.uid in s.down ==> Infra in s.down[pc.inst.uid].fins)
    && (pc.PatchDown? || pc.RetryDown? ==> DownCopy(s, pc.inst.uid, pc.cr) && Infra in pc.cr.fins)
    && (pc.FinDelete? ==> DownCopy(s, pc.inst.uid, pc.cr) && !pc.cr.deleting && Infra in pc.cr.fins)
    && (pc.FinStrip? ==>
      && DownCopy(s, pc.inst.uid, pc.cr)
      && Infra in pc.cr.fins && Crossplane !in pc.cr.fins
      && (!pc.cr.deleting ==> Outdated(s, pc.inst.uid, pc.cr)))
    && (pc.FinRelease? ==> Spent(s, pc.inst.uid))
  }

  ghost predicate Inv(s: State) {
    && (forall u :: u in s.born ==> u < s.nextUid)
    && (forall u :: DownInv(s, u))
    && (forall n :: UpInv(s, n))
    && (forall n :: PcInv(s, n))
  }

  lemma InitInv()
    ensures Inv(Init)
  {
  }

  ghost predicate Same<K, V>(a: map<K, V>, b: map<K, V>, k: K) {
    (k in a <==> k in b) && (k in a ==> a[k] == b[k])
  }

  /** `s'` differs from `s` at most in the instance `u` called `n`, its resource, its machine and its pass. */
  ghost predicate Local(s: State, s': State, n: Name, u: Uid) {
    && s'.born == s.born && s'.nextUid == s.nextUid && s'.nextRv >= s.nextRv
    && (forall v | v != u :: v in s'.vms <==> v in s.vms)
    && (forall m | m != n :: Same(s.up, s'.up, m))
    && (forall m | m != n :: Same(s.pcs, s'.pcs, m))
    && (forall v | v != u :: Same(s.down, s'.down, v))
    && (s'.up == s.up || (n in s.up && s.up[n].uid == u && (n in s'.up ==> s'.up[n].uid == u)))
  }

  /** Every other instance is then unaffected. */
  lemma Frame(s: State, s': State, n: Name, u: Uid)
    requires Inv(s) && Local(s, s', n, u) && u in s.born && s.born[u] == n
    requires DownInv(s', u) && UpInv(s', n) && PcInv(s', n)
    ensures Inv(s')
  {
    forall m | m != n ensures UpInv(s', m) && PcInv(s', m) {
      assert UpInv(s, m) && PcInv(s, m);
      assert Same(s.up, s'.up, m) && Same(s.pcs, s'.pcs, m);
      if PcOf(s, m) != Idle {
        assert Same(s.down, s'.down, PcOf(s, m).inst.uid);
      }
    }
    forall v | v != u ensures DownInv(s', v) {
      assert DownInv(s, v) && Same(s.down, s'.down, v);
      if v in s.born && s.born[v] != n {
        assert Same(s.up, s'.up, s.born[v]);
      }
    }
  }

  lemma StartInv(s: State, n: Name, hint: Hint)
    requires Inv(s) && PcOf(s, n) == Idle && n in s.up
    ensures Inv(CallStep(s, n, hint)) && Local(s, CallStep(s, n, hint), n, s.up[n].uid)
  {
    if Start(s, n, hint) != s {
      assert UpInv(s, n) && DownInv(s, s.up[n].uid);
      Frame(s, Start(s, n, hint), n, s.up[n].uid);
    }
  }

  /** Writing the finalizers of the instance. */
  lemma FinalizerCallInv(s: State, n: Name, hint: Hint)
    requires Inv(s) && (PcOf(s, n).AddFinalizer? || PcOf(s, n).FinRelease?)
    ensures Inv(CallStep(s, n, hint)) && Local(s, CallStep(s, n, hint), n, PcOf(s, n).inst.uid)
  {
    var u := PcOf(s, n).inst.uid;
    assert UpInv(s, n) && PcInv(s, n) && DownInv(s, u);
    Frame(s, CallStep(s, n, hint), n, u);
  }

  /** Writing the status of the instance. */
  lemma StatusCallInv(s: State, n: Name, hint: Hint)
    requires Inv(s) && (PcOf(s, n).PowerState? || PcOf(s, n).Publish? || PcOf(s, n).FinPower?)
    ensures Inv(CallStep(s, n, hint)) && Local(s, CallStep(s, n, hint), n, PcOf(s, n).inst.uid)
  {
    var u := PcOf(s, n).inst.uid;
    assert UpInv(s, n) && PcInv(s, n) && DownInv(s, u);
    Frame(s, CallStep(s, n, hint), n, u);
  }

  /** Reading the downstream resource. */
  lemma ReadCallInv(s: State, n: Name, hint: Hint)
    requires Inv(s) && (PcOf(s, n).ReadDown? || PcOf(s, n).FinRead?)
    ensures Inv(CallStep(s, n, hint)) && Local(s, CallStep(s, n, hint), n, PcOf(s, n).inst.uid)
  {
    var u := PcOf(s, n).inst.uid;
    assert UpInv(s, n) && PcInv(s, n) && DownInv(s, u);
    Frame(s, CallStep(s, n, hint), n, u);
  }

  /** Creating the downstream resource. */
  lemma CreateCallInv(s: State, n: Name, hint: Hint)
    requires Inv(s) && PcOf(s, n).CreateDown?
    ensures Inv(CallStep(s, n, hint)) && Local(s, CallStep(s, n, hint), n, PcOf(s, n).inst.uid)
  {
    var u := PcOf(s, n).inst.uid;
    assert UpInv(s, n) && PcInv(s, n) && DownInv(s, u);
    Frame(s, CallStep(s, n, hint), n, u);
  }

  /** Patching it, and writing it back with the retry annotation. */
  lemma PatchCallInv(s: State, n: Name, hint: Hint)
    requires Inv(s) && (PcOf(s, n).PatchDown? || PcOf(s, n).RetryDown?)
    ensures Inv(CallStep(s, n, hint)) && Local(s, CallStep(s, n, hint), n, PcOf(s, n).inst.uid)
  {
    var u := PcOf(s, n).inst.uid;
    assert UpInv(s, n) && PcInv(s, n) && DownInv(s, u);
    Frame(s, CallStep(s, n, hint), n, u);
  }

  /** Deleting the downstream resource and stripping its finalizer. */
  lemma FinalizeCallInv(s: State, n: Name, hint: Hint)
    requires Inv(s) && (PcOf(s, n).FinDelete? || PcOf(s, n).FinStrip?)
    ensures Inv(CallStep(s, n, hint)) && Local(s, CallStep(s, n, hint), n, PcOf(s, n).inst.uid)
  {
    var u := PcOf(s, n).inst.uid;
    assert UpInv(s, n) && PcInv(s, n) && DownInv(s, u);
    Frame(s, CallStep(s, n, hint), n, u);
  }

  lemma CallInv(s: State, n: Name, hint: Hint)
    requires Inv(s)
    ensures Inv(CallStep(s, n, hint))
    ensures PcOf(s, n) == Idle && n in s.up ==> Local(s, CallStep(s, n, hint), n, s.up[n].uid)
    ensures PcOf(s, n) != Idle ==> Local(s, CallStep(s, n, hint), n, PcOf(s, n).inst.uid)
  {
    match PcOf(s, n)
    case Idle => if n in s.up { StartInv(s, n, hint); }
    case AddFinalizer(_) | FinRelease(_) => FinalizerCallInv(s, n, hint);
    case PowerState(_) | Publish(_) | FinPower(_) => StatusCallInv(s, n, hint);
    case ReadDown(_) | FinRead(_) => ReadCallInv(s, n, hint);
    case CreateDown(_) => CreateCallInv(s, n, hint);
    case PatchDown(_, _) | RetryDown(_, _) => PatchCallInv(s, n, hint);
    case FinDelete(_, _) | FinStrip(_, _) => FinalizeCallInv(s, n, hint);
  }

  /** A new instance, or a pass that loses its copies. */
  lemma FreshInv(s: State, a: Action)
    requires Inv(s) && (a.Crash? || a.UserCreate?)
    ensures Inv(EnvStep(s, a))
  {
    var s' := EnvStep(s, a);
    forall u ensures DownInv(s', u) {
      assert DownInv(s, u);
    }
    forall n ensures UpInv(s', n) && PcInv(s', n) {
      assert UpInv(s, n) && PcInv(s, n);
    }
  }

  lemma UserInv(s: State, a: Action)
    requires Inv(s) && (a.UserDelete? || a.UserWrite?)
    ensures Inv(EnvStep(s, a))
  {
    if a.n in s.up {
      assert UpInv(s, a.n) && PcInv(s, a.n) && DownInv(s, s.up[a.n].uid);
      Frame(s, EnvStep(s, a), a.n, s.up[a.n].uid);
    }
  }

  /** Anybody else deleting or rewriting the downstream resource. */
  lemma DownDeleteInv(s: State, a: Action)
    requires Inv(s) && a.DownDelete?
    ensures Inv(EnvStep(s, a))
  {
    assert DownInv(s, a.u);
    if a.u in s.down {
      assert UpInv(s, s.born[a.u]) && PcInv(s, s.born[a.u]);
      Frame(s, EnvStep(s, a), s.born[a.u], a.u);
    }
  }

  lemma DownWriteInv(s: State, a: Action)
    requires Inv(s) && a.DownWrite?
    ensures Inv(EnvStep(s, a))
  {
    assert DownInv(s, a.u);
    if a.u in s.down {
      assert UpInv(s, s.born[a.u]) && PcInv(s, s.born[a.u]);
      Frame(s, EnvStep(s, a), s.born[a.u], a.u);
    }
  }

  /** Crossplane putting its finalizer on the resource, and taking it off. */
  lemma AdoptedInv(s: State, a: Action)
    requires Inv(s) && a.XpAdopt?
    ensures Inv(EnvStep(s, a))
  {
    assert DownInv(s, a.u);
    if a.u in s.down {
      assert UpInv(s, s.born[a.u]) && PcInv(s, s.born[a.u]);
      Frame(s, EnvStep(s, a), s.born[a.u], a.u);
    }
  }

  lemma LetGoInv(s: State, a: Action)
    requires Inv(s) && a.XpRelease?
    ensures Inv(EnvStep(s, a))
  {
    assert DownInv(s, a.u);
    if a.u in s.down {
      assert UpInv(s, s.born[a.u]) && PcInv(s, s.born[a.u]);
      Frame(s, EnvStep(s, a), s.born[a.u], a.u);
    }
  }

  /** Machines that appear, and machines that go. */
  lemma MachineCreatedInv(s: State, a: Action)
    requires Inv(s) && a.XpCreateVm?
    ensures Inv(EnvStep(s, a))
  {
    assert DownInv(s, a.u);
    if a.u in s.down {
      assert UpInv(s, s.born[a.u]) && PcInv(s, s.born[a.u]);
      Frame(s, EnvStep(s, a), s.born[a.u], a.u);
    } else {
      assert EnvStep(s, a) == s;
    }
  }

  lemma MachineDeletedInv(s: State, a: Action)
    requires Inv(s) && a.XpDeleteVm?
    ensures Inv(EnvStep(s, a))
  {
    assert DownInv(s, a.u);
    if a.u in s.down {
      assert UpInv(s, s.born[a.u]) && PcInv(s, s.born[a.u]);
      Frame(s, EnvStep(s, a), s.born[a.u], a.u);
    } else {
      assert EnvStep(s, a) == s;
    }
  }

  lemma MachineLostInv(s: State, a: Action)
    requires Inv(s) && a.VmLost?
    ensures Inv(EnvStep(s, a))
  {
    assert DownInv(s, a.u);
    if a.u in s.down {
      assert UpInv(s, s.born[a.u]) && PcInv(s, s.born[a.u]);
      Frame(s, EnvStep(s, a), s.born[a.u], a.u);
    } else {
      assert EnvStep(s, a) == s;
    }
  }

  lemma StepInv(s: State, a: Action)
    requires Inv(s)
    ensures Inv(Step(s, a))
  {
    match a
    case Call(n, hint) => CallInv(s, n, hint);
    case Crash(_) | UserCreate(_, _, _) => FreshInv(s, a);
    case UserDelete(_) | UserWrite(_, _, _) => UserInv(s, a);
    case DownDelete(_) => DownDeleteInv(s, a);
    case DownWrite(_, _, _) => DownWriteInv(s, a);
    case XpAdopt(_) => AdoptedInv(s, a);
    case XpRelease(_) => LetGoInv(s, a);
    case XpCreateVm(_) => MachineCreatedInv(s, a);
    case XpDeleteVm(_) => MachineDeletedInv(s, a);
    case VmLost(_) => MachineLostInv(s, a);
  }

  lemma {:induction false} RunInv(s: State, run: seq<Action>)
    requires Inv(s)
    ensures Inv(Run(s, run))
    decreases |run|
  {
    if run != [] {
      StepInv(s, run[0]);
      RunInv(Step(s, run[0]), run[1..]);
    }
  }

  /** In every state of every run, a machine has an instance that holds it and a resource Crossplane holds. */
  lemma MachineIsHeld(run: seq<Action>, u: Uid)
    requires u in Run(Init, run).vms
    ensures Held(Run(Init, run), u)
    ensures u in Run(Init, run).down && Crossplane in Run(Init, run).down[u].fins
  {
    RunInv(Init, run);
    assert DownInv(Run(Init, run), u);
  }

  /** A resource whose instance has let go is deleting, released by Crossplane and without a machine. */
  lemma OrphanIsSpent(run: seq<Action>, u: Uid)
    requires u in Run(Init, run).down && !Held(Run(Init, run), u)
    ensures var s := Run(Init, run);
      && s.down[u].deleting
      && Infra !in s.down[u].fins && Crossplane !in s.down[u].fins
      && s.down[u].fins != {}
      && u !in s.vms
  {
    RunInv(Init, run);
    assert DownInv(Run(Init, run), u);
  }

  /** When nobody else puts finalizers on it, there is no such resource. */
  lemma NoOrphan(run: seq<Action>, u: Uid)
    requires u in Run(Init, run).down && Run(Init, run).down[u].fins <= {Infra, Crossplane}
    ensures Held(Run(Init, run), u)
  {
    if !Held(Run(Init, run), u) {
      OrphanIsSpent(run, u);
      assert false;
    }
  }

  /** `Finalize` writing back the copy it read before its own delete is always refused. */
  lemma StaleCopyIsRefused(run: seq<Action>, n: Name)
    requires PcOf(Run(Init, run), n).FinStrip? && !PcOf(Run(Init, run), n).cr.deleting
    ensures var s := Run(Init, run);
      var pc := PcOf(s, n);
      Update(s.down, pc.inst.uid, pc.cr.(fins := pc.cr.fins - {Infra}), s.nextRv).outcome in {NotFound, Conflict}
  {
    RunInv(Init, run);
    assert PcInv(Run(Init, run), n);
  }

  lemma StartKeepsDown(s: State, n: Name, hint: Hint)
    requires PcOf(s, n) == Idle
    ensures CallStep(s, n, hint).down == s.down
  {
  }

  /** No call of the controller takes Crossplane's finalizer off a resource, whatever copy it works from. */
  lemma OnlyCrossplaneLetsGo(run: seq<Action>, n: Name, hint: Hint, u: Uid)
    requires u in Run(Init, run).down && Crossplane in Run(Init, run).down[u].fins
    ensures var s' := CallStep(Run(Init, run), n, hint);
      u in s'.down && Crossplane in s'.down[u].fins
  {
    hide CallStep, Spent, UpCopy, DownCopy, UpInv;
    var s := Run(Init, run);
    InitInv();
    RunInv(Init, run);
    assert PcInv(s, n) && DownInv(s, u);
    if PcOf(s, n) == Idle {
      StartKeepsDown(s, n, hint);
    }
    if PcOf(s, n) != Idle {
      assert DownInv(s, PcOf(s, n).inst.uid);
      var u' := PcOf(s, n).inst.uid;
      if u' != u {
        CallInv(s, n, hint);
        assert Same(s.down, CallStep(s, n, hint).down, u);
      } else {
        OwnCallLetsNotGo(s, n, hint, u);
      }
    }
  }

  lemma OwnCallLetsNotGo(s: State, n: Name, hint: Hint, u: Uid)
    requires PcInv(s, n) && PcOf(s, n) != Idle && PcOf(s, n).inst.uid == u
    requires u in s.down && Crossplane in s.down[u].fins
    ensures var s' := CallStep(s, n, hint); u in s'.down && Crossplane in s'.down[u].fins
  {
    hide Held, UpCopy, UpdateStatus;
  }
}
