/**
 Bringing up the resources of one workload as the instance controller is written: the
 service account, then the secrets if there are any, then the instance, with other
 parties and other instances' passes at work between any two calls. Each method leaves
 the workload's resources exactly as the state machine does when it is driven through
 the same turns.
*/
module CreationController {
  import opened Options
  import opened CreationOrder

  /** What everybody else does before a call, and whether the mutated object differs from the one read. */
  datatype Turn = Turn(others: seq<Action>, changed: bool)

  /** There is one pass in flight per instance. */
  predicate Elsewhere(a: Action, n: Name) {
    a.Call? || a.Stop? ==> a.n != n
  }

  ghost predicate AllElsewhere(turns: seq<Turn>, n: Name) {
    forall t, a | t in turns && a in t.others :: Elsewhere(a, n)
  }

  lemma StepElsewhere(s: State, a: Action, n: Name, withSecrets: set<Name>)
    requires Elsewhere(a, n)
    ensures PcOf(Step(s, a, withSecrets), n) == PcOf(s, n)
  {
    if a.Call? {
      CallElsewhere(s, a.n, a.changed, withSecrets, n);
    }
  }

  lemma {:induction false} OthersLeavePass(s: State, acts: seq<Action>, n: Name, withSecrets: set<Name>)
    requires forall a | a in acts :: Elsewhere(a, n)
    ensures PcOf(Run(s, acts, withSecrets), n) == PcOf(s, n)
    decreases |acts|
  {
    hide Step, PcOf;
    if acts != [] {
      OthersLeavePass(s, acts[..|acts| - 1], n, withSecrets);
      StepElsewhere(Run(s, acts[..|acts| - 1], withSecrets), acts[|acts| - 1], n, withSecrets);
    }
  }

  /** The pass in flight for `n`, call by call, each after everybody else had a turn; without turns left it stops. */
  function Drive(s: State, n: Name, turns: seq<Turn>, k: nat, withSecrets: set<Name>): State
    decreases |turns| - k
  {
    if k >= |turns| then Goto(s, n, Idle)
    else AfterOthers(Run(s, turns[k].others, withSecrets), n, turns, k, withSecrets)
  }

  function AfterOthers(s: State, n: Name, turns: seq<Turn>, k: nat, withSecrets: set<Name>): State
    requires k < |turns|
    decreases |turns| - k, 0
  {
    var next := CallStep(s, n, turns[k].changed, withSecrets);
    if PcOf(next, n) == Idle then next else Drive(next, n, turns, k + 1, withSecrets)
  }

  /** What is left of a pass that has got this far. */
  function Rest(s: State, n: Name, turns: seq<Turn>, k: nat, withSecrets: set<Name>): State {
    if PcOf(s, n) == Idle then s else Drive(s, n, turns, k, withSecrets)
  }

  /** Whether a driven pass writes the instance. */
  function Writes(s: State, n: Name, turns: seq<Turn>, k: nat, withSecrets: set<Name>): bool
    decreases |turns| - k
  {
    k < |turns| && WritesAfter(Run(s, turns[k].others, withSecrets), n, turns, k, withSecrets)
  }

  function WritesAfter(s: State, n: Name, turns: seq<Turn>, k: nat, withSecrets: set<Name>): bool
    requires k < |turns|
    decreases |turns| - k, 0
  {
    var next := CallStep(s, n, turns[k].changed, withSecrets);
    || CallEffect(s, n, turns[k].changed, withSecrets).event == Some(WroteInstance(n))
    || (PcOf(next, n) != Idle && Writes(next, n, turns, k + 1, withSecrets))
  }

  function RestWrites(s: State, n: Name, turns: seq<Turn>, k: nat, withSecrets: set<Name>): bool {
    PcOf(s, n) != Idle && Writes(s, n, turns, k, withSecrets)
  }

  /** Being driven is a run of the machine. */
  lemma {:induction false} DriveIsRun(s: State, n: Name, turns: seq<Turn>, k: nat, withSecrets: set<Name>)
      returns (run: seq<Action>)
    ensures Drive(s, n, turns, k, withSecrets) == Run(s, run, withSecrets)
    decreases |turns| - k
  {
    hide CallStep;
    if k >= |turns| {
      run := [Stop(n)];
      assert Run(s, run, withSecrets) == Step(Run(s, [], withSecrets), Stop(n), withSecrets);
    } else {
      var t := Run(s, turns[k].others, withSecrets);
      var call := [Call(n, turns[k].changed)];
      var next := CallStep(t, n, turns[k].changed, withSecrets);
      assert Run(t, call, withSecrets) == Step(Run(t, [], withSecrets), call[0], withSecrets);
      var rest := [];
      if PcOf(next, n) != Idle {
        rest := DriveIsRun(next, n, turns, k + 1, withSecrets);
      }
      run := turns[k].others + (call + rest);
      RunAppend(s, turns[k].others, call + rest, withSecrets);
      RunAppend(t, call, rest, withSecrets);
    }
  }

  class Workload {
    var st: State
    const withSecrets: set<Name>    // the instances that have secret volumes

    constructor (withSecrets: set<Name>)
      ensures st == Init && this.withSecrets == withSecrets && Inv(st, withSecrets)
    {
      st := Init;
      this.withSecrets := withSecrets;
      new;
      InitInv(withSecrets);
    }

    /** Everybody else has a turn, or the pass stops here. */
    method Before(n: Name, turns: seq<Turn>, k: nat) returns (alive: bool)
      requires Inv(st, withSecrets) && AllElsewhere(turns, n)
      modifies this`st
      ensures Inv(st, withSecrets) && (alive <==> k < |turns|)
      ensures alive ==>
        && st == Run(old(st), turns[k].others, withSecrets)
        && PcOf(st, n) == old(PcOf(st, n))
        && AfterOthers(st, n, turns, k, withSecrets) == Drive(old(st), n, turns, k, withSecrets)
        && WritesAfter(st, n, turns, k, withSecrets) == Writes(old(st), n, turns, k, withSecrets)
      ensures !alive ==>
        && st == Drive(old(st), n, turns, k, withSecrets) && PcOf(st, n) == Idle
        && !Writes(old(st), n, turns, k, withSecrets)
    {
      hide AfterOthers, WritesAfter, Inv, Step;
      alive := k < |turns|;
      if alive {
        assert turns[k] in turns;
        OthersLeavePass(st, turns[k].others, n, withSecrets);
        RunInv(st, turns[k].others, withSecrets);
        st := Run(st, turns[k].others, withSecrets);
      } else {
        StoppedInv(st, n, withSecrets);
        st := Goto(st, n, Idle);
      }
    }

    /** The pass for `n` made its call number `k` in the state `before`, left an event behind and now stands at `pc`. */
    method Advance(n: Name, pc: Pc, event: Option<Event>, ghost turns: seq<Turn>, ghost k: nat, ghost before: State)
      requires Inv(before, withSecrets) && k < |turns|
      requires Effect(Goto(st, n, pc), event) == CallEffect(before, n, turns[k].changed, withSecrets)
      modifies this`st
      ensures Inv(st, withSecrets) && PcOf(st, n) == pc
      ensures AfterOthers(before, n, turns, k, withSecrets) == Rest(st, n, turns, k + 1, withSecrets)
      ensures WritesAfter(before, n, turns, k, withSecrets) <==>
        event == Some(WroteInstance(n)) || RestWrites(st, n, turns, k + 1, withSecrets)
      ensures st.log == if event.None? then old(st.log) else old(st.log) + [event.value]
    {
      hide CallEffect, Inv;
      CallInv(before, n, turns[k].changed, withSecrets);
      st := Commit(Effect(Goto(st, n, pc), event));
    }

    /**
     A pass for `n`. When it has written the instance, everything the instance needs had
     been seen or written before, in order.
    */
    method ReconcileInstance(n: Name, turns: seq<Turn>) returns (written: bool)
      requires Inv(st, withSecrets) && AllElsewhere(turns, n) && PcOf(st, n) == Idle
      modifies this`st
      ensures Inv(st, withSecrets) && st == Drive(old(st), n, turns, 0, withSecrets)
      ensures written == Writes(old(st), n, turns, 0, withSecrets)
      ensures written ==> Prepared(n, st.log, withSecrets)
    {
      hide Run, Drive, AfterOthers, Writes, WritesAfter, AllElsewhere, Inv;
      written := false;
      var alive := Before(n, turns, 0);
      if !alive {
        return;
      }
      ghost var s := st;
      Advance(n, ReadAccount, None, turns, 0, s);
      var account, k := EnsureAccount(n, turns);
      if account.None? {
        return;
      }
      if n in withSecrets {
        var proceed;
        proceed, k := ReconcileSecrets(n, account.value.created, turns, k);
        if !proceed {
          return;
        }
      }
      if account.value.created {
        written := CreateOrPatchInstance(n, turns, k);
      }
    }

    /** Reads the account or creates it; none when the pass ends here. */
    method EnsureAccount(n: Name, turns: seq<Turn>) returns (account: Option<Account>, k: nat)
      requires Inv(st, withSecrets) && AllElsewhere(turns, n) && PcOf(st, n) == ReadAccount
      modifies this`st
      ensures Inv(st, withSecrets) && Rest(st, n, turns, k, withSecrets) == Drive(old(st), n, turns, 1, withSecrets)
      ensures RestWrites(st, n, turns, k, withSecrets) == Writes(old(st), n, turns, 1, withSecrets)
      ensures PcOf(st, n) == if account.None? then Idle else AfterAccount(n, account.value, withSecrets)
      ensures account.Some? ==> !account.value.failed
    {
      hide Run, Drive, AfterOthers, Writes, WritesAfter, AllElsewhere, Inv;
      k := 1;
      var alive := Before(n, turns, k);
      if !alive {
        return None, k;
      }
      ghost var s := st;
      if st.account.Some? {
        var sa := st.account.value;
        Advance(n, AfterAccount(n, sa, withSecrets), if sa.created && !sa.failed then Some(SawServiceAccount(n)) else None,
          turns, k, s);
        return if sa.failed then None else Some(sa), k + 1;
      }
      Advance(n, CreateAccount, None, turns, k, s);
      k := 2;
      alive := Before(n, turns, k);
      if !alive {
        return None, k;
      }
      s := st;
      if st.account.Some? {
        Advance(n, Idle, None, turns, k, s);
        return None, k;
      }
      var sa := Account(false, false);
      st := st.(account := Some(sa));
      Advance(n, AfterAccount(n, sa, withSecrets), None, turns, k, s);
      account, k := Some(sa), k + 1;
    }

    /** From the aggregated secret to the IAM member; the result says whether to go on. */
    method ReconcileSecrets(n: Name, created: bool, turns: seq<Turn>, j: nat) returns (proceed: bool, k: nat)
      requires Inv(st, withSecrets) && AllElsewhere(turns, n) && PcOf(st, n) == ReadAggregate(created)
      modifies this`st
      ensures Inv(st, withSecrets) && Rest(st, n, turns, k, withSecrets) == Drive(old(st), n, turns, j, withSecrets)
      ensures RestWrites(st, n, turns, k, withSecrets) == Writes(old(st), n, turns, j, withSecrets)
      ensures PcOf(st, n) == if proceed then AfterSecrets(created) else Idle
    {
      hide Run, Drive, AfterOthers, Writes, WritesAfter, AllElsewhere, Inv;
      proceed, k := WriteAggregate(n, created, turns, j);
      if !proceed {
        return;
      }
      proceed := EnsureSecret(n, created, turns, k);
      if !proceed {
        return;
      }
      var versionReady;
      proceed, versionReady, k := WriteVersion(n, created, turns, k + 1);
      if !proceed {
        return;
      }
      proceed := EnsureIamMember(n, created, versionReady, turns, k);
      k := k + 1;
    }

    /** `CreateOrUpdate` of the secret that holds the payload. */
    method WriteAggregate(n: Name, created: bool, turns: seq<Turn>, j: nat) returns (proceed: bool, k: nat)
      requires Inv(st, withSecrets) && AllElsewhere(turns, n) && PcOf(st, n) == ReadAggregate(created)
      modifies this`st
      ensures Inv(st, withSecrets) && Rest(st, n, turns, k, withSecrets) == Drive(old(st), n, turns, j, withSecrets)
      ensures RestWrites(st, n, turns, k, withSecrets) == Writes(old(st), n, turns, j, withSecrets)
      ensures PcOf(st, n) == if proceed then ReadSecret(created) else Idle
    {
      hide Run, Drive, AfterOthers, Writes, WritesAfter, AllElsewhere, AfterAccount, AfterSecrets, Inv;
      k := j;
      var alive := Before(n, turns, k);
      if !alive {
        return false, k;
      }
      ghost var s := st;
      var present := st.aggregate;
      if present && !turns[k].changed {
        Advance(n, ReadSecret(created), None, turns, k, s);
        return true, k + 1;
      }
      Advance(n, if present then UpdateAggregate(created) else CreateAggregate(created), None, turns, k, s);
      proceed := PutAggregate(n, created, present, turns, k + 1);
      k := k + 2;
    }

    method PutAggregate(n: Name, created: bool, present: bool, turns: seq<Turn>, k: nat) returns (proceed: bool)
      requires Inv(st, withSecrets) && AllElsewhere(turns, n)
      requires PcOf(st, n) == if present then UpdateAggregate(created) else CreateAggregate(created)
      modifies this`st
      ensures Inv(st, withSecrets) && Rest(st, n, turns, k + 1, withSecrets) == Drive(old(st), n, turns, k, withSecrets)
      ensures RestWrites(st, n, turns, k + 1, withSecrets) == Writes(old(st), n, turns, k, withSecrets)
      ensures PcOf(st, n) == if proceed then ReadSecret(created) else Idle
    {
      hide Run, Drive, AfterOthers, Writes, WritesAfter, AllElsewhere, AfterAccount, AfterSecrets, Inv;
      var alive := Before(n, turns, k);
      if !alive {
        return false;
      }
      ghost var s := st;
      proceed := st.aggregate == present;
      if proceed {
        st := st.(aggregate := true);
      }
      Advance(n, if proceed then ReadSecret(created) else Idle, if proceed then Some(WroteAggregate) else None, turns, k, s);
    }

    /** The secret in Secret Manager must be Ready; when it is missing, creating it ends the pass. */
    method EnsureSecret(n: Name, created: bool, turns: seq<Turn>, k: nat) returns (proceed: bool)
      requires Inv(st, withSecrets) && AllElsewhere(turns, n) && PcOf(st, n) == ReadSecret(created)
      modifies this`st
      ensures Inv(st, withSecrets) && Rest(st, n, turns, k + 1, withSecrets) == Drive(old(st), n, turns, k, withSecrets)
      ensures RestWrites(st, n, turns, k + 1, withSecrets) == Writes(old(st), n, turns, k, withSecrets)
      ensures PcOf(st, n) == if proceed then ReadVersion(created) else Idle
    {
      hide Run, Drive, AfterOthers, Writes, WritesAfter, AllElsewhere, Inv;
      var alive := Before(n, turns, k);
      if !alive {
        return false;
      }
      ghost var s := st;
      if st.secret.Some? {
        proceed := st.secret.value;
        Advance(n, if proceed then ReadVersion(created) else Idle, if proceed then Some(SawSecretReady) else None,
          turns, k, s);
        return;
      }
      Advance(n, CreateSecret(created), None, turns, k, s);
      proceed := false;
      alive := Before(n, turns, k + 1);
      if !alive {
        return;
      }
      s := st;
      if st.secret.None? {
        st := st.(secret := Some(false));
      }
      Advance(n, Idle, None, turns, k + 1, s);
    }

    /** `CreateOrPatch` of the secret version, and how ready its answer says it is. */
    method WriteVersion(n: Name, created: bool, turns: seq<Turn>, j: nat) returns (proceed: bool, ready: bool, k: nat)
      requires Inv(st, withSecrets) && AllElsewhere(turns, n) && PcOf(st, n) == ReadVersion(created)
      modifies this`st
      ensures Inv(st, withSecrets) && Rest(st, n, turns, k, withSecrets) == Drive(old(st), n, turns, j, withSecrets)
      ensures RestWrites(st, n, turns, k, withSecrets) == Writes(old(st), n, turns, j, withSecrets)
      ensures PcOf(st, n) == if proceed then ReadIamMember(created, ready) else Idle
    {
      hide Run, Drive, AfterOthers, Writes, WritesAfter, AllElsewhere, AfterAccount, AfterSecrets, Inv;
      k, ready := j, false;
      var alive := Before(n, turns, k);
      if !alive {
        return false, ready, k;
      }
      ghost var s := st;
      var present := st.version.Some?;
      if present && !turns[k].changed {
        ready := st.version.value;
        Advance(n, ReadIamMember(created, ready), None, turns, k, s);
        return true, ready, k + 1;
      }
      Advance(n, if present then PatchVersion(created) else CreateVersion(created), None, turns, k, s);
      proceed, ready := PutVersion(n, created, present, turns, k + 1);
      k := k + 2;
    }

    method PutVersion(n: Name, created: bool, present: bool, turns: seq<Turn>, k: nat) returns (proceed: bool, ready: bool)
      requires Inv(st, withSecrets) && AllElsewhere(turns, n)
      requires PcOf(st, n) == if present then PatchVersion(created) else CreateVersion(created)
      modifies this`st
      ensures Inv(st, withSecrets) && Rest(st, n, turns, k + 1, withSecrets) == Drive(old(st), n, turns, k, withSecrets)
      ensures RestWrites(st, n, turns, k + 1, withSecrets) == Writes(old(st), n, turns, k, withSecrets)
      ensures PcOf(st, n) == if proceed then ReadIamMember(created, ready) else Idle
    {
      hide Run, Drive, AfterOthers, Writes, WritesAfter, AllElsewhere, AfterAccount, AfterSecrets, Inv;
      ready := false;
      var alive := Before(n, turns, k);
      if !alive {
        return false, ready;
      }
      ghost var s := st;
      proceed := st.version.Some? == present;
      if proceed && !present {
        st := st.(version := Some(false));
      }
      if proceed {
        ready := st.version.value;
      }
      Advance(n, if proceed then ReadIamMember(created, ready) else Idle,
        if proceed then Some(Event.WroteVersion) else None, turns, k, s);
    }

    /**
     An IAM member that is there is enough. Only after creating one does the pass look at
     readiness, and as the new one is not Ready the pass ends.
    */
    method EnsureIamMember(n: Name, created: bool, versionReady: bool, turns: seq<Turn>, k: nat) returns (proceed: bool)
      requires Inv(st, withSecrets) && AllElsewhere(turns, n) && PcOf(st, n) == ReadIamMember(created, versionReady)
      modifies this`st
      ensures Inv(st, withSecrets) && Rest(st, n, turns, k + 1, withSecrets) == Drive(old(st), n, turns, k, withSecrets)
      ensures RestWrites(st, n, turns, k + 1, withSecrets) == Writes(old(st), n, turns, k, withSecrets)
      ensures PcOf(st, n) == if proceed then AfterSecrets(created) else Idle
    {
      hide Run, Drive, AfterOthers, Writes, WritesAfter, AllElsewhere, Inv;
      var alive := Before(n, turns, k);
      if !alive {
        return false;
      }
      ghost var s := st;
      if st.iamMember.Some? {
        Advance(n, AfterSecrets(created), None, turns, k, s);
        return true;
      }
      Advance(n, CreateIamMember(created, versionReady), None, turns, k, s);
      proceed := false;
      alive := Before(n, turns, k + 1);
      if !alive {
        return;
      }
      s := st;
      if st.iamMember.Some? {
        Advance(n, Idle, None, turns, k + 1, s);
        return;
      }
      st := st.(iamMember := Some(false));
      Advance(n, AfterMember(created, versionReady, st.iamMember.value), Some(WroteIamMember), turns, k + 1, s);
    }

    /** The instance itself, last of all. */
    method CreateOrPatchInstance(n: Name, turns: seq<Turn>, k: nat) returns (written: bool)
      requires Inv(st, withSecrets) && AllElsewhere(turns, n) && PcOf(st, n) == ReadInstance
      modifies this`st
      ensures Inv(st, withSecrets) && st == Drive(old(st), n, turns, k, withSecrets)
      ensures written == Writes(old(st), n, turns, k, withSecrets)
      ensures written ==> Prepared(n, st.log, withSecrets)
    {
      hide Run, Drive, AfterOthers, Writes, WritesAfter, AllElsewhere, Inv;
      written := false;
      var alive := Before(n, turns, k);
      if !alive {
        return;
      }
      ghost var s := st;
      var present := n in st.instances;
      if present && !turns[k].changed {
        Advance(n, Idle, None, turns, k, s);
        return;
      }
      Advance(n, if present then PatchInstance else CreateInstance, None, turns, k, s);
      written := PutInstance(n, present, turns, k + 1);
    }

    method PutInstance(n: Name, present: bool, turns: seq<Turn>, k: nat) returns (written: bool)
      requires Inv(st, withSecrets) && AllElsewhere(turns, n)
      requires PcOf(st, n) == if present then PatchInstance else CreateInstance
      modifies this`st
      ensures Inv(st, withSecrets) && st == Drive(old(st), n, turns, k, withSecrets)
      ensures written == Writes(old(st), n, turns, k, withSecrets)
      ensures written ==> Prepared(n, st.log, withSecrets)
    {
      hide Run, Drive, AfterOthers, Writes, WritesAfter, AllElsewhere, AfterAccount, AfterSecrets, Prepared, Inv;
      var alive := Before(n, turns, k);
      if !alive {
        return false;
      }
      ghost var s := st;
      written := (n in st.instances) == present;
      if written {
        st := st.(instances := st.instances + {n});
        InstanceIsDue(s, n, withSecrets);
      }
      assert present ==> s.instances + {n} == s.instances || n !in s.instances;
      Advance(n, Idle, if written then Some(WroteInstance(n)) else None, turns, k, s);
      if written {
        PreparedStays(n, s.log, WroteInstance(n), withSecrets);
      }
    }
  }

  /** A pass about to write the instance has everything behind it. */
  lemma InstanceIsDue(s: State, n: Name, withSecrets: set<Name>)
    requires Inv(s, withSecrets) && Progress(PcOf(s, n)) == 4
    ensures Prepared(n, s.log, withSecrets)
  {
    assert PcInv(s, n, withSecrets);
  }

  lemma StoppedInv(s: State, n: Name, withSecrets: set<Name>)
    requires Inv(s, withSecrets)
    ensures Inv(Goto(s, n, Idle), withSecrets)
  {
    assert Goto(s, n, Idle) == Step(s, Stop(n), withSecrets);
    StepInv(s, Stop(n), withSecrets);
  }

  lemma PreparedStays(n: Name, log: seq<Event>, e: Event, withSecrets: set<Name>)
    requires Prepared(n, log, withSecrets)
    ensures Prepared(n, log + [e], withSecrets)
  {
  }
}
