/**
 The order in which the instance controller brings the resources of one workload
 into being. Any number of instances of the workload are reconciled at once, each
 pass may stop after any call, and the environment may change or delete any of the
 resources between two calls. The log records what was written and what was seen.
*/
module CreationOrder {
  import opened Options

  type Name = string

  datatype Event =
    | SawServiceAccount(n: Name)   // the pass for `n` read it as created and not failed
    | WroteAggregate               // the downstream secret holding the payload
    | SawSecretReady               // Secret Manager's secret was read as Ready
    | WroteVersion
    | WroteIamMember
    | WroteInstance(n: Name)       // a create or a patch of the downstream instance

  datatype Account = Account(created: bool, failed: bool)

  /** The call a pass makes next; `created` and `versionReady` are what its copies of account and version say. */
  datatype Pc =
    | Idle
    | ReadAccount
    | CreateAccount
    | ReadAggregate(created: bool)
    | CreateAggregate(created: bool)
    | UpdateAggregate(created: bool)
    | ReadSecret(created: bool)
    | CreateSecret(created: bool)
    | ReadVersion(created: bool)
    | CreateVersion(created: bool)
    | PatchVersion(created: bool)
    | ReadIamMember(created: bool, versionReady: bool)
    | CreateIamMember(created: bool, versionReady: bool)
    | ReadInstance
    | CreateInstance
    | PatchInstance

  datatype State = State(
    account: Option<Account>,
    aggregate: bool,
    secret: Option<bool>,          // present, and whether it is Ready
    version: Option<bool>,         // the same for these two
    iamMember: Option<bool>,
    instances: set<Name>,
    pcs: map<Name, Pc>,
    log: seq<Event>)

  const Init := State(None, false, None, None, None, {}, map[], [])

  datatype Action =
    | Call(n: Name, changed: bool)  // `changed`: whether the mutated object differs from the one read
    | Stop(n: Name)                 // an error, an early return or a crash
    | AccountIs(sa: Account)
    | SecretIs(ready: bool)
    | VersionIs(ready: bool)
    | IamMemberIs(ready: bool)
    | DeleteAccount | DeleteAggregate | DeleteSecret | DeleteVersion | DeleteIamMember
    | DeleteInstance(n: Name)

  function PcOf(s: State, n: Name): Pc {
    if n in s.pcs then s.pcs[n] else Idle
  }

  function Goto(s: State, n: Name, pc: Pc): State {
    s.(pcs := s.pcs[n := pc])
  }

  /** What a call does to the state, and the event it leaves behind. */
  datatype Effect = Effect(s: State, event: Option<Event>)

  function Quiet(s: State): Effect {
    Effect(s, None)
  }

  /** The account is read, or just created: a failed one ends the pass, secrets come next if there are any. */
  function AfterAccount(n: Name, sa: Account, withSecrets: set<Name>): Pc {
    if sa.failed then Idle
    else if n in withSecrets then ReadAggregate(sa.created)
    else AfterSecrets(sa.created)
  }

  /** The last check before the instance itself. */
  function AfterSecrets(created: bool): Pc {
    if created then ReadInstance else Idle
  }

  /** The readiness of the version and of the IAM member is looked at right after the member was created, and nowhere else. */
  function AfterMember(created: bool, versionReady: bool, memberReady: bool): Pc {
    if !versionReady then Idle
    else if !memberReady then Idle
    else AfterSecrets(created)
  }

  /** One call of the pass for `n`; `withSecrets` holds the instances that have secret volumes. */
  function CallEffect(s: State, n: Name, changed: bool, withSecrets: set<Name>): Effect {
    match PcOf(s, n)
    case Idle => Quiet(Goto(s, n, ReadAccount))
    case ReadAccount =>
      if s.account.None? then Quiet(Goto(s, n, CreateAccount))
      else
        var sa := s.account.value;
        Effect(Goto(s, n, AfterAccount(n, sa, withSecrets)),
               if sa.created && !sa.failed then Some(SawServiceAccount(n)) else None)
    case CreateAccount =>
      var sa := Account(false, false);
      if s.account.Some? then Quiet(Goto(s, n, Idle))
      else Quiet(Goto(s.(account := Some(sa)), n, AfterAccount(n, sa, withSecrets)))
    case ReadAggregate(created) =>
      Quiet(Goto(s, n,
        if !s.aggregate then CreateAggregate(created)
        else if changed then UpdateAggregate(created)
        else ReadSecret(created)))
    case CreateAggregate(created) =>
      if s.aggregate then Quiet(Goto(s, n, Idle))
      else Effect(Goto(s.(aggregate := true), n, ReadSecret(created)), Some(WroteAggregate))
    case UpdateAggregate(created) =>
      if !s.aggregate then Quiet(Goto(s, n, Idle))
      else Effect(Goto(s, n, ReadSecret(created)), Some(WroteAggregate))
    case ReadSecret(created) =>
      if s.secret.None? then Quiet(Goto(s, n, CreateSecret(created)))
      else if s.secret.value then Effect(Goto(s, n, ReadVersion(created)), Some(SawSecretReady))
      else Quiet(Goto(s, n, Idle))
    case CreateSecret(_) =>
      // Just created, it is not Ready: the pass ends either way.
      Quiet(Goto(if s.secret.None? then s.(secret := Some(false)) else s, n, Idle))
    case ReadVersion(created) =>
      Quiet(Goto(s, n,
        if s.version.None? then CreateVersion(created)
        else if changed then PatchVersion(created)
        else ReadIamMember(created, s.version.value)))
    case CreateVersion(created) =>
      if s.version.Some? then Quiet(Goto(s, n, Idle))
      else Effect(Goto(s.(version := Some(false)), n, ReadIamMember(created, false)), Some(WroteVersion))
    case PatchVersion(created) =>
      if s.version.None? then Quiet(Goto(s, n, Idle))
      else Effect(Goto(s, n, ReadIamMember(created, s.version.value)), Some(WroteVersion))
    case ReadIamMember(created, versionReady) =>
      Quiet(Goto(s, n, if s.iamMember.None? then CreateIamMember(created, versionReady) else AfterSecrets(created)))
    case CreateIamMember(created, versionReady) =>
      // A member just created is not Ready.
      if s.iamMember.Some? then Quiet(Goto(s, n, Idle))
      else Effect(Goto(s.(iamMember := Some(false)), n, AfterMember(created, versionReady, false)), Some(WroteIamMember))
    case ReadInstance =>
      Quiet(Goto(s, n, if n !in s.instances then CreateInstance else if changed then PatchInstance else Idle))
    case CreateInstance =>
      if n in s.instances then Quiet(Goto(s, n, Idle))
      else Effect(Goto(s.(instances := s.instances + {n}), n, Idle), Some(WroteInstance(n)))
    case PatchInstance =>
      if n !in s.instances then Quiet(Goto(s, n, Idle))
      else Effect(Goto(s, n, Idle), Some(WroteInstance(n)))
  }

  function Commit(r: Effect): State {
    if r.event.None? then r.s else r.s.(log := r.s.log + [r.event.value])
  }

  function CallStep(s: State, n: Name, changed: bool, withSecrets: set<Name>): State {
    Commit(CallEffect(s, n, changed, withSecrets))
  }

  function Step(s: State, a: Action, withSecrets: set<Name>): State {
    match a
    case Call(n, changed) => CallStep(s, n, changed, withSecrets)
    case Stop(n) => Goto(s, n, Idle)
    case AccountIs(sa) => if s.account.Some? then s.(account := Some(sa)) else s
    case SecretIs(ready) => if s.secret.Some? then s.(secret := Some(ready)) else s
    case VersionIs(ready) => if s.version.Some? then s.(version := Some(ready)) else s
    case IamMemberIs(ready) => if s.iamMember.Some? then s.(iamMember := Some(ready)) else s
    case DeleteAccount => s.(account := None)
    case DeleteAggregate => s.(aggregate := false)
    case DeleteSecret => s.(secret := None)
    case DeleteVersion => s.(version := None)
    case DeleteIamMember => s.(iamMember := None)
    case DeleteInstance(n) => s.(instances := s.instances - {n})
  }

  function Run(s: State, run: seq<Action>, withSecrets: set<Name>): State
    decreases |run|
  {
    if run == [] then s else Step(Run(s, run[..|run| - 1], withSecrets), run[|run| - 1], withSecrets)
  }

  // ---------------------------------------------------------------- order

  /** The order in which the secret's resources must come. */
  function Link(k: nat): Event
    requires k < 4
  {
    if k == 0 then WroteAggregate
    else if k == 1 then SawSecretReady
    else if k == 2 then WroteVersion
    else WroteIamMember
  }

  function Extended(k: nat, e: Event): nat {
    if k < 4 && e == Link(k) then k + 1 else k
  }

  /** How many links occur in `log`, in order, with anything in between. */
  function Links(log: seq<Event>): nat
    decreases |log|
  {
    if log == [] then 0 else Extended(Links(log[..|log| - 1]), log[|log| - 1])
  }

  /** What must have happened before a write of the instance `n`. */
  predicate Prepared(n: Name, log: seq<Event>, withSecrets: set<Name>) {
    SawServiceAccount(n) in log && (n in withSecrets ==> Links(log) == 4)
  }

  ghost predicate Ordered(log: seq<Event>, withSecrets: set<Name>) {
    forall k | 0 <= k < |log| && log[k].WroteInstance? :: Prepared(log[k].n, log[..k], withSecrets)
  }

  /** How many links a pass standing at `pc` can rely on. */
  function Progress(pc: Pc): nat {
    match pc
    case Idle | ReadAccount | CreateAccount | ReadAggregate(_) | CreateAggregate(_) | UpdateAggregate(_) => 0
    case ReadSecret(_) | CreateSecret(_) => 1
    case ReadVersion(_) | CreateVersion(_) | PatchVersion(_) => 2
    case ReadIamMember(_, _) | CreateIamMember(_, _) => 3
    case ReadInstance | CreateInstance | PatchInstance => 4
  }

  /** The pass for `n` may stand at `pc` after `k` links, `seen` telling whether it saw its account. */
  predicate PassFits(pc: Pc, withSecrets: bool, k: nat, seen: bool) {
    && (withSecrets ==> k >= Progress(pc))
    && (Progress(pc) == 4 ==> seen)
    && (!pc.Idle? && !pc.ReadAccount? && !pc.CreateAccount? && Progress(pc) < 4 ==>
      withSecrets && (pc.created ==> seen))
  }

  /** What the existence of an object tells about the links that came before. */
  predicate ObjectsFit(s: State, k: nat) {
    && (s.aggregate ==> k >= 1)
    && (s.version.Some? ==> k >= 3)
    && (s.iamMember.Some? ==> k >= 4)
  }

  ghost predicate PcInv(s: State, n: Name, withSecrets: set<Name>) {
    PassFits(PcOf(s, n), n in withSecrets, Links(s.log), SawServiceAccount(n) in s.log)
  }

  ghost predicate Inv(s: State, withSecrets: set<Name>) {
    && Links(s.log) <= 4
    && ObjectsFit(s, Links(s.log))
    && (forall n :: PcInv(s, n, withSecrets))
    && Ordered(s.log, withSecrets)
  }

  /** `r` moves only the pass for `n`, which still fits, and a write of the instance was due. */
  ghost predicate Fits(s: State, r: Effect, n: Name, withSecrets: set<Name>, k: nat, seen: bool) {
    var k' := if r.event.None? then k else Extended(k, r.event.value);
    && r.s.log == s.log && r.s.pcs == s.pcs[n := PcOf(r.s, n)]
    && PassFits(PcOf(r.s, n), n in withSecrets, k', seen || r.event == Some(SawServiceAccount(n)))
    && ObjectsFit(r.s, k')
    && (r.event.Some? && r.event.value.WroteInstance? ==>
      r.event.value.n == n && seen && (n in withSecrets ==> k == 4))
  }

  /** The calls up to the service account. */
  lemma AccountCallFits(s: State, n: Name, changed: bool, withSecrets: set<Name>, k: nat, seen: bool)
    requires PassFits(PcOf(s, n), n in withSecrets, k, seen) && ObjectsFit(s, k) && k <= 4
    requires PcOf(s, n).Idle? || PcOf(s, n).ReadAccount? || PcOf(s, n).CreateAccount?
    ensures Fits(s, CallEffect(s, n, changed, withSecrets), n, withSecrets, k, seen)
  {
  }

  /** The calls on the aggregated secret. */
  lemma AggregateCallFits(s: State, n: Name, changed: bool, withSecrets: set<Name>, k: nat, seen: bool)
    requires PassFits(PcOf(s, n), n in withSecrets, k, seen) && ObjectsFit(s, k) && k <= 4
    requires PcOf(s, n).ReadAggregate? || PcOf(s, n).CreateAggregate? || PcOf(s, n).UpdateAggregate?
    ensures Fits(s, CallEffect(s, n, changed, withSecrets), n, withSecrets, k, seen)
  {
  }

  /** The calls on the Secret Manager secret. */
  lemma SecretCallFits(s: State, n: Name, changed: bool, withSecrets: set<Name>, k: nat, seen: bool)
    requires PassFits(PcOf(s, n), n in withSecrets, k, seen) && ObjectsFit(s, k) && k <= 4
    requires Progress(PcOf(s, n)) == 1
    ensures Fits(s, CallEffect(s, n, changed, withSecrets), n, withSecrets, k, seen)
  {
  }

  /** The calls from the version to the IAM member. */
  lemma VersionCallFits(s: State, n: Name, changed: bool, withSecrets: set<Name>, k: nat, seen: bool)
    requires PassFits(PcOf(s, n), n in withSecrets, k, seen) && ObjectsFit(s, k) && k <= 4
    requires 2 <= Progress(PcOf(s, n)) <= 3
    ensures Fits(s, CallEffect(s, n, changed, withSecrets), n, withSecrets, k, seen)
  {
  }

  /** The calls on the instance itself. */
  lemma InstanceCallFits(s: State, n: Name, changed: bool, withSecrets: set<Name>, k: nat, seen: bool)
    requires PassFits(PcOf(s, n), n in withSecrets, k, seen) && ObjectsFit(s, k) && k <= 4
    requires Progress(PcOf(s, n)) == 4
    ensures Fits(s, CallEffect(s, n, changed, withSecrets), n, withSecrets, k, seen)
  {
  }

  /** One more event keeps the order, if it was due. */
  lemma OrderGrows(log: seq<Event>, e: Event, withSecrets: set<Name>)
    requires Ordered(log, withSecrets) && (e.WroteInstance? ==> Prepared(e.n, log, withSecrets))
    ensures Ordered(log + [e], withSecrets) && Links(log + [e]) == Extended(Links(log), e)
  {
    hide Prepared, Extended;
    var longer := log + [e];
    assert longer[..|log|] == log;
    forall k | 0 <= k < |longer| && longer[k].WroteInstance?
      ensures Prepared(longer[k].n, longer[..k], withSecrets)
    {
      assert k < |log| ==> longer[..k] == log[..k];
    }
  }

  /** A pass may rely on what it relied on before. */
  lemma FitsLater(pc: Pc, withSecrets: bool, k: nat, seen: bool, k': nat, seen': bool)
    requires PassFits(pc, withSecrets, k, seen) && k <= k' && (seen ==> seen')
    ensures PassFits(pc, withSecrets, k', seen')
  {
  }

  lemma CommitInv(s: State, r: Effect, n: Name, withSecrets: set<Name>)
    requires Inv(s, withSecrets)
    requires Fits(s, r, n, withSecrets, Links(s.log), SawServiceAccount(n) in s.log)
    ensures Inv(Commit(r), withSecrets)
  {
    hide Ordered, Links, PassFits;
    var s' := Commit(r);
    if r.event.Some? {
      OrderGrows(s.log, r.event.value, withSecrets);
    }
    forall m ensures PcInv(s', m, withSecrets) {
      assert PcInv(s, m, withSecrets);
      if m != n {
        FitsLater(PcOf(s, m), m in withSecrets, Links(s.log), SawServiceAccount(m) in s.log,
                  Links(s'.log), SawServiceAccount(m) in s'.log);
      } else if r.event.Some? {
        assert r.event.value == SawServiceAccount(n) ==> s'.log[|s.log|] == SawServiceAccount(n);
      }
    }
  }

  lemma CallInv(s: State, n: Name, changed: bool, withSecrets: set<Name>)
    requires Inv(s, withSecrets)
    ensures Inv(CallStep(s, n, changed, withSecrets), withSecrets)
  {
    assert PcInv(s, n, withSecrets);
    var (pc, k, seen) := (PcOf(s, n), Links(s.log), SawServiceAccount(n) in s.log);
    if pc.Idle? || pc.ReadAccount? || pc.CreateAccount? {
      AccountCallFits(s, n, changed, withSecrets, k, seen);
    } else if Progress(pc) == 0 {
      AggregateCallFits(s, n, changed, withSecrets, k, seen);
    } else if Progress(pc) == 1 {
      SecretCallFits(s, n, changed, withSecrets, k, seen);
    } else if Progress(pc) <= 3 {
      VersionCallFits(s, n, changed, withSecrets, k, seen);
    } else {
      InstanceCallFits(s, n, changed, withSecrets, k, seen);
    }
    CommitInv(s, CallEffect(s, n, changed, withSecrets), n, withSecrets);
  }

  lemma StepInv(s: State, a: Action, withSecrets: set<Name>)
    requires Inv(s, withSecrets)
    ensures Inv(Step(s, a, withSecrets), withSecrets)
  {
    if a.Call? {
      CallInv(s, a.n, a.changed, withSecrets);
    } else {
      forall m ensures PcInv(Step(s, a, withSecrets), m, withSecrets) {
        assert PcInv(s, m, withSecrets);
      }
    }
  }

  lemma InitInv(withSecrets: set<Name>)
    ensures Inv(Init, withSecrets)
  {
  }

  lemma {:induction false} RunInv(s: State, run: seq<Action>, withSecrets: set<Name>)
    requires Inv(s, withSecrets)
    ensures Inv(Run(s, run, withSecrets), withSecrets)
    decreases |run|
  {
    hide Inv, Step;
    if run != [] {
      RunInv(s, run[..|run| - 1], withSecrets);
      StepInv(Run(s, run[..|run| - 1], withSecrets), run[|run| - 1], withSecrets);
    }
  }

  /** What the log says of a call is what the call did. */
  lemma EventsAreTrue(s: State, n: Name, changed: bool, withSecrets: set<Name>)
    ensures var r := CallEffect(s, n, changed, withSecrets);
      r.event.Some? ==>
        match r.event.value
        case SawServiceAccount(m) => m == n && PcOf(s, n).ReadAccount? && s.account == Some(Account(true, false))
        case WroteAggregate => r.s.aggregate
        case SawSecretReady => s.secret == Some(true)
        case WroteVersion => r.s.version.Some?
        case WroteIamMember => s.iamMember.None? && r.s.iamMember.Some?
        case WroteInstance(m) => m == n && n in r.s.instances
  {
    hide AfterAccount, AfterSecrets, AfterMember;
  }

  /** The call is a create of something that has come into being meanwhile, or a write of something that has gone. */
  predicate Refused(s: State, n: Name) {
    var pc := PcOf(s, n);
    || (pc.CreateAccount? && s.account.Some?)
    || (pc.CreateAggregate? && s.aggregate) || (pc.UpdateAggregate? && !s.aggregate)
    || (pc.CreateSecret? && s.secret.Some?)
    || (pc.CreateVersion? && s.version.Some?) || (pc.PatchVersion? && s.version.None?)
    || (pc.CreateIamMember? && s.iamMember.Some?)
    || (pc.CreateInstance? && n in s.instances) || (pc.PatchInstance? && n !in s.instances)
  }

  /** Then the API server refuses it, nothing is changed or logged, and the pass ends. */
  lemma RefusedEndsPass(s: State, n: Name, changed: bool, withSecrets: set<Name>)
    requires Refused(s, n)
    ensures CallStep(s, n, changed, withSecrets) == Goto(s, n, Idle)
  {
    hide AfterAccount, AfterSecrets, AfterMember;
    match PcOf(s, n)
    case CreateAccount =>
    case CreateAggregate(_) =>
    case UpdateAggregate(_) =>
    case CreateSecret(_) =>
    case CreateVersion(_) =>
    case PatchVersion(_) =>
    case CreateIamMember(_, _) =>
    case CreateInstance =>
    case PatchInstance =>
  }

  /** Nothing is taken away or replaced; what is new is neither created at the provider nor Ready. */
  predicate OnlyAdds(s: State, t: State, n: Name) {
    && (t.account == s.account || (s.account.None? && t.account == Some(Account(false, false))))
    && (s.aggregate ==> t.aggregate)
    && (t.secret == s.secret || (s.secret.None? && t.secret == Some(false)))
    && (t.version == s.version || (s.version.None? && t.version == Some(false)))
    && (t.iamMember == s.iamMember || (s.iamMember.None? && t.iamMember == Some(false)))
    && s.instances <= t.instances <= s.instances + {n}
  }

  /** No call of a pass does more than that. */
  lemma CallsOnlyAdd(s: State, n: Name, changed: bool, withSecrets: set<Name>)
    ensures OnlyAdds(s, CallStep(s, n, changed, withSecrets), n)
  {
    hide CallEffect, Commit;
    CommitKeeps(CallEffect(s, n, changed, withSecrets));
    if Progress(PcOf(s, n)) < 2 {
      EarlyCallsOnlyAdd(s, n, changed, withSecrets);
    } else {
      LateCallsOnlyAdd(s, n, changed, withSecrets);
    }
  }

  lemma EarlyCallsOnlyAdd(s: State, n: Name, changed: bool, withSecrets: set<Name>)
    requires Progress(PcOf(s, n)) < 2
    ensures OnlyAdds(s, CallEffect(s, n, changed, withSecrets).s, n)
  {
    hide AfterAccount, AfterSecrets;
  }

  lemma LateCallsOnlyAdd(s: State, n: Name, changed: bool, withSecrets: set<Name>)
    requires Progress(PcOf(s, n)) >= 2
    ensures OnlyAdds(s, CallEffect(s, n, changed, withSecrets).s, n)
  {
    hide AfterSecrets, AfterMember;
  }

  /** After the member was created, the pass would go on only with both of them Ready. */
  lemma AfterMemberExactly(created: bool, versionReady: bool, memberReady: bool)
    ensures AfterMember(created, versionReady, memberReady) ==
      if created && versionReady && memberReady then ReadInstance else Idle
  {
  }

  /** The positions of the first `|at|` links. */
  lemma {:induction false} LinksAt(log: seq<Event>) returns (at: seq<nat>)
    ensures |at| == Links(log) <= 4
    ensures forall i | 0 <= i < |at| :: at[i] < |log| && log[at[i]] == Link(i)
    ensures forall i, j | 0 <= i < j < |at| :: at[i] < at[j]
    decreases |log|
  {
    if log == [] {
      at := [];
    } else {
      var last := |log| - 1;
      at := LinksAt(log[..last]);
      if |at| < 4 && log[last] == Link(|at|) {
        at := at + [last];
      }
    }
  }

  /**
   Whatever the interleaving and however many passes were cut short, a write of the
   instance `n` comes after its service account was seen created and not failed and,
   when it has secret volumes, after the aggregated secret was written, the secret seen
   Ready, the version written and the IAM member written, in this order.
  */
  lemma InstanceComesLast(run: seq<Action>, withSecrets: set<Name>, k: nat, n: Name)
      returns (sa: nat, a: nat, b: nat, c: nat, d: nat)
    requires var log := Run(Init, run, withSecrets).log; k < |log| && log[k] == WroteInstance(n)
    ensures var log := Run(Init, run, withSecrets).log;
      && sa < k && log[sa] == SawServiceAccount(n)
      && (n in withSecrets ==>
        && a < b < c < d < k
        && log[a] == WroteAggregate && log[b] == SawSecretReady
        && log[c] == WroteVersion && log[d] == WroteIamMember)
  {
    InitInv(withSecrets);
    RunInv(Init, run, withSecrets);
    var log := Run(Init, run, withSecrets).log;
    assert Prepared(n, log[..k], withSecrets);
    sa :| 0 <= sa < k && log[sa] == SawServiceAccount(n);
    a, b, c, d := 0, 0, 0, 0;
    if n in withSecrets {
      var at := LinksAt(log[..k]);
      a, b, c, d := at[0], at[1], at[2], at[3];
    }
  }

  // ---------------------------------------------------------------- progress

  /** An upper bound on the calls left in a pass. */
  function CallsLeft(pc: Pc): nat {
    match pc
    case Idle => 0
    case CreateInstance | PatchInstance | CreateIamMember(_, _) | CreateSecret(_) => 1
    case ReadInstance => 2
    case ReadIamMember(_, _) => 3
    case CreateVersion(_) | PatchVersion(_) => 4
    case ReadVersion(_) => 5
    case ReadSecret(_) => 6
    case CreateAggregate(_) | UpdateAggregate(_) => 7
    case ReadAggregate(_) => 8
    case CreateAccount => 9
    case ReadAccount => 10
  }

  lemma CommitKeeps(r: Effect)
    ensures var s := Commit(r);
      && s.pcs == r.s.pcs && s.instances == r.s.instances
      && s.account == r.s.account && s.aggregate == r.s.aggregate && s.secret == r.s.secret
      && s.version == r.s.version && s.iamMember == r.s.iamMember
  {
  }

  lemma CallProgresses(s: State, n: Name, changed: bool, withSecrets: set<Name>)
    requires PcOf(s, n) != Idle
    ensures CallsLeft(PcOf(CallStep(s, n, changed, withSecrets), n)) < CallsLeft(PcOf(s, n))
  {
    hide Commit, CallEffect, CallsLeft;
    CommitKeeps(CallEffect(s, n, changed, withSecrets));
    if Progress(PcOf(s, n)) == 0 {
      EarlyProgresses(s, n, changed, withSecrets);
    } else {
      LateProgresses(s, n, changed, withSecrets);
    }
  }

  lemma EarlyProgresses(s: State, n: Name, changed: bool, withSecrets: set<Name>)
    requires PcOf(s, n) != Idle && Progress(PcOf(s, n)) == 0
    ensures CallsLeft(PcOf(CallEffect(s, n, changed, withSecrets).s, n)) < CallsLeft(PcOf(s, n))
  {
  }

  lemma LateProgresses(s: State, n: Name, changed: bool, withSecrets: set<Name>)
    requires Progress(PcOf(s, n)) > 0
    ensures CallsLeft(PcOf(CallEffect(s, n, changed, withSecrets).s, n)) < CallsLeft(PcOf(s, n))
  {
  }

  /** The rest of the pass in flight for `n`, undisturbed. */
  function Finish(s: State, n: Name, changed: bool, withSecrets: set<Name>): State
    decreases CallsLeft(PcOf(s, n))
  {
    if PcOf(s, n) == Idle then s
    else
      CallProgresses(s, n, changed, withSecrets);
      Finish(CallStep(s, n, changed, withSecrets), n, changed, withSecrets)
  }

  function Pass(s: State, n: Name, changed: bool, withSecrets: set<Name>): State {
    Finish(CallStep(s, n, changed, withSecrets), n, changed, withSecrets)
  }

  /** The instance is written when it is missing or not as it should be; so are the version and the aggregated secret. */
  function InstanceEvents(there: bool, n: Name, changed: bool): seq<Event> {
    if !there || changed then [WroteInstance(n)] else []
  }

  function VersionEvents(there: bool, changed: bool): seq<Event> {
    if !there || changed then [WroteVersion] else []
  }

  function AggregateEvents(there: bool, changed: bool): seq<Event> {
    if !there || changed then [WroteAggregate] else []
  }

  /** What the rest of a pass writes and sees, when it gets through. */
  function EventsFrom(s: State, n: Name, changed: bool): seq<Event> {
    match PcOf(s, n)
    case ReadAggregate(_) => AggregateEvents(s.aggregate, changed) + FromSecret(s, n, changed)
    case CreateAggregate(_) | UpdateAggregate(_) => [WroteAggregate] + FromSecret(s, n, changed)
    case ReadSecret(_) => FromSecret(s, n, changed)
    case ReadVersion(_) => FromVersion(s, n, changed)
    case CreateVersion(_) | PatchVersion(_) => [WroteVersion] + InstanceEvents(n in s.instances, n, changed)
    case _ => InstanceEvents(n in s.instances, n, changed)
  }

  function FromSecret(s: State, n: Name, changed: bool): seq<Event> {
    [SawSecretReady] + FromVersion(s, n, changed)
  }

  function FromVersion(s: State, n: Name, changed: bool): seq<Event> {
    VersionEvents(s.version.Some?, changed) + InstanceEvents(n in s.instances, n, changed)
  }

  /** The pass has got through: the instance is there, nothing was taken away, and the log says what was written. */
  ghost predicate Through(s: State, s': State, n: Name, events: seq<Event>) {
    && s'.instances == s.instances + {n} && s'.log == s.log + events
    && s'.account == s.account && s'.secret == s.secret && s'.iamMember == s.iamMember
    && (s.aggregate ==> s'.aggregate) && (s.version.Some? ==> s'.version == s.version)
  }

  /** A pass at the instance ends with the instance there, written if it has to be. */
  lemma InstanceIsWritten(s: State, n: Name, changed: bool, withSecrets: set<Name>)
    requires PcOf(s, n).ReadInstance?
    ensures Through(s, Finish(s, n, changed, withSecrets), n, InstanceEvents(n in s.instances, n, changed))
  {
    var s1 := CallStep(s, n, changed, withSecrets);
    if PcOf(s1, n) != Idle {
      assert Finish(s1, n, changed, withSecrets) == CallStep(s1, n, changed, withSecrets);
    }
  }

  /** The pass for `n` is working on the secrets, has seen the account created, and nothing is in its way. */
  ghost predicate Unhindered(s: State, n: Name) {
    var pc := PcOf(s, n);
    && (pc.ReadAggregate? || pc.CreateAggregate? || pc.UpdateAggregate? || pc.ReadSecret?
        || pc.ReadVersion? || pc.CreateVersion? || pc.PatchVersion? || pc.ReadIamMember?)
    && pc.created && s.iamMember.Some? && s.secret == Some(true)
    && (pc.CreateAggregate? ==> !s.aggregate) && (pc.UpdateAggregate? || Progress(pc) > 0 ==> s.aggregate)
    && (pc.CreateVersion? ==> s.version.None?) && (pc.PatchVersion? || pc.ReadIamMember? ==> s.version.Some?)
  }

  /** What a call keeps of the resources. */
  predicate Spares(s: State, s': State) {
    && s'.instances == s.instances && s'.account == s.account && s'.secret == s.secret && s'.iamMember == s.iamMember
    && (s.aggregate ==> s'.aggregate) && (s.version.Some? ==> s'.version == s.version)
  }

  /** One call, and what it leaves to the rest of the pass. */
  lemma AggregateRead(s: State, n: Name, changed: bool, withSecrets: set<Name>)
    requires Unhindered(s, n) && PcOf(s, n).ReadAggregate?
    ensures var s1 := CallStep(s, n, changed, withSecrets);
      Unhindered(s1, n) && Spares(s, s1) && s.log == s1.log && EventsFrom(s, n, changed) == EventsFrom(s1, n, changed)
  {
    hide FromSecret;
    var s1 := CallStep(s, n, changed, withSecrets);
    assert s1 == Goto(s, n, PcOf(s1, n));
    assert FromSecret(s1, n, changed) == FromSecret(s, n, changed) by { SameFromSecret(s, s1, n, changed); }
    assert [] + FromSecret(s, n, changed) == FromSecret(s, n, changed);
  }

  lemma SameFromSecret(s: State, s1: State, n: Name, changed: bool)
    requires s1.version == s.version && s1.instances == s.instances
    ensures FromSecret(s1, n, changed) == FromSecret(s, n, changed)
  {
  }

  lemma AggregateWritten(s: State, n: Name, changed: bool, withSecrets: set<Name>)
    requires Unhindered(s, n) && (PcOf(s, n).CreateAggregate? || PcOf(s, n).UpdateAggregate?)
    ensures var s1 := CallStep(s, n, changed, withSecrets);
      && Unhindered(s1, n) && Spares(s, s1) && s1.log == s.log + [WroteAggregate]
      && EventsFrom(s, n, changed) == [WroteAggregate] + EventsFrom(s1, n, changed)
  {
    hide FromSecret;
    SameFromSecret(s, CallStep(s, n, changed, withSecrets), n, changed);
  }

  lemma SecretCall(s: State, n: Name, changed: bool, withSecrets: set<Name>)
    requires Unhindered(s, n) && PcOf(s, n).ReadSecret?
    ensures var s1 := CallStep(s, n, changed, withSecrets);
      && Unhindered(s1, n) && Spares(s, s1) && s1.log == s.log + [SawSecretReady]
      && EventsFrom(s, n, changed) == [SawSecretReady] + EventsFrom(s1, n, changed)
  {
    hide InstanceEvents, VersionEvents;
  }

  lemma VersionCall(s: State, n: Name, changed: bool, withSecrets: set<Name>)
    requires Unhindered(s, n) && Progress(PcOf(s, n)) >= 2
    ensures var s1 := CallStep(s, n, changed, withSecrets);
      && (if PcOf(s, n).ReadIamMember? then PcOf(s1, n).ReadInstance? && s1.aggregate && s1.version.Some? else Unhindered(s1, n))
      && Spares(s, s1) && s.log + EventsFrom(s, n, changed) == s1.log + EventsFrom(s1, n, changed)
  {
    hide InstanceEvents;
    match PcOf(s, n)
    case ReadVersion(_) =>
    case CreateVersion(_) =>
    case PatchVersion(_) =>
    case ReadIamMember(_, _) =>
  }

  lemma {:induction false} SecretsArePassed(s: State, n: Name, changed: bool, withSecrets: set<Name>)
    requires Unhindered(s, n)
    ensures var s' := Finish(s, n, changed, withSecrets);
      Through(s, s', n, EventsFrom(s, n, changed)) && s'.aggregate && s'.version.Some?
    decreases CallsLeft(PcOf(s, n))
  {
    hide CallStep, InstanceEvents, VersionEvents, AggregateEvents, CallsLeft;
    CallProgresses(s, n, changed, withSecrets);
    var s1 := CallStep(s, n, changed, withSecrets);
    if Progress(PcOf(s, n)) == 0 {
      if PcOf(s, n).ReadAggregate? {
        AggregateRead(s, n, changed, withSecrets);
      } else {
        AggregateWritten(s, n, changed, withSecrets);
      }
      SecretsArePassed(s1, n, changed, withSecrets);
    } else if Progress(PcOf(s, n)) == 1 {
      SecretCall(s, n, changed, withSecrets);
      SecretsArePassed(s1, n, changed, withSecrets);
    } else {
      VersionCall(s, n, changed, withSecrets);
      if PcOf(s, n).ReadIamMember? {
        InstanceIsWritten(s1, n, changed, withSecrets);
      } else {
        SecretsArePassed(s1, n, changed, withSecrets);
      }
    }
  }

  /**
   Once the account is created and has not failed and, with secret volumes, the secret is
   Ready and the IAM member there, Ready or not, an undisturbed pass brings up the instance.
   It writes the aggregated secret, the version and the instance, in this order, each of
   them exactly when it is missing or not as it should be, and nothing else.
  */
  lemma PassCompletes(s: State, n: Name, changed: bool, withSecrets: set<Name>)
    requires PcOf(s, n) == Idle && s.account == Some(Account(true, false))
    requires n in withSecrets ==> s.secret == Some(true) && s.iamMember.Some?
    ensures var s' := Pass(s, n, changed, withSecrets);
      && Through(s, s', n, [SawServiceAccount(n)]
          + (if n in withSecrets
             then AggregateEvents(s.aggregate, changed) + [SawSecretReady] + VersionEvents(s.version.Some?, changed)
             else [])
          + InstanceEvents(n in s.instances, n, changed))
      && (n in withSecrets ==> s'.aggregate && s'.version.Some?)
  {
    FirstCalls(s, n, changed, withSecrets);
    hide CallStep, InstanceEvents, VersionEvents, AggregateEvents, Finish;
    var s2 := CallStep(CallStep(s, n, changed, withSecrets), n, changed, withSecrets);
    if n in withSecrets {
      SecretsArePassed(s2, n, changed, withSecrets);
    } else {
      InstanceIsWritten(s2, n, changed, withSecrets);
    }
  }

  /** Up to the sight of the account. */
  lemma FirstCalls(s: State, n: Name, changed: bool, withSecrets: set<Name>)
    requires PcOf(s, n) == Idle && s.account == Some(Account(true, false))
    ensures var s2 := CallStep(CallStep(s, n, changed, withSecrets), n, changed, withSecrets);
      && Pass(s, n, changed, withSecrets) == Finish(s2, n, changed, withSecrets)
      && PcOf(s2, n) == (if n in withSecrets then ReadAggregate(true) else ReadInstance)
      && s2 == s.(pcs := s2.pcs, log := s.log + [SawServiceAccount(n)])
  {
    var s1 := CallStep(s, n, changed, withSecrets);
    var s2 := CallStep(s1, n, changed, withSecrets);
    assert PcOf(s1, n) == ReadAccount;
    assert Finish(s1, n, changed, withSecrets) == Finish(s2, n, changed, withSecrets);
  }

  // ---------------------------------------------------------------- one pass

  /** What a pass has to get past itself before it may write the instance. */
  datatype Stage = AccountSeen | AggregateEnsured | SecretSeen | VersionEnsured | MemberFound

  function Rank(stage: Stage): nat {
    match stage
    case AccountSeen => 0
    case AggregateEnsured => 1
    case SecretSeen => 2
    case VersionEnsured => 3
    case MemberFound => 4
  }

  /** How many stages a pass standing at `pc` has behind it; none if it is bound to end, as after creating the IAM member. */
  function Passed(pc: Pc): nat {
    match pc
    case Idle | ReadAccount | CreateAccount | CreateSecret(_) | CreateIamMember(_, _) => 0
    case ReadAggregate(created) => if created then 1 else 0
    case CreateAggregate(created) => if created then 1 else 0
    case UpdateAggregate(created) => if created then 1 else 0
    case ReadSecret(created) => if created then 2 else 0
    case ReadVersion(created) => if created then 3 else 0
    case CreateVersion(created) => if created then 3 else 0
    case PatchVersion(created) => if created then 3 else 0
    case ReadIamMember(created, _) => if created then 4 else 0
    case ReadInstance | CreateInstance | PatchInstance => 5
  }

  /**
   In `s`, the action is the pass for `n` getting past the stage: reading the account as
   created and not failed, finding the aggregated secret as it should be or writing it,
   reading the secret as Ready, finding the version as it should be or writing it, and
   finding the IAM member.
  */
  predicate Achieves(s: State, a: Action, n: Name, stage: Stage) {
    var pc := PcOf(s, n);
    && a.Call? && a.n == n
    && match stage
       case AccountSeen => pc.ReadAccount? && s.account == Some(Account(true, false))
       case AggregateEnsured =>
         || (pc.ReadAggregate? && s.aggregate && !a.changed)
         || (pc.CreateAggregate? && !s.aggregate) || (pc.UpdateAggregate? && s.aggregate)
       case SecretSeen => pc.ReadSecret? && s.secret == Some(true)
       case VersionEnsured =>
         || (pc.ReadVersion? && s.version.Some? && !a.changed)
         || (pc.CreateVersion? && s.version.None?) || (pc.PatchVersion? && s.version.Some?)
       case MemberFound => pc.ReadIamMember? && s.iamMember.Some?
  }

  /** In `s`, the action is the pass for `n` writing the instance. */
  predicate WritesInstance(s: State, a: Action, n: Name, withSecrets: set<Name>) {
    a.Call? && a.n == n && CallEffect(s, n, a.changed, withSecrets).event == Some(WroteInstance(n))
  }

  /** The stages a pass for `n` has to go through. */
  predicate Needed(stage: Stage, n: Name, withSecrets: set<Name>) {
    stage.AccountSeen? || n in withSecrets
  }

  lemma OwnCallPasses(s: State, n: Name, changed: bool, withSecrets: set<Name>, stage: Stage)
    requires Needed(stage, n, withSecrets)
    requires Passed(PcOf(CallEffect(s, n, changed, withSecrets).s, n)) > Rank(stage)
    ensures Passed(PcOf(s, n)) > Rank(stage) || Achieves(s, Call(n, changed), n, stage)
  {
    match PcOf(s, n)
    case Idle =>
    case ReadAccount =>
    case CreateAccount =>
    case ReadAggregate(_) =>
    case CreateAggregate(_) =>
    case UpdateAggregate(_) =>
    case ReadSecret(_) =>
    case CreateSecret(_) =>
    case ReadVersion(_) =>
    case CreateVersion(_) =>
    case PatchVersion(_) =>
    case ReadIamMember(_, _) =>
    case CreateIamMember(_, _) =>
    case ReadInstance =>
    case CreateInstance =>
    case PatchInstance =>
  }

  lemma {:induction false} RunAppend(s: State, a: seq<Action>, b: seq<Action>, withSecrets: set<Name>)
    ensures Run(s, a + b, withSecrets) == Run(Run(s, a, withSecrets), b, withSecrets)
    decreases |b|
  {
    hide Step;
    if b == [] {
      assert a + b == a;
    } else {
      assert (a + b)[..|a + b| - 1] == a + b[..|b| - 1];
      RunAppend(s, a, b[..|b| - 1], withSecrets);
    }
  }

  lemma CallElsewhere(s: State, m: Name, changed: bool, withSecrets: set<Name>, n: Name)
    requires m != n
    ensures PcOf(CallStep(s, m, changed, withSecrets), n) == PcOf(s, n)
  {
    hide CallEffect, Commit;
    CommitKeeps(CallEffect(s, m, changed, withSecrets));
    if Progress(PcOf(s, m)) == 0 {
      EarlyElsewhere(s, m, changed, withSecrets, n);
    } else {
      LateElsewhere(s, m, changed, withSecrets, n);
    }
  }

  lemma EarlyElsewhere(s: State, m: Name, changed: bool, withSecrets: set<Name>, n: Name)
    requires m != n && Progress(PcOf(s, m)) == 0
    ensures PcOf(CallEffect(s, m, changed, withSecrets).s, n) == PcOf(s, n)
  {
  }

  lemma LateElsewhere(s: State, m: Name, changed: bool, withSecrets: set<Name>, n: Name)
    requires m != n && Progress(PcOf(s, m)) > 0
    ensures PcOf(CallEffect(s, m, changed, withSecrets).s, n) == PcOf(s, n)
  {
    hide AfterSecrets, AfterMember;
  }

  /** Nobody gets a pass past a stage but the pass itself, by the call for that stage. */
  lemma StepPasses(s: State, a: Action, n: Name, withSecrets: set<Name>, stage: Stage)
    requires Needed(stage, n, withSecrets) && Passed(PcOf(Step(s, a, withSecrets), n)) > Rank(stage)
    ensures Passed(PcOf(s, n)) > Rank(stage) || Achieves(s, a, n, stage)
  {
    hide CallEffect, Commit, Achieves, Passed, Needed;
    assert Passed(Idle) == 0 by { NothingAtFirst(n); }
    if a.Call? && a.n == n {
      CommitKeeps(CallEffect(s, n, a.changed, withSecrets));
      OwnCallPasses(s, n, a.changed, withSecrets, stage);
    } else if a.Call? {
      CallElsewhere(s, a.n, a.changed, withSecrets, n);
    }
  }

  lemma NothingAtFirst(n: Name)
    ensures Passed(Idle) == 0 && PcOf(Init, n) == Idle
  {
  }

  /** In every state after the action number `j`, the pass for `n` has the stage behind it. */
  ghost predicate PastFrom(run: seq<Action>, j: nat, n: Name, withSecrets: set<Name>, stage: Stage) {
    forall i | j < i <= |run| :: Passed(PcOf(Run(Init, run[..i], withSecrets), n)) > Rank(stage)
  }

  /** The action number `j` is the pass for `n` getting past the stage for good. */
  ghost predicate AchievedAt(run: seq<Action>, j: nat, n: Name, withSecrets: set<Name>, stage: Stage) {
    && j < |run| && Achieves(Run(Init, run[..j], withSecrets), run[j], n, stage)
    && PastFrom(run, j, n, withSecrets, stage)
  }

  /** A pass that has a stage behind it has got past it itself. */
  lemma {:induction false} StageWasAchieved(run: seq<Action>, n: Name, withSecrets: set<Name>, stage: Stage) returns (j: nat)
    requires Needed(stage, n, withSecrets) && Passed(PcOf(Run(Init, run, withSecrets), n)) > Rank(stage)
    ensures AchievedAt(run, j, n, withSecrets, stage)
    decreases |run|
  {
    hide Step, Passed, Rank, Achieves, Needed, PastFrom;
    assert run != [] by { NothingAtFirst(n); }
    var last := |run| - 1;
    if Achieves(Run(Init, run[..last], withSecrets), run[last], n, stage) {
      j := last;
      PastAtOnce(run, n, withSecrets, stage);
    } else {
      StepPasses(Run(Init, run[..last], withSecrets), run[last], n, withSecrets, stage);
      j := StageWasAchieved(run[..last], n, withSecrets, stage);
      assert run[..last][..j] == run[..j];
      StillPast(run, j, n, withSecrets, stage);
    }
  }

  lemma PastAtOnce(run: seq<Action>, n: Name, withSecrets: set<Name>, stage: Stage)
    requires run != [] && Passed(PcOf(Run(Init, run, withSecrets), n)) > Rank(stage)
    ensures PastFrom(run, |run| - 1, n, withSecrets, stage)
  {
    hide Run, Passed, Rank;
    assert run[..|run|] == run;
  }

  lemma StillPast(run: seq<Action>, j: nat, n: Name, withSecrets: set<Name>, stage: Stage)
    requires run != [] && Passed(PcOf(Run(Init, run, withSecrets), n)) > Rank(stage)
    requires PastFrom(run[..|run| - 1], j, n, withSecrets, stage)
    ensures PastFrom(run, j, n, withSecrets, stage)
  {
    hide Run, Passed, Rank;
    assert run[..|run|] == run;
    forall i | j < i < |run| ensures Passed(PcOf(Run(Init, run[..i], withSecrets), n)) > Rank(stage) {
      assert run[..|run| - 1][..i] == run[..i];
    }
  }

  /** A pass that gets past a stage has no later one behind it, and gets past one stage at a time. */
  lemma OneAtATime(s: State, a: Action, n: Name, stage: Stage, later: Stage)
    requires Achieves(s, a, n, stage) && Rank(stage) < Rank(later)
    ensures Passed(PcOf(s, n)) <= Rank(later) && !Achieves(s, a, n, later)
  {
  }

  /** So stages are passed in their order. */
  lemma InOrder(run: seq<Action>, n: Name, withSecrets: set<Name>, stage: Stage, j: nat, later: Stage, k: nat)
    requires AchievedAt(run, j, n, withSecrets, stage) && AchievedAt(run, k, n, withSecrets, later)
    requires Rank(stage) < Rank(later)
    ensures j < k
  {
    hide Run, Achieves, Passed, Rank;
    OneAtATime(Run(Init, run[..j], withSecrets), run[j], n, stage, later);
  }

  /** In every state after the action number `j`, one and the same pass for `n` goes on, and it does not look at readiness. */
  ghost predicate OnePassFrom(run: seq<Action>, j: nat, n: Name, withSecrets: set<Name>) {
    forall i | j < i <= |run| ::
      var pc := PcOf(Run(Init, run[..i], withSecrets), n); pc != Idle && !pc.CreateIamMember?
  }

  lemma PastMeansOnePass(run: seq<Action>, j: nat, n: Name, withSecrets: set<Name>)
    requires AchievedAt(run, j, n, withSecrets, AccountSeen)
    ensures OnePassFrom(run, j, n, withSecrets)
  {
    hide Run, Achieves;
    forall i | j < i <= |run|
      ensures var pc := PcOf(Run(Init, run[..i], withSecrets), n); pc != Idle && !pc.CreateIamMember?
    {
      assert Passed(PcOf(Run(Init, run[..i], withSecrets), n)) > Rank(AccountSeen);
    }
  }

  /**
   The pass that writes the instance has itself read the account as created and not failed,
   in the action number `sa`, and with secret volumes it has itself, in this order, made
   sure of the aggregated secret, read the secret as Ready, made sure of the version and
   found the IAM member. From `sa` on it is one and the same pass, which never stands where
   the readiness of version and member is looked at.
  */
  lemma WriterSawItself(run: seq<Action>, a: Action, n: Name, withSecrets: set<Name>)
      returns (sa: nat, aggregate: nat, secret: nat, version: nat, member: nat)
    requires WritesInstance(Run(Init, run, withSecrets), a, n, withSecrets)
    ensures AchievedAt(run, sa, n, withSecrets, AccountSeen)
    ensures OnePassFrom(run, sa, n, withSecrets)
    ensures n in withSecrets ==>
      && sa < aggregate < secret < version < member
      && AchievedAt(run, aggregate, n, withSecrets, AggregateEnsured)
      && AchievedAt(run, secret, n, withSecrets, SecretSeen)
      && AchievedAt(run, version, n, withSecrets, VersionEnsured)
      && AchievedAt(run, member, n, withSecrets, MemberFound)
  {
    OnlyThere(Run(Init, run, withSecrets), a, n, withSecrets);
    hide Run, Passed, AchievedAt, OnePassFrom, WritesInstance;
    sa := StageWasAchieved(run, n, withSecrets, AccountSeen);
    PastMeansOnePass(run, sa, n, withSecrets);
    aggregate, secret, version, member := 0, 0, 0, 0;
    if n in withSecrets {
      aggregate, secret := TwoStages(run, n, withSecrets, AggregateEnsured, SecretSeen);
      version, member := TwoStages(run, n, withSecrets, VersionEnsured, MemberFound);
      InOrder(run, n, withSecrets, AccountSeen, sa, AggregateEnsured, aggregate);
      InOrder(run, n, withSecrets, SecretSeen, secret, VersionEnsured, version);
    }
  }

  lemma TwoStages(run: seq<Action>, n: Name, withSecrets: set<Name>, stage: Stage, later: Stage) returns (j: nat, k: nat)
    requires n in withSecrets && Rank(stage) < Rank(later) && Passed(PcOf(Run(Init, run, withSecrets), n)) == 5
    ensures AchievedAt(run, j, n, withSecrets, stage) && AchievedAt(run, k, n, withSecrets, later) && j < k
  {
    hide Run, Passed, AchievedAt;
    j := StageWasAchieved(run, n, withSecrets, stage);
    k := StageWasAchieved(run, n, withSecrets, later);
    InOrder(run, n, withSecrets, stage, j, later, k);
  }

  lemma OnlyThere(s: State, a: Action, n: Name, withSecrets: set<Name>)
    requires WritesInstance(s, a, n, withSecrets)
    ensures Passed(PcOf(s, n)) == 5
  {
  }

  // ---------------------------------------------------------------- readiness of version and member

  /** The pass that creates the IAM member ends with that call, whatever the readiness of version and member. */
  lemma MemberEndsPass(s: State, n: Name, changed: bool, withSecrets: set<Name>)
    requires PcOf(s, n).CreateIamMember?
    ensures PcOf(CallStep(s, n, changed, withSecrets), n) == Idle
  {
  }

  /** The same call with another copy of the version. */
  predicate SamePc(a: Pc, b: Pc) {
    || a == b
    || (a.ReadIamMember? && b.ReadIamMember? && a.created == b.created)
    || (a.CreateIamMember? && b.CreateIamMember? && a.created == b.created)
  }

  /** The states differ at most in the readiness of the version and the member, and in copies of it. */
  ghost predicate SameButReadiness(s: State, t: State) {
    SameResources(s, t) && forall n :: SamePc(PcOf(s, n), PcOf(t, n))
  }

  predicate SameResources(s: State, t: State) {
    && s.account == t.account && s.aggregate == t.aggregate && s.secret == t.secret
    && (s.version.Some? <==> t.version.Some?) && (s.iamMember.Some? <==> t.iamMember.Some?)
    && s.instances == t.instances && s.log == t.log
  }

  /** Version and member are not Ready, in the store and in the pass's copy. */
  ghost predicate NeverReady(s: State) {
    && s.version != Some(true) && s.iamMember != Some(true)
    && forall n :: (PcOf(s, n).ReadIamMember? || PcOf(s, n).CreateIamMember? ==> !PcOf(s, n).versionReady)
  }

  /** The calls leave the same behind, but for readiness. */
  ghost predicate SameEffect(e: Effect, f: Effect, n: Name) {
    e.event == f.event && SameResources(e.s, f.s) && SamePc(PcOf(e.s, n), PcOf(f.s, n))
  }

  lemma EarlyIgnoresReadiness(s: State, t: State, n: Name, changed: bool, withSecrets: set<Name>)
    requires SameResources(s, t) && SamePc(PcOf(s, n), PcOf(t, n)) && Progress(PcOf(s, n)) == 0
    ensures SameEffect(CallEffect(s, n, changed, withSecrets), CallEffect(t, n, changed, withSecrets), n)
  {
    hide AfterSecrets;
    match PcOf(s, n)
    case Idle =>
    case ReadAccount =>
    case CreateAccount =>
    case ReadAggregate(_) =>
    case CreateAggregate(_) =>
    case UpdateAggregate(_) =>
  }

  lemma SecretIgnoresReadiness(s: State, t: State, n: Name, changed: bool, withSecrets: set<Name>)
    requires SameResources(s, t) && SamePc(PcOf(s, n), PcOf(t, n)) && Progress(PcOf(s, n)) == 1
    ensures SameEffect(CallEffect(s, n, changed, withSecrets), CallEffect(t, n, changed, withSecrets), n)
  {
    hide AfterSecrets;
    match PcOf(s, n)
    case ReadSecret(_) =>
    case CreateSecret(_) =>
  }

  lemma VersionIgnoresReadiness(s: State, t: State, n: Name, changed: bool, withSecrets: set<Name>)
    requires SameResources(s, t) && SamePc(PcOf(s, n), PcOf(t, n)) && Progress(PcOf(s, n)) == 2
    ensures SameEffect(CallEffect(s, n, changed, withSecrets), CallEffect(t, n, changed, withSecrets), n)
  {
    hide AfterSecrets;
    match PcOf(s, n)
    case ReadVersion(_) =>
    case CreateVersion(_) =>
    case PatchVersion(_) =>
  }

  lemma MemberIgnoresReadiness(s: State, t: State, n: Name, changed: bool, withSecrets: set<Name>)
    requires SameResources(s, t) && SamePc(PcOf(s, n), PcOf(t, n)) && Progress(PcOf(s, n)) == 3
    ensures SameEffect(CallEffect(s, n, changed, withSecrets), CallEffect(t, n, changed, withSecrets), n)
  {
    hide AfterSecrets;
    match PcOf(s, n)
    case ReadIamMember(_, _) =>
    case CreateIamMember(_, _) =>
  }

  lemma InstanceIgnoresReadiness(s: State, t: State, n: Name, changed: bool, withSecrets: set<Name>)
    requires SameResources(s, t) && SamePc(PcOf(s, n), PcOf(t, n)) && Progress(PcOf(s, n)) == 4
    ensures SameEffect(CallEffect(s, n, changed, withSecrets), CallEffect(t, n, changed, withSecrets), n)
  {
    hide AfterSecrets;
    match PcOf(s, n)
    case ReadInstance =>
    case CreateInstance =>
    case PatchInstance =>
  }

  /** No call depends on the readiness of version and member. */
  lemma CallIgnoresReadiness(s: State, t: State, n: Name, changed: bool, withSecrets: set<Name>)
    requires SameButReadiness(s, t)
    ensures SameButReadiness(CallStep(s, n, changed, withSecrets), CallStep(t, n, changed, withSecrets))
  {
    assert SamePc(PcOf(s, n), PcOf(t, n));
    if Progress(PcOf(s, n)) == 0 {
      EarlyIgnoresReadiness(s, t, n, changed, withSecrets);
    } else if Progress(PcOf(s, n)) == 1 {
      SecretIgnoresReadiness(s, t, n, changed, withSecrets);
    } else if Progress(PcOf(s, n)) == 2 {
      VersionIgnoresReadiness(s, t, n, changed, withSecrets);
    } else if Progress(PcOf(s, n)) == 3 {
      MemberIgnoresReadiness(s, t, n, changed, withSecrets);
    } else {
      InstanceIgnoresReadiness(s, t, n, changed, withSecrets);
    }
    hide CallEffect;
    var (e, f) := (CallEffect(s, n, changed, withSecrets), CallEffect(t, n, changed, withSecrets));
    var (s', t') := (Commit(e), Commit(f));
    forall m ensures SamePc(PcOf(s', m), PcOf(t', m)) {
      assert SamePc(PcOf(s, m), PcOf(t, m));
      if m != n {
        CallElsewhere(s, n, changed, withSecrets, m);
        CallElsewhere(t, n, changed, withSecrets, m);
      }
    }
  }

  /** The run without the actions that make version or member Ready, or not Ready. */
  function WithoutReadiness(run: seq<Action>): seq<Action> {
    if run == [] then []
    else
      var last := run[|run| - 1];
      WithoutReadiness(run[..|run| - 1]) + (if last.VersionIs? || last.IamMemberIs? then [] else [last])
  }

  lemma NewReadiness(s: State, t: State, a: Action, withSecrets: set<Name>)
    requires SameButReadiness(s, t) && (a.VersionIs? || a.IamMemberIs?)
    ensures SameButReadiness(Step(s, a, withSecrets), t)
  {
    assert forall n :: PcOf(Step(s, a, withSecrets), n) == PcOf(s, n);
  }

  lemma OthersIgnoreReadiness(s: State, t: State, a: Action, withSecrets: set<Name>)
    requires SameButReadiness(s, t) && !a.Call? && !a.VersionIs? && !a.IamMemberIs?
    ensures SameButReadiness(Step(s, a, withSecrets), Step(t, a, withSecrets))
  {
    var (s', t') := (Step(s, a, withSecrets), Step(t, a, withSecrets));
    forall n ensures SamePc(PcOf(s', n), PcOf(t', n)) {
      assert SamePc(PcOf(s, n), PcOf(t, n));
    }
  }

  lemma StepNeverReady(s: State, a: Action, withSecrets: set<Name>)
    requires NeverReady(s) && !a.VersionIs? && !a.IamMemberIs?
    ensures NeverReady(Step(s, a, withSecrets))
  {
    var s' := Step(s, a, withSecrets);
    if a.Call? {
      OwnCallNeverReady(s, a.n, a.changed, withSecrets);
      hide CallEffect;
      CommitKeeps(CallEffect(s, a.n, a.changed, withSecrets));
      forall m ensures PcOf(s', m).ReadIamMember? || PcOf(s', m).CreateIamMember? ==> !PcOf(s', m).versionReady {
        if m != a.n {
          CallElsewhere(s, a.n, a.changed, withSecrets, m);
        }
      }
    } else {
      forall m ensures PcOf(s', m) == PcOf(s, m) || PcOf(s', m) == Idle {
      }
    }
  }

  lemma OwnCallNeverReady(s: State, n: Name, changed: bool, withSecrets: set<Name>)
    requires NeverReady(s)
    ensures var s' := CallEffect(s, n, changed, withSecrets).s;
      && s'.version != Some(true) && s'.iamMember != Some(true)
      && (PcOf(s', n).ReadIamMember? || PcOf(s', n).CreateIamMember? ==> !PcOf(s', n).versionReady)
  {
    match PcOf(s, n)
    case Idle =>
    case ReadAccount =>
    case CreateAccount =>
    case ReadAggregate(_) =>
    case CreateAggregate(_) =>
    case UpdateAggregate(_) =>
    case ReadSecret(_) =>
    case CreateSecret(_) =>
    case ReadVersion(_) =>
    case CreateVersion(_) =>
    case PatchVersion(_) =>
    case ReadIamMember(_, _) =>
    case CreateIamMember(_, _) =>
    case ReadInstance =>
    case CreateInstance =>
    case PatchInstance =>
  }

  /**
   The controller never waits for the version or the IAM member to be Ready: whatever it
   writes in some run, it writes just the same, in the same order, in a run in which
   neither of them is ever Ready.
  */
  lemma {:induction false} ReadinessIsNotAwaited(run: seq<Action>, withSecrets: set<Name>)
    ensures var t := Run(Init, WithoutReadiness(run), withSecrets);
      SameButReadiness(Run(Init, run, withSecrets), t) && NeverReady(t)
    decreases |run|
  {
    hide Step, SameButReadiness, NeverReady;
    if run == [] {
      NothingIsReady();
    } else {
      var front := run[..|run| - 1];
      var a := run[|run| - 1];
      ReadinessIsNotAwaited(front, withSecrets);
      var (s, t) := (Run(Init, front, withSecrets), Run(Init, WithoutReadiness(front), withSecrets));
      if a.VersionIs? || a.IamMemberIs? {
        NewReadiness(s, t, a, withSecrets);
        assert WithoutReadiness(run) == WithoutReadiness(front);
      } else {
        assert WithoutReadiness(run)[..|WithoutReadiness(run)| - 1] == WithoutReadiness(front);
        StepNeverReady(t, a, withSecrets);
        StepIgnoresReadiness(s, t, a, withSecrets);
      }
    }
  }

  lemma StepIgnoresReadiness(s: State, t: State, a: Action, withSecrets: set<Name>)
    requires SameButReadiness(s, t) && !a.VersionIs? && !a.IamMemberIs?
    ensures SameButReadiness(Step(s, a, withSecrets), Step(t, a, withSecrets))
  {
    hide SameButReadiness, CallStep;
    if a.Call? {
      CallIgnoresReadiness(s, t, a.n, a.changed, withSecrets);
    } else {
      OthersIgnoreReadiness(s, t, a, withSecrets);
    }
  }

  lemma NothingIsReady()
    ensures SameButReadiness(Init, Init) && NeverReady(Init)
  {
  }

  /** One more action at the end of a run. */
  lemma Extend(run: seq<Action>, s: State, a: Action, withSecrets: set<Name>) returns (longer: seq<Action>, s': State)
    requires s == Run(Init, run, withSecrets)
    ensures longer == run + [a] && s' == Step(s, a, withSecrets) == Run(Init, longer, withSecrets)
  {
    longer, s' := run + [a], Step(s, a, withSecrets);
    assert longer[..|longer| - 1] == run;
  }

  /** The calls of an undisturbed pass. */
  lemma {:induction false} FinishIsRun(run: seq<Action>, s: State, n: Name, withSecrets: set<Name>)
      returns (longer: seq<Action>)
    requires s == Run(Init, run, withSecrets)
    ensures Run(Init, longer, withSecrets) == Finish(s, n, false, withSecrets)
    decreases CallsLeft(PcOf(s, n))
  {
    hide CallStep, CallsLeft;
    longer := run;
    if PcOf(s, n) != Idle {
      var next;
      longer, next := Extend(run, s, Call(n, false), withSecrets);
      CallProgresses(s, n, false, withSecrets);
      longer := FinishIsRun(longer, next, n, withSecrets);
    }
  }

  /** The first pass creates the account, the aggregated secret and the secret, and ends. */
  lemma FirstPass(n: Name, withSecrets: set<Name>)
    requires n in withSecrets
    ensures var s := Pass(Init, n, false, withSecrets);
      && PcOf(s, n) == Idle && s.account == Some(Account(false, false)) && s.aggregate && s.secret == Some(false)
      && s.version == None && s.iamMember == None && s.instances == {}
  {
    hide Finish;
    var s1 := CallStep(Init, n, false, withSecrets);
    var s2 := CallStep(s1, n, false, withSecrets);
    var s3 := CallStep(s2, n, false, withSecrets);
    var s4 := CallStep(s3, n, false, withSecrets);
    assert PcOf(s4, n) == CreateAggregate(false);
    var s5 := CallStep(s4, n, false, withSecrets);
    var s6 := CallStep(s5, n, false, withSecrets);
    assert PcOf(s6, n) == CreateSecret(false);
    var s7 := CallStep(s6, n, false, withSecrets);
    assert PcOf(s7, n) == Idle;
    FinishOne(s1, n, withSecrets);
    FinishOne(s2, n, withSecrets);
    FinishOne(s3, n, withSecrets);
    FinishOne(s4, n, withSecrets);
    FinishOne(s5, n, withSecrets);
    FinishOne(s6, n, withSecrets);
    FinishNone(s7, n, withSecrets);
  }

  lemma FinishOne(s: State, n: Name, withSecrets: set<Name>)
    requires PcOf(s, n) != Idle
    ensures Finish(s, n, false, withSecrets) == Finish(CallStep(s, n, false, withSecrets), n, false, withSecrets)
  {
  }

  lemma FinishNone(s: State, n: Name, withSecrets: set<Name>)
    requires PcOf(s, n) == Idle
    ensures Finish(s, n, false, withSecrets) == s
  {
  }

  /** With the account created and the secret Ready, the second pass creates the version and the IAM member, and ends. */
  lemma SecondPass(s: State, n: Name, withSecrets: set<Name>)
    requires n in withSecrets && PcOf(s, n) == Idle && s.account == Some(Account(true, false)) && s.secret == Some(true)
    requires s.aggregate && s.version == None && s.iamMember == None
    ensures var s' := Pass(s, n, false, withSecrets);
      && PcOf(s', n) == Idle && s'.account == s.account && s'.secret == s.secret && s'.iamMember == Some(false)
  {
    hide Commit, Finish, AfterSecrets;
    var s1 := CallStep(s, n, false, withSecrets);
    CommitKeeps(CallEffect(s, n, false, withSecrets));
    var s2 := CallStep(s1, n, false, withSecrets);
    CommitKeeps(CallEffect(s1, n, false, withSecrets));
    assert PcOf(s2, n) == ReadAggregate(true);
    var s3 := CallStep(s2, n, false, withSecrets);
    CommitKeeps(CallEffect(s2, n, false, withSecrets));
    var s4 := CallStep(s3, n, false, withSecrets);
    CommitKeeps(CallEffect(s3, n, false, withSecrets));
    assert PcOf(s4, n) == ReadVersion(true);
    LastPart(s4, n, withSecrets);
    FinishOne(s1, n, withSecrets);
    FinishOne(s2, n, withSecrets);
    FinishOne(s3, n, withSecrets);
  }

  lemma LastPart(s: State, n: Name, withSecrets: set<Name>)
    requires PcOf(s, n) == ReadVersion(true) && s.version == None && s.iamMember == None
    ensures var s' := Finish(s, n, false, withSecrets);
      && PcOf(s', n) == Idle && s'.account == s.account && s'.secret == s.secret && s'.iamMember == Some(false)
  {
    hide Commit, Finish, AfterSecrets;
    var s1 := CallStep(s, n, false, withSecrets);
    CommitKeeps(CallEffect(s, n, false, withSecrets));
    var s2 := CallStep(s1, n, false, withSecrets);
    CommitKeeps(CallEffect(s1, n, false, withSecrets));
    var s3 := CallStep(s2, n, false, withSecrets);
    CommitKeeps(CallEffect(s2, n, false, withSecrets));
    assert PcOf(s3, n) == CreateIamMember(true, false) && s3.iamMember == None;
    assert s3.account == s.account && s3.secret == s.secret;
    var s4 := CallStep(s3, n, false, withSecrets);
    CommitKeeps(CallEffect(s3, n, false, withSecrets));
    FinishOne(s, n, withSecrets);
    FinishOne(s1, n, withSecrets);
    FinishOne(s2, n, withSecrets);
    FinishOne(s3, n, withSecrets);
    FinishNone(s4, n, withSecrets);
  }

  lemma PassIsRun(run: seq<Action>, s: State, n: Name, withSecrets: set<Name>) returns (longer: seq<Action>)
    requires s == Run(Init, run, withSecrets) && PcOf(s, n) == Idle
    ensures Run(Init, longer, withSecrets) == Pass(s, n, false, withSecrets)
  {
    hide CallStep, Finish;
    var next;
    longer, next := Extend(run, s, Call(n, false), withSecrets);
    longer := FinishIsRun(longer, next, n, withSecrets);
  }

  lemma {:induction false} NoReadinessLeft(run: seq<Action>)
    ensures forall a | a in WithoutReadiness(run) :: !a.VersionIs? && !a.IamMemberIs?
  {
    if run != [] {
      NoReadinessLeft(run[..|run| - 1]);
    }
  }

  /** The account is created and the secret Ready between the first pass and the second. */
  lemma Provisioned(s: State, withSecrets: set<Name>)
    requires s.account.Some? && s.secret.Some?
    ensures var s' := Step(Step(s, AccountIs(Account(true, false)), withSecrets), SecretIs(true), withSecrets);
      s' == s.(account := Some(Account(true, false)), secret := Some(true))
  {
  }

  /**
   There is a run that brings up an instance with secret volumes although neither the
   version nor the IAM member is ever Ready: three passes, with the account and the secret
   becoming ready after the first of them.
  */
  lemma WrittenWithoutReadiness(n: Name, withSecrets: set<Name>) returns (run: seq<Action>)
    requires n in withSecrets
    ensures n in Run(Init, run, withSecrets).instances && NeverReady(Run(Init, run, withSecrets))
    ensures forall a | a in run :: !a.VersionIs? && !a.IamMemberIs?
  {
    hide Step, Pass, NeverReady, WithoutReadiness;
    assert Run(Init, [], withSecrets) == Init;
    assert PcOf(Init, n) == Idle;
    run := PassIsRun([], Init, n, withSecrets);
    FirstPass(n, withSecrets);
    var s := Pass(Init, n, false, withSecrets);
    Provisioned(s, withSecrets);
    var t;
    run, t := Extend(run, s, AccountIs(Account(true, false)), withSecrets);
    run, t := Extend(run, t, SecretIs(true), withSecrets);
    SecondPass(t, n, withSecrets);
    run := PassIsRun(run, t, n, withSecrets);
    var u := Pass(t, n, false, withSecrets);
    PassCompletes(u, n, false, withSecrets);
    run := PassIsRun(run, u, n, withSecrets);
    ReadinessIsNotAwaited(run, withSecrets);
    NoReadinessLeft(run);
    run := WithoutReadiness(run);
  }
}
