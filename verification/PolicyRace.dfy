/**
 Passes of several instances of one deployment over the same policies at once. Each pass
 gets a firewall and, when it is missing, creates it with its next call; between the two
 another pass may have created it, and then the create fails and so does the pass.
*/
module PolicyRace {
  import opened Options
  import opened PolicyPass

  /** Where a pass stands: about to get, or to create, the firewall of the item `k`. */
  datatype Pc = Off | Get(k: nat) | Put(k: nat)

  datatype State = State(store: Store, pcs: map<string, Pc>)

  datatype Action =
    | Start(n: string)
    | Call(n: string)
    | Stop(n: string)     // an error or a crash

  function PcOf(s: State, n: string): Pc {
    if n in s.pcs then s.pcs[n] else Off
  }

  function Goto(s: State, n: string, pc: Pc): State {
    s.(pcs := s.pcs[n := pc])
  }

  /** The pass for `n` is through: there is nothing left, or a missing firewall cannot be created. */
  predicate Ends(items: seq<Item>, s: State, n: string) {
    var pc := PcOf(s, n);
    pc.Get? && (pc.k >= |items| || (items[pc.k].name !in s.store && items[pc.k].firewall.None?))
  }

  function CallStep(items: seq<Item>, s: State, n: string): State {
    match PcOf(s, n)
    case Off => s
    case Get(k) =>
      if Ends(items, s, n) then Goto(s, n, Off)
      else if items[k].name in s.store then Goto(s, n, Get(k + 1))
      else Goto(s, n, Put(k))
    case Put(k) =>
      if k >= |items| || items[k].name in s.store || items[k].firewall.None? then Goto(s, n, Off)
      else Goto(s.(store := s.store[items[k].name := items[k].firewall.value]), n, Get(k + 1))
  }

  function Step(items: seq<Item>, s: State, a: Action): State {
    match a
    case Start(n) => Goto(s, n, Get(0))
    case Call(n) => CallStep(items, s, n)
    case Stop(n) => Goto(s, n, Off)
  }

  function Run(items: seq<Item>, s: State, run: seq<Action>): State
    decreases |run|
  {
    if run == [] then s else Step(items, Run(items, s, run[..|run| - 1]), run[|run| - 1])
  }

  // ---------------------------------------------------------------- invariant

  /** The first `k` items have their firewalls. */
  ghost predicate Covered(items: seq<Item>, k: nat, store: Store) {
    k <= |items| && forall a | 0 <= a < k :: items[a].name in store
  }

  /** The firewall `name` was there before, or is the one of an item that passes can get to. */
  ghost predicate Accounted(items: seq<Item>, store0: Store, store: Store, name: string)
    requires name in store
  {
    || (name in store0 && store[name] == store0[name])
    || exists a | 0 <= a < Reach(items, store0) :: items[a].name == name && items[a].firewall == Some(store[name])
  }

  ghost predicate PcInv(items: seq<Item>, store0: Store, store: Store, pc: Pc) {
    match pc
    case Off => true
    case Get(k) => k <= Reach(items, store0) && Covered(items, k, store)
    case Put(k) => k < Reach(items, store0) && Covered(items, k, store)
  }

  ghost predicate Inv(items: seq<Item>, store0: Store, s: State) {
    && (forall name | name in store0 :: name in s.store && s.store[name] == store0[name])
    && (forall name | name in s.store :: Accounted(items, store0, s.store, name))
    && (forall n :: PcInv(items, store0, s.store, PcOf(s, n)))
  }

  /** The item at which every pass ends is missing all the time. */
  lemma LastIsMissing(items: seq<Item>, store0: Store, s: State)
    requires Distinct(items) && Inv(items, store0, s) && Reach(items, store0) < |items|
    ensures items[Reach(items, store0)].name !in s.store && items[Reach(items, store0)].firewall.None?
  {
    var last := items[Reach(items, store0)];
    forall name | name in s.store ensures name != last.name {
      assert Accounted(items, store0, s.store, name);
    }
  }

  /** Moving a pass on without writing anything. */
  lemma GotoInv(items: seq<Item>, store0: Store, s: State, n: string, pc: Pc)
    requires Inv(items, store0, s) && PcInv(items, store0, s.store, pc)
    ensures Inv(items, store0, Goto(s, n, pc))
  {
    hide PcInv, Accounted;
    var s' := Goto(s, n, pc);
    forall m ensures PcInv(items, store0, s'.store, PcOf(s', m)) {
      assert PcInv(items, store0, s.store, PcOf(s, m));
    }
  }

  /** Creating the missing firewall of an item that passes can get to. */
  lemma CreateInv(items: seq<Item>, store0: Store, s: State, k: nat)
    requires Inv(items, store0, s) && k < Reach(items, store0)
    requires items[k].name !in s.store && items[k].firewall.Some?
    ensures Inv(items, store0, s.(store := s.store[items[k].name := items[k].firewall.value]))
  {
    hide Reach;
    var s' := s.(store := s.store[items[k].name := items[k].firewall.value]);
    forall name | name in s'.store ensures Accounted(items, store0, s'.store, name) {
      if name in s.store {
        assert Accounted(items, store0, s.store, name);
        assert s'.store[name] == s.store[name];
      } else {
        assert items[k].name == name && items[k].firewall == Some(s'.store[name]);
      }
    }
    forall m ensures PcInv(items, store0, s'.store, PcOf(s', m)) {
      assert PcInv(items, store0, s.store, PcOf(s, m));
    }
  }

  lemma CallInv(items: seq<Item>, store0: Store, s: State, n: string)
    requires Distinct(items) && Inv(items, store0, s)
    ensures Inv(items, store0, CallStep(items, s, n))
  {
    hide Inv, Reach, Accounted;
    var pc := PcOf(s, n);
    assert PcInv(items, store0, s.store, pc) by { PassInv(items, store0, s, n); }
    if Reach(items, store0) < |items| {
      LastIsMissing(items, store0, s);
    }
    if pc.Put? && CallStep(items, s, n).store != s.store {
      CreateInv(items, store0, s, pc.k);
      var s1 := s.(store := s.store[items[pc.k].name := items[pc.k].firewall.value]);
      GotoInv(items, store0, s1, n, Get(pc.k + 1));
    } else if pc != Off {
      GotoInv(items, store0, s, n, PcOf(CallStep(items, s, n), n));
    }
  }

  lemma PassInv(items: seq<Item>, store0: Store, s: State, n: string)
    requires Inv(items, store0, s)
    ensures PcInv(items, store0, s.store, PcOf(s, n))
  {
  }

  lemma {:induction false} RunInv(items: seq<Item>, store0: Store, run: seq<Action>)
    requires Distinct(items)
    ensures Inv(items, store0, Run(items, State(store0, map[]), run))
    decreases |run|
  {
    hide CallStep, Accounted, Reach, PcInv, Inv;
    if run == [] {
      StartInv(items, store0);
    } else {
      var s := Run(items, State(store0, map[]), run[..|run| - 1]);
      RunInv(items, store0, run[..|run| - 1]);
      match run[|run| - 1]
      case Start(n) =>
        assert PcInv(items, store0, s.store, Get(0)) by { OthersInv(items, store0, s.store); }
        GotoInv(items, store0, s, n, Get(0));
      case Call(n) => CallInv(items, store0, s, n);
      case Stop(n) =>
        assert PcInv(items, store0, s.store, Off) by { OthersInv(items, store0, s.store); }
        GotoInv(items, store0, s, n, Off);
    }
  }

  lemma OthersInv(items: seq<Item>, store0: Store, store: Store)
    ensures PcInv(items, store0, store, Get(0)) && PcInv(items, store0, store, Off)
  {
  }

  lemma StartInv(items: seq<Item>, store0: Store)
    ensures Inv(items, store0, State(store0, map[]))
  {
  }

  /**
   However passes interleave and wherever others are cut short, as soon as one of them is
   through, the firewalls are those that a single complete pass would have left, and the
   ones that were there before are untouched.
  */
  lemma AnyCompletePassIsEnough(items: seq<Item>, store0: Store, run: seq<Action>, n: string)
    requires Distinct(items) && Ends(items, Run(items, State(store0, map[]), run), n)
    ensures Run(items, State(store0, map[]), run).store == After(items, Reach(items, store0), store0)
  {
    hide Run, Reach, Inv, Added;
    var s := Run(items, State(store0, map[]), run);
    var reach := Reach(items, store0);
    RunInv(items, store0, run);
    PassInv(items, store0, s, n);
    EndsAtReach(items, store0, s, n);
    var final := After(items, reach, store0);
    forall name ensures (name in s.store <==> name in final) && (name in s.store ==> s.store[name] == final[name]) {
      SameAt(items, store0, s, name);
    }
  }

  lemma EndsAtReach(items: seq<Item>, store0: Store, s: State, n: string)
    requires Inv(items, store0, s) && Ends(items, s, n)
    ensures Covered(items, Reach(items, store0), s.store)
  {
    assert PcInv(items, store0, s.store, PcOf(s, n));
  }

  lemma SameAt(items: seq<Item>, store0: Store, s: State, name: string)
    requires Distinct(items) && Inv(items, store0, s) && Covered(items, Reach(items, store0), s.store)
    ensures var final := After(items, Reach(items, store0), store0);
      (name in s.store <==> name in final) && (name in s.store ==> s.store[name] == final[name])
  {
    hide Reach, Added;
    var front := items[..Reach(items, store0)];
    AddedAt(front, name);
    if name in s.store && name !in store0 {
      assert Accounted(items, store0, s.store, name);
      var a :| 0 <= a < |front| && items[a].name == name && items[a].firewall == Some(s.store[name]);
      assert front[a] == items[a];
    }
    if name in Added(front) {
      var a :| 0 <= a < |front| && front[a].name == name && front[a].firewall.Some?;
      assert items[a].name in s.store;
    }
  }

  /** Nothing is lost or replaced on the way, and nothing appears that no pass would create. */
  lemma NothingStrange(items: seq<Item>, store0: Store, run: seq<Action>, name: string)
    requires Distinct(items)
    ensures var s := Run(items, State(store0, map[]), run);
      var final := After(items, Reach(items, store0), store0);
      && (name in store0 ==> name in s.store && s.store[name] == store0[name])
      && (name in s.store ==> name in final && final[name] == s.store[name])
  {
    hide Run, Reach;
    var s := Run(items, State(store0, map[]), run);
    var reach := Reach(items, store0);
    RunInv(items, store0, run);
    AddedAt(items[..reach], name);
    if name in s.store && name !in store0 {
      assert Accounted(items, store0, s.store, name);
      var a :| 0 <= a < reach && items[a].name == name && items[a].firewall == Some(s.store[name]);
      assert items[..reach][a] == items[a];
    }
  }

  lemma OneMore(items: seq<Item>, s: State, run: seq<Action>, a: Action)
    ensures Run(items, s, run + [a]) == Step(items, Run(items, s, run), a)
  {
    assert (run + [a])[..|run|] == run;
  }

  /** Left to itself, a pass gets through from wherever it stands. */
  lemma {:induction false} RestOfPass(items: seq<Item>, store0: Store, run: seq<Action>, n: string)
      returns (longer: seq<Action>)
    requires Distinct(items)
    requires var s := Run(items, State(store0, map[]), run); PcOf(s, n).Get? && Inv(items, store0, s)
    ensures run <= longer && Ends(items, Run(items, State(store0, map[]), longer), n)
    decreases var pc := PcOf(Run(items, State(store0, map[]), run), n); |items| - (if pc.Get? then pc.k else 0)
  {
    hide Run, Inv, Reach;
    var start := State(store0, map[]);
    var s := Run(items, start, run);
    var k := PcOf(s, n).k;
    longer := run;
    if !Ends(items, s, n) {
      PassInv(items, store0, s, n);
      longer := run + [Call(n)];
      OneMore(items, start, run, Call(n));
      CallInv(items, store0, s, n);
      var s1 := CallStep(items, s, n);
      if items[k].name !in s.store {
        OneMore(items, start, longer, Call(n));
        longer := longer + [Call(n)];
        CallInv(items, store0, s1, n);
      }
      longer := RestOfPass(items, store0, longer, n);
    }
  }

  /**
   From any state that interleaved passes may lead to, one more pass that nobody disturbs
   gets through, and then the firewalls are the final ones.
  */
  lemma OneMorePassFinishes(items: seq<Item>, store0: Store, run: seq<Action>, n: string) returns (longer: seq<Action>)
    requires Distinct(items)
    ensures run + [Start(n)] <= longer
    ensures Ends(items, Run(items, State(store0, map[]), longer), n)
    ensures Run(items, State(store0, map[]), longer).store == After(items, Reach(items, store0), store0)
  {
    hide Run, Inv, Reach, After;
    OneMore(items, State(store0, map[]), run, Start(n));
    RunInv(items, store0, run + [Start(n)]);
    longer := RestOfPass(items, store0, run + [Start(n)], n);
    AnyCompletePassIsEnough(items, store0, longer, n);
  }
}
