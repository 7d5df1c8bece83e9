/**
 A pass of the instance controller over the network policies of a deployment: one
 firewall per interface and ingress rule, created when missing and never changed.
 A pass may break off at any API call; a port that does not read as a number ends it
 quietly.
*/
module PolicyPass {
  import opened Options
  import opened Policy
  import Decimal
  import MappedNamespace

  datatype Firewall = Firewall(labels: map<string, string>, network: string, tags: seq<string>, filter: Filter)

  /** `network` is the UID found behind the interface's binding and context, if they can be read. */
  datatype Interface = Interface(policy: Option<seq<Rule>>, network: Option<string>)

  datatype Deployment = Deployment(uid: string, workloadUid: string, interfaces: seq<Interface>)

  const DEPLOYMENT_UID_LABEL := "compute.datumapis.com/workload-deployment-uid"

  // ---------------------------------------------------------------- names

  function FirewallName(uid: string, interface: nat, rule: nat): string {
    "deployment-" + uid + "-net-" + Decimal.Print(interface) + "-" + Decimal.Print(rule)
  }

  lemma LastDash(a: string, x: string)
    requires Decimal.IsNumeral(x)
    ensures var t := a + "-" + x; t[|a|] == '-' && forall j | |a| < j < |t| :: t[j] != '-'
  {
  }

  /** The two sides of the last dash are determined by the whole. */
  lemma SplitAtLastDash(a: string, x: string, b: string, y: string)
    requires Decimal.IsNumeral(x) && Decimal.IsNumeral(y) && a + "-" + x == b + "-" + y
    ensures a == b && x == y
  {
    LastDash(a, x);
    LastDash(b, y);
    var t := a + "-" + x;
    assert a == t[..|a|] && b == t[..|b|];
    assert x == t[|a| + 1..] && y == t[|b| + 1..];
  }

  /** The name up to its last two numerals. */
  function Stem(uid: string): string {
    "deployment-" + uid + "-net"
  }

  lemma StemInjective(uid1: string, uid2: string)
    requires Stem(uid1) == Stem(uid2)
    ensures uid1 == uid2
  {
    var (n, m) := (|"deployment-"|, |"-net"|);
    assert Stem(uid1)[n..|Stem(uid1)| - m] == uid1 && Stem(uid2)[n..|Stem(uid2)| - m] == uid2;
  }

  lemma NameByStem(uid: string, i: nat, r: nat)
    ensures FirewallName(uid, i, r) == (Stem(uid) + "-" + Decimal.Print(i)) + "-" + Decimal.Print(r)
  {
    hide Decimal.Print;
    var (x, y) := (Decimal.Print(i), Decimal.Print(r));
    var net := "-net-" + x;
    assert "-net" + "-" + x == net;
    assert "deployment-" + uid + "-net-" + x == Stem(uid) + "-" + x;
  }

  /** A firewall name tells its deployment, interface and rule apart from all others, whatever the UID looks like. */
  lemma NameInjective(uid1: string, i1: nat, r1: nat, uid2: string, i2: nat, r2: nat)
    requires FirewallName(uid1, i1, r1) == FirewallName(uid2, i2, r2)
    ensures uid1 == uid2 && i1 == i2 && r1 == r2
  {
    hide FirewallName, Stem, Decimal.Print, Decimal.Value;
    NameByStem(uid1, i1, r1);
    NameByStem(uid2, i2, r2);
    Decimal.PrintValue(i1);
    Decimal.PrintValue(r1);
    Decimal.PrintValue(i2);
    Decimal.PrintValue(r2);
    SplitAtLastDash(Stem(uid1) + "-" + Decimal.Print(i1), Decimal.Print(r1),
                    Stem(uid2) + "-" + Decimal.Print(i2), Decimal.Print(r2));
    SplitAtLastDash(Stem(uid1), Decimal.Print(i1), Stem(uid2), Decimal.Print(i2));
    Decimal.PrintInjective(i1, i2);
    Decimal.PrintInjective(r1, r2);
    StemInjective(uid1, uid2);
  }

  // ---------------------------------------------------------------- what a pass is about

  /** One interface and rule; no firewall when the rule has a port that is not a number. */
  datatype Item = Item(name: string, firewall: Option<Firewall>)

  function FirewallFor(d: Deployment, managed: map<string, string>, network: string, filter: Filter): Firewall {
    Firewall(
      map[MappedNamespace.WORKLOAD_UID := d.workloadUid, DEPLOYMENT_UID_LABEL := d.uid] + managed,
      "network-" + network,
      ["workload-" + d.workloadUid, "deployment-" + d.uid],
      filter)
  }

  /** The workload's cleanup finds the firewall by its label exactly when the managed labels leave that label alone. */
  lemma FirewallIsFound(d: Deployment, managed: map<string, string>, network: string, filter: Filter)
    ensures var labels := FirewallFor(d, managed, network, filter).labels;
      var l := MappedNamespace.WORKLOAD_UID;
      (l in labels && labels[l] == d.workloadUid) <==> (l in managed ==> managed[l] == d.workloadUid)
  {
  }

  function ItemFor(d: Deployment, managed: map<string, string>, i: nat, network: string, r: nat, rule: Rule): Item {
    Item(FirewallName(d.uid, i, r),
         if exists p | p in rule.ports :: Named(p) then None
         else Some(FirewallFor(d, managed, network, FilterOf(rule))))
  }

  function ItemsOf(d: Deployment, managed: map<string, string>, i: nat): (items: seq<Item>)
    requires i < |d.interfaces|
    ensures d.interfaces[i].policy.None? ==> items == []
    ensures d.interfaces[i].policy.Some? ==>
      && |items| == |d.interfaces[i].policy.value|
      && forall r | 0 <= r < |items| :: items[r].name == FirewallName(d.uid, i, r)
  {
    var interface := d.interfaces[i];
    if interface.policy.None? then []
    else
      var rules := interface.policy.value;
      var network := if interface.network.Some? then interface.network.value else "";
      seq(|rules|, r requires 0 <= r < |rules| => ItemFor(d, managed, i, network, r, rules[r]))
  }

  function Flatten(xss: seq<seq<Item>>): seq<Item> {
    if xss == [] then [] else Flatten(xss[..|xss| - 1]) + xss[|xss| - 1]
  }

  /** All items, grouped by interface, in the order a pass visits them. */
  function Plan(d: Deployment, managed: map<string, string>): seq<seq<Item>> {
    seq(|d.interfaces|, i requires 0 <= i < |d.interfaces| => ItemsOf(d, managed, i))
  }

  ghost predicate Distinct(items: seq<Item>) {
    forall a, b | 0 <= a < b < |items| :: items[a].name != items[b].name
  }

  /** Where the group `i` is in the whole. */
  lemma {:induction false} GroupAt(xss: seq<seq<Item>>, i: nat)
    requires i < |xss|
    ensures |Flatten(xss[..i])| <= |Flatten(xss)|
    ensures xss[i] <= Flatten(xss)[|Flatten(xss[..i])|..]
  {
    var last := |xss| - 1;
    if i < last {
      GroupAt(xss[..last], i);
      assert xss[..last][..i] == xss[..i];
      var (front, k) := (Flatten(xss[..last]), |Flatten(xss[..i])|);
      assert (front + xss[last])[k..] == front[k..] + xss[last];
    }
  }

  lemma OneMoreGroup(xss: seq<seq<Item>>, i: nat)
    requires i < |xss|
    ensures Flatten(xss[..i + 1]) == Flatten(xss[..i]) + xss[i]
  {
    assert xss[..i + 1][..i] == xss[..i];
  }

  lemma NoGroups(xss: seq<seq<Item>>)
    ensures Flatten(xss[..0]) == []
  {
  }

  /** Every item of a flattened list comes from a place in some group. */
  lemma {:induction false} FlattenFrom(xss: seq<seq<Item>>, a: nat) returns (i: nat, r: nat)
    requires a < |Flatten(xss)|
    ensures i < |xss| && r < |xss[i]| && a == |Flatten(xss[..i])| + r && Flatten(xss)[a] == xss[i][r]
  {
    var last := |xss| - 1;
    if a < |Flatten(xss[..last])| {
      i, r := FlattenFrom(xss[..last], a);
      assert xss[..last][..i] == xss[..i];
    } else {
      i, r := last, a - |Flatten(xss[..last])|;
    }
  }

  lemma PlanDistinct(d: Deployment, managed: map<string, string>)
    ensures Distinct(Flatten(Plan(d, managed)))
    ensures |Plan(d, managed)| == |d.interfaces|
    ensures forall i | 0 <= i < |d.interfaces| :: Plan(d, managed)[i] == ItemsOf(d, managed, i)
  {
    var plan := Plan(d, managed);
    forall a, b | 0 <= a < b < |Flatten(plan)| ensures Flatten(plan)[a].name != Flatten(plan)[b].name {
      var i, r := FlattenFrom(plan, a);
      var j, q := FlattenFrom(plan, b);
      assert plan[i] == ItemsOf(d, managed, i) && plan[j] == ItemsOf(d, managed, j);
      if FirewallName(d.uid, i, r) == FirewallName(d.uid, j, q) {
        NameInjective(d.uid, i, r, d.uid, j, q);
        assert false;
      }
    }
  }

  // ---------------------------------------------------------------- what a pass leaves behind

  type Store = map<string, Firewall>

  /** The firewalls of the items. */
  function Added(items: seq<Item>): Store {
    if items == [] then map[]
    else
      var last := items[|items| - 1];
      var front := Added(items[..|items| - 1]);
      if last.firewall.Some? then front[last.name := last.firewall.value] else front
  }

  /** How far a pass gets that is not cut short: to the first missing firewall that has none to create. */
  function Reach(items: seq<Item>, store: Store): (k: nat)
    ensures k <= |items|
    ensures forall i | 0 <= i < k :: items[i].name in store || items[i].firewall.Some?
    ensures k < |items| ==> items[k].name !in store && items[k].firewall.None?
  {
    if items == [] || (items[0].name !in store && items[0].firewall.None?) then 0
    else 1 + Reach(items[1..], store)
  }

  /** What is there after a pass that dealt with the first `k` items: nothing is ever replaced. */
  function After(items: seq<Item>, k: nat, store: Store): Store
    requires k <= |items|
  {
    Added(items[..k]) + store
  }

  lemma {:induction false} AddedAt(items: seq<Item>, name: string)
    requires Distinct(items)
    ensures name in Added(items) <==> exists k :: 0 <= k < |items| && items[k].name == name && items[k].firewall.Some?
    ensures forall k | 0 <= k < |items| && items[k].name == name && items[k].firewall.Some? ::
      Added(items)[name] == items[k].firewall.value
  {
    if items != [] {
      var last := |items| - 1;
      var front := items[..last];
      AddedAt(front, name);
      assert forall k | 0 <= k < last :: front[k] == items[k];
      if k :| 0 <= k < |items| && items[k].name == name && items[k].firewall.Some? {
        assert k < last ==> front[k] == items[k];
      }
    }
  }

  /** Dealing with one more item: its firewall is created when it was missing, and there is one. */
  lemma OneMore(items: seq<Item>, k: nat, store: Store)
    requires k < |items| && Distinct(items)
    ensures var item := items[k];
      && (item.name in After(items, k, store) <==> item.name in store)
      && After(items, k + 1, store) ==
        if item.name in store || item.firewall.None? then After(items, k, store)
        else After(items, k, store)[item.name := item.firewall.value]
  {
    AddedAt(items[..k], items[k].name);
    assert items[..k + 1][..k] == items[..k];
  }

  lemma NothingAfter(items: seq<Item>, store: Store)
    ensures After(items, 0, store) == store
  {
  }

  /** The API calls that an item takes: one to look, and one to create what is missing. */
  function Cost(item: Item, store: Store): nat {
    if item.name !in store && item.firewall.Some? then 2 else 1
  }

  /** The calls that the first `k` items take. */
  function Calls(items: seq<Item>, k: nat, store: Store): nat
    requires k <= |items|
  {
    if k == 0 then 0 else Calls(items, k - 1, store) + Cost(items[k - 1], store)
  }

  lemma {:induction false} CallsGrow(items: seq<Item>, j: nat, k: nat, store: Store)
    requires j <= k <= |items|
    ensures Calls(items, j, store) <= Calls(items, k, store)
    decreases k
  {
    if j < k {
      CallsGrow(items, j, k - 1, store);
    }
  }

  /** How many of the first `i` interfaces have a policy. */
  function Policies(d: Deployment, i: nat): nat
    requires i <= |d.interfaces|
  {
    if i == 0 then 0 else Policies(d, i - 1) + (if d.interfaces[i - 1].policy.Some? then 1 else 0)
  }

  lemma {:induction false} PoliciesGrow(d: Deployment, i: nat, j: nat)
    requires i <= j <= |d.interfaces|
    ensures Policies(d, i) <= Policies(d, j)
    decreases j
  {
    if i < j {
      PoliciesGrow(d, i, j - 1);
    }
  }

  /** The network of every interface with a policy can be found. */
  predicate Networked(d: Deployment) {
    forall interface | interface in d.interfaces && interface.policy.Some? :: interface.network.Some?
  }

  datatype Outcome = Done | Stopped | Failed

  /** The downstream cluster's firewalls, and the labels put on everything created there. */
  class Downstream {
    var firewalls: Store
    const managed: map<string, string>

    constructor (managed: map<string, string>)
      ensures firewalls == map[] && this.managed == managed
    {
      firewalls := map[];
      this.managed := managed;
    }

    /** One rule of one interface, given how many more API calls succeed. */
    method ReconcileRule(d: Deployment, i: nat, network: string, r: nat, rule: Rule, calls: nat, ghost item: Item)
        returns (outcome: Outcome, left: nat)
      requires i < |d.interfaces| && d.interfaces[i].network == Some(network)
      requires d.interfaces[i].policy.Some? && r < |d.interfaces[i].policy.value|
      requires rule == d.interfaces[i].policy.value[r] && item == ItemsOf(d, managed, i)[r]
      modifies this
      ensures outcome.Done? ==>
        && (item.name in old(firewalls) || item.firewall.Some?)
        && firewalls == if item.name in old(firewalls) then old(firewalls)
                        else old(firewalls)[item.name := item.firewall.value]
      ensures outcome.Stopped? ==> firewalls == old(firewalls) && item.name !in firewalls && item.firewall.None?
      ensures outcome.Failed? ==> firewalls == old(firewalls)
      ensures outcome.Failed? <==> calls < Cost(item, old(firewalls))
      ensures outcome.Done? ==> left == calls - Cost(item, old(firewalls))
    {
      left := calls;
      if left < 1 {
        return Failed, left;
      }
      left := left - 1;
      var name := FirewallName(d.uid, i, r);
      if name in firewalls {
        return Done, left;
      }
      var allow := CompilePorts(rule.ports);
      if allow.None? {
        return Stopped, left;
      }
      var ranges := CompilePeers(rule.from);
      if left < 1 {
        return Failed, left;
      }
      left := left - 1;
      firewalls := firewalls[name := FirewallFor(d, managed, network, Filter(allow.value, ranges))];
      outcome := Done;
    }

    /** The rules of one interface; `k` counts the items of the whole plan dealt with. */
    method ReconcileInterface(d: Deployment, i: nat, calls: nat, ghost plan: seq<Item>, ghost start: nat, ghost before: Store)
        returns (outcome: Outcome, left: nat, ghost k: nat)
      requires i < |d.interfaces| && d.interfaces[i].policy.Some? && d.interfaces[i].network.Some?
      requires Distinct(plan) && start <= Reach(plan, before) && ItemsOf(d, managed, i) <= plan[start..]
      requires firewalls == After(plan, start, before)
      modifies this
      ensures start <= k <= Reach(plan, before) && firewalls == After(plan, k, before)
      ensures outcome.Done? ==> k == start + |ItemsOf(d, managed, i)|
      ensures outcome.Stopped? ==> k == Reach(plan, before)
      ensures Calls(plan, start, before) <= Calls(plan, k, before) <= calls + Calls(plan, start, before)
      ensures outcome.Done? ==> left == calls + Calls(plan, start, before) - Calls(plan, k, before)
      ensures outcome.Failed? ==> k < |plan| && calls + Calls(plan, start, before) < Calls(plan, k + 1, before)
    {
      hide FirewallName, FirewallFor, ItemFor, Added, Distinct;
      var (rules, network) := (d.interfaces[i].policy.value, d.interfaces[i].network.value);
      ghost var items := ItemsOf(d, managed, i);
      left, k, outcome := calls, start, Done;
      for r := 0 to |rules|
        invariant k == start + r <= Reach(plan, before)
        invariant firewalls == After(plan, k, before)
        invariant Calls(plan, start, before) <= Calls(plan, k, before)
        invariant left == calls + Calls(plan, start, before) - Calls(plan, k, before)
      {
        assert plan[k] == plan[start..][r] == items[r];
        OneMore(plan, k, before);
        assert Calls(plan, k + 1, before) == Calls(plan, k, before) + Cost(items[r], firewalls);
        outcome, left := ReconcileRule(d, i, network, r, rules[r], left, items[r]);
        if outcome != Done {
          return;
        }
        k := k + 1;
      }
      outcome := Done;
    }

    /**
     `calls` is how many API calls succeed before one fails or the process dies. The
     result says whether the pass returned without an error, as it does when there are
     enough; `k` counts the items it dealt with. Each policy takes three calls before its
     first rule, for the binding, the context and the network.
    */
    method ReconcilePolicies(d: Deployment, calls: nat) returns (ok: bool, ghost k: nat)
      modifies this
      ensures var plan := Flatten(Plan(d, managed));
        && k <= Reach(plan, old(firewalls))
        && firewalls == After(plan, k, old(firewalls))
        && (ok ==> k == Reach(plan, old(firewalls)))
        && Calls(plan, k, old(firewalls)) <= calls
        && (Networked(d) && calls >= 3 * Policies(d, |d.interfaces|) + Calls(plan, |plan|, old(firewalls)) ==> ok)
    {
      hide FirewallName, FirewallFor, ItemFor, ItemsOf, Added, After, Reach, Distinct, Flatten, Plan, Cost;
      ghost var groups := Plan(d, managed);
      ghost var plan := Flatten(groups);
      PlanDistinct(d, managed);
      var left := calls;
      k := 0;
      NothingAfter(plan, firewalls);
      NoGroups(groups);
      for i := 0 to |d.interfaces|
        invariant k == |Flatten(groups[..i])| <= Reach(plan, old(firewalls))
        invariant firewalls == After(plan, k, old(firewalls))
        invariant left == calls - 3 * Policies(d, i) - Calls(plan, k, old(firewalls))
      {
        PoliciesGrow(d, i + 1, |d.interfaces|);
        CallsGrow(plan, k, |plan|, old(firewalls));
        GroupAt(groups, i);
        OneMoreGroup(groups, i);
        var interface := d.interfaces[i];
        if interface.policy.Some? {
          // The binding, the context and the network are read first.
          if left < 3 || interface.network.None? {
            return false, k;
          }
          var outcome;
          outcome, left, k := ReconcileInterface(d, i, left - 3, plan, k, old(firewalls));
          if outcome.Failed? {
            CallsGrow(plan, k + 1, |plan|, old(firewalls));
          }
          if outcome != Done {
            return outcome.Stopped?, k;
          }
        }
      }
      assert groups[..|groups|] == groups;
      ok := true;
    }
  }

  // ---------------------------------------------------------------- convergence

  /** Passes one after the other, the i-th having dealt with `cuts[i]` items or as many as it could reach. */
  function Passes(items: seq<Item>, cuts: seq<nat>, store: Store): Store
    decreases |cuts|
  {
    if cuts == [] then store
    else
      var front := Passes(items, cuts[..|cuts| - 1], store);
      var (cut, reach) := (cuts[|cuts| - 1], Reach(items, front));
      After(items, if cut < reach then cut else reach, front)
  }

  /** Only the firewalls that cannot be created decide how far a pass gets. */
  lemma {:induction false} SameReach(items: seq<Item>, s: Store, t: Store)
    requires forall i | 0 <= i < |items| && items[i].firewall.None? :: items[i].name in s <==> items[i].name in t
    ensures Reach(items, s) == Reach(items, t)
  {
  }

  lemma ReachIsKept(items: seq<Item>, k: nat, store: Store)
    requires Distinct(items) && k <= |items|
    ensures Reach(items, After(items, k, store)) == Reach(items, store)
  {
    forall i | 0 <= i < |items| && items[i].firewall.None?
      ensures items[i].name in After(items, k, store) <==> items[i].name in store
    {
      AddedAt(items[..k], items[i].name);
    }
    SameReach(items, After(items, k, store), store);
  }

  /** Dealing with more items adds to what fewer would have left. */
  lemma AddedGrows(items: seq<Item>, i: nat, j: nat, name: string)
    requires Distinct(items) && i <= j <= |items| && name in Added(items[..i])
    ensures name in Added(items[..j]) && Added(items[..j])[name] == Added(items[..i])[name]
  {
    AddedAt(items[..i], name);
    AddedAt(items[..j], name);
    var k :| 0 <= k < i && items[..i][k].name == name && items[..i][k].firewall.Some?;
    assert items[..i][k] == items[..j][k];
  }

  /** A pass after a pass leaves what the further of the two would have left alone. */
  lemma AfterAfter(items: seq<Item>, i: nat, j: nat, store: Store)
    requires Distinct(items) && i <= |items| && j <= |items|
    ensures After(items, i, After(items, j, store)) == After(items, if i < j then j else i, store)
  {
    forall name | name in Added(items[..i])
      ensures i <= j ==> name in Added(items[..j])
    {
      if i <= j {
        AddedGrows(items, i, j, name);
      }
    }
    forall name | name in Added(items[..j])
      ensures j <= i ==> name in Added(items[..i]) && Added(items[..i])[name] == Added(items[..j])[name]
    {
      if j <= i {
        AddedGrows(items, j, i, name);
      }
    }
  }

  /** Partial passes add up: the furthest one decides. */
  lemma {:induction false} PassesAddUp(items: seq<Item>, cuts: seq<nat>, store: Store) returns (k: nat)
    requires Distinct(items)
    ensures k <= Reach(items, store) && Passes(items, cuts, store) == After(items, k, store)
    decreases |cuts|
  {
    if cuts == [] {
      k := 0;
      assert Added(items[..0]) + store == store;
    } else {
      var j := PassesAddUp(items, cuts[..|cuts| - 1], store);
      ReachIsKept(items, j, store);
      var (cut, reach) := (cuts[|cuts| - 1], Reach(items, store));
      var i := if cut < reach then cut else reach;
      k := if i < j then j else i;
      AfterAfter(items, i, j, store);
    }
  }

  /**
   After any number of passes, cut short wherever, one that is not cut short leaves
   exactly the firewalls that were there before all of them, untouched, and those of
   the items before the first missing one that cannot be created; a further pass
   changes nothing.
  */
  lemma PassesConverge(items: seq<Item>, cuts: seq<nat>, store: Store)
    requires Distinct(items)
    ensures var final := After(items, Reach(items, store), store);
      && Passes(items, cuts + [|items|], store) == final
      && After(items, Reach(items, final), final) == final
  {
    var reach := Reach(items, store);
    var k := PassesAddUp(items, cuts, store);
    assert (cuts + [|items|])[..|cuts|] == cuts;
    ReachIsKept(items, k, store);
    AfterAfter(items, reach, k, store);
    ReachIsKept(items, reach, store);
    AfterAfter(items, reach, reach, store);
  }

  /** `r` is a rule of the interface `i`. */
  predicate HasRule(d: Deployment, i: nat, r: nat) {
    i < |d.interfaces| && d.interfaces[i].policy.Some? && r < |d.interfaces[i].policy.value|
  }

  function RuleOf(d: Deployment, i: nat, r: nat): Rule
    requires HasRule(d, i, r)
  {
    d.interfaces[i].policy.value[r]
  }

  /** Every port of the rule reads as a number other than zero. */
  predicate AllNumbered(rule: Rule) {
    forall p | p in rule.ports :: !Named(p)
  }

  /** Every rule has a firewall already, or ports that all read as numbers. */
  ghost predicate AllCreatable(d: Deployment, store: Store) {
    forall i, r | HasRule(d, i, r) :: FirewallName(d.uid, i, r) in store || AllNumbered(RuleOf(d, i, r))
  }

  ghost predicate AllThere(d: Deployment, store: Store) {
    forall i, r | HasRule(d, i, r) :: FirewallName(d.uid, i, r) in store
  }

  /** Where the item of a rule is in the plan. */
  function ItemAt(d: Deployment, managed: map<string, string>, i: nat, r: nat): nat
    requires i < |d.interfaces|
  {
    |Flatten(Plan(d, managed)[..i])| + r
  }

  lemma PlanAt(d: Deployment, managed: map<string, string>, i: nat)
    requires i < |d.interfaces|
    ensures |Plan(d, managed)| == |d.interfaces| && Plan(d, managed)[i] == ItemsOf(d, managed, i)
  {
    hide ItemsOf;
  }

  lemma PlaceOfItem(d: Deployment, managed: map<string, string>, i: nat, r: nat)
    requires HasRule(d, i, r)
    ensures var items := Flatten(Plan(d, managed));
      var a := ItemAt(d, managed, i, r);
      a < |items| && items[a] == ItemsOf(d, managed, i)[r]
  {
    PlanAt(d, managed, i);
    hide FirewallName, ItemsOf, Plan, Flatten;
    var groups := Plan(d, managed);
    GroupAt(groups, i);
    assert Flatten(groups)[ItemAt(d, managed, i, r)] == Flatten(groups)[|Flatten(groups[..i])|..][r] == groups[i][r];
  }

  lemma ItemOfRule(d: Deployment, managed: map<string, string>, i: nat, r: nat)
    requires HasRule(d, i, r)
    ensures var items := Flatten(Plan(d, managed));
      var a := ItemAt(d, managed, i, r);
      && a < |items| && items[a].name == FirewallName(d.uid, i, r)
      && (items[a].firewall.Some? <==> AllNumbered(RuleOf(d, i, r)))
      && (items[a].firewall.Some? ==> items[a].firewall.value.filter == FilterOf(RuleOf(d, i, r)))
  {
    hide FirewallName, FilterOf, Plan, Flatten, ItemAt;
    PlaceOfItem(d, managed, i, r);
  }

  /** And every item is the item of a rule. */
  lemma RuleOfItem(d: Deployment, managed: map<string, string>, a: nat) returns (i: nat, r: nat)
    requires a < |Flatten(Plan(d, managed))|
    ensures HasRule(d, i, r) && a == ItemAt(d, managed, i, r)
  {
    hide FirewallName;
    var groups := Plan(d, managed);
    i, r := FlattenFrom(groups, a);
    assert groups[i] == ItemsOf(d, managed, i);
  }

  /** A pass that is not cut short gets through exactly when no item needs a firewall that cannot be created. */
  lemma ReachesAll(items: seq<Item>, store: Store)
    ensures Reach(items, store) == |items| <==>
      forall a | 0 <= a < |items| :: items[a].name in store || items[a].firewall.Some?
  {
  }

  lemma AllReached(d: Deployment, managed: map<string, string>, store: Store)
    ensures var items := Flatten(Plan(d, managed)); Reach(items, store) == |items| <==> AllCreatable(d, store)
  {
    hide FirewallName, AllNumbered, Plan, Flatten;
    var items := Flatten(Plan(d, managed));
    ReachesAll(items, store);
    if AllCreatable(d, store) {
      forall a | 0 <= a < |items| ensures items[a].name in store || items[a].firewall.Some? {
        var i, r := RuleOfItem(d, managed, a);
        ItemOfRule(d, managed, i, r);
      }
    }
    if Reach(items, store) == |items| {
      forall i, r | HasRule(d, i, r) ensures FirewallName(d.uid, i, r) in store || AllNumbered(RuleOf(d, i, r)) {
        ItemOfRule(d, managed, i, r);
      }
    }
  }

  /** What a pass that is not cut short leaves behind. */
  function Final(d: Deployment, managed: map<string, string>, store: Store): Store {
    var items := Flatten(Plan(d, managed));
    After(items, Reach(items, store), store)
  }

  /** A firewall of the plan is there after a complete pass exactly when it was there or the pass got to it. */
  lemma FinalAt(d: Deployment, managed: map<string, string>, store: Store, i: nat, r: nat)
    requires HasRule(d, i, r)
    ensures var name := FirewallName(d.uid, i, r);
      var reached := ItemAt(d, managed, i, r) < Reach(Flatten(Plan(d, managed)), store);
      && (name in Final(d, managed, store) <==> name in store || reached)
      && (name in store ==> Final(d, managed, store)[name] == store[name])
      && (name !in store && reached ==> Final(d, managed, store)[name].filter == FilterOf(RuleOf(d, i, r)))
  {
    hide FirewallName, FilterOf, Plan, Flatten, AllNumbered;
    var items := Flatten(Plan(d, managed));
    var (a, reach) := (ItemAt(d, managed, i, r), Reach(items, store));
    PlanDistinct(d, managed);
    ItemOfRule(d, managed, i, r);
    AddedAt(items[..reach], items[a].name);
    if a < reach {
      assert items[..reach][a] == items[a];
    }
  }

  /**
   After a complete pass, every rule of every interface with a policy has its firewall if
   and only if every rule had one before or has ports that all read as numbers.
  */
  lemma EveryRuleHasItsFirewall(d: Deployment, managed: map<string, string>, store: Store)
    ensures AllThere(d, Final(d, managed, store)) <==> AllCreatable(d, store)
  {
    hide FirewallName, AllNumbered, Plan, Flatten, Final;
    var items := Flatten(Plan(d, managed));
    var reach := Reach(items, store);
    AllReached(d, managed, store);
    if AllCreatable(d, store) {
      forall i, r | HasRule(d, i, r) ensures FirewallName(d.uid, i, r) in Final(d, managed, store) {
        ItemOfRule(d, managed, i, r);
        FinalAt(d, managed, store, i, r);
      }
    } else {
      var i, r := RuleOfItem(d, managed, reach);
      ItemOfRule(d, managed, i, r);
      FinalAt(d, managed, store, i, r);
    }
  }

  /**
   A missing firewall whose rule has a port that does not read as a number stays missing,
   and so does every missing one of a rule that comes after it, whatever its own ports are.
  */
  lemma UnreadablePortStops(d: Deployment, managed: map<string, string>, store: Store, i: nat, r: nat, j: nat, q: nat)
    requires HasRule(d, i, r) && FirewallName(d.uid, i, r) !in store && !AllNumbered(RuleOf(d, i, r))
    requires HasRule(d, j, q) && FirewallName(d.uid, j, q) !in store
    requires i < j || (i == j && r <= q)
    ensures FirewallName(d.uid, j, q) !in Final(d, managed, store)
  {
    hide FirewallName, AllNumbered, Final;
    ItemOfRule(d, managed, i, r);
    FinalAt(d, managed, store, j, q);
    ItemsInOrder(d, managed, i, r, j, q);
  }

  lemma ItemsInOrder(d: Deployment, managed: map<string, string>, i: nat, r: nat, j: nat, q: nat)
    requires HasRule(d, i, r) && HasRule(d, j, q) && (i < j || (i == j && r <= q))
    ensures ItemAt(d, managed, i, r) <= ItemAt(d, managed, j, q)
  {
    hide FirewallName;
    var groups := Plan(d, managed);
    if i < j {
      GroupAt(groups[..j], i);
      assert groups[..j][..i] == groups[..i] && groups[..j][i] == groups[i] == ItemsOf(d, managed, i);
    }
  }

  /** The smallest case: a rule for the port named "http", before one for port 80. Neither gets a firewall. */
  lemma NamedPortIsLost(uid: string, workloadUid: string, network: string, managed: map<string, string>)
    ensures var named := Rule([PolicyPort(None, Some(Text("http")), None)], []);
      var numbered := Rule([PolicyPort(None, Some(Number(80)), None)], []);
      var d := Deployment(uid, workloadUid, [Interface(Some([named, numbered]), Some(network))]);
      && !AllNumbered(named) && AllNumbered(numbered)
      && FirewallName(uid, 0, 0) !in Final(d, managed, map[])
      && FirewallName(uid, 0, 1) !in Final(d, managed, map[])
  {
    hide FirewallName, Final;
    var named := Rule([PolicyPort(None, Some(Text("http")), None)], []);
    var numbered := Rule([PolicyPort(None, Some(Number(80)), None)], []);
    var d := Deployment(uid, workloadUid, [Interface(Some([named, numbered]), Some(network))]);
    HttpIsNamed();
    assert Named(named.ports[0]);
    UnreadablePortStops(d, managed, map[], 0, 0, 0, 0);
    UnreadablePortStops(d, managed, map[], 0, 0, 0, 1);
  }

  lemma HttpIsNamed()
    ensures Decimal.Atoi("http") == 0
  {
    assert !Decimal.IsDigit('h');
  }

  ghost function Names(items: seq<Item>): set<string> {
    set a | 0 <= a < |items| :: items[a].name
  }

  lemma NameAt(items: seq<Item>, name: string)
    ensures name in Names(items) <==> exists k :: 0 <= k < |items| && items[k].name == name
  {
  }

  lemma ReachedAt(items: seq<Item>, store: Store, name: string)
    requires Distinct(items)
    ensures var front := items[..Reach(items, store)];
      name in After(items, |front|, store) <==> name in store || name in Names(front)
  {
    hide Added, Names, Reach;
    var front := items[..Reach(items, store)];
    AddedAt(front, name);
    NameAt(front, name);
    assert forall k | 0 <= k < |front| :: front[k].name in store || front[k].firewall.Some?;
  }

  lemma ReachedKeys(items: seq<Item>, store: Store)
    requires Distinct(items)
    ensures var reach := Reach(items, store);
      && After(items, reach, store).Keys == store.Keys + Names(items[..reach])
      && |Names(items[..reach])| == reach
  {
    hide Added, Names, Reach, After;
    var front := items[..Reach(items, store)];
    NamesSize(front);
    forall name ensures name in After(items, |front|, store) <==> name in store || name in Names(front) {
      ReachedAt(items, store, name);
    }
  }

  /**
   A complete pass adds nothing but the firewalls of the rules it gets to, one for each, and
   leaves untouched what was there. It gets to all rules exactly when each of them has its
   firewall already or only ports that read as numbers.
  */
  lemma OneFirewallPerRule(d: Deployment, managed: map<string, string>, store: Store) returns (names: set<string>)
    ensures Final(d, managed, store).Keys == store.Keys + names
    ensures forall name | name in store :: Final(d, managed, store)[name] == store[name]
    ensures names <= Names(Flatten(Plan(d, managed))) && |Names(Flatten(Plan(d, managed)))| == |Flatten(Plan(d, managed))|
    ensures names == Names(Flatten(Plan(d, managed))) <==> AllCreatable(d, store)
  {
    hide FirewallName, Plan, Flatten, AllNumbered, AllCreatable, Reach, Added, Names, Distinct;
    var items := Flatten(Plan(d, managed));
    var reach := Reach(items, store);
    PlanDistinct(d, managed);
    AllReached(d, managed, store);
    ReachedKeys(items, store);
    NamesSize(items);
    names := Names(items[..reach]);
    AllNamesIff(items, reach);
  }

  lemma AllNamesIff(items: seq<Item>, k: nat)
    requires Distinct(items) && k <= |items|
    ensures Names(items[..k]) <= Names(items)
    ensures Names(items[..k]) == Names(items) <==> k == |items|
  {
    NamesSize(items);
    NamesSize(items[..k]);
    assert items[..|items|] == items;
    forall name | name in Names(items[..k]) ensures name in Names(items) {
      var j :| 0 <= j < k && items[..k][j].name == name;
      assert items[j].name == name;
    }
  }

  lemma {:induction false} NamesSize(items: seq<Item>)
    requires Distinct(items)
    ensures |Names(items)| == |items|
  {
    if items != [] {
      var last := items[|items| - 1];
      var front := items[..|items| - 1];
      NamesSize(front);
      assert Names(items) == Names(front) + {last.name};
    }
  }
}
