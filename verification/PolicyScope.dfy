/**
 What the firewalls of several deployments admit together. A firewall is not tied to an
 interface: it acts on a network, and there on every machine that carries one of its tags.
*/
module PolicyScope {
  import opened Options
  import opened Policy
  import opened PolicyPass

  /** The tags of a deployment's machines, which are also those its firewalls aim at. */
  function Tags(d: Deployment): seq<string> {
    ["workload-" + d.workloadUid, "deployment-" + d.uid]
  }

  function NetworkOf(d: Deployment, i: nat): string
    requires i < |d.interfaces|
  {
    "network-" + (if d.interfaces[i].network.Some? then d.interfaces[i].network.value else "")
  }

  predicate Applies(f: Firewall, network: string, tags: seq<string>) {
    f.network == network && exists t | t in f.tags :: t in tags
  }

  /** The firewall lets the packet through to a machine of `d` at its interface `i`. */
  predicate LetsIn(cidrs: Cidrs, f: Firewall, d: Deployment, i: nat, source: nat, protocol: string, port: nat)
    requires i < |d.interfaces|
  {
    Applies(f, NetworkOf(d, i), Tags(d)) && FilterAdmits(cidrs, f.filter, source, protocol, port)
  }

  /** The packets that reach a machine of `d` at its interface `i`. */
  ghost predicate Reaches(cidrs: Cidrs, store: Store, d: Deployment, i: nat, source: nat, protocol: string, port: nat)
    requires i < |d.interfaces|
  {
    exists name | name in store :: LetsIn(cidrs, store[name], d, i, source, protocol, port)
  }

  /** The rule `r` of the interface `j` of `e`, and the firewall that it compiles to. */
  datatype Origin = Origin(e: Deployment, j: nat, r: nat)

  predicate Genuine(ds: set<Deployment>, o: Origin) {
    o.e in ds && HasRule(o.e, o.j, o.r)
  }

  function Compiled(managed: map<string, string>, o: Origin): Firewall
    requires HasRule(o.e, o.j, o.r)
  {
    var network := o.e.interfaces[o.j].network;
    FirewallFor(o.e, managed, if network.Some? then network.value else "", FilterOf(RuleOf(o.e, o.j, o.r)))
  }

  predicate ComesFrom(ds: set<Deployment>, managed: map<string, string>, f: Firewall, o: Origin) {
    Genuine(ds, o) && f == Compiled(managed, o)
  }

  /** The store holds the firewalls of all rules of the deployments, and no others. */
  ghost predicate Complete(ds: set<Deployment>, managed: map<string, string>, store: Store) {
    && (forall name | name in store :: exists o :: ComesFrom(ds, managed, store[name], o))
    && (forall o | Genuine(ds, o) :: exists name :: name in store && ComesFrom(ds, managed, store[name], o))
  }

  lemma TagsDiffer(x: string, y: string)
    ensures "workload-" + x != "deployment-" + y
  {
    assert ("workload-" + x)[0] == 'w' && ("deployment-" + y)[0] == 'd';
  }

  lemma TagInjective(x: string, y: string)
    ensures "workload-" + x == "workload-" + y <==> x == y
    ensures "deployment-" + x == "deployment-" + y <==> x == y
    ensures "network-" + x == "network-" + y <==> x == y
  {
    assert ("workload-" + x)[9..] == x && ("workload-" + y)[9..] == y;
    assert ("deployment-" + x)[11..] == x && ("deployment-" + y)[11..] == y;
    assert ("network-" + x)[8..] == x && ("network-" + y)[8..] == y;
  }

  /** Two deployments of one workload, or one and the same deployment. */
  ghost predicate Related(d: Deployment, e: Deployment) {
    d.workloadUid == e.workloadUid || d.uid == e.uid
  }

  /** The machines of two deployments share firewalls on a network exactly when these are related. */
  lemma TagsShared(d: Deployment, e: Deployment)
    ensures (exists t | t in Tags(e) :: t in Tags(d)) <==> Related(d, e)
  {
    var (w, v) := ("workload-" + d.workloadUid, "workload-" + e.workloadUid);
    var (x, y) := ("deployment-" + d.uid, "deployment-" + e.uid);
    TagsDiffer(d.workloadUid, e.uid);
    TagsDiffer(e.workloadUid, d.uid);
    TagInjective(d.workloadUid, e.workloadUid);
    TagInjective(d.uid, e.uid);
    assert Tags(d) == [w, x] && Tags(e) == [v, y];
    assert v in Tags(e) && y in Tags(e);
  }

  lemma CompiledApplies(managed: map<string, string>, o: Origin, d: Deployment, i: nat)
    requires HasRule(o.e, o.j, o.r) && i < |d.interfaces|
    ensures Applies(Compiled(managed, o), NetworkOf(d, i), Tags(d)) <==>
      NetworkOf(o.e, o.j) == NetworkOf(d, i) && Related(d, o.e)
    ensures Compiled(managed, o).filter == FilterOf(RuleOf(o.e, o.j, o.r))
  {
    hide FilterOf;
    TagsShared(d, o.e);
    assert Compiled(managed, o).tags == Tags(o.e) && Compiled(managed, o).network == NetworkOf(o.e, o.j);
  }

  /** The rule belongs to an interface on the same network, of a related deployment, and admits the packet. */
  ghost predicate Admits(cidrs: Cidrs, ds: set<Deployment>, d: Deployment, i: nat, o: Origin,
      source: nat, protocol: string, port: nat)
    requires i < |d.interfaces|
  {
    Genuine(ds, o) && NetworkOf(o.e, o.j) == NetworkOf(d, i) && Related(d, o.e)
    && RuleAdmits(cidrs, RuleOf(o.e, o.j, o.r), source, protocol, port)
  }

  /** Some rule of a related deployment, for an interface on the same network, admits the packet. */
  ghost predicate SomeRuleAdmits(cidrs: Cidrs, ds: set<Deployment>, d: Deployment, i: nat,
      source: nat, protocol: string, port: nat)
    requires i < |d.interfaces|
  {
    exists o :: Admits(cidrs, ds, d, i, o, source, protocol, port)
  }

  /** Every rule compiles to a firewall that means the same. */
  ghost predicate AllExact(cidrs: Cidrs, ds: set<Deployment>) {
    forall o | Genuine(ds, o) :: Exact(cidrs, RuleOf(o.e, o.j, o.r))
  }

  /**
   A packet reaches a machine at an interface exactly when some rule admits it that belongs
   to any interface on the same network, of any deployment of the same workload.
  */
  lemma ReachesExactly(cidrs: Cidrs, ds: set<Deployment>, managed: map<string, string>, store: Store,
      d: Deployment, i: nat, source: nat, protocol: string, port: nat)
    requires Complete(ds, managed, store) && AllExact(cidrs, ds) && i < |d.interfaces|
    ensures Reaches(cidrs, store, d, i, source, protocol, port) <==> SomeRuleAdmits(cidrs, ds, d, i, source, protocol, port)
  {
    hide Reaches, SomeRuleAdmits, Complete, AllExact;
    if Reaches(cidrs, store, d, i, source, protocol, port) {
      ReachedIsAdmitted(cidrs, ds, managed, store, d, i, source, protocol, port);
    }
    if SomeRuleAdmits(cidrs, ds, d, i, source, protocol, port) {
      AdmittedReaches(cidrs, ds, managed, store, d, i, source, protocol, port);
    }
  }

  lemma ExactRule(cidrs: Cidrs, ds: set<Deployment>, o: Origin, source: nat, protocol: string, port: nat)
    requires AllExact(cidrs, ds) && Genuine(ds, o)
    ensures FilterAdmits(cidrs, FilterOf(RuleOf(o.e, o.j, o.r)), source, protocol, port) <==>
      RuleAdmits(cidrs, RuleOf(o.e, o.j, o.r), source, protocol, port)
  {
    assert Exact(cidrs, RuleOf(o.e, o.j, o.r));
  }

  /** The firewall of a rule lets in what the rule admits, where it applies. */
  lemma OriginAdmits(cidrs: Cidrs, ds: set<Deployment>, managed: map<string, string>, f: Firewall, o: Origin,
      d: Deployment, i: nat, source: nat, protocol: string, port: nat)
    requires AllExact(cidrs, ds) && i < |d.interfaces| && ComesFrom(ds, managed, f, o)
    ensures LetsIn(cidrs, f, d, i, source, protocol, port) <==> Admits(cidrs, ds, d, i, o, source, protocol, port)
  {
    hide Applies, NetworkOf, Tags, Related, FilterAdmits, RuleAdmits, FilterOf, Compiled, AllExact;
    CompiledApplies(managed, o, d, i);
    ExactRule(cidrs, ds, o, source, protocol, port);
  }

  lemma ReachedIsAdmitted(cidrs: Cidrs, ds: set<Deployment>, managed: map<string, string>, store: Store,
      d: Deployment, i: nat, source: nat, protocol: string, port: nat)
    requires Complete(ds, managed, store) && AllExact(cidrs, ds) && i < |d.interfaces|
    requires Reaches(cidrs, store, d, i, source, protocol, port)
    ensures SomeRuleAdmits(cidrs, ds, d, i, source, protocol, port)
  {
    hide LetsIn, Admits, ComesFrom, AllExact;
    var name :| name in store && LetsIn(cidrs, store[name], d, i, source, protocol, port);
    var o :| ComesFrom(ds, managed, store[name], o);
    OriginAdmits(cidrs, ds, managed, store[name], o, d, i, source, protocol, port);
  }

  lemma AdmittedReaches(cidrs: Cidrs, ds: set<Deployment>, managed: map<string, string>, store: Store,
      d: Deployment, i: nat, source: nat, protocol: string, port: nat)
    requires Complete(ds, managed, store) && AllExact(cidrs, ds) && i < |d.interfaces|
    requires SomeRuleAdmits(cidrs, ds, d, i, source, protocol, port)
    ensures Reaches(cidrs, store, d, i, source, protocol, port)
  {
    var o :| Admits(cidrs, ds, d, i, o, source, protocol, port);
    assert Genuine(ds, o);
    hide LetsIn, Admits, ComesFrom, AllExact, Genuine;
    var name :| name in store && ComesFrom(ds, managed, store[name], o);
    OriginAdmits(cidrs, ds, managed, store[name], o, d, i, source, protocol, port);
  }

  /** A complete pass over one deployment, when each of its rules can have a firewall, leaves exactly these firewalls. */
  lemma FinalIsComplete(d: Deployment, managed: map<string, string>)
    requires AllCreatable(d, map[])
    ensures Complete({d}, managed, Final(d, managed, map[]))
  {
    hide FirewallName, Plan, Flatten, AllNumbered, AllCreatable, Compiled, Reach, Added, Distinct, ItemAt;
    var items := Flatten(Plan(d, managed));
    var store := Final(d, managed, map[]);
    PlanDistinct(d, managed);
    AllReached(d, managed, map[]);
    AllAreAdded(items);
    forall name | name in store ensures exists o :: ComesFrom({d}, managed, store[name], o) {
      AddedAt(items, name);
      var a :| 0 <= a < |items| && items[a].name == name && items[a].firewall.Some?;
      var j, r := RuleOfItem(d, managed, a);
      ItemIsCompiled(d, managed, j, r);
      assert ComesFrom({d}, managed, store[name], Origin(d, j, r));
    }
    forall o | Genuine({d}, o) ensures exists name :: name in store && ComesFrom({d}, managed, store[name], o) {
      ItemIsCompiled(d, managed, o.j, o.r);
      var a := ItemAt(d, managed, o.j, o.r);
      AddedAt(items, items[a].name);
      assert ComesFrom({d}, managed, store[items[a].name], o);
    }
  }

  lemma AllAreAdded(items: seq<Item>)
    requires Reach(items, map[]) == |items|
    ensures After(items, |items|, map[]) == Added(items)
    ensures forall a | 0 <= a < |items| :: items[a].firewall.Some?
  {
    hide Added;
    assert items[..|items|] == items;
    assert Added(items) + map[] == Added(items);
  }

  lemma ItemIsCompiled(d: Deployment, managed: map<string, string>, j: nat, r: nat)
    requires HasRule(d, j, r)
    ensures var item := Flatten(Plan(d, managed));
      var a := ItemAt(d, managed, j, r);
      a < |item| && (item[a].firewall.Some? ==> item[a].firewall.value == Compiled(managed, Origin(d, j, r)))
  {
    hide FirewallName, FilterOf, FirewallFor, Plan, Flatten, ItemAt;
    PlaceOfItem(d, managed, j, r);
  }

  /** What the interface's own rules admit. */
  ghost predicate OwnRuleAdmits(cidrs: Cidrs, d: Deployment, i: nat, source: nat, protocol: string, port: nat) {
    exists r :: HasRule(d, i, r) && RuleAdmits(cidrs, RuleOf(d, i, r), source, protocol, port)
  }

  /**
   The policy of an interface is what its machines get, for a packet, if and only if no
   other interface on the same network, in a deployment of the same workload, admits a
   packet that it refuses itself.
  */
  lemma OwnPolicyIff(cidrs: Cidrs, ds: set<Deployment>, managed: map<string, string>, store: Store,
      d: Deployment, i: nat, source: nat, protocol: string, port: nat)
    requires Complete(ds, managed, store) && AllExact(cidrs, ds) && d in ds && i < |d.interfaces|
    ensures (Reaches(cidrs, store, d, i, source, protocol, port) <==> OwnRuleAdmits(cidrs, d, i, source, protocol, port)) <==>
      forall e, j | e in ds && 0 <= j < |e.interfaces| && NetworkOf(e, j) == NetworkOf(d, i) && Related(d, e)
          && OwnRuleAdmits(cidrs, e, j, source, protocol, port) ::
        OwnRuleAdmits(cidrs, d, i, source, protocol, port)
  {
    hide Reaches, NetworkOf, Related, RuleAdmits, Complete, AllExact;
    ReachesExactly(cidrs, ds, managed, store, d, i, source, protocol, port);
    if SomeRuleAdmits(cidrs, ds, d, i, source, protocol, port) {
      var o :| Admits(cidrs, ds, d, i, o, source, protocol, port);
      assert OwnRuleAdmits(cidrs, o.e, o.j, source, protocol, port);
    }
    if OwnRuleAdmits(cidrs, d, i, source, protocol, port) {
      var r :| HasRule(d, i, r) && RuleAdmits(cidrs, RuleOf(d, i, r), source, protocol, port);
      RelatedToItself(d);
      assert Admits(cidrs, ds, d, i, Origin(d, i, r), source, protocol, port);
    }
    forall e, j | e in ds && 0 <= j < |e.interfaces| && NetworkOf(e, j) == NetworkOf(d, i) && Related(d, e)
        && OwnRuleAdmits(cidrs, e, j, source, protocol, port)
      ensures SomeRuleAdmits(cidrs, ds, d, i, source, protocol, port)
    {
      var r :| HasRule(e, j, r) && RuleAdmits(cidrs, RuleOf(e, j, r), source, protocol, port);
      assert Admits(cidrs, ds, d, i, Origin(e, j, r), source, protocol, port);
    }
  }

  lemma RelatedToItself(d: Deployment)
    ensures Related(d, d)
  {
  }
}
