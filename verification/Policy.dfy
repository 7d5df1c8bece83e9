/**
 Compiling an ingress rule of a network policy into a provider firewall, and what
 the two mean: which packets (source address, protocol, port) each of them admits.
*/
module Policy {
  import opened Options
  import Decimal

  // ---------------------------------------------------------------- the policy

  datatype Port = Number(n: int) | Text(s: string) {
    /** `IntOrString.IntValue`. */
    function IntValue(): int {
      match this
      case Number(n) => n
      case Text(s) => Decimal.Atoi(s)
    }
  }

  datatype PolicyPort = PolicyPort(protocol: Option<string>, port: Option<Port>, endPort: Option<int>)
  datatype IpBlock = IpBlock(cidr: string, except: seq<string>)
  datatype Peer = Peer(ipBlock: Option<IpBlock>)
  datatype Rule = Rule(ports: seq<PolicyPort>, from: seq<Peer>)

  function LowerChar(c: char): char {
    if 'A' <= c <= 'Z' then c + 32 as char else c
  }

  function ToLower(s: string): string {
    seq(|s|, i requires 0 <= i < |s| => LowerChar(s[i]))
  }

  /**
   Firewalls know protocols by lower-case names, rules spell them as they like: the names
   agree letter by letter, a capital of the rule standing for the small letter that is as
   far from 'a' as it is from 'A'.
  */
  predicate Spells(text: string, protocol: string) {
    |text| == |protocol| && forall i | 0 <= i < |text| ::
      if 'A' <= text[i] <= 'Z' then protocol[i] as int - 'a' as int == text[i] as int - 'A' as int
      else protocol[i] == text[i]
  }

  /** Every text spells exactly one protocol, and that is what the compiler makes of it. */
  lemma ToLowerSpells(text: string, protocol: string)
    ensures Spells(text, protocol) <==> protocol == ToLower(text)
  {
    if Spells(text, protocol) {
      assert forall i | 0 <= i < |text| :: protocol[i] == ToLower(text)[i];
    }
  }

  /** The protocols that network policies know. */
  lemma KnownProtocols()
    ensures ToLower("TCP") == "tcp" && ToLower("UDP") == "udp" && ToLower("SCTP") == "sctp"
  {
  }

  /** Addresses in a CIDR block; the block's text is passed on unread. */
  type Cidrs = (string, nat) -> bool

  predicate PortAdmits(p: PolicyPort, protocol: string, port: nat) {
    && (match p.protocol case None => protocol == "tcp" case Some(x) => Spells(x, protocol))
    && (match p.port
        case None => true
        case Some(x) => x.IntValue() <= port <= (if p.endPort.Some? then p.endPort.value else x.IntValue()))
  }

  predicate BlockAdmits(cidrs: Cidrs, b: IpBlock, source: nat) {
    cidrs(b.cidr, source) && forall e | e in b.except :: !cidrs(e, source)
  }

  predicate SourceAdmits(cidrs: Cidrs, from: seq<Peer>, source: nat) {
    from == [] || exists p | p in from :: p.ipBlock.Some? && BlockAdmits(cidrs, p.ipBlock.value, source)
  }

  /** The packets an ingress rule admits; a rule without ports admits every port. */
  predicate RuleAdmits(cidrs: Cidrs, r: Rule, source: nat, protocol: string, port: nat) {
    && (r.ports == [] || exists p | p in r.ports :: PortAdmits(p, protocol, port))
    && SourceAdmits(cidrs, r.from, source)
  }

  // ---------------------------------------------------------------- the firewall

  datatype Allow = Allow(protocol: string, ports: seq<string>)
  datatype Filter = Filter(allow: seq<Allow>, sourceRanges: seq<string>)

  /** The position of the first dash, or the length when there is none. */
  function Dash(t: string): (i: nat)
    ensures i <= |t| && '-' !in t[..i] && (i < |t| ==> t[i] == '-')
  {
    if t == "" || t[0] == '-' then 0
    else
      assert t == [t[0]] + t[1..];
      1 + Dash(t[1..])
  }

  /** The provider reads a port entry as a number or as an inclusive range of numbers. */
  predicate EntryAdmits(t: string, port: nat) {
    var i := Dash(t);
    if i == |t| then Decimal.IsNumeral(t) && Decimal.Value(t) == port
    else
      && Decimal.IsNumeral(t[..i]) && Decimal.IsNumeral(t[i + 1..])
      && Decimal.Value(t[..i]) <= port <= Decimal.Value(t[i + 1..])
  }

  predicate AllowAdmits(a: Allow, protocol: string, port: nat) {
    a.protocol == protocol && (a.ports == [] || exists t | t in a.ports :: EntryAdmits(t, port))
  }

  predicate RangesAdmit(cidrs: Cidrs, ranges: seq<string>, source: nat) {
    ranges == [] || exists r | r in ranges :: cidrs(r, source)
  }

  predicate FilterAdmits(cidrs: Cidrs, f: Filter, source: nat, protocol: string, port: nat) {
    (exists a | a in f.allow :: AllowAdmits(a, protocol, port)) && RangesAdmit(cidrs, f.sourceRanges, source)
  }

  // ---------------------------------------------------------------- the compiler

  /** The guard of the early return: a zero port, or a name that does not read as a number. */
  predicate Named(p: PolicyPort) {
    p.port.Some? && p.port.value.IntValue() == 0
  }

  function Entry(p: PolicyPort): seq<string> {
    if p.port.None? then []
    else
      var text := Decimal.Itoa(p.port.value.IntValue());
      [if p.endPort.Some? then text + "-" + Decimal.Itoa(p.endPort.value) else text]
  }

  function AllowOf(p: PolicyPort): Allow {
    Allow(if p.protocol.Some? then ToLower(p.protocol.value) else "tcp", Entry(p))
  }

  function Allows(ports: seq<PolicyPort>): seq<Allow> {
    if ports == [] then [] else Allows(ports[..|ports| - 1]) + [AllowOf(ports[|ports| - 1])]
  }

  function Ranges(from: seq<Peer>): seq<string> {
    if from == [] then []
    else
      var last := from[|from| - 1];
      Ranges(from[..|from| - 1]) + (if last.ipBlock.Some? then [last.ipBlock.value.cidr] else [])
  }

  function FilterOf(r: Rule): Filter {
    Filter(Allows(r.ports), Ranges(r.from))
  }

  /** The loop over the ports; `None` is the early return. */
  method CompilePorts(ports: seq<PolicyPort>) returns (allow: Option<seq<Allow>>)
    ensures allow == if exists p | p in ports :: Named(p) then None else Some(Allows(ports))
  {
    var done: seq<Allow> := [];
    for i := 0 to |ports|
      invariant done == Allows(ports[..i])
      invariant forall p | p in ports[..i] :: !Named(p)
    {
      var port := ports[i];
      assert port in ports && ports[..i + 1] == ports[..i] + [port];
      var ipProtocol := "tcp";
      if port.protocol.Some? {
        ipProtocol := ToLower(port.protocol.value);
      }
      var gcpPorts: seq<string> := [];
      if port.port.Some? {
        var gcpPort := Decimal.Itoa(port.port.value.IntValue());
        ItoaZero(port.port.value.IntValue());
        if gcpPort == "0" {
          return None;
        }
        if port.endPort.Some? {
          gcpPort := gcpPort + "-" + Decimal.Itoa(port.endPort.value);
        }
        gcpPorts := [gcpPort];
      }
      done := done + [Allow(ipProtocol, gcpPorts)];
    }
    assert ports[..|ports|] == ports;
    allow := Some(done);
  }

  /** The loop over the peers. */
  method CompilePeers(from: seq<Peer>) returns (ranges: seq<string>)
    ensures ranges == Ranges(from)
  {
    ranges := [];
    for i := 0 to |from|
      invariant ranges == Ranges(from[..i])
    {
      assert from[..i + 1][..i] == from[..i];
      if from[i].ipBlock.Some? {
        ranges := ranges + [from[i].ipBlock.value.cidr];
      }
    }
    assert from[..|from|] == from;
  }

  lemma ItoaZero(n: int)
    ensures Decimal.Itoa(n) == "0" <==> n == 0
  {
    if n < 0 {
      assert Decimal.Itoa(n)[0] == '-';
    } else {
      Decimal.PrintValue(n);
      Decimal.PrintValue(0);
    }
  }

  // ---------------------------------------------------------------- text ports

  /** A text port reads as zero exactly when its digits are worth nothing, or something follows them before they overflow. */
  lemma TextPortIsZero(s: string)
    ensures var digits := Decimal.Digits(Decimal.Unsigned(s));
      Text(s).IntValue() == 0 <==>
        Decimal.Value(digits) == 0 || (digits != Decimal.Unsigned(s) && Decimal.Value(digits) < 0x1_0000_0000_0000_0000)
  {
    Decimal.AtoiExactly(s);
  }

  /** A numeral of at most 63 bits reads as its value. */
  lemma TextPortIsNumber(s: string)
    requires Decimal.IsNumeral(s) && Decimal.Value(s) < 0x8000_0000_0000_0000
    ensures Text(s).IntValue() == Decimal.Value(s)
  {
    Decimal.DigitsOfNumeral(s);
    Decimal.AtoiExactly(s);
  }

  /** A port given as text compiles like the number it was printed from, and stops the compiler like it. */
  lemma TextPortLikeNumber(p: PolicyPort, n: int)
    requires -0x8000_0000_0000_0000 <= n < 0x8000_0000_0000_0000
    ensures var (t, m) := (p.(port := Some(Text(Decimal.Itoa(n)))), p.(port := Some(Number(n))));
      AllowOf(t) == AllowOf(m) && (Named(t) <==> Named(m))
  {
    Decimal.AtoiItoa(n);
  }

  // ---------------------------------------------------------------- meaning is preserved

  /** A port the compiler is meant for: it reads as a positive number. */
  predicate Numbered(p: PolicyPort) {
    p.port.Some? ==> p.port.value.IntValue() > 0
  }

  lemma NumeralHasNoDash(s: string)
    requires Decimal.IsNumeral(s)
    ensures Dash(s) == |s|
  {
  }

  lemma {:induction false} DashAfterNumeral(s: string, rest: string)
    requires forall i | 0 <= i < |s| :: Decimal.IsDigit(s[i])
    ensures Dash(s + "-" + rest) == |s|
  {
    var t := s + "-" + rest;
    if s != "" {
      assert t[0] == s[0] && Decimal.IsDigit(s[0]);
      assert t[1..] == s[1..] + "-" + rest;
      DashAfterNumeral(s[1..], rest);
    }
  }

  /** The printed entry reads back as the range it was printed from. */
  lemma EntryMeaning(p: PolicyPort, port: nat)
    requires p.port.Some? && Numbered(p)
    ensures EntryAdmits(Entry(p)[0], port) <==>
      p.port.value.IntValue() <= port <= (if p.endPort.Some? then p.endPort.value else p.port.value.IntValue())
  {
    var low := p.port.value.IntValue();
    var text := Decimal.Itoa(low);
    Decimal.PrintValue(low);
    if p.endPort.None? {
      NumeralHasNoDash(text);
    } else {
      var high := Decimal.Itoa(p.endPort.value);
      DashAfterNumeral(text, high);
      var t := text + "-" + high;
      assert t[..|text|] == text && t[|text| + 1..] == high;
      if p.endPort.value >= 0 {
        Decimal.PrintValue(p.endPort.value);
      } else {
        assert high[0] == '-' && !Decimal.IsDigit(high[0]);
      }
    }
  }

  lemma AllowMeaning(p: PolicyPort, protocol: string, port: nat)
    requires Numbered(p)
    ensures AllowAdmits(AllowOf(p), protocol, port) <==> PortAdmits(p, protocol, port)
  {
    if p.port.Some? {
      EntryMeaning(p, port);
      assert Entry(p) == [Entry(p)[0]] && Entry(p)[0] in Entry(p);
    }
  }

  lemma {:induction false} AllowsLength(ports: seq<PolicyPort>)
    ensures |Allows(ports)| == |ports|
    ensures forall i | 0 <= i < |ports| :: Allows(ports)[i] == AllowOf(ports[i])
  {
    hide AllowOf;
    if ports != [] {
      AllowsLength(ports[..|ports| - 1]);
    }
  }

  lemma AllowsMembers(ports: seq<PolicyPort>, a: Allow)
    ensures a in Allows(ports) <==> exists p :: p in ports && AllowOf(p) == a
  {
    hide AllowOf, Allows;
    AllowsLength(ports);
    if a in Allows(ports) {
      var i :| 0 <= i < |ports| && Allows(ports)[i] == a;
      assert ports[i] in ports;
    }
    if p :| p in ports && AllowOf(p) == a {
      var i :| 0 <= i < |ports| && ports[i] == p;
      assert Allows(ports)[i] == a;
    }
  }

  /** The peer puts the range `r` into the firewall. */
  predicate Gives(p: Peer, r: string) {
    p.ipBlock.Some? && p.ipBlock.value.cidr == r
  }

  lemma {:induction false} RangesMembers(from: seq<Peer>, r: string)
    ensures r in Ranges(from) <==> exists i :: 0 <= i < |from| && Gives(from[i], r)
  {
    if from != [] {
      var last := |from| - 1;
      var front := from[..last];
      RangesMembers(front, r);
      if r in Ranges(front) {
        var i :| 0 <= i < |front| && Gives(front[i], r);
        assert Gives(from[i], r);
      } else if r in Ranges(from) {
        assert Gives(from[last], r);
      } else {
        forall i | 0 <= i < |from| ensures !Gives(from[i], r) {
          assert i < last ==> from[i] == front[i];
        }
      }
    }
  }

  lemma PortsMeaning(ports: seq<PolicyPort>, protocol: string, port: nat)
    requires forall p | p in ports :: Numbered(p)
    ensures (exists a | a in Allows(ports) :: AllowAdmits(a, protocol, port))
      <==> exists p | p in ports :: PortAdmits(p, protocol, port)
  {
    if exists a | a in Allows(ports) :: AllowAdmits(a, protocol, port) {
      var a :| a in Allows(ports) && AllowAdmits(a, protocol, port);
      AllowsMembers(ports, a);
      var p :| p in ports && AllowOf(p) == a;
      AllowMeaning(p, protocol, port);
    }
    if exists p | p in ports :: PortAdmits(p, protocol, port) {
      var p :| p in ports && PortAdmits(p, protocol, port);
      AllowsMembers(ports, AllowOf(p));
      AllowMeaning(p, protocol, port);
    }
  }

  predicate HasBlock(from: seq<Peer>) {
    exists p | p in from :: p.ipBlock.Some?
  }

  /** What the source ranges admit: exceptions are dropped, and no block at all means everybody. */
  lemma RangesMeaning(cidrs: Cidrs, from: seq<Peer>, source: nat)
    ensures RangesAdmit(cidrs, Ranges(from), source) <==>
      !HasBlock(from) || exists p :: p in from && p.ipBlock.Some? && cidrs(p.ipBlock.value.cidr, source)
  {
    if Ranges(from) == [] && HasBlock(from) {
      var p :| p in from && p.ipBlock.Some?;
      RangesMembers(from, p.ipBlock.value.cidr);
    }
    if Ranges(from) != [] {
      RangesMembers(from, Ranges(from)[0]);
    }
    forall r ensures r in Ranges(from) <==> exists p :: p in from && p.ipBlock.Some? && p.ipBlock.value.cidr == r {
      RangesMembers(from, r);
    }
    if p :| p in from && p.ipBlock.Some? && cidrs(p.ipBlock.value.cidr, source) {
      assert p.ipBlock.value.cidr in Ranges(from);
    }
  }

  /** A rule the compiler is meant for. */
  predicate Compilable(r: Rule) {
    r.ports != [] && forall p | p in r.ports :: Numbered(p)
  }

  /** The firewall admits whatever the rule admits, exceptions or not. */
  lemma CompiledAdmitsAll(cidrs: Cidrs, r: Rule, source: nat, protocol: string, port: nat)
    requires Compilable(r) && RuleAdmits(cidrs, r, source, protocol, port)
    ensures FilterAdmits(cidrs, FilterOf(r), source, protocol, port)
  {
    PortsMeaning(r.ports, protocol, port);
    RangesMeaning(cidrs, r.from, source);
  }

  /** Every address that a block excepts, some block of the rule lets in all the same. */
  ghost predicate ExceptionsCovered(cidrs: Cidrs, from: seq<Peer>) {
    forall p, e, source | p in from && p.ipBlock.Some? && e in p.ipBlock.value.except
        && cidrs(p.ipBlock.value.cidr, source) && cidrs(e, source) ::
      exists q | q in from :: q.ipBlock.Some? && BlockAdmits(cidrs, q.ipBlock.value, source)
  }

  /** Then and only then no address of any block is refused. */
  lemma CoveredBlocks(cidrs: Cidrs, from: seq<Peer>)
    ensures ExceptionsCovered(cidrs, from) <==>
      forall p, source | p in from && p.ipBlock.Some? && cidrs(p.ipBlock.value.cidr, source) ::
        SourceAdmits(cidrs, from, source)
  {
    if ExceptionsCovered(cidrs, from) {
      forall p, source | p in from && p.ipBlock.Some? && cidrs(p.ipBlock.value.cidr, source)
        ensures SourceAdmits(cidrs, from, source)
      {
        if e :| e in p.ipBlock.value.except && cidrs(e, source) {
          var q :| q in from && q.ipBlock.Some? && BlockAdmits(cidrs, q.ipBlock.value, source);
        } else {
          assert BlockAdmits(cidrs, p.ipBlock.value, source);
        }
      }
    } else {
      var p, e, source :| p in from && p.ipBlock.Some? && e in p.ipBlock.value.except
        && cidrs(p.ipBlock.value.cidr, source) && cidrs(e, source)
        && !exists q | q in from :: q.ipBlock.Some? && BlockAdmits(cidrs, q.ipBlock.value, source);
      assert !SourceAdmits(cidrs, from, source);
    }
  }

  /** The firewall means the same as the rule for every packet. */
  ghost predicate Exact(cidrs: Cidrs, r: Rule) {
    forall source, protocol, port ::
      FilterAdmits(cidrs, FilterOf(r), source, protocol, port) <==> RuleAdmits(cidrs, r, source, protocol, port)
  }

  /** The printed entry of a negative number does not read as a port; any other entry keeps its meaning. */
  lemma AllowMeaningExactly(p: PolicyPort, protocol: string, port: nat)
    requires !Named(p)
    ensures AllowAdmits(AllowOf(p), protocol, port) <==> Numbered(p) && PortAdmits(p, protocol, port)
  {
    if Numbered(p) {
      AllowMeaning(p, protocol, port);
    } else {
      var text := Entry(p)[0];
      assert Entry(p) == [text] && text[0] == '-' && Dash(text) == 0;
      assert !EntryAdmits(text, port);
    }
  }

  /** Some number of the rule is one that the firewall opens. */
  predicate PortsOpen(ports: seq<PolicyPort>, protocol: string, port: nat) {
    exists p | p in ports :: Numbered(p) && PortAdmits(p, protocol, port)
  }

  lemma PortsMeaningExactly(ports: seq<PolicyPort>, protocol: string, port: nat)
    requires forall p | p in ports :: !Named(p)
    ensures (exists a | a in Allows(ports) :: AllowAdmits(a, protocol, port)) <==> PortsOpen(ports, protocol, port)
  {
    hide AllowAdmits, AllowOf, Allows, Numbered, PortAdmits, Named;
    if a :| a in Allows(ports) && AllowAdmits(a, protocol, port) {
      AllowsMembers(ports, a);
      var p :| p in ports && AllowOf(p) == a;
      AllowMeaningExactly(p, protocol, port);
    }
    if p :| p in ports && Numbered(p) && PortAdmits(p, protocol, port) {
      AllowsMembers(ports, AllowOf(p));
      AllowMeaningExactly(p, protocol, port);
    }
  }

  /** Some port is not negative, and its range is not empty. */
  predicate OpensSome(ports: seq<PolicyPort>) {
    exists p | p in ports :: Numbered(p) &&
      (p.port.None? || p.endPort.None? || p.port.value.IntValue() <= p.endPort.value)
  }

  /** The rule names ports, and what it opens by ranges from below zero it opens by others too. */
  ghost predicate PortsCovered(ports: seq<PolicyPort>) {
    && ports != []
    && forall p, protocol, port: nat | p in ports && !Numbered(p) && PortAdmits(p, protocol, port) ::
         PortsOpen(ports, protocol, port)
  }

  /** The rule names no peers or at least one address block, and every excepted address is let in by some block anyway. */
  ghost predicate SourcesCovered(cidrs: Cidrs, from: seq<Peer>) {
    (from == [] || HasBlock(from)) && ExceptionsCovered(cidrs, from)
  }

  /** The rule lets in somebody. */
  ghost predicate LetsIn(cidrs: Cidrs, from: seq<Peer>) {
    exists source :: SourceAdmits(cidrs, from, source)
  }

  lemma SourcesExactly(cidrs: Cidrs, from: seq<Peer>)
    ensures forall source | SourceAdmits(cidrs, from, source) :: RangesAdmit(cidrs, Ranges(from), source)
    ensures SourcesCovered(cidrs, from) <==>
      forall source :: RangesAdmit(cidrs, Ranges(from), source) <==> SourceAdmits(cidrs, from, source)
  {
    hide RangesAdmit, Ranges, ExceptionsCovered;
    forall source {
      RangesMeaning(cidrs, from, source);
    }
    CoveredBlocks(cidrs, from);
    if forall source :: RangesAdmit(cidrs, Ranges(from), source) <==> SourceAdmits(cidrs, from, source) {
      assert RangesAdmit(cidrs, Ranges(from), 0) <==> SourceAdmits(cidrs, from, 0);
    }
  }

  /** A port that the numbers of the rule open, if there is one. */
  lemma SomePort(ports: seq<PolicyPort>)
    ensures OpensSome(ports) <==> exists protocol, port :: PortsOpen(ports, protocol, port)
  {
    if OpensSome(ports) {
      var p :| p in ports && Numbered(p) &&
        (p.port.None? || p.endPort.None? || p.port.value.IntValue() <= p.endPort.value);
      var port: nat := if p.port.None? then 0 else p.port.value.IntValue();
      assert PortsOpen(ports, if p.protocol.None? then "tcp" else ToLower(p.protocol.value), port);
    }
  }

  /** The ports of the rule, read off its entries. */
  predicate RuleOpens(r: Rule, protocol: string, port: nat) {
    r.ports == [] || exists p | p in r.ports :: PortAdmits(p, protocol, port)
  }

  lemma PortsExactly(r: Rule)
    ensures forall protocol, port | PortsOpen(r.ports, protocol, port) :: RuleOpens(r, protocol, port)
    ensures PortsCovered(r.ports) <==>
      forall protocol, port | RuleOpens(r, protocol, port) :: PortsOpen(r.ports, protocol, port)
  {
    if r.ports == [] {
      assert RuleOpens(r, "tcp", 0) && !PortsOpen(r.ports, "tcp", 0);
    }
  }

  /**
   Whenever a rule is compiled at all, its firewall is exact if and only if it opens no port
   or its sources are covered, and the rule lets in nobody or its ports are covered.
  */
  lemma ExactIff(cidrs: Cidrs, r: Rule)
    requires forall p | p in r.ports :: !Named(p)
    ensures Exact(cidrs, r) <==>
      && (OpensSome(r.ports) ==> SourcesCovered(cidrs, r.from))
      && (LetsIn(cidrs, r.from) ==> PortsCovered(r.ports))
  {
    hide PortsOpen, RuleOpens, OpensSome, PortsCovered, SourcesCovered, SourceAdmits, RangesAdmit, Ranges, Allows, Named;
    SomePort(r.ports);
    SourcesExactly(cidrs, r.from);
    PortsExactly(r);
    forall source, protocol, port
      ensures FilterAdmits(cidrs, FilterOf(r), source, protocol, port) <==>
        PortsOpen(r.ports, protocol, port) && RangesAdmit(cidrs, Ranges(r.from), source)
      ensures RuleAdmits(cidrs, r, source, protocol, port) <==>
        RuleOpens(r, protocol, port) && SourceAdmits(cidrs, r.from, source)
    {
      PortsMeaningExactly(r.ports, protocol, port);
      RuleByParts(cidrs, r, source, protocol, port);
    }
    if Exact(cidrs, r) {
      if protocol, port :| PortsOpen(r.ports, protocol, port) {
        forall source ensures RangesAdmit(cidrs, Ranges(r.from), source) <==> SourceAdmits(cidrs, r.from, source) {
          assert FilterAdmits(cidrs, FilterOf(r), source, protocol, port) <==> RuleAdmits(cidrs, r, source, protocol, port);
        }
      }
      if source :| SourceAdmits(cidrs, r.from, source) {
        forall protocol, port | RuleOpens(r, protocol, port) ensures PortsOpen(r.ports, protocol, port) {
          assert FilterAdmits(cidrs, FilterOf(r), source, protocol, port) <==> RuleAdmits(cidrs, r, source, protocol, port);
        }
      }
    }
  }

  lemma RuleByParts(cidrs: Cidrs, r: Rule, source: nat, protocol: string, port: nat)
    ensures RuleAdmits(cidrs, r, source, protocol, port) <==>
      RuleOpens(r, protocol, port) && SourceAdmits(cidrs, r.from, source)
  {
  }

  /** Without exceptions, and with a block wherever there are peers, nothing is lost: the guard a caller can check. */
  lemma ExactWithoutExceptions(cidrs: Cidrs, r: Rule)
    requires Compilable(r)
    requires forall p | p in r.from :: p.ipBlock.Some? && p.ipBlock.value.except == []
    ensures Exact(cidrs, r)
  {
    forall source, protocol, port
      ensures FilterAdmits(cidrs, FilterOf(r), source, protocol, port) <==> RuleAdmits(cidrs, r, source, protocol, port)
    {
      PortsMeaning(r.ports, protocol, port);
      RangesMeaning(cidrs, r.from, source);
    }
  }

  /** A single block with an exception inside it is compiled into something wider. */
  lemma ExceptionIsLost(cidrs: Cidrs, block: IpBlock, ports: seq<PolicyPort>, source: nat, protocol: string, port: nat)
    requires var r := Rule(ports, [Peer(Some(block))]); Compilable(r)
    requires exists p | p in ports :: PortAdmits(p, protocol, port)
    requires cidrs(block.cidr, source) && exists e | e in block.except :: cidrs(e, source)
    ensures var r := Rule(ports, [Peer(Some(block))]);
      FilterAdmits(cidrs, FilterOf(r), source, protocol, port) && !RuleAdmits(cidrs, r, source, protocol, port)
  {
    var r := Rule(ports, [Peer(Some(block))]);
    PortsMeaning(ports, protocol, port);
    RangesMeaning(cidrs, r.from, source);
    assert Peer(Some(block)) in r.from;
  }

  /** A rule without ports opens every port; its firewall opens none. */
  lemma NoPortsIsLost(cidrs: Cidrs, r: Rule, source: nat, protocol: string, port: nat)
    requires r.ports == []
    ensures RuleAdmits(cidrs, r, source, protocol, port) <==> SourceAdmits(cidrs, r.from, source)
    ensures !FilterAdmits(cidrs, FilterOf(r), source, protocol, port)
  {
  }

  /** All firewalls of a policy together mean what all its rules together mean. */
  lemma PolicyMeaning(cidrs: Cidrs, rules: seq<Rule>, source: nat, protocol: string, port: nat)
    requires forall r | r in rules :: Compilable(r)
    requires forall r, p | r in rules && p in r.from :: p.ipBlock.Some? && p.ipBlock.value.except == []
    ensures (exists r | r in rules :: FilterAdmits(cidrs, FilterOf(r), source, protocol, port))
      <==> exists r | r in rules :: RuleAdmits(cidrs, r, source, protocol, port)
  {
    forall r | r in rules ensures Exact(cidrs, r) {
      ExactWithoutExceptions(cidrs, r);
    }
  }
}
