/**
 The part of JSON (section 4 and section 7 of RFC 8259) that carries the secrets:
 objects, strings and null, printed the way Go's `json.Marshal` prints them, without
 any white space.
*/
module Json {
  import opened Options

  datatype Value = Null | Text(s: string) | Object(members: seq<(string, Value)>)

  // ---------------------------------------------------------------- printing

  function Hex(n: nat): char
    requires n < 16
  {
    if n < 10 then '0' + n as char else 'a' + (n - 10) as char
  }

  /** Characters that are printed as \uXXXX: control characters, those unsafe in HTML, and the two line separators. */
  predicate ByNumber(c: char) {
    c < ' ' || c == '<' || c == '>' || c == '&' || c as int == 0x2028 || c as int == 0x2029
  }

  function EscapeChar(c: char): string {
    if c == '"' then "\\\""
    else if c == '\\' then "\\\\"
    else if c as int == 8 then "\\b"
    else if c as int == 12 then "\\f"
    else if c == '\n' then "\\n"
    else if c == '\r' then "\\r"
    else if c == '\t' then "\\t"
    else if ByNumber(c) then
      var n := c as int;
      ['\\', 'u', Hex(n / 4096 % 16), Hex(n / 256 % 16), Hex(n / 16 % 16), Hex(n % 16)]
    else [c]
  }

  function Escape(s: string): string {
    if s == "" then "" else EscapeChar(s[0]) + Escape(s[1..])
  }

  function Quote(s: string): string {
    ['"'] + Escape(s) + ['"']
  }

  function Print(v: Value): string
    decreases v, 0
  {
    match v
    case Null => "null"
    case Text(s) => Quote(s)
    case Object(members) => ['{'] + PrintMembers(members) + ['}']
  }

  function PrintMembers(members: seq<(string, Value)>): string
    decreases members, 1
  {
    if members == [] then ""
    else PrintMember(members[0]) + (if |members| == 1 then "" else [','] + PrintMembers(members[1..]))
  }

  function PrintMember(m: (string, Value)): string
    decreases m, 1
  {
    Quote(m.0) + [':'] + Print(m.1)
  }

  // ---------------------------------------------------------------- parsing

  function Unhex(c: char): (n: nat)
    ensures n <= 16
  {
    if '0' <= c <= '9' then c as int - '0' as int
    else if 'a' <= c <= 'f' then c as int - 'a' as int + 10
    else if 'A' <= c <= 'F' then c as int - 'A' as int + 10
    else 16
  }

  /** One character of a string literal, and how long its spelling is. */
  function UnescapeChar(s: string): (r: Option<(char, nat)>)
    ensures r.Some? ==> 1 <= r.value.1 <= |s|
  {
    if s == "" || s[0] < ' ' || s[0] == '"' then None
    else if s[0] != '\\' then Some((s[0], 1))
    else if |s| < 2 then None
    else if s[1] == '"' || s[1] == '\\' || s[1] == '/' then Some((s[1], 2))
    else if s[1] == 'b' then Some((8 as char, 2))
    else if s[1] == 'f' then Some((12 as char, 2))
    else if s[1] == 'n' then Some(('\n', 2))
    else if s[1] == 'r' then Some(('\r', 2))
    else if s[1] == 't' then Some(('\t', 2))
    else if s[1] == 'u' && |s| >= 6 then
      var (a, b, c, d) := (Unhex(s[2]), Unhex(s[3]), Unhex(s[4]), Unhex(s[5]));
      var n := a * 4096 + b * 256 + c * 16 + d;
      if a == 16 || b == 16 || c == 16 || d == 16 || 0xD800 <= n < 0xE000 then None
      else Some((n as char, 6))
    else None
  }

  /** The rest of a string literal after its opening quote, and what follows the closing one. */
  function ParseText(s: string): (r: Option<(string, string)>)
    ensures r.Some? ==> |r.value.1| < |s|
    decreases |s|
  {
    if s == "" then None
    else if s[0] == '"' then Some(("", s[1..]))
    else
      match UnescapeChar(s)
      case None => None
      case Some((c, k)) =>
        match ParseText(s[k..])
        case None => None
        case Some((t, rest)) => Some(([c] + t, rest))
  }

  function Parse(s: string): (r: Option<(Value, string)>)
    ensures r.Some? ==> |r.value.1| < |s|
    decreases |s|, 0
  {
    if s == "" then None
    else if s[0] == '"' then
      match ParseText(s[1..])
      case None => None
      case Some((t, rest)) => Some((Text(t), rest))
    else if s[0] == '{' then
      if |s| >= 2 && s[1] == '}' then Some((Object([]), s[2..]))
      else
        match ParseMembers(s[1..])
        case None => None
        case Some((members, rest)) => Some((Object(members), rest))
    else if |s| >= 4 && s[..4] == "null" then Some((Null, s[4..]))
    else None
  }

  /** A member, and the colon before its value. */
  function ParseKey(s: string): (r: Option<(string, string)>)
    ensures r.Some? ==> |r.value.1| < |s|
  {
    if s == "" || s[0] != '"' then None
    else
      match ParseText(s[1..])
      case None => None
      case Some((key, rest)) => if rest != "" && rest[0] == ':' then Some((key, rest[1..])) else None
  }

  /** At least one member, up to and including the closing brace. */
  function ParseMembers(s: string): (r: Option<(seq<(string, Value)>, string)>)
    ensures r.Some? ==> |r.value.1| < |s|
    decreases |s|, 1
  {
    match ParseKey(s)
    case None => None
    case Some((key, afterKey)) =>
      match Parse(afterKey)
      case None => None
      case Some((value, rest)) =>
        if rest == "" then None
        else if rest[0] == '}' then Some(([(key, value)], rest[1..]))
        else if rest[0] == ',' then
          match ParseMembers(rest[1..])
          case None => None
          case Some((members, rest')) => Some(([(key, value)] + members, rest'))
        else None
  }

  /** A whole document. */
  function Loads(s: string): Option<Value> {
    match Parse(s)
    case None => None
    case Some((v, rest)) => if rest == "" then Some(v) else None
  }

  // ---------------------------------------------------------------- round trip

  lemma HexRoundTrip(n: nat)
    requires n < 16
    ensures Unhex(Hex(n)) == n
  {
  }

  lemma HexDigits(n: nat)
    requires n < 0x1_0000
    ensures n == n / 4096 % 16 * 4096 + n / 256 % 16 * 256 + n / 16 % 16 * 16 + n % 16
  {
    var a := n / 16;
    var b := a / 16;
    var c := b / 16;
    assert b == n / 256;
    assert c == n / 4096;
    assert c % 16 == c;
  }

  /** A character spelled by its number. */
  lemma NumberRoundTrip(n: nat, rest: string)
    requires n < 0xD800
    ensures UnescapeChar(['\\', 'u', Hex(n / 4096 % 16), Hex(n / 256 % 16), Hex(n / 16 % 16), Hex(n % 16)] + rest)
      == Some((n as char, 6))
  {
    hide Hex, Unhex;
    HexRoundTrip(n / 4096 % 16);
    HexRoundTrip(n / 256 % 16);
    HexRoundTrip(n / 16 % 16);
    HexRoundTrip(n % 16);
    HexDigits(n);
  }

  lemma CharRoundTrip(c: char, rest: string)
    ensures UnescapeChar(EscapeChar(c) + rest) == Some((c, |EscapeChar(c)|))
    ensures EscapeChar(c)[0] != '"'
  {
    hide Hex, Unhex;
    if ByNumber(c) {
      NumberRoundTrip(c as int, rest);
    }
  }

  lemma {:induction false} TextRoundTrip(s: string, rest: string)
    ensures ParseText(Escape(s) + ['"'] + rest) == Some((s, rest))
    decreases |s|
  {
    hide UnescapeChar, EscapeChar;
    if s == "" {
      assert (Escape(s) + ['"'] + rest)[1..] == rest;
    } else {
      var tail := Escape(s[1..]) + ['"'] + rest;
      var e := EscapeChar(s[0]);
      CharRoundTrip(s[0], tail);
      TextRoundTrip(s[1..], rest);
      assert Escape(s) + ['"'] + rest == e + tail;
      assert (e + tail)[|e|..] == tail;
      assert s == [s[0]] + s[1..];
    }
  }

  lemma KeyRoundTrip(key: string, rest: string)
    ensures ParseKey(Quote(key) + [':'] + rest) == Some((key, rest))
  {
    hide ParseText, Escape;
    TextRoundTrip(key, [':'] + rest);
    var s := Quote(key) + [':'] + rest;
    assert s[1..] == Escape(key) + ['"'] + ([':'] + rest);
    assert ([':'] + rest)[1..] == rest;
  }

  lemma NullRoundTrip(rest: string)
    ensures Parse("null" + rest) == Some((Null, rest))
  {
  }

  lemma QuoteRoundTrip(s: string, rest: string)
    ensures Parse(Quote(s) + rest) == Some((Text(s), rest))
  {
    hide ParseText, Escape, ParseMembers;
    TextRoundTrip(s, rest);
    assert (Quote(s) + rest)[1..] == Escape(s) + ['"'] + rest;
  }

  /** What the printed members parse to decides what the printed object parses to. */
  lemma BracesRoundTrip(inner: string, members: seq<(string, Value)>, rest: string)
    requires (inner == "" && members == []) ||
      (inner != "" && inner[0] == '"' && ParseMembers(inner + ['}'] + rest) == Some((members, rest)))
    ensures Parse(['{'] + inner + ['}'] + rest) == Some((Object(members), rest))
  {
    var s := ['{'] + inner + ['}'] + rest;
    assert s[1..] == inner + ['}'] + rest;
    if inner == "" {
      assert s[2..] == rest;
    } else {
      assert s[1] == '"';
    }
  }

  lemma {:induction false} RoundTrip(v: Value, rest: string)
    ensures Parse(Print(v) + rest) == Some((v, rest))
    decreases v, 0
  {
    hide Parse, ParseMembers, Quote;
    match v
    case Null => NullRoundTrip(rest);
    case Text(s) => QuoteRoundTrip(s, rest);
    case Object(members) =>
      if members != [] {
        MembersRoundTrip(members, rest);
      }
      BracesRoundTrip(PrintMembers(members), members, rest);
  }

  lemma {:induction false} MembersRoundTrip(members: seq<(string, Value)>, rest: string)
    requires members != []
    ensures PrintMembers(members) != "" && PrintMembers(members)[0] == '"'
    ensures ParseMembers(PrintMembers(members) + ['}'] + rest) == Some((members, rest))
    decreases members, 1
  {
    hide ParseKey, Quote, Parse;
    var (key, value) := members[0];
    var last := |members| == 1;
    var after := (if last then "" else [','] + PrintMembers(members[1..])) + ['}'] + rest;
    assert PrintMembers(members) + ['}'] + rest == Quote(key) + [':'] + (Print(value) + after);
    MemberRoundTrip(members[0], after);
    if last {
      assert after[1..] == rest && members == [(key, value)];
    } else {
      MembersRoundTrip(members[1..], rest);
      assert after[1..] == PrintMembers(members[1..]) + ['}'] + rest;
      assert members == [(key, value)] + members[1..];
    }
    QuoteStarts(key);
  }

  lemma {:induction false} MemberRoundTrip(m: (string, Value), rest: string)
    ensures ParseKey(Quote(m.0) + [':'] + (Print(m.1) + rest)) == Some((m.0, Print(m.1) + rest))
    ensures Parse(Print(m.1) + rest) == Some((m.1, rest))
    decreases m, 1
  {
    KeyRoundTrip(m.0, Print(m.1) + rest);
    RoundTrip(m.1, rest);
  }

  lemma QuoteStarts(s: string)
    ensures Quote(s) != "" && Quote(s)[0] == '"'
  {
  }

  lemma DocumentRoundTrip(v: Value)
    ensures Loads(Print(v)) == Some(v)
  {
    RoundTrip(v, "");
    assert Print(v) + "" == Print(v);
  }
}
