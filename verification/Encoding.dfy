/**
 Base64 with padding (section 4 of RFC 4648) and UTF-8 (section 3 of RFC 3629), each
 with the facts that make encoding followed by decoding the identity.
*/
module Bytes {
  type Byte = n: nat | n < 256

}

module Base64 {
  import opened Options
  import opened Bytes

  function Letter(n: nat): char
    requires n < 64
  {
    if n < 26 then 'A' + n as char
    else if n < 52 then 'a' + (n - 26) as char
    else if n < 62 then '0' + (n - 52) as char
    else if n == 62 then '+'
    else '/'
  }

  /** The number a letter stands for, 64 when it stands for none. */
  function Unletter(c: char): (n: nat)
    ensures n <= 64
  {
    if 'A' <= c <= 'Z' then c as int - 'A' as int
    else if 'a' <= c <= 'z' then c as int - 'a' as int + 26
    else if '0' <= c <= '9' then c as int - '0' as int + 52
    else if c == '+' then 62
    else if c == '/' then 63
    else 64
  }

  lemma LetterRoundTrip(n: nat)
    requires n < 64
    ensures Unletter(Letter(n)) == n && Letter(n) != '=' && Letter(0) == 'A'
  {
  }

  // Six bits at a time out of bytes, and eight bits at a time out of letters.

  function Six1(x: Byte): (n: nat)
    ensures n < 64
  {
    x / 4
  }

  function Six2(x: Byte, y: Byte): (n: nat)
    ensures n < 64
  {
    x % 4 * 16 + y / 16
  }

  function Six3(y: Byte, z: Byte): (n: nat)
    ensures n < 64
  {
    y % 16 * 4 + z / 64
  }

  function Six4(z: Byte): (n: nat)
    ensures n < 64
  {
    z % 64
  }

  function Eight1(a: nat, b: nat): nat { a * 4 + b / 16 }
  function Eight2(b: nat, c: nat): nat { b % 16 * 16 + c / 4 }
  function Eight3(c: nat, d: nat): nat { c % 4 * 64 + d }

  lemma BitsRoundTrip(x: Byte, y: Byte, z: Byte)
    ensures Eight1(Six1(x), Six2(x, y)) == x
    ensures Eight2(Six2(x, y), Six3(y, z)) == y
    ensures Eight3(Six3(y, z), Six4(z)) == z
    ensures Six4(0) == 0 && Six3(0, 0) == 0
  {
  }

  function Group(x: Byte, y: Byte, z: Byte): (s: string)
    ensures |s| == 4
  {
    [Letter(Six1(x)), Letter(Six2(x, y)), Letter(Six3(y, z)), Letter(Six4(z))]
  }

  function Encode(b: seq<Byte>): string {
    if |b| == 0 then ""
    else if |b| == 1 then Group(b[0], 0, 0)[..2] + "=="
    else if |b| == 2 then Group(b[0], b[1], 0)[..3] + "="
    else Group(b[0], b[1], b[2]) + Encode(b[3..])
  }

  /** The three bytes of a group of four letters. */
  function Ungroup(s: string): Option<(Byte, Byte, Byte)>
    requires |s| == 4
  {
    var (a, b, c, d) := (Unletter(s[0]), Unletter(s[1]), Unletter(s[2]), Unletter(s[3]));
    if a == 64 || b == 64 || c == 64 || d == 64 then None
    else Some((Eight1(a, b), Eight2(b, c), Eight3(c, d)))
  }

  /** Groups of four letters; padding only at the very end, over bits that are zero. */
  function Decode(s: string): Option<seq<Byte>> {
    if s == "" then Some([])
    else if |s| < 4 then None
    else if |s| == 4 && s[2..] == "==" then
      match Ungroup(s[..2] + "AA")
      case None => None
      case Some((x, y, z)) => if y == 0 then Some([x]) else None
    else if |s| == 4 && s[3] == '=' then
      match Ungroup(s[..3] + "A")
      case None => None
      case Some((x, y, z)) => if z == 0 then Some([x, y]) else None
    else
      match (Ungroup(s[..4]), Decode(s[4..]))
      case (Some((x, y, z)), Some(rest)) => Some([x, y, z] + rest)
      case _ => None
  }

  lemma GroupRoundTrip(x: Byte, y: Byte, z: Byte)
    ensures Ungroup(Group(x, y, z)) == Some((x, y, z))
    ensures '=' !in Group(x, y, z)
    ensures z == 0 ==> Group(x, y, z)[3] == 'A'
    ensures y == 0 && z == 0 ==> Group(x, y, z)[2] == 'A'
  {
    hide Six1, Six2, Six3, Six4, Eight1, Eight2, Eight3, Letter, Unletter;
    BitsRoundTrip(x, y, z);
    LetterRoundTrip(Six1(x));
    LetterRoundTrip(Six2(x, y));
    LetterRoundTrip(Six3(y, z));
    LetterRoundTrip(Six4(z));
  }

  lemma {:induction false} RoundTrip(b: seq<Byte>)
    ensures Decode(Encode(b)) == Some(b)
  {
    hide Group, Ungroup;
    if |b| == 1 {
      var g := Group(b[0], 0, 0);
      GroupRoundTrip(b[0], 0, 0);
      assert Encode(b)[..2] + "AA" == g && b == [b[0]];
    } else if |b| == 2 {
      var g := Group(b[0], b[1], 0);
      GroupRoundTrip(b[0], b[1], 0);
      assert Encode(b)[..3] + "A" == g && b == [b[0], b[1]];
      assert Encode(b)[2] == g[2];
    } else if |b| >= 3 {
      var g := Group(b[0], b[1], b[2]);
      GroupRoundTrip(b[0], b[1], b[2]);
      RoundTrip(b[3..]);
      assert Encode(b)[..4] == g && Encode(b)[4..] == Encode(b[3..]);
      assert Encode(b)[3] == g[3] && Encode(b)[2] == g[2];
      assert b == [b[0], b[1], b[2]] + b[3..];
    }
  }

  lemma UnletterRoundTrip(c: char)
    requires Unletter(c) < 64
    ensures Letter(Unletter(c)) == c
  {
  }

  lemma SixesRoundTrip(a: nat, b: nat, c: nat, d: nat)
    requires a < 64 && b < 64 && c < 64 && d < 64
    ensures Eight1(a, b) < 256 && Eight2(b, c) < 256 && Eight3(c, d) < 256
    ensures Six1(Eight1(a, b)) == a && Six2(Eight1(a, b), Eight2(b, c)) == b
    ensures Six3(Eight2(b, c), Eight3(c, d)) == c && Six4(Eight3(c, d)) == d
  {
  }

  lemma UngroupUnique(s: string)
    requires |s| == 4 && Ungroup(s).Some?
    ensures var (x, y, z) := Ungroup(s).value; Group(x, y, z) == s
  {
    hide Six1, Six2, Six3, Six4, Eight1, Eight2, Eight3, Letter, Unletter;
    SixesRoundTrip(Unletter(s[0]), Unletter(s[1]), Unletter(s[2]), Unletter(s[3]));
    UnletterRoundTrip(s[0]);
    UnletterRoundTrip(s[1]);
    UnletterRoundTrip(s[2]);
    UnletterRoundTrip(s[3]);
  }

  /** A group padded twice has a third byte of zero. */
  lemma PaddingIsZero(s: string)
    requires |s| == 4 && Ungroup(s).Some? && s[2..] == "AA"
    ensures Ungroup(s).value.2 == 0
  {
    hide Eight1, Eight2, Eight3, Unletter;
    assert s[2] == s[2..][0] == 'A' && s[3] == s[2..][1] == 'A';
    ZeroLetters();
  }

  lemma ZeroLetters()
    ensures Unletter('A') == 0 && Eight3(0, 0) == 0
  {
  }

  /** Text that can be decoded is the encoding of what it is decoded to. */
  lemma {:induction false} Unique(s: string)
    requires Decode(s).Some?
    ensures Encode(Decode(s).value) == s
    decreases |s|
  {
    hide Group, Ungroup, Unletter;
    if s == "" {
    } else if |s| == 4 && s[2..] == "==" {
      var g := s[..2] + "AA";
      UngroupUnique(g);
      assert g[2..] == "AA";
      PaddingIsZero(g);
      assert g[..2] == s[..2] && s == s[..2] + s[2..];
    } else if |s| == 4 && s[3] == '=' {
      var g := s[..3] + "A";
      UngroupUnique(g);
      assert g[..3] == s[..3] && s == s[..3] + "=";
    } else {
      UngroupUnique(s[..4]);
      Unique(s[4..]);
      var (x, y, z) := Ungroup(s[..4]).value;
      var rest := Decode(s[4..]).value;
      assert ([x, y, z] + rest)[3..] == rest;
      assert s == s[..4] + s[4..];
    }
  }

  /** The examples of section 10 of RFC 4648. */
  lemma KnownEncodings()
    ensures Encode([0x66]) == "Zg==" && Encode([0x66, 0x6f]) == "Zm8=" && Encode([0x66, 0x6f, 0x6f]) == "Zm9v"
    ensures Encode([0xfb, 0xff, 0xfe]) == "+//+"
  {
    var foo := [0x66, 0x6f, 0x6f];
    assert foo[3..] == [];
    var high := [0xfb, 0xff, 0xfe];
    assert high[3..] == [];
  }
}

module Utf8 {
  import opened Options
  import opened Bytes

  // The bits of a code point, six at a time from the low end.

  function Low(n: nat): nat { 0x80 + n % 64 }
  function Mid(n: nat): nat { 0x80 + n / 64 % 64 }
  function High(n: nat): nat { 0x80 + n / 4096 % 64 }

  function EncodeChar(c: char): seq<Byte> {
    var n := c as int;
    if n < 0x80 then [n]
    else if n < 0x800 then [0xC0 + n / 64, Low(n)]
    else if n < 0x1_0000 then [0xE0 + n / 4096, Mid(n), Low(n)]
    else [0xF0 + n / 262144, High(n), Mid(n), Low(n)]
  }

  function Encode(t: string): seq<Byte> {
    if t == "" then [] else EncodeChar(t[0]) + Encode(t[1..])
  }

  predicate IsTail(b: Byte) {
    0x80 <= b < 0xC0
  }

  /** A code point that is a character: in range and no surrogate. */
  predicate IsScalar(n: int) {
    0 <= n < 0xD800 || 0xE000 <= n < 0x11_0000
  }

  function Point2(a: int, b: int): int { (a - 0xC0) * 64 + (b - 0x80) }
  function Point3(a: int, b: int, c: int): int { (a - 0xE0) * 4096 + (b - 0x80) * 64 + (c - 0x80) }
  function Point4(a: int, b: int, c: int, d: int): int {
    (a - 0xF0) * 262144 + (b - 0x80) * 4096 + (c - 0x80) * 64 + (d - 0x80)
  }

  datatype Head = Head(point: int, width: nat)

  /** The character `b` starts with: well-formed, in the shortest form, and no surrogate. */
  function DecodeHead(b: seq<Byte>): (h: Option<Head>)
    ensures h.Some? ==> 1 <= h.value.width <= |b| && IsScalar(h.value.point)
  {
    if b == [] then None
    else if b[0] < 0x80 then Some(Head(b[0], 1))
    else if 0xC0 <= b[0] < 0xE0 && |b| >= 2 && IsTail(b[1]) then
      var n := Point2(b[0], b[1]);
      if 0x80 <= n then Some(Head(n, 2)) else None
    else if 0xE0 <= b[0] < 0xF0 && |b| >= 3 && IsTail(b[1]) && IsTail(b[2]) then
      var n := Point3(b[0], b[1], b[2]);
      if 0x800 <= n && IsScalar(n) then Some(Head(n, 3)) else None
    else if 0xF0 <= b[0] < 0xF8 && |b| >= 4 && IsTail(b[1]) && IsTail(b[2]) && IsTail(b[3]) then
      var n := Point4(b[0], b[1], b[2], b[3]);
      if 0x1_0000 <= n && IsScalar(n) then Some(Head(n, 4)) else None
    else None
  }

  function Decode(b: seq<Byte>): Option<string> {
    if b == [] then Some("")
    else
      match DecodeHead(b)
      case None => None
      case Some(h) =>
        match Decode(b[h.width..])
        case None => None
        case Some(rest) => Some([h.point as char] + rest)
  }

  lemma Split(n: nat)
    ensures n / 64 * 64 + n % 64 == n
    ensures n / 4096 * 4096 + n / 64 % 64 * 64 + n % 64 == n
    ensures n / 262144 * 262144 + n / 4096 % 64 * 4096 + n / 64 % 64 * 64 + n % 64 == n
  {
    var m := n / 64;
    var k := m / 64;
    assert n / 4096 == k && n / 262144 == k / 64;
  }

  lemma CharRoundTrip(c: char, rest: seq<Byte>)
    ensures DecodeHead(EncodeChar(c) + rest) == Some(Head(c as int, |EncodeChar(c)|))
  {
    Split(c as int);
  }

  lemma {:induction false} RoundTrip(t: string)
    ensures Decode(Encode(t)) == Some(t)
  {
    if t != "" {
      CharRoundTrip(t[0], Encode(t[1..]));
      RoundTrip(t[1..]);
      assert Encode(t)[|EncodeChar(t[0])|..] == Encode(t[1..]);
      assert t == [t[0]] + t[1..];
    }
  }

  lemma Join(a: nat, b: nat, c: nat, d: nat)
    requires b < 64 && c < 64 && d < 64
    ensures (a * 64 + b) / 64 == a && (a * 64 + b) % 64 == b
    ensures var n := a * 4096 + b * 64 + c; n / 4096 == a && n / 64 % 64 == b && n % 64 == c
    ensures var n := a * 262144 + b * 4096 + c * 64 + d;
      n / 262144 == a && n / 4096 % 64 == b && n / 64 % 64 == c && n % 64 == d
  {
  }

  lemma CharUnique(b: seq<Byte>)
    requires DecodeHead(b).Some?
    ensures EncodeChar(DecodeHead(b).value.point as char) == b[..DecodeHead(b).value.width]
  {
    var h := DecodeHead(b).value;
    if h.width == 2 {
      Join(b[0] - 0xC0, b[1] - 0x80, 0, 0);
    } else if h.width == 3 {
      Join(b[0] - 0xE0, b[1] - 0x80, b[2] - 0x80, 0);
    } else if h.width == 4 {
      Join(b[0] - 0xF0, b[1] - 0x80, b[2] - 0x80, b[3] - 0x80);
    }
  }

  /** Bytes that decode are the encoding of what they decode to. */
  lemma {:induction false} Unique(b: seq<Byte>)
    requires Decode(b).Some?
    ensures Encode(Decode(b).value) == b
  {
    hide DecodeHead, EncodeChar;
    if b != [] {
      var w := DecodeHead(b).value.width;
      Unique(b[w..]);
      CharUnique(b);
      assert b == b[..w] + b[w..];
      assert Decode(b).value[1..] == Decode(b[w..]).value;
    }
  }
}
