/**
 The external name of a workload's service account: the 32-bit FNV-1a hash of the
 workload's UID, in decimal. The provider wants between 6 and 30 characters: a letter
 first, then lower-case letters, digits and dashes.
*/
module AccountName {
  import Decimal

  const OFFSET: bv32 := 2166136261
  const PRIME: bv32 := 16777619

  /** Words of 32 bits wrap around by themselves. */
  function Mix(h: bv32, b: bv8): bv32 {
    (h ^ (b as bv32)) * PRIME
  }

  function Fnv32a(uid: seq<bv8>): bv32 {
    if uid == [] then OFFSET else Mix(Fnv32a(uid[..|uid| - 1]), uid[|uid| - 1])
  }

  /** Published values of the hash, for the empty text, "a" and "foobar". */
  lemma KnownHashes()
    ensures Fnv32a([]) == 0x811c9dc5 && Fnv32a([0x61]) == 0xe40c292c
    ensures Fnv32a([0x66, 0x6f, 0x6f, 0x62, 0x61, 0x72]) == 0xbf9cf968
  {
    hide Mix;
    MixedBytes();
    var none: seq<bv8> := [];
    var f := OneByte(none, 0x66);
    var fo := OneByte(f, 0x6f);
    var foo := OneByte(fo, 0x6f);
    var foob := OneByte(foo, 0x62);
    var fooba := OneByte(foob, 0x61);
    var foobar := OneByte(fooba, 0x72);
    var a := OneByte(none, 0x61);
    assert a == [0x61] && foobar == [0x66, 0x6f, 0x6f, 0x62, 0x61, 0x72];
  }

  lemma OneByte(uid: seq<bv8>, b: bv8) returns (longer: seq<bv8>)
    ensures longer == uid + [b] && Fnv32a(longer) == Mix(Fnv32a(uid), b)
  {
    longer := uid + [b];
    assert longer[..|uid|] == uid;
  }

  lemma MixedBytes()
    ensures Mix(OFFSET, 0x61) == 0xe40c292c
    ensures Mix(OFFSET, 0x66) == 0xe30c2799 && Mix(0xe30c2799, 0x6f) == 0x6222e842 && Mix(0x6222e842, 0x6f) == 0xa9f37ed7
    ensures Mix(0xa9f37ed7, 0x62) == 0x3f5076ef && Mix(0x3f5076ef, 0x61) == 0x39aaa18a && Mix(0x39aaa18a, 0x72) == 0xbf9cf968
  {
  }

  method Sum32(uid: seq<bv8>) returns (h: bv32)
    ensures h == Fnv32a(uid)
  {
    hide Mix;
    h := OFFSET;
    for i := 0 to |uid|
      invariant h == Fnv32a(uid[..i])
    {
      assert uid[..i + 1][..i] == uid[..i];
      h := Mix(h, uid[i]);
    }
    assert uid[..|uid|] == uid;
  }

  function ExternalName(uid: seq<bv8>): string {
    "workload-" + Decimal.Print(Fnv32a(uid) as nat)
  }

  predicate IsAccountChar(c: char) {
    'a' <= c <= 'z' || Decimal.IsDigit(c) || c == '-'
  }

  /** Whatever the UID is, the provider accepts the name. */
  lemma ExternalNameFits(uid: seq<bv8>)
    ensures var name := ExternalName(uid);
      && 6 <= |name| <= 19 < 30 && 'a' <= name[0] <= 'z'
      && forall i | 0 <= i < |name| :: IsAccountChar(name[i])
  {
    hide Fnv32a, Decimal.Print;
    var digits := Decimal.Print(Fnv32a(uid) as nat);
    TenDigits();
    Decimal.PrintLength(Fnv32a(uid) as nat, 10);
    Decimal.PrintValue(Fnv32a(uid) as nat);
    var prefix := "workload-";
    forall i | 0 <= i < |prefix + digits| ensures IsAccountChar((prefix + digits)[i]) {
      if i >= |prefix| {
        assert (prefix + digits)[i] == digits[i - |prefix|];
      }
    }
  }

  lemma TenDigits()
    ensures Decimal.Pow10(10) == 10000000000
  {
  }
}
