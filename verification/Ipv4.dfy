/** IPv4 addresses and prefixes with the contract of Go's `net/netip`: dotted
    printing and parsing, and prefix membership by exclusive-or and shift. */
module Ipv4 {
  import opened Wrappers
  import opened Text

  type Addr = a: nat | a < 0x1_0000_0000

  // ---- Printing and parsing ---------------------------------------------------

  function FromOctets(a: nat, b: nat, c: nat, d: nat): Addr
    requires a < 256 && b < 256 && c < 256 && d < 256
  {
    ((a * 256 + b) * 256 + c) * 256 + d
  }

  function Octets(a: Addr): seq<nat> {
    [a / 0x100_0000, a / 0x1_0000 % 256, a / 256 % 256, a % 256]
  }

  /** `Addr.String` for an IPv4 address. */
  function Print(a: Addr): string {
    var o := Octets(a);
    Join([Dec(o[0]), Dec(o[1]), Dec(o[2]), Dec(o[3])], ".")
  }

  /** `netip.ParseAddr` followed by `Is4`; anything else is None. */
  function ParseAddr(s: string): Option<Addr> {
    var parts := Split(s, '.');
    if |parts| != 4 then None
    else
      var a, b, c, d := ParseField(parts[0], 255), ParseField(parts[1], 255), ParseField(parts[2], 255),
          ParseField(parts[3], 255);
      if a.Some? && b.Some? && c.Some? && d.Some?
      then Some(FromOctets(a.value, b.value, c.value, d.value)) else None
  }

  lemma OctetsRecompose(a: Addr)
    ensures var o := Octets(a);
            && (forall i :: 0 <= i < 4 ==> o[i] < 256)
            && FromOctets(o[0], o[1], o[2], o[3]) == a
  {
    var x, y := a / 256, a / 0x1_0000;
    assert x / 256 == y && y / 256 == a / 0x100_0000;
  }

  /** A printed octet never contains a character other than a digit. */
  lemma DecIsPlain(n: nat, c: char)
    requires !IsDigit(c)
    ensures c !in Dec(n)
  {
    DecReadsBack(n);
  }

  /** Every address reads back from its dotted form. */
  lemma PrintParses(a: Addr)
    ensures ParseAddr(Print(a)) == Some(a)
    ensures Split(Print(a), '.') == [Dec(Octets(a)[0]), Dec(Octets(a)[1]), Dec(Octets(a)[2]), Dec(Octets(a)[3])]
  {
    var o := Octets(a);
    var parts := [Dec(o[0]), Dec(o[1]), Dec(o[2]), Dec(o[3])];
    OctetsRecompose(a);
    forall p | p in parts ensures '.' !in p {
      var i :| 0 <= i < 4 && parts[i] == Dec(o[i]) && p == parts[i];
      DecIsPlain(o[i], '.');
    }
    SplitJoin(parts, '.');
    forall i | 0 <= i < 4 ensures ParseField(parts[i], 255) == Some(o[i]) {
      ParseFieldOfDec(o[i], 255);
    }
  }

  /** Four numerals below 256 with dots between them, the most significant first. */
  lemma DottedReads(a: nat, b: nat, c: nat, d: nat)
    requires a < 256 && b < 256 && c < 256 && d < 256
    ensures ParseAddr(Dec(a) + "." + Dec(b) + "." + Dec(c) + "." + Dec(d)) ==
            Some(a * 16777216 + b * 65536 + c * 256 + d)
  {
    DecIsPlain(a, '.');
    DecIsPlain(b, '.');
    DecIsPlain(c, '.');
    DecIsPlain(d, '.');
    ParseFieldOfDec(a, 255);
    ParseFieldOfDec(b, 255);
    ParseFieldOfDec(c, 255);
    ParseFieldOfDec(d, 255);
    FieldsRead(Dec(a), Dec(b), Dec(c), Dec(d), a, b, c, d);
  }

  lemma FieldsRead(ta: string, tb: string, tc: string, td: string, a: nat, b: nat, c: nat, d: nat)
    requires '.' !in ta && '.' !in tb && '.' !in tc && '.' !in td
    requires a < 256 && b < 256 && c < 256 && d < 256
    requires ParseField(ta, 255) == Some(a) && ParseField(tb, 255) == Some(b)
    requires ParseField(tc, 255) == Some(c) && ParseField(td, 255) == Some(d)
    ensures ParseAddr(ta + "." + tb + "." + tc + "." + td) == Some(a * 16777216 + b * 65536 + c * 256 + d)
  {
    SplitFour(ta, tb, tc, td, '.');
    Reassociate(ta, tb, tc, td);
  }

  lemma Reassociate(a: string, b: string, c: string, d: string)
    ensures a + "." + b + "." + c + "." + d == a + ['.'] + (b + ['.'] + (c + ['.'] + d))
  {
  }

  lemma SplitFour(a: string, b: string, c: string, d: string, sep: char)
    requires sep !in a && sep !in b && sep !in c && sep !in d
    ensures Split(a + [sep] + (b + [sep] + (c + [sep] + d)), sep) == [a, b, c, d]
  {
    SplitAtom(d, sep);
    SplitCons(c, sep, d);
    SplitCons(b, sep, c + [sep] + d);
    SplitCons(a, sep, b + [sep] + (c + [sep] + d));
  }

  /** The dotted form consists of digits and dots only. */
  lemma PrintAlphabet(a: Addr)
    ensures Print(a) != ""
    ensures forall i :: 0 <= i < |Print(a)| ==> IsDigit(Print(a)[i]) || Print(a)[i] == '.'
  {
    var o := Octets(a);
    forall i | 0 <= i < 4 ensures AllDigits(Dec(o[i])) && Dec(o[i]) != "" {
      DecReadsBack(o[i]);
    }
    var s3 := Join([Dec(o[3])], ".");
    assert s3 == Dec(o[3]);
    var s2 := Join([Dec(o[2]), Dec(o[3])], ".");
    assert [Dec(o[2]), Dec(o[3])][1..] == [Dec(o[3])];
    assert s2 == Dec(o[2]) + "." + s3;
    var s1 := Join([Dec(o[1]), Dec(o[2]), Dec(o[3])], ".");
    assert [Dec(o[1]), Dec(o[2]), Dec(o[3])][1..] == [Dec(o[2]), Dec(o[3])];
    assert s1 == Dec(o[1]) + "." + s2;
    assert [Dec(o[0]), Dec(o[1]), Dec(o[2]), Dec(o[3])][1..] == [Dec(o[1]), Dec(o[2]), Dec(o[3])];
    assert Print(a) == Dec(o[0]) + "." + s1;
  }

  // ---- Prefixes -------------------------------------------------------------------

  /** A parsed prefix keeps the address as written; host bits are not masked. */
  datatype Prefix = Prefix(base: Addr, bits: nat)

  /** `netip.ParsePrefix` followed by `Addr().Is4()`. */
  function ParsePrefix(s: string): (r: Option<Prefix>)
    ensures r.Some? ==> r.value.bits <= 32
  {
    var parts := Split(s, '/');
    if |parts| != 2 then None
    else
      var base, bits := ParseAddr(parts[0]), ParseField(parts[1], 32);
      if base.Some? && bits.Some? then Some(Prefix(base.value, bits.value)) else None
  }

  /** An address, a slash and a length up to 32. */
  lemma PrefixReads(text: string, bits: nat)
    requires '/' !in text && bits <= 32 && ParseAddr(text).Some?
    ensures ParsePrefix(text + "/" + Dec(bits)) == Some(Prefix(ParseAddr(text).value, bits))
  {
    DecIsPlain(bits, '/');
    SplitAtom(Dec(bits), '/');
    SplitCons(text, '/', Dec(bits));
    assert text + "/" + Dec(bits) == text + ['/'] + Dec(bits);
    ParseFieldOfDec(bits, 32);
  }

  function Pow2(k: nat): (p: nat)
    ensures p > 0
  {
    if k == 0 then 1 else 2 * Pow2(k - 1)
  }

  /** Bitwise exclusive or of two naturals. */
  function Xor(a: nat, b: nat): nat
    decreases a + b
  {
    if a == 0 && b == 0 then 0
    else 2 * Xor(a / 2, b / 2) + (if a % 2 == b % 2 then 0 else 1)
  }

  function ShiftRight(a: nat, k: nat): nat {
    if k == 0 then a else ShiftRight(a / 2, k - 1)
  }

  /** `Prefix.Contains`: the differing bits, with the host bits shifted out,
      are all zero. */
  predicate Contains(p: Prefix, a: Addr)
    requires p.bits <= 32
  {
    ShiftRight(Xor(a, p.base), 32 - p.bits) == 0
  }

  lemma {:induction false} XorZero(a: nat, b: nat)
    ensures Xor(a, b) == 0 <==> a == b
    decreases a + b
  {
    if a != 0 || b != 0 {
      XorZero(a / 2, b / 2);
    }
  }

  lemma DivTwice(a: nat, m: nat)
    requires m > 0
    ensures a / (2 * m) == a / 2 / m
  {
    var h := a / 2;
    var q, r := h / m, h % m;
    assert h == q * m + r;
    assert a == q * (2 * m) + (2 * r + a % 2);
    DivUnique(a, 2 * m, q, 2 * r + a % 2);
  }

  lemma DivUnique(a: int, m: int, q: int, r: int)
    requires m > 0 && 0 <= r < m && a == q * m + r
    ensures a / m == q
  {
    MultipleIsLarge(a / m - q, m);
    assert a == a / m * m + a % m;
    assert (a / m - q) * m == r - a % m;
  }

  lemma MultipleIsLarge(d: int, m: int)
    requires m > 0
    ensures d >= 1 ==> d * m >= m
    ensures d <= -1 ==> d * m <= -m
  {
  }

  lemma {:induction false} ShiftIsDivision(a: nat, k: nat)
    ensures ShiftRight(a, k) == a / Pow2(k)
  {
    if k > 0 {
      ShiftIsDivision(a / 2, k - 1);
      DivTwice(a, Pow2(k - 1));
    }
  }

  lemma {:induction false} XorShift(a: nat, b: nat, k: nat)
    ensures ShiftRight(Xor(a, b), k) == Xor(ShiftRight(a, k), ShiftRight(b, k))
  {
    if k > 0 {
      XorShift(a / 2, b / 2, k - 1);
      assert Xor(a, b) / 2 == Xor(a / 2, b / 2);
    }
  }

  lemma QuotientInterval(a: nat, b: nat, m: nat)
    requires m > 0
    ensures a / m == b / m <==> b / m * m <= a < b / m * m + m
  {
    assert a == a / m * m + a % m;
    if b / m * m <= a < b / m * m + m {
      DivUnique(a, m, b / m, a - b / m * m);
    }
  }

  /** First address of the aligned block a prefix denotes. */
  function BlockStart(p: Prefix): int
    requires p.bits <= 32
  {
    p.base / Pow2(32 - p.bits) * Pow2(32 - p.bits)
  }

  /** Prefix membership is membership in one aligned block of 2^(32-bits)
      addresses, section 3.1 of RFC 4632, also for an unmasked base. */
  lemma ContainsIsInterval(p: Prefix, a: Addr)
    requires p.bits <= 32
    ensures Contains(p, a) <==> BlockStart(p) <= a < BlockStart(p) + Pow2(32 - p.bits)
  {
    var k := 32 - p.bits;
    XorShift(a, p.base, k);
    XorZero(ShiftRight(a, k), ShiftRight(p.base, k));
    ShiftIsDivision(a, k);
    ShiftIsDivision(p.base, k);
    QuotientInterval(a, p.base, Pow2(k));
  }

  /** Every address between two members of a prefix is a member. */
  lemma ContainsIsConvex(p: Prefix, lo: Addr, mid: Addr, hi: Addr)
    requires p.bits <= 32 && Contains(p, lo) && Contains(p, hi) && lo <= mid <= hi
    ensures Contains(p, mid)
  {
    ContainsIsInterval(p, lo);
    ContainsIsInterval(p, mid);
    ContainsIsInterval(p, hi);
  }
}
