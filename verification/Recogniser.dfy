/** The connection-target recogniser: two regular expressions, given their
    language semantics, against a description of what they accept. */
module Recogniser {
  import opened Wrappers
  import opened Text
  import Ipv4

  // ---- Regular expressions --------------------------------------------------------

  datatype Re =
    | Range(lo: char, hi: char)
    | Alt(left: Re, right: Re)
    | Cat(first: Re, second: Re)
    | Opt(body: Re)
    | Times(body: Re, count: nat)

  /** `s` is in the language of `r`, as for an anchored pattern. */
  predicate Matches(r: Re, s: string)
    decreases r, 0, s
  {
    match r
    case Range(lo, hi) => |s| == 1 && lo <= s[0] <= hi
    case Alt(a, b) => Matches(a, s) || Matches(b, s)
    case Cat(a, b) => exists i :: 0 <= i <= |s| && Matches(a, s[..i]) && Matches(b, s[i..])
    case Opt(a) => s == "" || Matches(a, s)
    case Times(a, n) => MatchesTimes(a, n, s)
  }

  predicate MatchesTimes(r: Re, n: nat, s: string)
    decreases r, n + 1, s
  {
    if n == 0 then s == ""
    else exists i :: 0 <= i <= |s| && Matches(r, s[..i]) && MatchesTimes(r, n - 1, s[i..])
  }

  function Chr(c: char): Re {
    Range(c, c)
  }

  const DIGIT := Range('0', '9')

  /** `[0-9A-F]` under the `i` flag. */
  const HEX := Alt(DIGIT, Alt(Range('A', 'F'), Range('a', 'f')))

  /** `25[0-5]|2[0-4]\d|1?\d?\d` */
  const OCTET :=
    Alt(Cat(Chr('2'), Cat(Chr('5'), Range('0', '5'))),
        Alt(Cat(Chr('2'), Cat(Range('0', '4'), DIGIT)),
            Cat(Opt(Chr('1')), Cat(Opt(DIGIT), DIGIT))))

  const IPV4 := Cat(OCTET, Times(Cat(Chr('.'), OCTET), 3))

  const HEX_PAIR := Times(HEX, 2)

  const MAC := Cat(Times(Cat(HEX_PAIR, Chr(':')), 5), HEX_PAIR)

  // ---- The recogniser ------------------------------------------------------------------

  /** The characters `String.prototype.trim` removes. */
  predicate IsSpace(c: char) {
    || '\t' <= c <= '\r'
    || c in {' ', '\U{00A0}', '\U{1680}', '\U{2028}', '\U{2029}', '\U{202F}', '\U{205F}', '\U{3000}', '\U{FEFF}'}
    || '\U{2000}' <= c <= '\U{200A}'
  }

  function TrimStart(s: string): string {
    if s != "" && IsSpace(s[0]) then TrimStart(s[1..]) else s
  }

  function TrimEnd(s: string): string {
    if s != "" && IsSpace(s[|s| - 1]) then TrimEnd(s[..|s| - 1]) else s
  }

  function Trim(s: string): string {
    TrimEnd(TrimStart(s))
  }

  predicate IsValidConnectionTarget(value: string) {
    var candidate := Trim(value);
    Matches(MAC, candidate) || Matches(IPV4, candidate)
  }

  datatype ConnectionError = InvalidTarget | MissingUsername

  function CheckConnection(target: string, username: string): Option<ConnectionError> {
    if !IsValidConnectionTarget(target) then Some(InvalidTarget)
    else if Trim(username) == "" then Some(MissingUsername)
    else None
  }

  // ---- What the patterns accept ------------------------------------------------------------

  /** One or two digits, or three digits denoting 100 to 255. */
  predicate IsOctetNumeral(s: string) {
    AllDigits(s) && (1 <= |s| <= 2 || (|s| == 3 && 100 <= Value(s) <= 255))
  }

  predicate IsHexDigit(c: char) {
    '0' <= c <= '9' || 'A' <= c <= 'F' || 'a' <= c <= 'f'
  }

  /** Six hexadecimal pairs with colons between them. */
  predicate IsMacText(s: string) {
    && |s| == 17
    && forall i :: 0 <= i < 17 ==> if i % 3 == 2 then s[i] == ':' else IsHexDigit(s[i])
  }

  lemma MatchesRangeThen(lo: char, hi: char, b: Re, s: string)
    ensures Matches(Cat(Range(lo, hi), b), s) <==> |s| >= 1 && lo <= s[0] <= hi && Matches(b, s[1..])
  {
    if |s| >= 1 && lo <= s[0] <= hi && Matches(b, s[1..]) {
      assert Matches(Range(lo, hi), s[..1]);
    }
    if Matches(Cat(Range(lo, hi), b), s) {
      var i :| 0 <= i <= |s| && Matches(Range(lo, hi), s[..i]) && Matches(b, s[i..]);
      assert i == 1;
    }
  }

  lemma MatchesOptThen(a: Re, b: Re, s: string)
    ensures Matches(Cat(Opt(a), b), s) <==> Matches(b, s) || Matches(Cat(a, b), s)
  {
    assert s[0..] == s;
    if Matches(b, s) {
      assert Matches(Opt(a), s[..0]);
    }
    if Matches(Cat(a, b), s) {
      var i :| 0 <= i <= |s| && Matches(a, s[..i]) && Matches(b, s[i..]);
      assert Matches(Opt(a), s[..i]);
    }
    if Matches(Cat(Opt(a), b), s) {
      var i :| 0 <= i <= |s| && Matches(Opt(a), s[..i]) && Matches(b, s[i..]);
      if s[..i] == "" {
        assert i == 0;
      }
    }
  }

  lemma ThreeDigitValue(s: string)
    requires AllDigits(s) && |s| == 3
    ensures Value(s) == 100 * (s[0] as int - '0' as int) + 10 * (s[1] as int - '0' as int) + (s[2] as int - '0' as int)
  {
    assert s[..2][..1] == s[..1];
    assert s[..1][..0] == "";
    assert Value(s[..1]) == s[0] as int - '0' as int;
    assert Value(s[..2]) == 10 * Value(s[..1]) + (s[1] as int - '0' as int);
  }

  /** Three characters in three ranges. */
  lemma ThreeRanges(a: Re, b: Re, c: Re, s: string)
    requires a.Range? && b.Range? && c.Range?
    ensures Matches(Cat(a, Cat(b, c)), s) <==>
            |s| == 3 && a.lo <= s[0] <= a.hi && b.lo <= s[1] <= b.hi && c.lo <= s[2] <= c.hi
  {
    MatchesRangeThen(a.lo, a.hi, Cat(b, c), s);
    if |s| >= 1 { MatchesRangeThen(b.lo, b.hi, c, s[1..]); }
  }

  lemma UpTo199(s: string)
    ensures Matches(Cat(Opt(Chr('1')), Cat(Opt(DIGIT), DIGIT)), s) <==>
            AllDigits(s) && (1 <= |s| <= 2 || (|s| == 3 && s[0] == '1'))
  {
    var tail := Cat(Opt(DIGIT), DIGIT);
    MatchesOptThen(Chr('1'), tail, s);
    MatchesRangeThen('1', '1', tail, s);
    OneOrTwoDigits(s);
    if |s| >= 1 { OneOrTwoDigits(s[1..]); }
  }

  lemma OctetPattern(s: string)
    ensures Matches(OCTET, s) <==> IsOctetNumeral(s)
  {
    ThreeRanges(Chr('2'), Chr('5'), Range('0', '5'), s);
    ThreeRanges(Chr('2'), Range('0', '4'), DIGIT, s);
    UpTo199(s);
    if AllDigits(s) && |s| == 3 { ThreeDigitValue(s); }
  }

  lemma OneOrTwoDigits(s: string)
    ensures Matches(Cat(Opt(DIGIT), DIGIT), s) <==> 1 <= |s| <= 2 && AllDigits(s)
  {
    MatchesOptThen(DIGIT, DIGIT, s);
    MatchesRangeThen('0', '9', DIGIT, s);
  }

  /** `(\.octet){n}` is a dot followed by `n` dot-separated octets. */
  lemma {:induction false} DottedGroups(n: nat, s: string)
    ensures MatchesTimes(Cat(Chr('.'), OCTET), n, s) <==>
            if n == 0 then s == ""
            else |s| >= 1 && s[0] == '.' && |Split(s[1..], '.')| == n &&
                 forall p :: p in Split(s[1..], '.') ==> IsOctetNumeral(p)
    decreases n, 1
  {
    if n > 0 {
      var group := Cat(Chr('.'), OCTET);
      if MatchesTimes(group, n, s) {
        var i :| 0 <= i <= |s| && Matches(group, s[..i]) && MatchesTimes(group, n - 1, s[i..]);
        MatchesRangeThen('.', '.', OCTET, s[..i]);
        OctetPattern(s[..i][1..]);
        PrependOctet(n, s, i);
      }
      if |s| >= 1 && s[0] == '.' && |Split(s[1..], '.')| == n &&
         forall p :: p in Split(s[1..], '.') ==> IsOctetNumeral(p) {
        SplitGroups(n, s);
      }
    }
  }

  lemma PrependOctet(n: nat, s: string, i: nat)
    requires n > 0 && 1 <= i <= |s| && s[0] == '.' && IsOctetNumeral(s[1..i])
    requires MatchesTimes(Cat(Chr('.'), OCTET), n - 1, s[i..])
    ensures |Split(s[1..], '.')| == n && forall p :: p in Split(s[1..], '.') ==> IsOctetNumeral(p)
    decreases n, 0
  {
    DottedGroups(n - 1, s[i..]);
    assert '.' !in s[1..i];
    if n == 1 {
      assert s[1..] == s[1..i];
      SplitAtom(s[1..i], '.');
    } else {
      assert s[1..] == s[1..i] + ['.'] + s[i..][1..];
      SplitCons(s[1..i], '.', s[i..][1..]);
    }
  }

  lemma SplitGroups(n: nat, s: string)
    requires n > 0 && |s| >= 1 && s[0] == '.' && |Split(s[1..], '.')| == n
    requires forall p :: p in Split(s[1..], '.') ==> IsOctetNumeral(p)
    ensures MatchesTimes(Cat(Chr('.'), OCTET), n, s)
    decreases n, 0
  {
    var group := Cat(Chr('.'), OCTET);
    var parts := Split(s[1..], '.');
    var i := 1 + |parts[0]|;
    JoinSplit(s[1..], '.');
    SplitPartsAvoid(s[1..], '.');
    assert i <= |s| && s[..i] == ['.'] + parts[0];
    OctetPattern(parts[0]);
    DottedPart(OCTET, parts[0], s[..i]);
    if n > 1 {
      var tail := Join(parts[1..], ".");
      assert s[i..] == ['.'] + tail;
      SplitJoin(parts[1..], '.');
      assert s[i..][1..] == tail;
    }
    DottedGroups(n - 1, s[i..]);
    OneMore(group, n, s, i);
  }

  lemma DottedPart(r: Re, part: string, s: string)
    requires Matches(r, part) && s == ['.'] + part
    ensures Matches(Cat(Chr('.'), r), s)
  {
    MatchesRangeThen('.', '.', r, s);
    assert s[1..] == part;
  }

  lemma OneMore(r: Re, n: nat, s: string, i: nat)
    requires 0 < n && i <= |s| && Matches(r, s[..i]) && MatchesTimes(r, n - 1, s[i..])
    ensures MatchesTimes(r, n, s)
  {
  }

  lemma AddDot(r: Re, n: nat, s: string)
    requires Matches(Cat(r, Times(Cat(Chr('.'), r), n)), s)
    ensures MatchesTimes(Cat(Chr('.'), r), n + 1, "." + s)
  {
    var dotted, group := "." + s, Cat(Chr('.'), r);
    var i :| 0 <= i <= |s| && Matches(r, s[..i]) && Matches(Times(group, n), s[i..]);
    assert dotted[..i + 1] == ['.'] + s[..i] && dotted[i + 1..] == s[i..];
    DottedPart(r, s[..i], dotted[..i + 1]);
    OneMore(group, n + 1, dotted, i + 1);
  }

  lemma DropDot(r: Re, n: nat, s: string)
    requires MatchesTimes(Cat(Chr('.'), r), n + 1, "." + s)
    ensures Matches(Cat(r, Times(Cat(Chr('.'), r), n)), s)
  {
    var dotted, group := "." + s, Cat(Chr('.'), r);
    var i :| 0 <= i <= |dotted| && Matches(group, dotted[..i]) && MatchesTimes(group, n, dotted[i..]);
    MatchesRangeThen('.', '.', r, dotted[..i]);
    assert dotted[..i][1..] == s[..i - 1] && dotted[i..] == s[i - 1..];
    assert Matches(Times(group, n), s[i - 1..]);
  }

  /** The IPv4 pattern accepts exactly four dot-separated octet numerals. */
  lemma Ipv4Pattern(s: string)
    ensures Matches(IPV4, s) <==>
            |Split(s, '.')| == 4 && forall p :: p in Split(s, '.') ==> IsOctetNumeral(p)
  {
    assert ("." + s)[1..] == s;
    DottedGroups(4, "." + s);
    if Matches(IPV4, s) { AddDot(OCTET, 3, s); }
    if MatchesTimes(Cat(Chr('.'), OCTET), 4, "." + s) { DropDot(OCTET, 3, s); }
  }

  /** Every printed 32-bit address is accepted, and parses back to itself. */
  lemma PrintedAddressAccepted(a: Ipv4.Addr)
    ensures Matches(IPV4, Ipv4.Print(a)) && Ipv4.ParseAddr(Ipv4.Print(a)) == Some(a)
  {
    Ipv4.PrintParses(a);
    Ipv4.OctetsRecompose(a);
    Ipv4Pattern(Ipv4.Print(a));
    var o := Ipv4.Octets(a);
    forall i | 0 <= i < 4 ensures IsOctetNumeral(Dec(o[i])) {
      DecReadsBack(o[i]);
    }
  }

  // ---- MAC addresses -----------------------------------------------------------------------

  lemma MatchesOnce(r: Re, s: string)
    ensures MatchesTimes(r, 1, s) <==> Matches(r, s)
  {
    assert s[..|s|] == s && s[|s|..] == "";
    if Matches(r, s) {
      assert MatchesTimes(r, 0, s[|s|..]);
    }
    if MatchesTimes(r, 1, s) {
      var i :| 0 <= i <= |s| && Matches(r, s[..i]) && MatchesTimes(r, 0, s[i..]);
      assert i == |s|;
    }
  }

  lemma HexClass(s: string)
    ensures Matches(HEX, s) <==> |s| == 1 && IsHexDigit(s[0])
  {
    var letters := Alt(Range('A', 'F'), Range('a', 'f'));
    assert Matches(letters, s) <==> |s| == 1 && ('A' <= s[0] <= 'F' || 'a' <= s[0] <= 'f');
    assert Matches(HEX, s) <==> Matches(DIGIT, s) || Matches(letters, s);
  }

  lemma HexPair(s: string)
    ensures Matches(HEX_PAIR, s) <==> |s| == 2 && IsHexDigit(s[0]) && IsHexDigit(s[1])
  {
    assert Matches(HEX_PAIR, s) == MatchesTimes(HEX, 2, s);
    if MatchesTimes(HEX, 2, s) {
      var i :| 0 <= i <= |s| && Matches(HEX, s[..i]) && MatchesTimes(HEX, 1, s[i..]);
      MatchesOnce(HEX, s[i..]);
      HexClass(s[..i]);
      HexClass(s[i..]);
    }
    if |s| == 2 && IsHexDigit(s[0]) && IsHexDigit(s[1]) {
      MatchesOnce(HEX, s[1..]);
      HexClass(s[..1]);
      HexClass(s[1..]);
    }
  }

  /** `n` hexadecimal pairs, each with a colon behind it. */
  predicate HexGroups(n: nat, s: string) {
    && |s| == 3 * n
    && forall i :: 0 <= i < 3 * n ==> if i % 3 == 2 then s[i] == ':' else IsHexDigit(s[i])
  }

  lemma GroupPattern(s: string)
    ensures Matches(Cat(HEX_PAIR, Chr(':')), s) <==> HexGroups(1, s)
  {
    if Matches(Cat(HEX_PAIR, Chr(':')), s) {
      var i :| 0 <= i <= |s| && Matches(HEX_PAIR, s[..i]) && Matches(Chr(':'), s[i..]);
      HexPair(s[..i]);
      assert s[..i][0] == s[0] && s[..i][1] == s[1] && s[i..][0] == s[2];
    }
    if HexGroups(1, s) {
      HexPair(s[..2]);
      assert IsHexDigit(s[0]) && IsHexDigit(s[1]) && s[2] == ':';
      assert Matches(Chr(':'), s[2..]);
    }
  }

  lemma {:induction false} GroupsPattern(n: nat, s: string)
    ensures MatchesTimes(Cat(HEX_PAIR, Chr(':')), n, s) <==> HexGroups(n, s)
  {
    var group := Cat(HEX_PAIR, Chr(':'));
    if n > 0 {
      if MatchesTimes(group, n, s) {
        var i :| 0 <= i <= |s| && Matches(group, s[..i]) && MatchesTimes(group, n - 1, s[i..]);
        GroupPattern(s[..i]);
        GroupsPattern(n - 1, s[i..]);
        forall k | 0 <= k < 3 * n ensures if k % 3 == 2 then s[k] == ':' else IsHexDigit(s[k]) {
          if k < 3 { assert s[..i][k] == s[k]; } else { assert s[i..][k - 3] == s[k] && (k - 3) % 3 == k % 3; }
        }
      }
      if HexGroups(n, s) {
        GroupPattern(s[..3]);
        forall k | 0 <= k < 3 * (n - 1) ensures if k % 3 == 2 then s[3..][k] == ':' else IsHexDigit(s[3..][k]) {
          assert s[3..][k] == s[k + 3] && (k + 3) % 3 == k % 3;
        }
        GroupsPattern(n - 1, s[3..]);
        assert Matches(group, s[..3]);
      }
    }
  }

  /** The MAC pattern accepts exactly six colon-separated hexadecimal pairs. */
  lemma MacPattern(s: string)
    ensures Matches(MAC, s) <==> IsMacText(s)
  {
    var group := Cat(HEX_PAIR, Chr(':'));
    if Matches(MAC, s) {
      var i :| 0 <= i <= |s| && Matches(Times(group, 5), s[..i]) && Matches(HEX_PAIR, s[i..]);
      GroupsPattern(5, s[..i]);
      HexPair(s[i..]);
      forall k | 0 <= k < 17 ensures if k % 3 == 2 then s[k] == ':' else IsHexDigit(s[k]) {
        if k < 15 { assert s[..i][k] == s[k]; } else { assert s[i..][k - 15] == s[k]; }
      }
    }
    if IsMacText(s) {
      GroupsPattern(5, s[..15]);
      HexPair(s[15..]);
      assert Matches(Times(group, 5), s[..15]);
    }
  }

  function HexChar(d: nat): char
    requires d < 16
  {
    if d < 10 then d as char + '0' else (d - 10) as char + 'A'
  }

  /** A hardware address of six octets in the usual upper-case form. */
  function PrintMac(octets: seq<nat>): string
    requires |octets| == 6 && forall i :: 0 <= i < 6 ==> octets[i] < 256
  {
    seq(17, i requires 0 <= i < 17 =>
      if i % 3 == 2 then ':'
      else if i % 3 == 0 then HexChar(octets[i / 3] / 16)
      else HexChar(octets[i / 3] % 16))
  }

  lemma PrintedMacAccepted(octets: seq<nat>)
    requires |octets| == 6 && forall i :: 0 <= i < 6 ==> octets[i] < 256
    ensures Matches(MAC, PrintMac(octets))
  {
    MacPattern(PrintMac(octets));
  }

  /** No string is both a MAC address and an IPv4 address. */
  lemma LanguagesDisjoint(s: string)
    ensures !(Matches(MAC, s) && Matches(IPV4, s))
  {
    MacPattern(s);
    Ipv4Pattern(s);
    if IsMacText(s) && |Split(s, '.')| == 4 {
      assert s[2] == ':';
      JoinSplit(s, '.');
      PartOfSplit(s, '.', 2);
    }
  }

  /** A character that is not the separator occurs in one of the parts. */
  lemma {:induction false} PartOfSplit(s: string, sep: char, k: nat)
    requires k < |s| && s[k] != sep
    ensures exists p :: p in Split(s, sep) && s[k] in p
  {
    var rest := Split(s[1..], sep);
    if k == 0 {
      assert s[0] in Split(s, sep)[0];
    } else {
      PartOfSplit(s[1..], sep, k - 1);
      var p :| p in rest && s[k] in p;
      if s[0] == sep {
        assert p in Split(s, sep);
      } else if p == rest[0] {
        assert s[k] in Split(s, sep)[0];
      } else {
        assert p in rest[1..];
        assert p in Split(s, sep);
      }
    }
  }

  // ---- Surrounding white space and the connection check ---------------------------------------

  predicate AllSpace(s: string) {
    forall i :: 0 <= i < |s| ==> IsSpace(s[i])
  }

  lemma {:induction false} TrimStartSkips(pad: string, s: string)
    requires AllSpace(pad) && (s != "" ==> !IsSpace(s[0]))
    ensures TrimStart(pad + s) == s
  {
    if pad == "" {
      assert pad + s == s;
    } else {
      TrimStartSkips(pad[1..], s);
      assert (pad + s)[1..] == pad[1..] + s;
    }
  }

  lemma {:induction false} TrimEndSkips(s: string, pad: string)
    requires AllSpace(pad) && (s != "" ==> !IsSpace(s[|s| - 1]))
    ensures TrimEnd(s + pad) == s
  {
    if pad == "" {
      assert s + pad == s;
    } else {
      var n := |pad|;
      TrimEndSkips(s, pad[..n - 1]);
      assert (s + pad)[..|s| + n - 1] == s + pad[..n - 1];
    }
  }

  /** A printed address in any white space, with a username that is not
      blank, is never reported as an error. */
  lemma PaddedAddressConnects(before: string, a: Ipv4.Addr, after: string, username: string)
    requires AllSpace(before) && AllSpace(after) && Trim(username) != ""
    ensures CheckConnection(before + Ipv4.Print(a) + after, username) == None
  {
    var text := Ipv4.Print(a);
    Ipv4.PrintAlphabet(a);
    PrintedAddressAccepted(a);
    assert !IsSpace(text[0]) && !IsSpace(text[|text| - 1]);
    assert before + text + after == before + (text + after);
    TrimStartSkips(before, text + after);
    TrimEndSkips(text, after);
  }

  // ---- The two parsers of addresses ------------------------------------------------------------

  lemma {:induction false} LargeValue(s: string)
    requires AllDigits(s) && s != "" && s[0] != '0'
    ensures |s| == 1 ==> Value(s) >= 1
    ensures |s| == 2 ==> Value(s) >= 10
    ensures |s| == 3 ==> Value(s) >= 100
    ensures |s| >= 4 ==> Value(s) >= 1000
    decreases |s|
  {
    if |s| > 1 {
      LargeValue(s[..|s| - 1]);
    } else {
      assert s[..0] == "";
    }
  }

  lemma SmallValue(s: string)
    requires AllDigits(s) && |s| <= 2
    ensures Value(s) <= 99
  {
    if |s| == 2 { assert s[..1][..0] == ""; }
    if |s| == 1 { assert s[..0] == ""; }
  }

  predicate NoLeadingZero(s: string) {
    |s| > 1 ==> s[0] != '0'
  }

  lemma FieldIffNumeral(s: string)
    ensures ParseField(s, 255).Some? <==> IsOctetNumeral(s) && NoLeadingZero(s)
  {
    if AllDigits(s) && s != "" {
      if s[0] != '0' { LargeValue(s); }
      if |s| <= 2 { SmallValue(s); }
    }
  }

  /** How the browser's pattern and the daemon's parser differ, for every text: the
      parser refuses leading zeros, and that is all. */
  lemma ParserIsStricter(s: string)
    ensures Ipv4.ParseAddr(s).Some? <==> Matches(IPV4, s) && forall p :: p in Split(s, '.') ==> NoLeadingZero(p)
  {
    Ipv4Pattern(s);
    var parts := Split(s, '.');
    if |parts| == 4 {
      forall p | p in parts ensures ParseField(p, 255).Some? <==> IsOctetNumeral(p) && NoLeadingZero(p) {
        FieldIffNumeral(p);
      }
      assert forall p :: p in parts <==> p == parts[0] || p == parts[1] || p == parts[2] || p == parts[3];
    }
  }

  // ---- Exactly which targets are valid ------------------------------------------------------------

  predicate IsAddressText(t: string) {
    Matches(MAC, t) || Matches(IPV4, t)
  }

  /** An address text neither begins nor ends with white space. */
  lemma AddressIsTrimmed(t: string)
    requires IsAddressText(t)
    ensures t != "" && !IsSpace(t[0]) && !IsSpace(t[|t| - 1])
  {
    if Matches(MAC, t) {
      MacPattern(t);
      assert IsHexDigit(t[0]) && IsHexDigit(t[16]);
    } else {
      Ipv4Pattern(t);
      var p := Split(t, '.');
      JoinSplit(t, '.');
      JoinFour(p[0], p[1], p[2], p[3]);
      assert p == [p[0], p[1], p[2], p[3]] && p[0] in p && p[3] in p;
      assert t[0] == p[0][0] && t[|t| - 1] == p[3][|p[3]| - 1];
    }
  }

  lemma JoinFour(a: string, b: string, c: string, d: string)
    ensures Join([a, b, c, d], ".") == a + "." + (b + "." + (c + "." + d))
  {
    assert [a, b, c, d][1..] == [b, c, d] && [b, c, d][1..] == [c, d] && [c, d][1..] == [d];
    assert Join([d], ".") == d;
    assert Join([c, d], ".") == c + "." + d;
    assert Join([b, c, d], ".") == b + "." + Join([c, d], ".");
  }

  lemma {:induction false} TrimStartSplits(s: string) returns (before: string)
    ensures AllSpace(before) && s == before + TrimStart(s)
  {
    if s != "" && IsSpace(s[0]) {
      before := TrimStartSplits(s[1..]);
      before := [s[0]] + before;
    } else {
      before := "";
    }
  }

  lemma {:induction false} TrimEndSplits(s: string) returns (after: string)
    ensures AllSpace(after) && s == TrimEnd(s) + after
    decreases |s|
  {
    if s != "" && IsSpace(s[|s| - 1]) {
      after := TrimEndSplits(s[..|s| - 1]);
      after := after + [s[|s| - 1]];
    } else {
      after := "";
    }
  }

  ghost predicate Padded(value: string, before: string, t: string, after: string) {
    AllSpace(before) && AllSpace(after) && value == before + t + after
  }

  /** A target is valid exactly when it is an address text in some white space. */
  lemma ValidIffPadded(value: string)
    ensures IsValidConnectionTarget(value) <==>
              exists before, t, after :: Padded(value, before, t, after) && IsAddressText(t)
  {
    if IsValidConnectionTarget(value) {
      var before := TrimStartSplits(value);
      var after := TrimEndSplits(TrimStart(value));
      assert value == before + (Trim(value) + after) == before + Trim(value) + after;
      assert Padded(value, before, Trim(value), after);
    }
    if before, t, after :| Padded(value, before, t, after) && IsAddressText(t) {
      AddressIsTrimmed(t);
      assert value == before + (t + after);
      TrimStartSkips(before, t + after);
      TrimEndSkips(t, after);
    }
  }

  /** The errors of the connection form: a bad target first, then a user name of nothing
      but white space. */
  lemma ConnectionErrors(target: string, username: string)
    ensures CheckConnection(target, username) == Some(InvalidTarget) <==>
            !exists before, t, after :: Padded(target, before, t, after) && IsAddressText(t)
    ensures CheckConnection(target, username) == Some(MissingUsername) <==>
            IsValidConnectionTarget(target) && forall i :: 0 <= i < |username| ==> IsSpace(username[i])
  {
    ValidIffPadded(target);
    BlankIffTrimmed(username);
  }

  lemma BlankIffTrimmed(s: string)
    ensures Trim(s) == "" <==> AllSpace(s)
  {
    var before := TrimStartSplits(s);
    var after := TrimEndSplits(TrimStart(s));
    assert s == before + (Trim(s) + after);
    if AllSpace(s) {
      assert s + "" == s;
      TrimStartSkips(s, "");
    }
  }
}
