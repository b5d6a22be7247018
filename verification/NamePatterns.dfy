/** The daemon's pattern for interface names, by the same semantics of regular
    expressions as the browser's patterns. */
module NamePatterns {
  import Names
  import opened Recogniser

  /** `[A-Za-z0-9_.:-]` */
  const NAME_CHAR :=
    Alt(Range('A', 'Z'), Alt(Range('a', 'z'), Alt(DIGIT, Alt(Chr('_'), Alt(Chr('.'), Alt(Chr(':'), Chr('-')))))))

  /** `[A-Za-z0-9_.:-]{1,15}`: one, and up to fourteen more. */
  const NAME := Cat(NAME_CHAR, Times(Opt(NAME_CHAR), 14))

  lemma AltMatches(a: Re, b: Re, s: string)
    ensures Matches(Alt(a, b), s) <==> Matches(a, s) || Matches(b, s)
  {
  }

  lemma NameClass(s: string)
    ensures Matches(NAME_CHAR, s) <==> |s| == 1 && Names.IsNameChar(s[0])
  {
    var c := Alt(Chr(':'), Chr('-'));
    var b := Alt(Chr('.'), c);
    var a := Alt(Chr('_'), b);
    AltMatches(Chr(':'), Chr('-'), s);
    AltMatches(Chr('.'), c, s);
    AltMatches(Chr('_'), b, s);
    AltMatches(DIGIT, a, s);
    AltMatches(Range('a', 'z'), Alt(DIGIT, a), s);
    AltMatches(Range('A', 'Z'), Alt(Range('a', 'z'), Alt(DIGIT, a)), s);
  }

  lemma {:induction false} UpTo(n: nat, s: string)
    ensures MatchesTimes(Opt(NAME_CHAR), n, s) <==> |s| <= n && forall i :: 0 <= i < |s| ==> Names.IsNameChar(s[i])
  {
    if n > 0 {
      if MatchesTimes(Opt(NAME_CHAR), n, s) {
        var i :| 0 <= i <= |s| && Matches(Opt(NAME_CHAR), s[..i]) && MatchesTimes(Opt(NAME_CHAR), n - 1, s[i..]);
        NameClass(s[..i]);
        UpTo(n - 1, s[i..]);
        assert forall k :: i <= k < |s| ==> s[k] == s[i..][k - i];
      }
      if |s| <= n && forall i :: 0 <= i < |s| ==> Names.IsNameChar(s[i]) {
        var i := if s == "" then 0 else 1;
        NameClass(s[..i]);
        UpTo(n - 1, s[i..]);
        assert Matches(Opt(NAME_CHAR), s[..i]) && MatchesTimes(Opt(NAME_CHAR), n - 1, s[i..]);
      }
    }
  }

  /** The daemon's pattern for interface names matches exactly the names it accepts. */
  lemma NamePattern(s: string)
    ensures Matches(NAME, s) <==> Names.IsValidName(s)
  {
    if Matches(NAME, s) {
      var i :| 0 <= i <= |s| && Matches(NAME_CHAR, s[..i]) && Matches(Times(Opt(NAME_CHAR), 14), s[i..]);
      NameClass(s[..i]);
      UpTo(14, s[i..]);
      assert forall k :: i <= k < |s| ==> s[k] == s[i..][k - i];
    }
    if Names.IsValidName(s) {
      NameClass(s[..1]);
      UpTo(14, s[1..]);
      assert Matches(NAME_CHAR, s[..1]) && Matches(Times(Opt(NAME_CHAR), 14), s[1..]);
    }
  }
}
