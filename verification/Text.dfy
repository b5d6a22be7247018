/** Separator-delimited text and decimal numerals, as the Go and JavaScript
    standard libraries treat them. */
module Text {
  import opened Wrappers

  // ---- Splitting and joining -------------------------------------------------

  /** `strings.Split` / `String.prototype.split` with a one-element separator. */
  function Split<T(==)>(s: seq<T>, sep: T): (parts: seq<seq<T>>)
    ensures |parts| >= 1
    decreases |s|
  {
    if s == [] then [[]]
    else
      var rest := Split(s[1..], sep);
      if s[0] == sep then [[]] + rest else [[s[0]] + rest[0]] + rest[1..]
  }

  /** `strings.Join` / `Array.prototype.join`. */
  function Join<T>(parts: seq<seq<T>>, sep: seq<T>): seq<T>
    decreases |parts|
  {
    if parts == [] then []
    else if |parts| == 1 then parts[0]
    else parts[0] + sep + Join(parts[1..], sep)
  }

  lemma {:induction false} SplitPartsAvoid<T>(s: seq<T>, sep: T)
    ensures forall p :: p in Split(s, sep) ==> sep !in p
  {
    if s != [] {
      SplitPartsAvoid(s[1..], sep);
    }
  }

  lemma {:induction false} SplitAtom<T>(a: seq<T>, sep: T)
    requires sep !in a
    ensures Split(a, sep) == [a]
  {
    if a != [] {
      SplitAtom(a[1..], sep);
      assert a == [a[0]] + a[1..];
    }
  }

  lemma {:induction false} SplitCons<T>(a: seq<T>, sep: T, b: seq<T>)
    requires sep !in a
    ensures Split(a + [sep] + b, sep) == [a] + Split(b, sep)
  {
    var s := a + [sep] + b;
    if a == [] {
      assert s[1..] == b;
    } else {
      SplitCons(a[1..], sep, b);
      assert s[1..] == a[1..] + [sep] + b;
      assert a == [a[0]] + a[1..];
    }
  }

  /** Splitting undoes joining whenever no part contains the separator. */
  lemma {:induction false} SplitJoin<T>(parts: seq<seq<T>>, sep: T)
    requires parts != []
    requires forall p :: p in parts ==> sep !in p
    ensures Split(Join(parts, [sep]), sep) == parts
  {
    if |parts| == 1 {
      SplitAtom(parts[0], sep);
    } else {
      SplitJoin(parts[1..], sep);
      SplitCons(parts[0], sep, Join(parts[1..], [sep]));
      assert parts == [parts[0]] + parts[1..];
    }
  }

  /** Joining undoes splitting on every input. */
  lemma {:induction false} JoinSplit<T>(s: seq<T>, sep: T)
    ensures Join(Split(s, sep), [sep]) == s
  {
    if s != [] {
      JoinSplit(s[1..], sep);
      var rest := Split(s[1..], sep);
      var parts := Split(s, sep);
      if s[0] == sep {
        assert parts[1..] == rest;
      } else if |rest| > 1 {
        assert parts[1..] == rest[1..];
        assert [s[0]] + (rest[0] + [sep] + Join(rest[1..], [sep])) == parts[0] + [sep] + Join(parts[1..], [sep]);
      }
      assert s == [s[0]] + s[1..];
    }
  }

  /** `f` applied to every element, or None as soon as one application fails. */
  function MapAll<A, B>(f: A -> Option<B>, xs: seq<A>): Option<seq<B>>
    decreases |xs|
  {
    if xs == [] then Some([])
    else
      var head, tail := f(xs[0]), MapAll(f, xs[1..]);
      if head.Some? && tail.Some? then Some([head.value] + tail.value) else None
  }

  lemma {:induction false} MapAllSnoc<A, B>(f: A -> Option<B>, xs: seq<A>, last: A)
    ensures MapAll(f, xs + [last]) ==
            if MapAll(f, xs).Some? && f(last).Some? then Some(MapAll(f, xs).value + [f(last).value]) else None
  {
    if xs == [] {
      assert xs + [last] == [last] && [last][1..] == [];
      if f(last).Some? {
        assert [] + [f(last).value] == [f(last).value] + [];
      }
    } else {
      MapAllSnoc(f, xs[1..], last);
      assert (xs + [last])[1..] == xs[1..] + [last] && (xs + [last])[0] == xs[0];
      if MapAll(f, xs).Some? && f(last).Some? {
        var head, tail := f(xs[0]).value, MapAll(f, xs[1..]).value;
        assert [head] + (tail + [f(last).value]) == [head] + tail + [f(last).value];
      }
    }
  }

  lemma {:induction false} MapAllIsPointwise<A, B>(f: A -> Option<B>, xs: seq<A>)
    ensures MapAll(f, xs).Some? <==> forall i :: 0 <= i < |xs| ==> f(xs[i]).Some?
    ensures MapAll(f, xs).Some? ==> |MapAll(f, xs).value| == |xs|
    ensures MapAll(f, xs).Some? ==> forall i :: 0 <= i < |xs| ==> f(xs[i]) == Some(MapAll(f, xs).value[i])
  {
    if xs != [] {
      var tail := xs[1..];
      MapAllIsPointwise(f, tail);
      if forall i :: 0 <= i < |xs| ==> f(xs[i]).Some? {
        assert f(xs[0]).Some?;
        assert forall i :: 0 <= i < |tail| ==> tail[i] == xs[i + 1];
      }
      if MapAll(f, xs).Some? {
        forall i | 0 <= i < |xs| ensures f(xs[i]) == Some(MapAll(f, xs).value[i]) {
          if i > 0 { assert xs[i] == tail[i - 1]; }
        }
      }
    }
  }

  lemma MapAllTwo<A, B>(f: A -> Option<B>, a: A, b: A, x: B, y: B)
    requires f(a) == Some(x) && f(b) == Some(y)
    ensures MapAll(f, [a, b]) == Some([x, y])
  {
    assert [a, b][1..] == [b] && [b][1..] == [];
    assert [y] + [] == [y] && [x] + [y] == [x, y];
    assert MapAll(f, [b]) == Some([y]);
  }

  // ---- Lines -------------------------------------------------------------------

  /** Every line followed by its own newline. */
  function Unlines(lines: seq<string>): string
    decreases |lines|
  {
    if lines == [] then "" else lines[0] + "\n" + Unlines(lines[1..])
  }

  lemma {:induction false} UnlinesAppend(a: seq<string>, b: seq<string>)
    ensures Unlines(a + b) == Unlines(a) + Unlines(b)
  {
    if a == [] {
      assert a + b == b;
    } else {
      UnlinesAppend(a[1..], b);
      assert (a + b)[1..] == a[1..] + b;
    }
  }

  /** A newline-terminated text splits into its lines and one empty remainder. */
  lemma {:induction false} SplitUnlines(lines: seq<string>)
    requires forall l :: l in lines ==> '\n' !in l
    ensures Split(Unlines(lines), '\n') == lines + [""]
  {
    if lines != [] {
      SplitUnlines(lines[1..]);
      SplitCons(lines[0], '\n', Unlines(lines[1..]));
      assert Unlines(lines) == lines[0] + ['\n'] + Unlines(lines[1..]);
      assert lines + [""] == [lines[0]] + (lines[1..] + [""]);
    }
  }

  /** Joining lines and a final empty string is the newline-terminated text. */
  lemma {:induction false} JoinLines(lines: seq<string>)
    ensures Join(lines + [""], "\n") == Unlines(lines)
  {
    if lines != [] {
      JoinLines(lines[1..]);
      assert (lines + [""])[1..] == lines[1..] + [""];
    }
  }

  // ---- Decimal numerals ------------------------------------------------------------

  predicate IsDigit(c: char) {
    '0' <= c <= '9'
  }

  predicate AllDigits(s: string) {
    forall i :: 0 <= i < |s| ==> IsDigit(s[i])
  }

  function DigitChar(d: nat): char
    requires d < 10
  {
    d as char + '0'
  }

  /** `%d` of a non-negative integer. */
  function Dec(n: nat): string {
    if n < 10 then [DigitChar(n)] else Dec(n / 10) + [DigitChar(n % 10)]
  }

  /** The number a string of digits denotes. */
  function Value(s: string): nat
    requires AllDigits(s)
  {
    if s == "" then 0 else 10 * Value(s[..|s| - 1]) + (s[|s| - 1] as int - '0' as int)
  }

  /** A printed number is a non-empty digit string without a leading zero, and
      reads back as itself. */
  lemma {:induction false} DecReadsBack(n: nat)
    ensures AllDigits(Dec(n)) && Value(Dec(n)) == n
    ensures Dec(n) != "" && (n > 0 ==> Dec(n)[0] != '0')
    ensures n < 10 ==> |Dec(n)| == 1
    ensures 10 <= n < 100 ==> |Dec(n)| == 2
    ensures 100 <= n < 1000 ==> |Dec(n)| == 3
  {
    if n >= 10 {
      DecReadsBack(n / 10);
      var front := Dec(n / 10);
      assert Dec(n)[..|Dec(n)| - 1] == front;
    }
  }

  lemma DecInjective(m: nat, n: nat)
    requires Dec(m) == Dec(n)
    ensures m == n
  {
    DecReadsBack(m);
    DecReadsBack(n);
  }

  /** A decimal field as Go's address parsers read one: digits only, no
      leading zero, at most `max`. */
  function ParseField(s: string, max: nat): (r: Option<nat>)
    ensures r.Some? ==> r.value <= max
  {
    if s != "" && AllDigits(s) && (|s| > 1 ==> s[0] != '0') && Value(s) <= max
    then Some(Value(s)) else None
  }

  lemma ParseFieldOfDec(n: nat, max: nat)
    ensures ParseField(Dec(n), max) == if n <= max then Some(n) else None
  {
    DecReadsBack(n);
  }
}
