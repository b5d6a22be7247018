/** The browser log files of the development server: lines are appended, and a
    file that grows too large is rewritten with its newest lines. */
module LogFile {
  import opened Wrappers
  import opened Text

  const MAX_LOG_SIZE: nat := 1024 * 1024
  const TRIM_TARGET: nat := MAX_LOG_SIZE * 6 / 10

  // ---- Sizes ------------------------------------------------------------------------------

  /** Bytes of a character in UTF-8. */
  function Width(c: char): nat {
    var code := c as int;
    if code < 0x80 then 1 else if code < 0x800 then 2 else if code < 0x1_0000 then 3 else 4
  }

  function Bytes(s: string): nat {
    if s == "" then 0 else Width(s[0]) + Bytes(s[1..])
  }

  lemma {:induction false} BytesAppend(a: string, b: string)
    ensures Bytes(a + b) == Bytes(a) + Bytes(b)
  {
    if a == "" {
      assert a + b == b;
    } else {
      assert (a + b)[1..] == a[1..] + b;
      BytesAppend(a[1..], b);
    }
  }

  /** Bytes of the lines as they stand in the file. */
  function Size(lines: seq<string>): nat {
    Bytes(Unlines(lines))
  }

  lemma SizeAppend(a: seq<string>, b: seq<string>)
    ensures Size(a + b) == Size(a) + Size(b)
  {
    UnlinesAppend(a, b);
    BytesAppend(Unlines(a), Unlines(b));
  }

  lemma SizeFrom(lines: seq<string>, k: nat)
    requires k < |lines|
    ensures Size(lines[k..]) == Bytes(lines[k] + "\n") + Size(lines[k + 1..])
  {
    assert lines[k..] == [lines[k]] + lines[k + 1..];
    SizeAppend([lines[k]], lines[k + 1..]);
    assert Unlines([lines[k]]) == lines[k] + "\n" by {
      assert [lines[k]][1..] == [] && lines[k] + "\n" + "" == lines[k] + "\n";
    }
  }

  // ---- The choice a trim makes ------------------------------------------------------------

  /** Whether the lines from `k` on fit into 60% of a mebibyte. The text after the last newline counts
      as an empty line and costs one byte. */
  predicate Fits(lines: seq<string>, k: nat)
    requires k <= |lines|
  {
    1 + Size(lines[k..]) <= 629145
  }

  /** From `k` on all fits, and with the next older line it would not. */
  predicate IsCut(lines: seq<string>, k: nat) {
    k <= |lines| && Fits(lines, k) && (k > 0 ==> !Fits(lines, k - 1))
  }

  /** A cut separates the suffixes that fit from those that do not: it is the
      longest that fits, and there is only one. */
  lemma {:induction false} CutIsThreshold(lines: seq<string>, k: nat, j: nat)
    requires IsCut(lines, k) && j <= |lines|
    ensures Fits(lines, j) <==> j >= k
  {
    if j >= k {
      SizeShrinks(lines, k, j);
    } else {
      SizeShrinks(lines, j, k - 1);
    }
  }

  lemma SizeShrinks(lines: seq<string>, i: nat, j: nat)
    requires i <= j <= |lines|
    ensures Size(lines[j..]) <= Size(lines[i..])
  {
    assert lines[i..] == lines[i..j] + lines[j..];
    SizeAppend(lines[i..j], lines[j..]);
  }

  /** Each byte rewritten is paid for by bytes dropped. */
  lemma TrimPays(lines: seq<string>, k: nat)
    requires Size(lines) > 1048576 && IsCut(lines, k)
    ensures k > 0 && 2 * Size(lines[k..]) <= 3 * (Size(lines) - Size(lines[k..]))
  {
    assert lines[0..] == lines;
  }

  lemma LastLineCosts()
    ensures Bytes("" + "\n") == 1 && Size([]) == 0
  {
    assert "" + "\n" == "\n" && "\n"[1..] == "";
    assert Unlines([]) == "";
  }

  lemma {:induction false} JoinTerminated(lines: seq<string>)
    requires lines != []
    ensures Join(lines, "\n") + "\n" == Unlines(lines)
  {
    if |lines| == 1 {
      assert Unlines(lines[1..]) == "";
      assert Unlines(lines) == lines[0] + "\n" + Unlines(lines[1..]);
    } else {
      JoinTerminated(lines[1..]);
      assert Join(lines, "\n") == lines[0] + "\n" + Join(lines[1..], "\n");
      assert lines[0] + "\n" + Join(lines[1..], "\n") + "\n" == lines[0] + "\n" + (Join(lines[1..], "\n") + "\n");
    }
  }

  /** A line of the file: a time stamp and an entry. */
  function Lines(entries: seq<string>, stamps: seq<string>): (lines: seq<string>)
    requires |stamps| == |entries|
    ensures |lines| == |entries|
  {
    seq(|entries|, i requires 0 <= i < |entries| => "[" + stamps[i] + "] " + entries[i])
  }

  /** Each line is a time stamp in brackets, a blank and the entry. */
  predicate AreStamped(lines: seq<string>, entries: seq<string>, stamps: seq<string>)
    requires |stamps| == |entries|
  {
    |lines| == |entries| && forall i :: 0 <= i < |lines| ==> lines[i] == "[" + stamps[i] + "] " + entries[i]
  }

  lemma LinesAreStamped(before: seq<string>, entries: seq<string>, stamps: seq<string>)
    requires |stamps| == |entries|
    ensures AreStamped((before + Lines(entries, stamps))[|before|..], entries, stamps)
  {
    assert (before + Lines(entries, stamps))[|before|..] == Lines(entries, stamps);
  }

  /** What is kept from `first` on fits into 60% of a mebibyte; with one more line it
      would not. */
  predicate JustFits(written: seq<string>, first: nat)
    requires 0 < first <= |written|
  {
    1 + Size(written[first..]) <= 629145 < 1 + Size(written[first - 1..])
  }

  lemma CutJustFits(written: seq<string>, start: nat, first: nat)
    requires start < first <= |written| && IsCut(written[start..], first - start)
    ensures JustFits(written, first)
  {
    assert written[start..][first - start..] == written[first..];
    assert written[start..][first - start - 1..] == written[first - 1..];
  }

  lemma LinesAreWhole(entries: seq<string>, stamps: seq<string>)
    requires |stamps| == |entries| && forall i :: 0 <= i < |entries| ==> '\n' !in entries[i] && '\n' !in stamps[i]
    ensures forall l :: l in Lines(entries, stamps) ==> '\n' !in l
  {
    forall i | 0 <= i < |entries| ensures '\n' !in Lines(entries, stamps)[i] {
      StampedIsWhole(entries[i], stamps[i]);
    }
  }

  lemma StampedIsWhole(entry: string, stamp: string)
    requires '\n' !in entry && '\n' !in stamp
    ensures '\n' !in "[" + stamp + "] " + entry
  {
    assert '\n' !in "[" && '\n' !in "] ";
  }

  /** The loop of `trimLogFile`, from the newest line backwards. The last of
      `lines` is the empty text after the last newline. */
  method NewestThatFit(lines: seq<string>) returns (keptLines: seq<string>)
    requires lines != [] && lines[|lines| - 1] == ""
    ensures 0 < |keptLines| <= |lines| && keptLines == lines[|lines| - |keptLines|..]
    ensures IsCut(lines[..|lines| - 1], |lines| - |keptLines|)
  {
    ghost var whole := lines[..|lines| - 1];
    keptLines := [];
    var keptBytes, i := 0, |lines|;
    while i > 0
      invariant 0 <= i <= |lines| && keptLines == lines[i..]
      invariant i == |lines| ==> keptBytes == 0
      invariant i < |lines| ==> keptBytes == 1 + Size(whole[i..]) && keptBytes <= TRIM_TARGET
    {
      var lineBytes := Bytes(lines[i - 1] + "\n");
      LineCosts(lines, i);
      if keptBytes + lineBytes > TRIM_TARGET { break; }
      keptLines := [lines[i - 1]] + keptLines;
      keptBytes := keptBytes + lineBytes;
      i := i - 1;
    }
  }

  lemma LineCosts(lines: seq<string>, i: nat)
    requires lines != [] && lines[|lines| - 1] == "" && 0 < i <= |lines|
    ensures var whole := lines[..|lines| - 1];
            1 + Size(whole[i - 1..]) == Bytes(lines[i - 1] + "\n") + if i < |lines| then 1 + Size(whole[i..]) else 0
    ensures i == |lines| ==> Bytes(lines[i - 1] + "\n") == 1
  {
    var whole := lines[..|lines| - 1];
    if i < |lines| {
      SizeFrom(whole, i - 1);
    } else {
      LastLineCosts();
      assert whole[i - 1..] == [];
    }
  }

  lemma LinesOfFile(kept: seq<string>)
    requires forall l :: l in kept ==> '\n' !in l
    ensures var lines := Split(Unlines(kept), '\n');
            lines == kept + [""] && lines[|lines| - 1] == "" && lines[..|lines| - 1] == kept
  {
    SplitUnlines(kept);
  }

  lemma SuffixOfSuffix(written: seq<string>, first: nat, k: nat)
    requires first + k <= |written|
    ensures written[first + k..] == written[first..][k..]
  {
  }

  lemma JoinOfSuffix(kept: seq<string>, k: nat)
    requires k <= |kept|
    ensures Join((kept + [""])[k..], "\n") == Unlines(kept[k..])
  {
    assert (kept + [""])[k..] == kept[k..] + [""];
    JoinLines(kept[k..]);
  }

  // ---- The file -------------------------------------------------------------------------------

  class Log {
    var file: Option<string>
    /** Every line ever written, and which of them the file still holds. */
    ghost var written: seq<string>
    ghost var first: nat
    /** Bytes ever appended, and bytes ever rewritten by trims. */
    ghost var appended: nat
    ghost var rewritten: nat

    ghost function Kept(): seq<string>
      reads this
      requires first <= |written|
    {
      written[first..]
    }

    /** The file is exactly a suffix of the lines ever written, each whole and
        terminated. */
    ghost predicate IsSuffix()
      reads this
    {
      && first <= |written|
      && (forall l :: l in written ==> '\n' !in l)
      && match file case None => written == [] case Some(text) => text == Unlines(Kept())
    }

    /** Between calls the file is within its limit, and over the whole run the
        trims rewrote at most one and a half times what was appended. */
    ghost predicate Valid()
      reads this
    {
      && IsSuffix()
      && Size(Kept()) <= 1048576
      && 2 * rewritten + 3 * Size(Kept()) <= 3 * appended
    }

    constructor ()
      ensures Valid() && file == None && written == []
    {
      file, written, first, appended, rewritten := None, [], 0, 0, 0;
    }

    method TrimLogFile(maxSize: nat)
      requires IsSuffix()
      modifies this`file, this`first, this`rewritten
      ensures IsSuffix()
      ensures Size(old(Kept())) <= maxSize ==> file == old(file) && first == old(first) && rewritten == old(rewritten)
      ensures Size(old(Kept())) > maxSize ==>
                && first >= old(first) && IsCut(old(Kept()), first - old(first))
                && rewritten == old(rewritten) + Size(Kept())
    {
      if file.None? || Bytes(file.value) <= maxSize { return; }
      ghost var kept := Kept();
      LinesOfFile(kept);
      var keptLines := NewestThatFit(Split(file.value, '\n'));
      ghost var k: nat := |kept| + 1 - |keptLines|;
      JoinOfSuffix(kept, k);
      file := Some(Join(keptLines, "\n"));
      SuffixOfSuffix(written, first, k);
      first := first + k;
      rewritten := rewritten + Size(kept[k..]);
    }

    /** Appends one line an entry, then trims if the file has become too large. */
    method WriteToLogFile(entries: seq<string>, stamps: seq<string>)
      requires Valid() && |stamps| == |entries|
      requires forall i :: 0 <= i < |entries| ==> '\n' !in entries[i] && '\n' !in stamps[i]
      modifies this
      ensures Valid()
      ensures written == old(written) + Lines(entries, stamps)
      ensures entries == [] ==> file == old(file)
      ensures appended == old(appended) + Size(Lines(entries, stamps))
      ensures first >= old(first)
      ensures var before := old(Kept()) + Lines(entries, stamps);
              if Size(before) > 1048576 then IsCut(before, first - old(first)) else first == old(first)
      ensures AreStamped(written[|old(written)|..], entries, stamps)
      ensures first > old(first) ==> JustFits(written, first)
    {
      ghost var before := written;
      LinesAreStamped(before, entries, stamps);
      if entries == [] {
        assert Kept() + Lines(entries, stamps) == Kept() && written + Lines(entries, stamps) == written;
        LastLineCosts();
        return;
      }
      LinesAreWhole(entries, stamps);
      AppendAndTrim(Lines(entries, stamps));
    }

    method AppendAndTrim(lines: seq<string>)
      requires Valid() && lines != [] && forall l :: l in lines ==> '\n' !in l
      modifies this
      ensures Valid()
      ensures written == old(written) + lines && appended == old(appended) + Size(lines) && first >= old(first)
      ensures var before := old(Kept()) + lines;
              if Size(before) > 1048576 then IsCut(before, first - old(first)) else first == old(first)
      ensures first > old(first) ==> JustFits(written, first)
    {
      AppendLines(lines);
      ghost var before, start := Kept(), first;
      TrimLogFile(MAX_LOG_SIZE);
      if Size(before) > MAX_LOG_SIZE {
        assert Kept() == before[first - start..];
        TrimPays(before, first - start);
        CutJustFits(written, start, first);
      }
    }

    method AppendLines(lines: seq<string>)
      requires IsSuffix() && lines != [] && forall l :: l in lines ==> '\n' !in l
      modifies this`file, this`written, this`appended
      ensures IsSuffix()
      ensures written == old(written) + lines && Kept() == old(Kept()) + lines
      ensures appended == old(appended) + Size(lines) && Size(Kept()) == Size(old(Kept())) + Size(lines)
    {
      JoinTerminated(lines);
      assert Kept() + lines == (written + lines)[first..];
      UnlinesAppend(Kept(), lines);
      SizeAppend(Kept(), lines);
      file := Some((if file.Some? then file.value else "") + (Join(lines, "\n") + "\n"));
      written := written + lines;
      appended := appended + Size(lines);
    }
  }
}
