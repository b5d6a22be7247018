/** A simple text format that meets what is asked of a wire, and a run over it in
    which a call accepts a response spliced from two others. */
module ProtocolSplice {
  import opened Wrappers
  import opened Text
  import opened Protocol
  import opened ProtocolWire

  // ---- The format ------------------------------------------------------------------------------

  predicate IsSpecial(c: char) {
    c == '{' || c == '}' || c == '\n' || c == ';'
  }

  function Token(c: char): string {
    if c == '{' then "\\a" else if c == '}' then "\\b" else if c == '\n' then "\\c"
    else if c == ';' then "\\d" else ['.', c]
  }

  /** Two characters for each, none of them special. */
  function Esc(s: string): string {
    if s == "" then "" else Token(s[0]) + Esc(s[1..])
  }

  lemma TokenFacts(c: char, d: char)
    ensures |Token(c)| == 2 && (Token(c) == Token(d) ==> c == d)
    ensures !IsSpecial(Token(c)[0]) && !IsSpecial(Token(c)[1])
  {
  }

  predicate IsPlain(s: string) {
    forall i :: 0 <= i < |s| ==> !IsSpecial(s[i])
  }

  lemma {:induction false} EscIsPlain(s: string)
    ensures IsPlain(Esc(s))
  {
    if s != "" {
      EscIsPlain(s[1..]);
      TokenFacts(s[0], s[0]);
    }
  }

  lemma {:induction false} EscAppend(a: string, b: string)
    ensures Esc(a + b) == Esc(a) + Esc(b)
  {
    if a == "" {
      assert a + b == b;
    } else {
      assert (a + b)[1..] == a[1..] + b;
      EscAppend(a[1..], b);
    }
  }

  lemma {:induction false} EscInjective(s: string, t: string)
    requires Esc(s) == Esc(t)
    ensures s == t
    decreases |s|
  {
    if s != "" { TokenFacts(s[0], s[0]); }
    if t != "" { TokenFacts(t[0], t[0]); }
    if s != "" && t != "" {
      assert Esc(s)[..2] == Token(s[0]) && Esc(t)[..2] == Token(t[0]);
      assert Esc(s)[2..] == Esc(s[1..]) && Esc(t)[2..] == Esc(t[1..]);
      TokenFacts(s[0], t[0]);
      EscInjective(s[1..], t[1..]);
      assert s == [s[0]] + s[1..] && t == [t[0]] + t[1..];
    }
  }

  function Int(v: int): string {
    if v < 0 then "-" + Dec(-v) else Dec(v)
  }

  lemma IntSign(v: int)
    ensures Int(v) != "" && (Int(v)[0] == '-' <==> v < 0)
  {
    DecReadsBack(if v < 0 then -v else v);
  }

  lemma IntInjective(v: int, u: int)
    requires Int(v) == Int(u)
    ensures v == u
  {
    IntSign(v);
    IntSign(u);
    if v < 0 {
      assert Int(v)[1..] == Dec(-v) && Int(u)[1..] == Dec(-u);
      DecInjective(-v, -u);
    } else {
      DecInjective(v, u);
    }
  }

  function Opt(o: Option<string>): string {
    match o case None => "n" case Some(s) => "s" + Esc(s)
  }

  lemma OptTag(o: Option<string>)
    ensures Opt(o) != "" && (Opt(o)[0] == 's' <==> o.Some?)
  {
  }

  lemma OptInjective(o: Option<string>, p: Option<string>)
    requires Opt(o) == Opt(p)
    ensures o == p
  {
    OptTag(o);
    OptTag(p);
    if o.Some? {
      assert Opt(o)[1..] == Esc(o.value) && Opt(p)[1..] == Esc(p.value);
      EscInjective(o.value, p.value);
    }
  }

  lemma OptIsPlain(o: Option<string>)
    ensures IsPlain(Opt(o))
  {
    if o.Some? { EscIsPlain(o.value); }
  }

  function Code(r: Response): Option<string> {
    if r.error.None? then None else Some(r.error.value.code)
  }

  function Message(r: Response): Option<string> {
    if r.error.None? then None else Some(r.error.value.message)
  }

  function Parts(r: Response): seq<string> {
    [Esc(Int(r.version)), Esc(r.id), Opt(r.result), Opt(Code(r)), Opt(Message(r))]
  }

  function Json(r: Response): string {
    "{" + Join(Parts(r), ";") + "}"
  }

  lemma PartsArePlain(r: Response)
    ensures forall p :: p in Parts(r) ==> IsPlain(p)
  {
    EscIsPlain(Int(r.version));
    EscIsPlain(r.id);
    OptIsPlain(r.result);
    OptIsPlain(Code(r));
    OptIsPlain(Message(r));
  }

  lemma PartsInjective(r: Response, q: Response)
    requires Parts(r) == Parts(q)
    ensures r == q
  {
    assert Parts(r)[0] == Parts(q)[0] && Parts(r)[1] == Parts(q)[1] && Parts(r)[2] == Parts(q)[2];
    assert Parts(r)[3] == Parts(q)[3] && Parts(r)[4] == Parts(q)[4];
    EscInjective(Int(r.version), Int(q.version));
    IntInjective(r.version, q.version);
    EscInjective(r.id, q.id);
    OptInjective(r.result, q.result);
    OptInjective(Code(r), Code(q));
    OptInjective(Message(r), Message(q));
  }

  lemma JsonInjective(r: Response, q: Response)
    requires Json(r) == Json(q)
    ensures r == q
  {
    assert Json(r)[1..|Json(r)| - 1] == Join(Parts(r), ";") && Json(q)[1..|Json(q)| - 1] == Join(Parts(q), ";");
    PartsArePlain(r);
    PartsArePlain(q);
    NoSemicolon(Parts(r));
    NoSemicolon(Parts(q));
    SplitJoin(Parts(r), ';');
    SplitJoin(Parts(q), ';');
    PartsInjective(r, q);
  }

  lemma NoSemicolon(parts: seq<string>)
    requires forall p :: p in parts ==> IsPlain(p)
    ensures forall p :: p in parts ==> ';' !in p
  {
  }

  lemma {:induction false} JoinedAvoids(parts: seq<string>, c: char)
    requires (forall p :: p in parts ==> IsPlain(p)) && IsSpecial(c) && c != ';'
    ensures c !in Join(parts, ";")
    decreases |parts|
  {
    if |parts| > 1 {
      JoinedAvoids(parts[1..], c);
      assert parts[0] in parts && Join(parts, ";") == parts[0] + ";" + Join(parts[1..], ";");
    } else if |parts| == 1 {
      assert parts[0] in parts;
    }
  }

  /** Braces stand only at the ends, and there is no newline. */
  lemma JsonShape(r: Response)
    ensures var j := Json(r);
            && |j| >= 2 && j[0] == '{' && j[|j| - 1] == '}' && '\n' !in j
            && (forall k :: 0 < k < |j| ==> j[k] != '{') && forall k :: 0 <= k < |j| - 1 ==> j[k] != '}'
  {
    var body := Join(Parts(r), ";");
    PartsArePlain(r);
    JoinedAvoids(Parts(r), '{');
    JoinedAvoids(Parts(r), '}');
    JoinedAvoids(Parts(r), '\n');
    assert forall k :: 0 < k < |body| + 1 ==> Json(r)[k] == body[k - 1] && body[k - 1] in body;
    assert '\n' !in "{" && '\n' !in "}";
  }

  /** Of two texts, neither begins the other. */
  lemma JsonPrefixFree(r: Response, q: Response, x: string)
    requires Json(r) <= x && Json(q) <= x
    ensures r == q
  {
    JsonShape(r);
    JsonShape(q);
    var m, n := |Json(r)|, |Json(q)|;
    assert x[m - 1] == '}' && forall k :: 0 <= k < m - 1 ==> x[k] != '}';
    assert x[n - 1] == '}' && forall k :: 0 <= k < n - 1 ==> x[k] != '}';
    assert Json(r) == x[..m] == Json(q);
    JsonInjective(r, q);
  }

  // ---- The decoder -----------------------------------------------------------------------------------

  ghost predicate HasBegun(x: string, r: Response) {
    Json(r) <= x
  }

  ghost predicate Unfinished(x: string, r: Response) {
    x <= Json(r) && |x| < |Json(r)|
  }

  ghost function Decode(x: string): Reading
    decreases |x|
  {
    if x != "" && x[0] == '\n' then Decode(x[1..])
    else if r :| HasBegun(x, r) then Value(r)
    else if exists r :: Unfinished(x, r) then Incomplete
    else Garbage
  }

  lemma DecodeBegun(x: string, r: Response)
    requires HasBegun(x, r)
    ensures Decode(x) == Value(r)
  {
    JsonShape(r);
    assert x[0] == '{';
    forall q | HasBegun(x, q) ensures q == r { JsonPrefixFree(q, r, x); }
  }

  lemma DecodeUnfinished(x: string, r: Response)
    requires Unfinished(x, r)
    ensures Decode(x) == Incomplete
  {
    JsonShape(r);
    assert x != "" ==> x[0] == '{';
    forall q ensures !HasBegun(x, q) { NotBoth(x, q, r); }
  }

  lemma NotBoth(x: string, q: Response, r: Response)
    requires Unfinished(x, r)
    ensures !HasBegun(x, q)
  {
    JsonShape(q);
    JsonShape(r);
    var n := |Json(q)|;
    assert forall k :: 0 <= k < |x| ==> x[k] == Json(r)[k];
    assert n <= |x| ==> x[n - 1] != '}';
  }

  lemma DecodeOther(x: string)
    requires x != "" && x[0] != '{' && x[0] != '\n'
    ensures Decode(x) == Garbage
  {
    forall q ensures !HasBegun(x, q) && !Unfinished(x, q) { JsonShape(q); }
  }

  lemma {:induction false} DecodeExtends(x: string, rest: string)
    requires Decode(x).Value?
    ensures Decode(x + rest) == Decode(x)
    decreases |x|
  {
    if x != "" && x[0] == '\n' {
      assert (x + rest)[1..] == x[1..] + rest;
      DecodeExtends(x[1..], rest);
    } else {
      var r :| HasBegun(x, r);
      DecodeBegun(x, r);
      assert HasBegun(x + rest, r);
      DecodeBegun(x + rest, r);
    }
  }

  ghost function Format(): Wire {
    Wire(r => Json(r), x => Decode(x))
  }

  /** The format is a sound wire, so what is asked of one can be met. */
  lemma FormatIsSound()
    ensures Sound(Format())
  {
    var w := Format();
    forall r ensures w.json(r) != "" { JsonShape(r); }
    forall r, rest ensures w.decode(w.json(r) + rest) == Value(r) {
      assert HasBegun(Json(r) + rest, r);
      DecodeBegun(Json(r) + rest, r);
    }
    forall r, n | 0 <= n < |w.json(r)| ensures w.decode(w.json(r)[..n]) == Incomplete {
      assert Unfinished(Json(r)[..n], r);
      DecodeUnfinished(Json(r)[..n], r);
    }
    forall x ensures w.decode("\n" + x) == w.decode(x) { assert ("\n" + x)[1..] == x; }
    forall x, rest | w.decode(x).Value? ensures w.decode(x + rest) == w.decode(x) { DecodeExtends(x, rest); }
    forall r, k, rest | 0 < k < |w.json(r)| ensures Harmless(w.decode(w.json(r)[k..] + rest)) {
      JsonShape(r);
      DecodeOther(Json(r)[k..] + rest);
    }
  }

  // ---- The run ---------------------------------------------------------------------------------------------

  function Front(id: string, part: string): string {
    "{" + (Esc(Int(VERSION)) + (";" + (Esc(id) + (";s" + Esc(part)))))
  }

  function Back(part: string): string {
    Esc(part) + ";n;n}"
  }

  function Answer(id: string, result: string): Response {
    Response(VERSION, id, Some(result), None)
  }

  /** A response falls into two parts inside its result. */
  lemma Halves(id: string, x: string, y: string)
    ensures Json(Answer(id, x + y)) == Front(id, x) + Back(y)
  {
    var r := Answer(id, x + y);
    var a, b, c := Esc(Int(VERSION)), Esc(id), "s" + Esc(x + y);
    EscAppend(x, y);
    JoinFive(a, b, c, "n", "n");
    assert Parts(r) == [a, b, c, "n", "n"];
    HalvesText(a, b, Esc(x), Esc(y));
  }

  lemma JoinFive(a: string, b: string, c: string, d: string, e: string)
    ensures Join([a, b, c, d, e], ";") == a + ";" + (b + ";" + (c + ";" + (d + ";" + e)))
  {
    assert [a, b, c, d, e][1..] == [b, c, d, e] && [b, c, d, e][1..] == [c, d, e] && [c, d, e][1..] == [d, e]
        && [d, e][1..] == [e];
    assert Join([e], ";") == e;
    assert Join([d, e], ";") == d + ";" + e;
    assert Join([c, d, e], ";") == c + ";" + Join([d, e], ";");
    assert Join([b, c, d, e], ";") == b + ";" + Join([c, d, e], ";");
  }

  lemma HalvesText(a: string, b: string, x: string, y: string)
    ensures "{" + (a + ";" + (b + ";" + (("s" + (x + y)) + ";" + ("n" + ";" + "n")))) + "}" ==
              ("{" + (a + (";" + (b + (";s" + x))))) + (y + ";n;n}")
  {
  }

  function Query(n: nat): Request {
    Request(VERSION, IdAt(n), "", "")
  }

  /** Both calls have sent their requests and wait; both answers are on the stream. */
  ghost predicate BothAnswered(b: Link) {
    && b.core.calls == [Call(Query(0), Awaiting), Call(Query(1), Awaiting)]
    && b.core.answered == [Answer(IdAt(0), "ab"), Answer(IdAt(1), "cd")]
    && b.buffers == map[]
    && b.stream == Json(Answer(IdAt(0), "ab")) + "\n" + (Json(Answer(IdAt(1), "cd")) + "\n")
  }

  lemma Goes(w: Wire, moves: seq<Move>, b: Link, move: Move, b': Link) returns (longer: seq<Move>)
    requires RunLink(w, moves) == Some(b) && Moved(w, b, move) == Some(b')
    ensures RunLink(w, longer) == Some(b')
  {
    longer := moves + [move];
    assert longer[..|moves|] == moves;
  }

  lemma BothSent(w: Wire) returns (moves: seq<Move>, b: Link)
    ensures RunLink(w, moves) == Some(b)
    ensures b.core.calls == [Call(Query(0), Awaiting), Call(Query(1), Awaiting)]
        && b.core.toServer == [Query(0), Query(1)]
    ensures b.core.open && b.core.answered == [] && b.buffers == map[] && b.stream == ""
  {
    var c1 := START.(sequence := 1, calls := [Call(Query(0), Sending)]);
    var c2 := c1.(sequence := 2, calls := [Call(Query(0), Sending), Call(Query(1), Sending)]);
    var c3 := c2.(calls := [Call(Query(0), Awaiting), Call(Query(1), Sending)], written := [0], toServer := [Query(0)]);
    var c4 := c3.(calls := [Call(Query(0), Awaiting), Call(Query(1), Awaiting)], written := [0, 1],
        toServer := [Query(0), Query(1)]);
    assert [] + [Call(Query(0), Sending)] == c1.calls && c1.calls + [Call(Query(1), Sending)] == c2.calls;
    assert c2.calls[0 := Call(Query(0), Awaiting)] == c3.calls && c3.calls[1 := Call(Query(1), Awaiting)] == c4.calls;
    assert [] + [0] == c3.written && c3.written + [1] == c4.written;
    assert [] + [Query(0)] == c3.toServer && c3.toServer + [Query(1)] == c4.toServer;
    moves := Goes(w, [], FRESH, Begins("", ""), Link(c1, "", map[]));
    moves := Goes(w, moves, Link(c1, "", map[]), Begins("", ""), Link(c2, "", map[]));
    moves := Goes(w, moves, Link(c2, "", map[]), Sends(0), Link(c3, "", map[]));
    b := Link(c4, "", map[]);
    moves := Goes(w, moves, Link(c3, "", map[]), Sends(1), b);
  }

  lemma ServedIs(w: Wire, b: Link, text: string)
    requires b.core.open && b.core.toServer != [] && b.core.toServer[0].version == VERSION
    ensures var r := Answer(b.core.toServer[0].id, text);
            var o := Moved(w, b, Serves(Returned(text)));
            && o.Some? && o.value.stream == b.stream + (w.json(r) + "\n") && o.value.buffers == b.buffers
            && o.value.core.answered == b.core.answered + [r] && o.value.core.toServer == b.core.toServer[1..]
            && o.value.core.calls == b.core.calls && o.value.core.open
  {
  }

  lemma BothServed(w: Wire) returns (moves: seq<Move>, b: Link)
    requires w == Format()
    ensures RunLink(w, moves) == Some(b) && BothAnswered(b)
  {
    var b0;
    moves, b0 := BothSent(w);
    ServedIs(w, b0, "ab");
    var b1 := Moved(w, b0, Serves(Returned("ab"))).value;
    moves := Goes(w, moves, b0, Serves(Returned("ab")), b1);
    ServedIs(w, b1, "cd");
    b := Moved(w, b1, Serves(Returned("cd"))).value;
    moves := Goes(w, moves, b1, Serves(Returned("cd")), b);
    assert "" + (Json(Answer(IdAt(0), "ab")) + "\n") == Json(Answer(IdAt(0), "ab")) + "\n";
    assert [] + [Answer(IdAt(0), "ab")] + [Answer(IdAt(1), "cd")] == [Answer(IdAt(0), "ab"), Answer(IdAt(1), "cd")];
  }

  /** The stream in parts of which the first and the last make a response. */
  lemma StreamInParts(stream: string) returns (held: string, skipped: string, rest: string)
    requires stream == Json(Answer(IdAt(0), "ab")) + "\n" + (Json(Answer(IdAt(1), "cd")) + "\n")
    ensures stream == held + (skipped + rest) && rest != "" && skipped != "" && skipped[0] == '.'
    ensures held != "" && Unfinished(held, Answer(IdAt(0), "ab"))
    ensures held + rest == Json(Answer(IdAt(0), "ad")) + "\n"
  {
    var p, q := IdAt(0), IdAt(1);
    ThreeHalves(p, q);
    held, skipped, rest := Front(p, "a"), Back("b") + "\n" + Front(q, "c"), Back("d") + "\n";
    Rejoin(held, Back("b"), Front(q, "c"), Back("d"));
    FrontBegins(p, "a", Back("b"));
    BackStarts('b');
  }

  lemma ThreeHalves(p: string, q: string)
    ensures Json(Answer(p, "ab")) == Front(p, "a") + Back("b")
    ensures Json(Answer(q, "cd")) == Front(q, "c") + Back("d")
    ensures Json(Answer(p, "ad")) == Front(p, "a") + Back("d")
  {
    Halves(p, "a", "b");
    Halves(q, "c", "d");
    Halves(p, "a", "d");
    assert "a" + "b" == "ab" && "c" + "d" == "cd" && "a" + "d" == "ad";
  }

  lemma FrontBegins(p: string, x: string, back: string)
    requires back != ""
    ensures Front(p, x) != "" && Front(p, x) <= Front(p, x) + back && |Front(p, x)| < |Front(p, x) + back|
  {
  }

  lemma BackStarts(c: char)
    requires !IsSpecial(c)
    ensures Back([c]) != "" && Back([c])[0] == '.'
  {
    assert [c][1..] == "" && Esc([c]) == Token(c) + Esc("");
  }

  lemma Rejoin(f: string, g: string, h: string, k: string)
    ensures f + g + "\n" + (h + k + "\n") == f + ((g + "\n" + h) + (k + "\n"))
    ensures f + (k + "\n") == f + k + "\n"
  {
  }

  /** Two answers read by turns: the first call accepts "ad", the beginning of its own
      answer "ab" and the end of the other's "cd", which the server never sent. */
  lemma SpliceHappens() returns (moves: seq<Move>, b: Link)
    ensures Sound(Format()) && RunLink(Format(), moves) == Some(b)
    ensures b.core.answered == [Answer(IdAt(0), "ab"), Answer(IdAt(1), "cd")]
    ensures In(b.core, 0, Done(Success(Answer(IdAt(0), "ad")))) && Answer(IdAt(0), "ad") !in b.core.answered
  {
    FormatIsSound();
    var b0;
    moves, b0 := BothServed(Format());
    moves, b := SpliceRun(moves, b0);
    NotSent(b.core.answered);
  }

  lemma NotSent(answered: seq<Response>)
    requires answered == [Answer(IdAt(0), "ab"), Answer(IdAt(1), "cd")]
    ensures Answer(IdAt(0), "ad") !in answered
  {
    assert "ad"[1] != "ab"[1] && "ad"[0] != "cd"[0];
  }

  lemma SpliceRun(before: seq<Move>, b0: Link) returns (moves: seq<Move>, b: Link)
    requires RunLink(Format(), before) == Some(b0) && BothAnswered(b0)
    ensures RunLink(Format(), moves) == Some(b) && b.core.answered == b0.core.answered
    ensures In(b.core, 0, Done(Success(Answer(IdAt(0), "ad"))))
  {
    var w := Format();
    var held, skipped, rest := StreamInParts(b0.stream);
    DecodeUnfinished(held, Answer(IdAt(0), "ab"));
    var b1 := FirstReads(w, b0, held, skipped + rest);
    moves := Goes(w, before, b0, Reads(0, |held|), b1);
    moves, b := Spliced(w, moves, b1, held, skipped, rest, Answer(IdAt(0), "ad"));
  }

  lemma Spliced(w: Wire, before: seq<Move>, b1: Link, held: string, skipped: string, rest: string, v: Response)
      returns (moves: seq<Move>, b: Link)
    requires w == Format() && RunLink(w, before) == Some(b1) && |b1.core.calls| == 2
    requires b1.core.calls[0] == Call(Query(0), Awaiting) && b1.core.calls[1] == Call(Query(1), Awaiting)
    requires b1.buffers == map[0 := held] && b1.stream == skipped + rest && rest != "" && skipped != ""
        && skipped[0] == '.'
    requires held + rest == Json(v) + "\n" && v.id == IdAt(0) && v.error.None?
    ensures RunLink(w, moves) == Some(b) && b.core.answered == b1.core.answered && In(b.core, 0, Done(Success(v)))
  {
    DecodeOther(skipped);
    assert HasBegun(held + rest, v);
    DecodeBegun(held + rest, v);
    SpliceIsAccepted(w, b1, 0, 1, held, skipped, rest, v);
    var b2 := Moved(w, b1, Reads(1, |skipped|)).value;
    moves := Goes(w, before, b1, Reads(1, |skipped|), b2);
    b := Moved(w, b2, Reads(0, |rest|)).value;
    moves := Goes(w, moves, b2, Reads(0, |rest|), b);
  }

  lemma FirstReads(w: Wire, b: Link, held: string, rest: string) returns (b1: Link)
    requires In(b.core, 0, Awaiting) && b.buffers == map[] && b.stream == held + rest && held != ""
        && w.decode(held) == Incomplete
    ensures Moved(w, b, Reads(0, |held|)) == Some(b1)
    ensures b1.core == b.core && b1.stream == rest && b1.buffers == map[0 := held]
  {
    assert b.stream[..|held|] == held && b.stream[|held|..] == rest && "" + held == held;
    b1 := b.(stream := rest, buffers := map[0 := held]);
  }
}
