/** The protocol on the byte stream: a call's decoder reads the responses in pieces
    of any size. Where reads of different calls do not take turns inside a response,
    every run is one of the frame-by-frame machine. */
module ProtocolWire {
  import opened Wrappers
  import opened Text
  import opened Protocol

  /** What a decoder makes of the bytes it has read so far. */
  datatype Reading = Incomplete | Value(response: Response) | Garbage

  /** The text of a response without its newline, and the decoder. */
  datatype Wire = Wire(json: Response -> string, decode: string -> Reading)

  /** Not a response whose id a call could be waiting for. */
  ghost predicate Harmless(r: Reading) {
    r.Value? ==> forall n: nat :: r.response.id != Dec(n)
  }

  /** A text is decoded once it is complete, whatever follows; white space is
      skipped; and no end of a response decodes to a response with a number for its
      id. */
  ghost predicate Sound(w: Wire) {
    && (forall r :: w.json(r) != "")
    && (forall r, rest :: w.decode(w.json(r) + rest) == Value(r))
    && (forall r, n :: 0 <= n < |w.json(r)| ==> w.decode(w.json(r)[..n]) == Incomplete)
    && (forall x :: w.decode("\n" + x) == w.decode(x))
    && (forall x, rest :: w.decode(x).Value? ==> w.decode(x + rest) == w.decode(x))
    && (forall r, k, rest :: 0 < k < |w.json(r)| ==> Harmless(w.decode(w.json(r)[k..] + rest)))
  }

  // ---- The machine ------------------------------------------------------------------------------

  /** `core` is the machine without frames; `stream` is what the server has sent and
      nobody has read; each waiting call has what its decoder has read. */
  datatype Link = Link(core: State, stream: string, buffers: map<nat, string>)

  const FRESH := Link(START, "", map[])

  function Held(buffers: map<nat, string>, i: nat): string {
    if i in buffers then buffers[i] else ""
  }

  datatype Move =
    | Begins(method_: string, params: string)
    | Sends(i: nat)
    | SendFails(i: nat)
    | Serves(o: Outcome)
    /** The server ends, perhaps after the first `n` characters of a response. */
    | Stops(o: Outcome, n: nat)
    | Reads(i: nat, n: nat)
    | GivesUp(i: nat)

  function Ended(b: Link, i: nat, result: CallResult): Link
    requires i < |b.core.calls|
  {
    b.(core := SetPhase(b.core, i, Done(result)), buffers := b.buffers - {i})
  }

  function Unframed(s: State): State {
    WithFrames(s, [], 0, 0)
  }

  /** The decoder of call `i` has `text`. */
  function Decoded(w: Wire, b: Link, i: nat, text: string): Link
    requires i < |b.core.calls|
  {
    match w.decode(text)
    case Incomplete => b.(buffers := b.buffers[i := text])
    case Value(r) => Ended(b, i, Judge(b.core.calls[i].request, r))
    case Garbage => Ended(b, i, ReadFailed)
  }

  function Moved(w: Wire, b: Link, move: Move): Option<Link> {
    match move
    case Begins(m, params) => Some(b.(core := Next(b.core, Begin(m, params)).value))
    case Sends(i) =>
      if Next(b.core, Send(i)).Some? then Some(b.(core := Next(b.core, Send(i)).value)) else None
    case SendFails(i) =>
      if Next(b.core, SendFail(i)).Some? then Some(b.(core := Next(b.core, SendFail(i)).value)) else None
    case Serves(o) =>
      if b.core.open && b.core.toServer != []
      then Some(b.(
          core := Unframed(Next(b.core, Serve(o)).value),
          stream := b.stream + TextOf(w, Full(Dispatch(b.core.toServer[0], o)))))
      else None
    case Stops(o, n) =>
      if b.core.open && (n > 0 ==> b.core.toServer != [] && n < |w.json(Dispatch(b.core.toServer[0], o))|)
      then Some(b.(
          core := b.core.(open := false),
          stream := b.stream + if n > 0 then w.json(Dispatch(b.core.toServer[0], o))[..n] else ""))
      else None
    case Reads(i, n) =>
      if In(b.core, i, Awaiting) && 0 < n <= |b.stream|
      then Some(Decoded(w, b.(stream := b.stream[n..]), i, Held(b.buffers, i) + b.stream[..n]))
      else None
    case GivesUp(i) =>
      if In(b.core, i, Awaiting) then Some(Ended(b, i, ReadFailed)) else None
  }

  function RunLink(w: Wire, moves: seq<Move>): Option<Link>
    decreases |moves|
  {
    if moves == [] then Some(FRESH)
    else match RunLink(w, moves[..|moves| - 1]) case None => None case Some(b) => Moved(w, b, moves[|moves| - 1])
  }

  /** A call reads only while no other has part of a response. */
  ghost predicate TakesTurns(b: Link, move: Move) {
    move.Reads? ==> forall j :: j != move.i ==> Held(b.buffers, j) == ""
  }

  ghost predicate OrderlyReads(w: Wire, moves: seq<Move>) {
    && RunLink(w, moves).Some?
    && forall n :: 0 <= n < |moves| ==>
        RunLink(w, moves[..n]).Some? && TakesTurns(RunLink(w, moves[..n]).value, moves[n])
  }

  // ---- What is on the stream ------------------------------------------------------------------------

  /** A whole response; the rest of one from character `k` to `m`; its first `m`
      characters. Only what ends with the text ends with a newline. */
  datatype Piece = Full(r: Response) | Rest(r: Response, k: nat, m: nat) | Start(r: Response, m: nat)

  predicate IsPiece(w: Wire, p: Piece) {
    match p
    case Full(_) => true
    case Rest(r, k, m) => 0 < k < m <= |w.json(r)|
    case Start(r, m) => 0 < m < |w.json(r)|
  }

  function TextOf(w: Wire, p: Piece): string
    requires IsPiece(w, p)
  {
    match p
    case Full(r) => w.json(r) + "\n"
    case Rest(r, k, m) => w.json(r)[k..m] + if m == |w.json(r)| then "\n" else ""
    case Start(r, m) => w.json(r)[..m]
  }

  /** The server has not finished it. */
  predicate Cut(w: Wire, p: Piece) {
    match p
    case Full(_) => false
    case Rest(r, _, m) => m < |w.json(r)|
    case Start(_, _) => true
  }

  function FrameOf(p: Piece): Frame {
    match p case Full(r) => Whole(r) case Rest(_, _, _) => Tail case Start(_, _) => Head
  }

  predicate ArePieces(w: Wire, ps: seq<Piece>, open: bool) {
    && (forall j :: 0 <= j < |ps| ==> IsPiece(w, ps[j]))
    && (forall j :: 0 <= j < |ps| && Cut(w, ps[j]) ==> j == |ps| - 1 && !open)
  }

  function TextOfAll(w: Wire, ps: seq<Piece>): string
    requires forall j :: 0 <= j < |ps| ==> IsPiece(w, ps[j])
  {
    if ps == [] then "" else TextOf(w, ps[0]) + TextOfAll(w, ps[1..])
  }

  function Frames(ps: seq<Piece>): (fs: seq<Frame>)
    ensures |fs| == |ps|
  {
    seq(|ps|, j requires 0 <= j < |ps| => FrameOf(ps[j]))
  }

  function Newline(nl: bool): string {
    if nl then "\n" else ""
  }

  /** `text` is these pieces, perhaps after a newline left over. */
  ghost predicate Lays(w: Wire, text: string, frames: seq<Frame>, open: bool, nl: bool, ps: seq<Piece>) {
    ArePieces(w, ps, open) && text == Newline(nl) + TextOfAll(w, ps) && frames == Frames(ps)
  }

  ghost predicate LaidOut(w: Wire, text: string, frames: seq<Frame>, open: bool) {
    exists nl, ps :: Lays(w, text, frames, open, nl, ps)
  }

  lemma {:induction false} TextSnoc(w: Wire, ps: seq<Piece>, p: Piece)
    requires forall j :: 0 <= j < |ps| ==> IsPiece(w, ps[j])
    requires IsPiece(w, p)
    ensures TextOfAll(w, ps + [p]) == TextOfAll(w, ps) + TextOf(w, p)
  {
    if ps == [] {
      assert ps + [p] == [p] && [p][1..] == [];
    } else {
      assert (ps + [p])[1..] == ps[1..] + [p];
      TextSnoc(w, ps[1..], p);
    }
  }

  lemma PiecesSnoc(w: Wire, ps: seq<Piece>, p: Piece, open: bool)
    requires ArePieces(w, ps, true) && IsPiece(w, p) && (Cut(w, p) ==> !open)
    ensures ArePieces(w, ps + [p], open) && Frames(ps + [p]) == Frames(ps) + [FrameOf(p)]
    ensures TextOfAll(w, ps + [p]) == TextOfAll(w, ps) + TextOf(w, p)
  {
    TextSnoc(w, ps, p);
  }

  /** Sending one more piece. */
  lemma LaysMore(w: Wire, text: string, frames: seq<Frame>, p: Piece, open: bool)
    requires LaidOut(w, text, frames, true) && IsPiece(w, p) && (Cut(w, p) ==> !open)
    ensures LaidOut(w, text + TextOf(w, p), frames + [FrameOf(p)], open)
  {
    var nl: bool, ps: seq<Piece> :| Lays(w, text, frames, true, nl, ps);
    PiecesSnoc(w, ps, p, open);
    Regroup(Newline(nl), TextOfAll(w, ps), TextOf(w, p));
    assert Lays(w, text + TextOf(w, p), frames + [FrameOf(p)], open, nl, ps + [p]);
  }

  lemma Regroup(a: string, b: string, c: string)
    ensures a + b + c == a + (b + c)
  {
  }

  // ---- Throwing away what has been read ------------------------------------------------------------

  /** What is left of a piece after its first `d` characters. */
  lemma DropIn(w: Wire, p: Piece, d: nat) returns (q: Piece)
    requires IsPiece(w, p) && 0 < d < |TextOf(w, p)|
    requires !Cut(w, p) ==> d < |TextOf(w, p)| - 1
    ensures IsPiece(w, q) && q.Rest? && TextOf(w, q) == TextOf(w, p)[d..] && Cut(w, q) == Cut(w, p)
  {
    match p
    case Full(r) => q := Rest(r, d, |w.json(r)|);
    case Rest(r, k, m) => q := Rest(r, k + d, m);
    case Start(r, m) => q := Rest(r, d, m);
  }

  /** After the first `d` characters the frames are as if some had been lost and one
      torn. */
  lemma {:induction false} Dropped(w: Wire, ps: seq<Piece>, open: bool, d: nat) returns (lost: nat, torn: bool)
    requires ArePieces(w, ps, open) && d <= |TextOfAll(w, ps)|
    ensures LaidOut(w, TextOfAll(w, ps)[d..], Lose(Frames(ps), lost, torn), open)
    decreases |ps|
  {
    if d == 0 || ps == [] {
      lost, torn := 0, false;
      assert Lays(w, TextOfAll(w, ps)[d..], Lose(Frames(ps), 0, false), open, false, ps);
    } else {
      var text, rest := TextOf(w, ps[0]), ps[1..];
      HeadAndRest(w, ps, open);
      if d >= |text| {
        lost, torn := Dropped(w, rest, open, d - |text|);
        DropAll(text, TextOfAll(w, rest), d);
        LoseOneMore(Frames(ps), lost, torn);
        lost := lost + 1;
      } else if d == |text| - 1 && !Cut(w, ps[0]) {
        lost, torn := 1, false;
        NewlineLeft(w, ps[0]);
        DropSome(text, TextOfAll(w, rest), d);
        assert Lays(w, TextOfAll(w, ps)[d..], Frames(rest), open, true, rest);
      } else {
        var q := DropIn(w, ps[0], d);
        lost, torn := 0, true;
        TornLays(w, ps, q, open, d);
      }
    }
  }

  lemma HeadAndRest(w: Wire, ps: seq<Piece>, open: bool)
    requires ArePieces(w, ps, open) && ps != []
    ensures ArePieces(w, ps[1..], open) && Frames(ps)[1..] == Frames(ps[1..])
    ensures TextOfAll(w, ps) == TextOf(w, ps[0]) + TextOfAll(w, ps[1..])
  {
  }

  lemma DropAll(a: string, b: string, d: nat)
    requires |a| <= d <= |a| + |b|
    ensures (a + b)[d..] == b[d - |a|..]
  {
  }

  lemma DropSome(a: string, b: string, d: nat)
    requires d <= |a|
    ensures (a + b)[d..] == a[d..] + b
  {
  }

  lemma LoseOneMore(frames: seq<Frame>, lost: nat, torn: bool)
    requires frames != []
    ensures Lose(frames, lost + 1, torn) == Lose(frames[1..], lost, torn)
  {
    if lost < |frames| { assert frames[1..][lost..] == frames[lost + 1..]; }
  }

  lemma NewlineLeft(w: Wire, p: Piece)
    requires IsPiece(w, p) && !Cut(w, p)
    ensures var text := TextOf(w, p); text != "" && text[|text| - 1..] == "\n"
  {
  }

  lemma TornLays(w: Wire, ps: seq<Piece>, q: Piece, open: bool, d: nat)
    requires ArePieces(w, ps, open) && ps != [] && IsPiece(w, q) && q.Rest? && Cut(w, q) == Cut(w, ps[0])
    requires 0 < d < |TextOf(w, ps[0])| && TextOf(w, q) == TextOf(w, ps[0])[d..]
    ensures LaidOut(w, TextOfAll(w, ps)[d..], Lose(Frames(ps), 0, true), open)
  {
    var qs, rest := [q] + ps[1..], ps[1..];
    HeadAndRest(w, ps, open);
    assert qs[1..] == rest;
    TornText(TextOf(w, ps[0]), TextOfAll(w, rest), TextOf(w, q), d);
    assert TextOfAll(w, qs) == TextOf(w, q) + TextOfAll(w, rest);
    assert Newline(false) + TextOfAll(w, qs) == TextOfAll(w, qs);
    assert Frames(qs) == [Tail] + Frames(ps)[1..];
    assert Lays(w, TextOfAll(w, ps)[d..], Lose(Frames(ps), 0, true), open, false, qs);
  }

  lemma TornText(a: string, b: string, q: string, d: nat)
    requires d <= |a| && q == a[d..]
    ensures (a + b)[d..] == q + b
  {
  }

  /** The same behind a newline left over. */
  lemma DroppedBehind(w: Wire, nl: bool, ps: seq<Piece>, open: bool, d: nat) returns (lost: nat, torn: bool)
    requires ArePieces(w, ps, open) && d <= |Newline(nl) + TextOfAll(w, ps)|
    ensures LaidOut(w, (Newline(nl) + TextOfAll(w, ps))[d..], Lose(Frames(ps), lost, torn), open)
  {
    if nl && d == 0 {
      lost, torn := 0, false;
      NothingDropped(w, ps, open);
    } else {
      lost, torn := Dropped(w, ps, open, d - |Newline(nl)|);
      BehindLaidOut(w, Newline(nl), TextOfAll(w, ps), Lose(Frames(ps), lost, torn), open, d);
    }
  }

  lemma BehindLaidOut(w: Wire, front: string, t: string, frames: seq<Frame>, open: bool, d: nat)
    requires |front| <= d <= |front| + |t| && LaidOut(w, t[d - |front|..], frames, open)
    ensures LaidOut(w, (front + t)[d..], frames, open)
  {
    DropAll(front, t, d);
  }

  lemma NothingDropped(w: Wire, ps: seq<Piece>, open: bool)
    requires ArePieces(w, ps, open)
    ensures LaidOut(w, (Newline(true) + TextOfAll(w, ps))[0..], Lose(Frames(ps), 0, false), open)
  {
    var text := Newline(true) + TextOfAll(w, ps);
    assert text[0..] == text;
    assert Lays(w, text, Frames(ps), open, true, ps);
    assert Lose(Frames(ps), 0, false) == Frames(ps);
  }

  // ---- What a decoder can find --------------------------------------------------------------------

  /** A value decoded at the front of the pieces is the first response, or comes from
      the rest of one and is harmless. */
  lemma ValueIsFirst(w: Wire, ps: seq<Piece>, open: bool, buf: string, r: Response)
    requires Sound(w) && ArePieces(w, ps, open) && buf <= TextOfAll(w, ps) && w.decode(buf) == Value(r)
    ensures ps != [] && !ps[0].Start?
    ensures ps[0].Full? ==> ps[0].r == r && w.json(r) <= buf
    ensures ps[0].Rest? ==> Harmless(Value(r))
  {
    if ps == [] {
      EmptyIsIncomplete(w, Response(0, "", None, None));
    } else {
      HeadAndRest(w, ps, open);
      var json, rest := w.json(ps[0].r), TextOfAll(w, ps[1..]);
      match ps[0]
      case Full(r0) =>
        if |buf| < |json| { ShortIsIncomplete(w, r0, buf); } else { assert buf == json + buf[|json|..]; }
      case Rest(r0, k, m) =>
        if m < |json| { assert ps[1..] == []; }
        TailIsHarmless(w, r0, k, buf, r);
      case Start(_, _) => StartIsIncomplete(w, ps, open, buf);
    }
  }

  lemma ShortIsIncomplete(w: Wire, r: Response, buf: string)
    requires Sound(w) && |buf| < |w.json(r)| && buf <= w.json(r)
    ensures w.decode(buf) == Incomplete
  {
    assert buf == w.json(r)[..|buf|];
  }

  lemma StartIsIncomplete(w: Wire, ps: seq<Piece>, open: bool, buf: string)
    requires Sound(w) && ArePieces(w, ps, open) && ps != [] && ps[0].Start? && buf <= TextOfAll(w, ps)
    ensures w.decode(buf) == Incomplete
  {
    HeadAndRest(w, ps, open);
    assert ps[1..] == [];
    ShortIsIncomplete(w, ps[0].r, buf);
  }

  lemma EmptyIsIncomplete(w: Wire, r: Response)
    requires Sound(w)
    ensures w.decode("") == Incomplete
  {
    assert w.json(r)[..0] == "";
  }

  lemma TailIsHarmless(w: Wire, r0: Response, k: nat, buf: string, r: Response)
    requires Sound(w) && 0 < k < |w.json(r0)| && w.decode(buf) == Value(r)
    requires buf <= w.json(r0)[k..] || w.json(r0)[k..] <= buf
    ensures Harmless(Value(r))
  {
    var tail := w.json(r0)[k..];
    if tail <= buf {
      assert buf == tail + buf[|tail|..];
    } else {
      assert tail + "" == buf + tail[|buf|..];
    }
  }

  // ---- Refinement ------------------------------------------------------------------------------------

  /** Only call `i` may have part of a response. */
  ghost predicate Holder(buffers: map<nat, string>, i: nat) {
    forall j: nat :: j != i ==> Held(buffers, j) == ""
  }

  /** The machine of frames is in the same state, and its frames are laid out over
      what the one reading call has and what is on the stream. */
  ghost predicate Refines(w: Wire, b: Link, s: State) {
    && SameCore(b, s)
    && exists i: nat :: Holder(b.buffers, i) && LaidOut(w, Held(b.buffers, i) + b.stream, s.toClient, s.open)
  }

  lemma RefinedAt(w: Wire, b: Link, s: State, i: nat)
    requires Refines(w, b, s) && Holder(b.buffers, i)
    ensures LaidOut(w, Held(b.buffers, i) + b.stream, s.toClient, s.open)
  {
    var h: nat :| Holder(b.buffers, h) && LaidOut(w, Held(b.buffers, h) + b.stream, s.toClient, s.open);
    assert h != i ==> Held(b.buffers, h) == "" && Held(b.buffers, i) == "";
  }

  /** What is left once a decoder has thrown away what it read. */
  lemma LeftOver(w: Wire, text: string, frames: seq<Frame>, open: bool, d: nat) returns (lost: nat, torn: bool)
    requires LaidOut(w, text, frames, open) && d <= |text|
    ensures LaidOut(w, text[d..], Lose(frames, lost, torn), open)
  {
    var nl: bool, ps: seq<Piece> :| Lays(w, text, frames, open, nl, ps);
    lost, torn := DroppedBehind(w, nl, ps, open, d);
  }

  /** A decoded value is the first frame or harmless, and what is left is laid out. */
  lemma Found(w: Wire, text: string, frames: seq<Frame>, open: bool, d: nat, r: Response)
      returns (lost: nat, torn: bool)
    requires Sound(w) && LaidOut(w, text, frames, open) && 0 < d <= |text| && w.decode(text[..d]) == Value(r)
    ensures frames != [] && !frames[0].Head?
    ensures frames[0].Whole? ==> frames[0].response == r && LaidOut(w, text[d..], Lose(frames[1..], lost, torn), open)
    ensures frames[0].Tail? ==> Harmless(Value(r)) && LaidOut(w, text[d..], Lose(frames, lost, torn), open)
  {
    var nl: bool, ps: seq<Piece> :| Lays(w, text, frames, open, nl, ps);
    var buf := SkipNewline(w, nl, text, TextOfAll(w, ps), d);
    ValueIsFirst(w, ps, open, buf, r);
    if ps[0].Full? {
      lost, torn := AfterWhole(w, text, nl, ps, open, d);
    } else {
      lost, torn := DroppedBehind(w, nl, ps, open, d);
    }
  }

  lemma SkipNewline(w: Wire, nl: bool, text: string, t: string, d: nat) returns (buf: string)
    requires Sound(w) && text == Newline(nl) + t && 0 < d <= |text|
    ensures buf <= t && |buf| + |Newline(nl)| == d && w.decode(text[..d]) == w.decode(buf)
  {
    buf := t[..d - |Newline(nl)|];
    if nl {
      assert text[..d] == "\n" + buf;
    } else {
      assert text == t;
    }
  }

  lemma Shift(a: string, b: string, c: string)
    ensures a + (b + "\n" + c) == (a + b) + ("\n" + c)
  {
  }

  lemma AfterWhole(w: Wire, text: string, nl: bool, ps: seq<Piece>, open: bool, d: nat) returns (lost: nat, torn: bool)
    requires ArePieces(w, ps, open) && ps != [] && ps[0].Full? && text == Newline(nl) + TextOfAll(w, ps)
    requires |Newline(nl)| + |w.json(ps[0].r)| <= d <= |text|
    ensures LaidOut(w, text[d..], Lose(Frames(ps)[1..], lost, torn), open)
  {
    var front, t, rest := Newline(nl) + w.json(ps[0].r), TextOfAll(w, ps[1..]), ps[1..];
    HeadAndRest(w, ps, open);
    Shift(Newline(nl), w.json(ps[0].r), t);
    lost, torn := DroppedBehind(w, true, rest, open, d - |front|);
    RestLaidOut(w, front, t, text, Lose(Frames(rest), lost, torn), open, d);
  }

  lemma RestLaidOut(w: Wire, front: string, t: string, text: string, frames: seq<Frame>, open: bool, d: nat)
    requires text == front + ("\n" + t) && |front| <= d <= |text|
    requires LaidOut(w, ("\n" + t)[d - |front|..], frames, open)
    ensures LaidOut(w, text[d..], frames, open)
  {
    BehindLaidOut(w, front, "\n" + t, frames, open, d);
  }

  /** The frame step that a move amounts to, if any. */
  datatype Echo = Silent | Frame(step: Protocol.Step)

  ghost predicate Echoes(s: State, e: Echo, s': State) {
    match e case Silent => s' == s case Frame(step) => Next(s, step) == Some(s')
  }

  lemma PlainRefines(w: Wire, b: Link, s: State, step: Protocol.Step)
    requires Refines(w, b, s) && (step.Begin? || step.Send? || step.SendFail?) && Next(b.core, step).Some?
    ensures Next(s, step).Some? && Refines(w, b.(core := Next(b.core, step).value), Next(s, step).value)
  {
    var i: nat :| Holder(b.buffers, i) && LaidOut(w, Held(b.buffers, i) + b.stream, s.toClient, s.open);
    var b' := b.(core := Next(b.core, step).value);
    assert Holder(b'.buffers, i) && Held(b'.buffers, i) == Held(b.buffers, i);
  }

  lemma ServeRefines(w: Wire, b: Link, s: State, o: Outcome)
    requires Refines(w, b, s) && Moved(w, b, Serves(o)).Some?
    ensures Next(s, Serve(o)).Some? && Refines(w, Moved(w, b, Serves(o)).value, Next(s, Serve(o)).value)
  {
    var i: nat :| Holder(b.buffers, i) && LaidOut(w, Held(b.buffers, i) + b.stream, s.toClient, s.open);
    var b', r := Moved(w, b, Serves(o)).value, Dispatch(b.core.toServer[0], o);
    LaysMore(w, Held(b.buffers, i) + b.stream, s.toClient, Full(r), true);
    Regroup(Held(b.buffers, i), b.stream, TextOf(w, Full(r)));
    assert Held(b'.buffers, i) + b'.stream == Held(b.buffers, i) + b.stream + TextOf(w, Full(r));
  }

  lemma ShutLays(w: Wire, text: string, frames: seq<Frame>)
    requires LaidOut(w, text, frames, true)
    ensures LaidOut(w, text, frames, false)
  {
    var nl: bool, ps: seq<Piece> :| Lays(w, text, frames, true, nl, ps);
    assert Lays(w, text, frames, false, nl, ps);
  }

  lemma StopRefines(w: Wire, b: Link, s: State, o: Outcome, n: nat)
    requires Refines(w, b, s) && Moved(w, b, Stops(o, n)).Some?
    ensures Next(s, Stop(n > 0)).Some? && Refines(w, Moved(w, b, Stops(o, n)).value, Next(s, Stop(n > 0)).value)
  {
    var i: nat :| Holder(b.buffers, i) && LaidOut(w, Held(b.buffers, i) + b.stream, s.toClient, s.open);
    var b' := Moved(w, b, Stops(o, n)).value;
    assert Holder(b'.buffers, i);
    if n > 0 {
      var p := Start(Dispatch(b.core.toServer[0], o), n);
      LaysMore(w, Held(b.buffers, i) + b.stream, s.toClient, p, false);
      Regroup(Held(b.buffers, i), b.stream, TextOf(w, p));
      assert Held(b'.buffers, i) + b'.stream == Held(b.buffers, i) + b.stream + TextOf(w, p);
    } else {
      ShutLays(w, Held(b.buffers, i) + b.stream, s.toClient);
      assert b'.stream == b.stream && s.toClient + [] == s.toClient;
    }
  }

  lemma HeldWithout(buffers: map<nat, string>, i: nat)
    ensures forall j: nat :: Held(buffers - {i}, j) == if j == i then "" else Held(buffers, j)
  {
  }

  /** A call ends; what its decoder had is gone. */
  lemma EndRefines(w: Wire, b: Link, s: State, i: nat, stream: string, result: CallResult, frames: seq<Frame>,
      received: nat, abandoned: nat)
    requires SameCore(b, s) && Holder(b.buffers, i) && i < |s.calls|
    requires LaidOut(w, stream, frames, s.open)
    ensures Refines(w, Ended(b.(stream := stream), i, result),
        WithFrames(SetPhase(s, i, Done(result)), frames, received, abandoned))
  {
    var b' := Ended(b.(stream := stream), i, result);
    HeldWithout(b.buffers, i);
    assert Holder(b'.buffers, i);
    assert Held(b'.buffers, i) + b'.stream == stream;
  }

  lemma GiveUpRefines(w: Wire, b: Link, s: State, i: nat) returns (e: Echo, s': State)
    requires Refines(w, b, s) && In(b.core, i, Awaiting)
    ensures Echoes(s, e, s') && Refines(w, Ended(b, i, ReadFailed), s')
  {
    var h: nat :| Holder(b.buffers, h) && LaidOut(w, Held(b.buffers, h) + b.stream, s.toClient, s.open);
    if h == i || Held(b.buffers, h) == "" {
      assert Holder(b.buffers, i);
      RefinedAt(w, b, s, i);
      var lost, torn := LeftOver(w, Held(b.buffers, i) + b.stream, s.toClient, s.open, |Held(b.buffers, i)|);
      assert (Held(b.buffers, i) + b.stream)[|Held(b.buffers, i)|..] == b.stream;
      e, s' := Frame(ReceiveFail(i, lost, torn)), GiveUp(s, i, Lose(s.toClient, lost, torn));
      ReceiveFailNext(s, i, lost, torn);
      EndRefines(w, b, s, i, b.stream, ReadFailed, Lose(s.toClient, lost, torn), s.received, s.abandoned + 1);
    } else {
      assert Lose(s.toClient, 0, false) == s.toClient;
      e, s' := Frame(ReceiveFail(i, 0, false)), GiveUp(s, i, s.toClient);
      ReceiveFailNext(s, i, 0, false);
      var b' := Ended(b, i, ReadFailed);
      HeldWithout(b.buffers, i);
      assert Holder(b'.buffers, h) && Held(b'.buffers, h) == Held(b.buffers, h);
    }
  }

  /** A response with a harmless id is not the one a call waits for. */
  lemma HarmlessMismatches(s: State, i: nat, r: Response)
    requires Inv(s) && i < |s.calls| && Harmless(Value(r))
    ensures Judge(s.calls[i].request, r) == Mismatch
  {
    assert s.calls[i].request.id == IdAt(i) == Dec((i + 1) % WRAP);
  }

  lemma ReceiveFailNext(s: State, i: nat, lost: nat, torn: bool)
    requires In(s, i, Awaiting)
    ensures Next(s, ReceiveFail(i, lost, torn)) == Some(GiveUp(s, i, Lose(s.toClient, lost, torn)))
  {
  }

  lemma ReceiveNext(s: State, i: nat, lost: nat, torn: bool)
    requires In(s, i, Awaiting) && s.toClient != [] && s.toClient[0].Whole?
    ensures Next(s, Receive(i, lost, torn))
        == Some(Take(s, i, s.toClient[0].response, Lose(s.toClient[1..], lost, torn)))
  {
  }

  lemma GarbleNext(s: State, i: nat, lost: nat, torn: bool)
    requires In(s, i, Awaiting) && s.toClient != [] && s.toClient[0].Tail?
    ensures Next(s, Garble(i, lost, torn)) == Some(Misread(s, i, Lose(s.toClient, lost, torn)))
  {
  }

  ghost predicate SameCore(b: Link, s: State) {
    s == WithFrames(b.core, s.toClient, s.received, s.abandoned)
  }

  lemma ReadRefines(w: Wire, b: Link, s: State, i: nat, n: nat) returns (e: Echo, s': State)
    requires Sound(w) && Refines(w, b, s) && Inv(s) && In(b.core, i, Awaiting) && 0 < n <= |b.stream|
        && Holder(b.buffers, i)
    ensures Echoes(s, e, s')
    ensures Refines(w, Decoded(w, b.(stream := b.stream[n..]), i, Held(b.buffers, i) + b.stream[..n]), s')
  {
    var buf, stream := Held(b.buffers, i) + b.stream[..n], b.stream[n..];
    var text := Held(b.buffers, i) + b.stream;
    RefinedAt(w, b, s, i);
    Resplit(Held(b.buffers, i), b.stream, n);
    match w.decode(buf)
    case Incomplete =>
      e, s' := Silent, s;
      StillReading(w, b, s, i, buf, stream);
    case Garbage =>
      var lost, torn := LeftOver(w, text, s.toClient, s.open, |buf|);
      e, s' := Frame(ReceiveFail(i, lost, torn)), GiveUp(s, i, Lose(s.toClient, lost, torn));
      ReceiveFailNext(s, i, lost, torn);
      EndRefines(w, b, s, i, stream, ReadFailed, Lose(s.toClient, lost, torn), s.received, s.abandoned + 1);
    case Value(r) =>
      e, s' := ValueRefines(w, b, s, i, text, |buf|, r);
  }

  lemma Resplit(held: string, stream: string, n: nat)
    requires n <= |stream|
    ensures var buf, text := held + stream[..n], held + stream;
            |buf| <= |text| && text[..|buf|] == buf && text[|buf|..] == stream[n..] && buf + stream[n..] == text
  {
  }

  lemma StillReading(w: Wire, b: Link, s: State, i: nat, buf: string, stream: string)
    requires SameCore(b, s) && Holder(b.buffers, i) && LaidOut(w, buf + stream, s.toClient, s.open)
    ensures Refines(w, b.(stream := stream, buffers := b.buffers[i := buf]), s)
  {
    var buffers := b.buffers[i := buf];
    assert forall j: nat :: Held(buffers, j) == if j == i then buf else Held(b.buffers, j);
    assert Holder(buffers, i);
  }

  lemma ValueRefines(w: Wire, b: Link, s: State, i: nat, text: string, d: nat, r: Response) returns (e: Echo, s': State)
    requires Sound(w) && Inv(s) && SameCore(b, s) && Holder(b.buffers, i) && In(s, i, Awaiting)
    requires LaidOut(w, text, s.toClient, s.open) && 0 < d <= |text| && w.decode(text[..d]) == Value(r)
    ensures Echoes(s, e, s') && Refines(w, Ended(b.(stream := text[d..]), i, Judge(s.calls[i].request, r)), s')
  {
    var lost, torn := Found(w, text, s.toClient, s.open, d, r);
    if s.toClient[0].Whole? {
      var frames := Lose(s.toClient[1..], lost, torn);
      e, s' := Frame(Receive(i, lost, torn)), Take(s, i, r, frames);
      ReceiveNext(s, i, lost, torn);
      EndRefines(w, b, s, i, text[d..], Judge(s.calls[i].request, r), frames, s.received + 1, s.abandoned);
    } else {
      var frames := Lose(s.toClient, lost, torn);
      HarmlessMismatches(s, i, r);
      e, s' := Frame(Garble(i, lost, torn)), Misread(s, i, frames);
      GarbleNext(s, i, lost, torn);
      EndRefines(w, b, s, i, text[d..], Mismatch, frames, s.received, s.abandoned);
    }
  }

  // ---- Runs ----------------------------------------------------------------------------------------------

  lemma StepRefines(w: Wire, b: Link, s: State, move: Move) returns (e: Echo, s': State)
    requires Sound(w) && Refines(w, b, s) && Inv(s) && Moved(w, b, move).Some? && TakesTurns(b, move)
    ensures Echoes(s, e, s') && Refines(w, Moved(w, b, move).value, s')
  {
    match move
    case Begins(m, params) =>
      PlainRefines(w, b, s, Begin(m, params));
      e, s' := Frame(Begin(m, params)), Next(s, Begin(m, params)).value;
    case Sends(i) =>
      PlainRefines(w, b, s, Send(i));
      e, s' := Frame(Send(i)), Next(s, Send(i)).value;
    case SendFails(i) =>
      PlainRefines(w, b, s, SendFail(i));
      e, s' := Frame(SendFail(i)), Next(s, SendFail(i)).value;
    case Serves(o) =>
      ServeRefines(w, b, s, o);
      e, s' := Frame(Serve(o)), Next(s, Serve(o)).value;
    case Stops(o, n) =>
      StopRefines(w, b, s, o, n);
      e, s' := Frame(Stop(n > 0)), Next(s, Stop(n > 0)).value;
    case Reads(i, n) => e, s' := ReadRefines(w, b, s, i, n);
    case GivesUp(i) => e, s' := GiveUpRefines(w, b, s, i);
  }

  lemma EchoKeeps(steps: seq<Protocol.Step>, s: State, e: Echo, s': State) returns (more: seq<Protocol.Step>)
    requires Run(steps) == Some(s) && Inv(s) && Echoes(s, e, s')
    ensures Run(more) == Some(s') && Inv(s')
  {
    match e
    case Silent => more := steps;
    case Frame(step) =>
      more := steps + [step];
      assert more[..|steps|] == steps;
      NextKeeps(s, step);
  }

  /** Every run in which reads take turns is, call by call and answer by answer, a run
      of the machine of frames. */
  lemma {:induction false} RunRefines(w: Wire, moves: seq<Move>) returns (steps: seq<Protocol.Step>, s: State)
    requires Sound(w) && OrderlyReads(w, moves)
    ensures Run(steps) == Some(s) && Inv(s) && Refines(w, RunLink(w, moves).value, s)
    decreases |moves|
  {
    if moves == [] {
      steps, s := [], START;
      assert Frames([]) == [] && Lays(w, "", [], true, false, []);
      assert Holder(FRESH.buffers, 0);
    } else {
      var init, move := moves[..|moves| - 1], moves[|moves| - 1];
      assert forall n :: 0 <= n < |init| ==> init[..n] == moves[..n] && init[n] == moves[n];
      steps, s := RunRefines(w, init);
      var e, s' := StepRefines(w, RunLink(w, init).value, s, move);
      steps := EchoKeeps(steps, s, e, s');
      s := s';
    }
  }

  /** Whatever times out, overlaps or is read ahead, and in pieces of whatever size:
      if reads take turns, a call that returns a result or a router error holds the
      server's answer to its own request, for up to 2^64 calls. */
  lemma ReadAnswersAreOwn(w: Wire, moves: seq<Move>, i: nat)
    requires Sound(w) && OrderlyReads(w, moves)
    requires var s := RunLink(w, moves).value.core;
             |s.calls| <= 0x1_0000_0000_0000_0000 && i < |s.calls| && Accepted(s.calls[i]).Some?
    ensures var s := RunLink(w, moves).value.core;
            exists n: nat ::
              Answers(s, n, i, Accepted(s.calls[i]).value) && Reports(s.calls[i].phase.result, s.outcomes[n])
  {
    var steps, s := RunRefines(w, moves);
    var n := AcceptedIsOwn(s, i);
    var core := RunLink(w, moves).value.core;
    assert Answers(core, n, i, Accepted(s.calls[i]).value) && Reports(core.calls[i].phase.result, core.outcomes[n]);
  }

  // ---- Reads that do not take turns ------------------------------------------------------------------------

  /** Two calls read alternately inside two responses: the first can end up with the
      beginning of one and the end of the other. If that text decodes to a response
      with the first call's id, the call accepts what no server sent. */
  lemma SpliceIsAccepted(w: Wire, b: Link, i: nat, j: nat, held: string, skipped: string, rest: string, v: Response)
    requires In(b.core, i, Awaiting) && In(b.core, j, Awaiting) && i != j && skipped != "" && rest != ""
    requires Held(b.buffers, i) == held && Held(b.buffers, j) == "" && b.stream == skipped + rest
    requires w.decode(skipped) == Garbage && w.decode(held + rest) == Value(v)
    requires v.id == b.core.calls[i].request.id && v.error.None?
    ensures var b1 := Moved(w, b, Reads(j, |skipped|));
            b1.Some? &&
            var b2 := Moved(w, b1.value, Reads(i, |rest|));
            b2.Some? && In(b2.value.core, i, Done(Success(v))) && b2.value.core.answered == b.core.answered
    ensures held != "" ==> !TakesTurns(b, Reads(j, |skipped|))
  {
    var n := |skipped|;
    assert b.stream[..n] == skipped && b.stream[n..] == rest && "" + skipped == skipped;
    var b1 := Ended(b.(stream := rest), j, ReadFailed);
    assert Moved(w, b, Reads(j, n)) == Some(b1);
    HeldWithout(b.buffers, j);
    assert rest[..|rest|] == rest;
  }
}
