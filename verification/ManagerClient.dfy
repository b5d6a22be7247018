/** The manager's client, one system call after another. */
module ManagerClient {
  import opened Wrappers
  import opened Protocol
  import opened ProtocolWire

  predicate Concerns(move: Move, i: nat) {
    match move
    case Sends(j) => j == i
    case SendFails(j) => j == i
    case Reads(j, _) => j == i
    case GivesUp(j) => j == i
    case _ => false
  }

  /** No other call has part of a response. */
  predicate OthersIdle(buffers: map<nat, string>, i: nat) {
    forall j :: j in buffers && j != i ==> buffers[j] == ""
  }

  predicate MayMove(b: Link, move: Move) {
    move.Reads? ==> OthersIdle(b.buffers, move.i)
  }

  lemma OthersSpare(w: Wire, b: Link, move: Move, i: nat)
    requires i < |b.core.calls| && !Concerns(move, i) && Moved(w, b, move).Some?
    ensures var b' := Moved(w, b, move).value;
            i < |b'.core.calls| && b'.core.calls[i] == b.core.calls[i]
  {
  }

  lemma MovedNext(w: Wire, b: Link, i: nat)
    requires i < |b.core.calls|
    ensures In(b.core, i, Sending) && !b.core.broken ==> Moved(w, b, Sends(i)).Some?
    ensures In(b.core, i, Sending) ==> Moved(w, b, SendFails(i)).Some?
    ensures Moved(w, b, Sends(i)).Some? ==>
        Moved(w, b, Sends(i)).value.core.calls == b.core.calls[i := b.core.calls[i].(phase := Awaiting)]
    ensures Moved(w, b, SendFails(i)).Some? ==>
        Moved(w, b, SendFails(i)).value.core.calls == b.core.calls[i := b.core.calls[i].(phase := Done(SendFailed))]
  {
  }

  /** The connection, which the server and other calls use at the same time. */
  class Connection {
    const wire: Wire
    var link: Link
    /** The machine of frames that the connection refines. */
    ghost var frames: State

    ghost predicate Valid()
      reads this
    {
      Sound(wire) && Refines(wire, link, frames) && Inv(frames)
    }

    constructor (wire: Wire)
      requires Sound(wire)
      ensures Valid() && this.wire == wire && link == FRESH
    {
      this.wire, link, frames := wire, FRESH, START;
      FreshRefines(wire);
    }

    method Do(move: Move)
      requires Valid() && Moved(wire, link, move).Some? && MayMove(link, move)
      modifies this
      ensures Valid() && Some(link) == Moved(wire, old(link), move)
    {
      assert TakesTurns(link, move);
      ghost var e, s := StepRefines(wire, link, frames, move);
      EchoInv(frames, e, s);
      link := Moved(wire, link, move).value;
      frames := s;
    }

    /** Whatever the server and the calls other than `i` do meanwhile. */
    method Others(i: nat)
      requires Valid() && i < |link.core.calls|
      modifies this
      ensures Valid() && i < |link.core.calls| && link.core.calls[i] == old(link.core.calls[i])
    {
      var n: nat := *;
      while n > 0
        invariant Valid() && i < |link.core.calls| && link.core.calls[i] == old(link.core.calls[i])
      {
        var move: Move := *;
        if !Concerns(move, i) && Moved(wire, link, move).Some? && MayMove(link, move) {
          OthersSpare(wire, link, move, i);
          Do(move);
        }
        n := n - 1;
      }
    }

    /** `AddUint64` and the request built from it. */
    method Start(m: string, params: string) returns (i: nat)
      requires Valid()
      modifies this
      ensures Valid() && i < |link.core.calls|
      ensures link.core.calls[i] == Call(Request(VERSION, IdAt(i), m, params), Sending)
    {
      i := |link.core.calls|;
      Do(Begins(m, params));
      assert link.core.calls[i] == frames.calls[i];
    }

    /** One write of the whole frame; once one has failed, all fail. */
    method Write(i: nat) returns (ok: bool)
      requires Valid() && In(link.core, i, Sending)
      modifies this
      ensures Valid() && i < |link.core.calls|
      ensures link.core.calls[i] == Call(old(link.core.calls[i]).request, if ok then Awaiting else Done(SendFailed))
      ensures old(link.core.broken) ==> !ok
    {
      ok := *;
      if link.core.broken { ok := false; }
      MovedNext(wire, link, i);
      if ok { Do(Sends(i)); } else { Do(SendFails(i)); }
    }

    /** Reads what has come, unless nothing has or another call is reading. */
    method ReadPiece(i: nat)
      requires Valid() && In(link.core, i, Awaiting)
      modifies this
      ensures Valid() && i < |link.core.calls|
      ensures var c := link.core.calls[i];
              c.request == old(link.core.calls[i]).request && (c.phase.Awaiting? || c.phase.Done?)
    {
      var n: nat := *;
      if 0 < n <= |link.stream| && OthersIdle(link.buffers, i) { Do(Reads(i, n)); }
    }

    /** A fresh decoder reads pieces as they come, until it has a value or an error or
        the time is up; what it has read beyond the value is lost. It reads when no
        other call is in the middle of a response. */
    method Read(i: nat) returns (result: CallResult)
      requires Valid() && In(link.core, i, Awaiting)
      modifies this
      ensures Valid() && i < |link.core.calls|
      ensures link.core.calls[i] == Call(old(link.core.calls[i]).request, Done(result))
    {
      ghost var request := link.core.calls[i].request;
      var waiting, rounds: nat := true, *;
      result := ReadFailed;
      while rounds > 0 && waiting
        invariant Valid() && i < |link.core.calls|
        invariant link.core.calls[i] == Call(request, if waiting then Awaiting else Done(result))
        decreases rounds
      {
        Others(i);
        ReadPiece(i);
        if link.core.calls[i].phase.Done? { waiting, result := false, link.core.calls[i].phase.result; }
        rounds := rounds - 1;
      }
      if waiting {
        Do(GivesUp(i));
        result := ReadFailed;
      }
    }
  }

  lemma FreshRefines(w: Wire)
    ensures Refines(w, FRESH, START) && Inv(START)
  {
    assert Frames([]) == [] && Lays(w, "", [], true, false, []);
    assert Holder(FRESH.buffers, 0);
  }

  lemma EchoInv(s: State, e: Echo, s': State)
    requires Inv(s) && Echoes(s, e, s')
    ensures Inv(s')
  {
    if e.Frame? { NextKeeps(s, e.step); }
  }

  /** `result` is the answer to call `i`, or no answer at all. */
  ghost predicate OwnAnswer(s: State, i: nat, n: nat, result: CallResult) {
    match result
    case Success(r) => Answers(s, n, i, r) && Reports(result, s.outcomes[n])
    case RouterError(r) => Answers(s, n, i, r) && Reports(result, s.outcomes[n])
    case _ => true
  }

  lemma ResultIsOwn(s: State, i: nat) returns (n: nat)
    requires Inv(s) && |s.calls| <= WRAP && i < |s.calls| && s.calls[i].phase.Done?
    ensures OwnAnswer(s, i, n, s.calls[i].phase.result)
  {
    n := 0;
    assert s.calls[i] in s.calls && ResultOk(s.answered, s.calls[i]);
    if Accepted(s.calls[i]).Some? { n := AcceptedIsOwn(s, i); }
  }

  class Client {
    const connection: Connection

    constructor (connection: Connection)
      ensures this.connection == connection
    {
      this.connection := connection;
    }

    /** Sends a request under the next number and waits for one response or the
        deadline. `i` is the call's place among all calls, `n` its answer's among
        all answers. */
    method Call(m: string, params: string) returns (result: CallResult, ghost i: nat, ghost n: nat)
      requires connection.Valid()
      modifies connection
      ensures connection.Valid() && i < |connection.link.core.calls|
      ensures connection.link.core.calls[i] == Protocol.Call.Call(Request(1, IdAt(i), m, params), Done(result))
      ensures |connection.link.core.calls| <= 0x1_0000_0000_0000_0000 ==>
                OwnAnswer(connection.link.core, i, n, result)
    {
      n := 0;
      var mine := connection.Start(m, params);
      i := mine;
      connection.Others(mine);
      var ok := connection.Write(mine);
      if !ok { return SendFailed, i, n; }
      connection.Others(mine);
      result := connection.Read(mine);
      if |connection.link.core.calls| <= WRAP { n := ResultIsOwn(connection.frames, mine); }
    }
  }
}
