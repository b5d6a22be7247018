/** Requests and responses on one TLS connection: a client that gives up on slow
    answers, concurrent calls, and a server that answers in order. */
module Protocol {
  import opened Wrappers
  import opened Text

  const VERSION := 1
  const WRAP: int := 0x1_0000_0000_0000_0000

  // ---- Messages ---------------------------------------------------------------------------

  datatype Request = Request(version: int, id: string, method_: string, params: string)
  datatype ApiError = ApiError(code: string, message: string)
  datatype Response = Response(version: int, id: string, result: Option<string>, error: Option<ApiError>)

  /** What carrying out a request came to. */
  datatype Outcome = Returned(json: string) | Errored(message: string) | Unencodable

  function ErrorResponse(r: Response, code: string, message: string): Response {
    r.(error := Some(ApiError(code, message)))
  }

  function Dispatch(request: Request, o: Outcome): Response {
    var response := Response(VERSION, request.id, None, None);
    if request.version != VERSION then ErrorResponse(response, "unsupported_version", "unsupported protocol version")
    else match o
      case Errored(message) => ErrorResponse(response, "request_failed", message)
      case Unencodable => ErrorResponse(response, "internal", "cannot encode response")
      case Returned(json) => response.(result := Some(json))
  }

  /** Every response echoes its request's id and carries a result or an error. */
  lemma DispatchEchoes(request: Request, o: Outcome)
    ensures var r := Dispatch(request, o);
            && r.id == request.id && r.version == VERSION && (r.result.Some? <==> r.error.None?)
            && (r.result.Some? <==> request.version == VERSION && o.Returned?)
  {
  }

  /** What a response tells of its request, by the codes of the protocol. */
  datatype Told = Carried(o: Outcome) | Unsupported | Unknown

  function Tells(r: Response): Told {
    match (r.result, r.error)
    case (Some(json), None) => Carried(Returned(json))
    case (None, Some(e)) =>
      if e.code == "request_failed" then Carried(Errored(e.message))
      else if e == ApiError("internal", "cannot encode response") then Carried(Unencodable)
      else if e == ApiError("unsupported_version", "unsupported protocol version") then Unsupported
      else Unknown
    case _ => Unknown
  }

  /** A version 1 response to this request, from which the outcome can be read. */
  predicate IsReply(r: Response, request: Request, o: Outcome) {
    && r.version == 1 && r.id == request.id
    && Tells(r) == if request.version == 1 then Carried(o) else Unsupported
  }

  lemma CodesDiffer()
    ensures "internal" != "request_failed" && "unsupported_version" != "request_failed"
    ensures "unsupported_version" != "internal"
  {
    var f, i, u := "request_failed", "internal", "unsupported_version";
    assert |f| == 14 && |i| == 8 && |u| == 19;
  }

  /** The response to a request is the one response from which its outcome can be read. */
  lemma DispatchReplies(request: Request, o: Outcome, r: Response)
    ensures r == Dispatch(request, o) <==> IsReply(r, request, o)
  {
    CodesDiffer();
  }

  // ---- State --------------------------------------------------------------------------------

  datatype CallResult =
    | SendFailed
    | ReadFailed
    | Mismatch
    | RouterError(response: Response)
    | Success(response: Response)

  datatype Phase = Sending | Awaiting | Done(result: CallResult)
  datatype Call = Call(request: Request, phase: Phase)

  /** A response on its way; the end of one whose beginning was read and thrown away;
      the beginning of one that the server did not finish. */
  datatype Frame = Whole(response: Response) | Tail | Head

  datatype State = State(
    sequence: nat,
    /** Every call ever begun, and those whose request was written, in order. */
    calls: seq<Call>,
    written: seq<nat>,
    /** A failed write leaves the TLS stream unusable. */
    broken: bool,
    toServer: seq<Request>,
    /** What the server has done so far. */
    open: bool,
    outcomes: seq<Outcome>,
    answered: seq<Response>,
    toClient: seq<Frame>,
    /** How many responses calls took, and how many calls stopped waiting. */
    received: nat,
    abandoned: nat)

  const START := State(0, [], [], false, [], true, [], [], [], 0, 0)

  /** Other calls, timeouts and the server interleave in any way. `lost` frames
      that had arrived and part of the next one vanish with the call's decoder. */
  datatype Step =
    | Begin(method_: string, params: string)
    | Send(i: nat)
    | SendFail(i: nat)
    | Serve(o: Outcome)
    | Stop(torn: bool)
    | Receive(i: nat, lost: nat, torn: bool)
    | ReceiveFail(i: nat, lost: nat, torn: bool)
    | Garble(i: nat, lost: nat, torn: bool)

  function IdAt(n: nat): string {
    Dec((n + 1) % WRAP)
  }

  function SetPhase(s: State, i: nat, phase: Phase): State
    requires i < |s.calls|
  {
    s.(calls := s.calls[i := s.calls[i].(phase := phase)])
  }

  function Lose(frames: seq<Frame>, lost: nat, torn: bool): seq<Frame> {
    var rest := if lost <= |frames| then frames[lost..] else [];
    if torn && rest != [] then [Tail] + rest[1..] else rest
  }

  /** What the client makes of a response. */
  function Judge(request: Request, response: Response): CallResult {
    if response.id != request.id then Mismatch
    else if response.error.Some? then RouterError(response)
    else Success(response)
  }

  /** What is left to read and the two counts. */
  function WithFrames(s: State, frames: seq<Frame>, received: nat, abandoned: nat): State {
    s.(toClient := frames, received := received, abandoned := abandoned)
  }

  function Take(s: State, i: nat, r: Response, frames: seq<Frame>): State
    requires i < |s.calls|
  {
    WithFrames(SetPhase(s, i, Done(Judge(s.calls[i].request, r))), frames, s.received + 1, s.abandoned)
  }

  function GiveUp(s: State, i: nat, frames: seq<Frame>): State
    requires i < |s.calls|
  {
    WithFrames(SetPhase(s, i, Done(ReadFailed)), frames, s.received, s.abandoned + 1)
  }

  /** The end of a response makes some other value, with no id to match. */
  function Misread(s: State, i: nat, frames: seq<Frame>): State
    requires i < |s.calls|
  {
    WithFrames(SetPhase(s, i, Done(Mismatch)), frames, s.received, s.abandoned)
  }

  function Break(s: State, i: nat): State
    requires i < |s.calls|
  {
    SetPhase(s, i, Done(SendFailed)).(broken := true)
  }

  function Shut(s: State, torn: bool): State {
    s.(open := false, toClient := s.toClient + if torn then [Head] else [])
  }

  predicate In(s: State, i: nat, phase: Phase) {
    i < |s.calls| && s.calls[i].phase == phase
  }

  function Next(s: State, step: Step): Option<State> {
    match step
    case Begin(m, params) =>
      var n := (s.sequence + 1) % WRAP;
      Some(s.(sequence := n, calls := s.calls + [Call(Request(VERSION, Dec(n), m, params), Sending)]))
    case Send(i) =>
      if In(s, i, Sending) && !s.broken
      then Some(SetPhase(s, i, Awaiting).(written := s.written + [i], toServer := s.toServer + [s.calls[i].request]))
      else None
    case SendFail(i) =>
      if In(s, i, Sending) then Some(Break(s, i)) else None
    case Serve(o) =>
      if s.open && s.toServer != []
      then
        var response := Dispatch(s.toServer[0], o);
        Some(s.(toServer := s.toServer[1..], outcomes := s.outcomes + [o], answered := s.answered + [response],
                toClient := s.toClient + [Whole(response)]))
      else None
    case Stop(torn) =>
      if s.open && (torn ==> s.toServer != []) then Some(Shut(s, torn)) else None
    case Receive(i, lost, torn) =>
      if In(s, i, Awaiting) && s.toClient != [] && s.toClient[0].Whole?
      then Some(Take(s, i, s.toClient[0].response, Lose(s.toClient[1..], lost, torn)))
      else None
    case ReceiveFail(i, lost, torn) =>
      if In(s, i, Awaiting)
      then Some(GiveUp(s, i, Lose(s.toClient, lost, torn)))
      else None
    case Garble(i, lost, torn) =>
      if In(s, i, Awaiting) && s.toClient != [] && s.toClient[0].Tail?
      then Some(Misread(s, i, Lose(s.toClient, lost, torn)))
      else None
  }

  function Run(steps: seq<Step>): Option<State>
    decreases |steps|
  {
    if steps == [] then Some(START)
    else match Run(steps[..|steps| - 1]) case None => None case Some(s) => Next(s, steps[|steps| - 1])
  }

  // ---- Invariants ------------------------------------------------------------------------------

  ghost predicate Numbered(s: State) {
    s.sequence == |s.calls| % WRAP &&
    forall i :: 0 <= i < |s.calls| ==> s.calls[i].request.version == VERSION && s.calls[i].request.id == IdAt(i)
  }

  ghost predicate WrittenOnce(s: State) {
    && (forall n :: 0 <= n < |s.written| ==> s.written[n] < |s.calls| && !s.calls[s.written[n]].phase.Sending?)
    && (forall m, n :: 0 <= m < n < |s.written| ==> s.written[m] != s.written[n])
  }

  /** The server's responses are the dispatch image, in order, of a prefix of the
      requests written; the rest of them is on its way. */
  ghost predicate InOrder(s: State) {
    && |s.outcomes| == |s.answered| && |s.answered| + |s.toServer| == |s.written|
    && (forall n :: 0 <= n < |s.written| ==> s.written[n] < |s.calls|)
    && (forall n :: 0 <= n < |s.answered| ==> s.answered[n] == Dispatch(s.calls[s.written[n]].request, s.outcomes[n]))
    && (forall n :: 0 <= n < |s.toServer| ==> s.toServer[n] == s.calls[s.written[|s.answered| + n]].request)
  }

  ghost predicate FromServer(answered: seq<Response>, toClient: seq<Frame>) {
    forall f :: f in toClient && f.Whole? ==> f.response in answered
  }

  /** A call that got as far as a result holds a response with its own id. */
  ghost predicate ResultOk(answered: seq<Response>, c: Call) {
    match c.phase
    case Done(Success(r)) => r in answered && r.id == c.request.id && r.error.None?
    case Done(RouterError(r)) => r in answered && r.id == c.request.id && r.error.Some?
    case _ => true
  }

  ghost predicate Inv(s: State) {
    && Numbered(s) && WrittenOnce(s) && InOrder(s) && FromServer(s.answered, s.toClient)
    && forall c :: c in s.calls ==> ResultOk(s.answered, c)
  }

  lemma IdsDiffer(m: nat, n: nat)
    ensures IdAt(m) == IdAt(n) <==> m % 0x1_0000_0000_0000_0000 == n % 0x1_0000_0000_0000_0000
  {
    ModStep(m);
    ModStep(n);
    if IdAt(m) == IdAt(n) { DecInjective((m + 1) % WRAP, (n + 1) % WRAP); }
  }

  lemma ModStep(n: nat)
    ensures (n + 1) % WRAP == if n % WRAP == WRAP - 1 then 0 else n % WRAP + 1
  {
  }

  // ---- Every step keeps them ----------------------------------------------------------------------

  lemma BeginNumbers(s: State, c: Call)
    requires Numbered(s) && c.request.version == VERSION && c.request.id == Dec((s.sequence + 1) % WRAP)
    ensures Numbered(s.(sequence := (s.sequence + 1) % WRAP, calls := s.calls + [c]))
  {
    ModStep(|s.calls|);
  }

  lemma NewCallKeeps(s: State, c: Call, n: nat)
    requires Inv(s) && c.phase.Sending?
    ensures var s' := s.(sequence := n, calls := s.calls + [c]);
            WrittenOnce(s') && InOrder(s') && forall d :: d in s'.calls ==> ResultOk(s'.answered, d)
  {
    var calls := s.calls + [c];
    assert forall n :: 0 <= n < |s.written| ==> calls[s.written[n]] == s.calls[s.written[n]];
  }

  lemma BeginKeeps(s: State, m: string, params: string)
    requires Inv(s)
    ensures Inv(Next(s, Begin(m, params)).value)
  {
    var n := (s.sequence + 1) % WRAP;
    var c := Call(Request(VERSION, Dec(n), m, params), Sending);
    BeginNumbers(s, c);
    NewCallKeeps(s, c, n);
  }

  /** A call changes phase; its request stays. */
  lemma PhaseKeeps(s: State, i: nat, phase: Phase)
    requires Inv(s) && i < |s.calls| && (phase.Sending? ==> s.calls[i].phase.Sending?)
    requires ResultOk(s.answered, s.calls[i].(phase := phase))
    ensures Inv(SetPhase(s, i, phase))
  {
    var s' := SetPhase(s, i, phase);
    assert forall j :: 0 <= j < |s.calls| ==> s'.calls[j].request == s.calls[j].request;
    assert forall n :: 0 <= n < |s.written| ==> !s.calls[s.written[n]].phase.Sending?;
    forall c | c in s'.calls ensures ResultOk(s'.answered, c) {
      assert c in s.calls || c == s.calls[i].(phase := phase);
    }
  }

  lemma SendKeeps(s: State, i: nat)
    requires Inv(s) && Next(s, Send(i)).Some?
    ensures Inv(Next(s, Send(i)).value)
  {
    PhaseKeeps(s, i, Awaiting);
    assert forall n :: 0 <= n < |s.written| ==> s.written[n] != i;
    WriteKeeps(SetPhase(s, i, Awaiting), i);
  }

  lemma WriteKeeps(s: State, i: nat)
    requires Inv(s) && i < |s.calls| && !s.calls[i].phase.Sending? && i !in s.written
    ensures Inv(s.(written := s.written + [i], toServer := s.toServer + [s.calls[i].request]))
  {
    var s' := s.(written := s.written + [i], toServer := s.toServer + [s.calls[i].request]);
    assert forall n :: 0 <= n < |s.written| ==> s'.written[n] == s.written[n];
  }

  lemma ServeKeeps(s: State, o: Outcome)
    requires Inv(s) && Next(s, Serve(o)).Some?
    ensures Inv(Next(s, Serve(o)).value)
  {
    var s' := Next(s, Serve(o)).value;
    ServeInOrder(s, o);
    Grows(s.answered, s'.answered, s.calls, s.toClient);
  }

  lemma ServeInOrder(s: State, o: Outcome)
    requires InOrder(s) && Next(s, Serve(o)).Some?
    ensures InOrder(Next(s, Serve(o)).value)
  {
    var s' := Next(s, Serve(o)).value;
    assert s.toServer[0] == s.calls[s.written[|s.answered| + 0]].request;
    forall n | 0 <= n < |s'.toServer| ensures s'.toServer[n] == s'.calls[s'.written[|s'.answered| + n]].request {
      assert s'.toServer[n] == s.toServer[n + 1];
    }
  }

  lemma Grows(answered: seq<Response>, answered': seq<Response>, calls: seq<Call>, frames: seq<Frame>)
    requires forall r :: r in answered ==> r in answered'
    ensures (forall c :: c in calls ==> ResultOk(answered, c)) ==> forall c :: c in calls ==> ResultOk(answered', c)
    ensures FromServer(answered, frames) ==> FromServer(answered', frames)
  {
    if forall c :: c in calls ==> ResultOk(answered, c) {
      forall c | c in calls ensures ResultOk(answered', c) {
        assert ResultOk(answered, c);
      }
    }
  }

  lemma LoseKeeps(answered: seq<Response>, frames: seq<Frame>, lost: nat, torn: bool)
    requires FromServer(answered, frames)
    ensures FromServer(answered, Lose(frames, lost, torn))
  {
    var rest := if lost <= |frames| then frames[lost..] else [];
    assert forall f :: f in rest ==> f in frames;
    if torn && rest != [] { assert forall f :: f in rest[1..] ==> f in rest; }
  }

  lemma FramesKeep(s: State, frames: seq<Frame>, received: nat, abandoned: nat)
    requires Inv(s) && FromServer(s.answered, frames)
    ensures Inv(WithFrames(s, frames, received, abandoned))
  {
  }

  lemma EndKeeps(s: State, i: nat, result: CallResult, frames: seq<Frame>, received: nat, abandoned: nat)
    requires Inv(s) && i < |s.calls| && FromServer(s.answered, frames)
        && ResultOk(s.answered, s.calls[i].(phase := Done(result)))
    ensures Inv(WithFrames(SetPhase(s, i, Done(result)), frames, received, abandoned))
  {
    PhaseKeeps(s, i, Done(result));
    FramesKeep(SetPhase(s, i, Done(result)), frames, received, abandoned);
  }

  lemma TakeKeeps(s: State, i: nat, r: Response, frames: seq<Frame>)
    requires Inv(s) && i < |s.calls| && r in s.answered && FromServer(s.answered, frames)
    ensures Inv(Take(s, i, r, frames))
  {
    JudgedOk(s.answered, s.calls[i], r);
    EndKeeps(s, i, Judge(s.calls[i].request, r), frames, s.received + 1, s.abandoned);
  }

  lemma GiveUpKeeps(s: State, i: nat, frames: seq<Frame>)
    requires Inv(s) && i < |s.calls| && FromServer(s.answered, frames)
    ensures Inv(GiveUp(s, i, frames))
  {
    EndKeeps(s, i, ReadFailed, frames, s.received, s.abandoned + 1);
  }

  lemma MisreadKeeps(s: State, i: nat, frames: seq<Frame>)
    requires Inv(s) && i < |s.calls| && FromServer(s.answered, frames)
    ensures Inv(Misread(s, i, frames))
  {
    EndKeeps(s, i, Mismatch, frames, s.received, s.abandoned);
  }

  lemma JudgedOk(answered: seq<Response>, c: Call, r: Response)
    requires r in answered
    ensures ResultOk(answered, c.(phase := Done(Judge(c.request, r))))
  {
  }

  lemma HeadFromServer(answered: seq<Response>, frames: seq<Frame>)
    requires FromServer(answered, frames) && frames != [] && frames[0].Whole?
    ensures frames[0].response in answered && FromServer(answered, frames[1..])
  {
    assert frames[0] in frames;
    assert forall f :: f in frames[1..] ==> f in frames;
  }

  lemma LinkKeeps(s: State, broken: bool, open: bool)
    requires Inv(s)
    ensures Inv(s.(broken := broken, open := open))
  {
  }

  lemma StopKeeps(s: State, torn: bool)
    requires Inv(s)
    ensures Inv(Shut(s, torn))
  {
    var frames := s.toClient + if torn then [Head] else [];
    FramesKeep(s, frames, s.received, s.abandoned);
    LinkKeeps(WithFrames(s, frames, s.received, s.abandoned), s.broken, false);
  }

  lemma SendFailKeeps(s: State, i: nat)
    requires Inv(s) && i < |s.calls|
    ensures Inv(Break(s, i))
  {
    PhaseKeeps(s, i, Done(SendFailed));
    LinkKeeps(SetPhase(s, i, Done(SendFailed)), true, s.open);
  }

  lemma NextKeeps(s: State, step: Step)
    requires Inv(s) && Next(s, step).Some?
    ensures Inv(Next(s, step).value)
  {
    match step
    case Begin(m, params) => BeginKeeps(s, m, params);
    case Send(i) => SendKeeps(s, i);
    case SendFail(i) => SendFailKeeps(s, i);
    case Serve(o) => ServeKeeps(s, o);
    case Stop(torn) => StopKeeps(s, torn);
    case Receive(i, lost, torn) =>
      HeadFromServer(s.answered, s.toClient);
      LoseKeeps(s.answered, s.toClient[1..], lost, torn);
      TakeKeeps(s, i, s.toClient[0].response, Lose(s.toClient[1..], lost, torn));
    case ReceiveFail(i, lost, torn) =>
      LoseKeeps(s.answered, s.toClient, lost, torn);
      GiveUpKeeps(s, i, Lose(s.toClient, lost, torn));
    case Garble(i, lost, torn) =>
      LoseKeeps(s.answered, s.toClient, lost, torn);
      MisreadKeeps(s, i, Lose(s.toClient, lost, torn));
  }

  lemma {:induction false} RunKeeps(steps: seq<Step>)
    requires Run(steps).Some?
    ensures Inv(Run(steps).value)
    decreases |steps|
  {
    if steps != [] {
      RunKeeps(steps[..|steps| - 1]);
      NextKeeps(Run(steps[..|steps| - 1]).value, steps[|steps| - 1]);
    }
  }

  // ---- Correlation ---------------------------------------------------------------------------------

  /** The `n`-th answer is the answer to call `i`. */
  ghost predicate Answers(s: State, n: nat, i: nat, r: Response) {
    && n < |s.answered| && |s.outcomes| == |s.answered| <= |s.written| && i < |s.calls|
    && s.written[n] == i && s.answered[n] == r && IsReply(r, s.calls[i].request, s.outcomes[n])
  }

  /** What the caller is given says what became of the request: the JSON it returned, or
      the message of its failure. */
  predicate Reports(result: CallResult, o: Outcome) {
    match result
    case Success(r) => o.Returned? && r.result == Some(o.json)
    case RouterError(r) =>
      || (o.Errored? && r.error == Some(ApiError("request_failed", o.message)))
      || (o.Unencodable? && r.error == Some(ApiError("internal", "cannot encode response")))
    case _ => true
  }

  /** The response a call took, if it was accepted. */
  function Accepted(c: Call): Option<Response> {
    match c.phase
    case Done(Success(r)) => Some(r)
    case Done(RouterError(r)) => Some(r)
    case _ => None
  }

  lemma AcceptedIsOwn(s: State, i: nat) returns (n: nat)
    requires Inv(s) && |s.calls| <= WRAP && i < |s.calls| && Accepted(s.calls[i]).Some?
    ensures Answers(s, n, i, Accepted(s.calls[i]).value)
    ensures Reports(s.calls[i].phase.result, s.outcomes[n])
  {
    var c := s.calls[i];
    assert c in s.calls && ResultOk(s.answered, c);
    var r := Accepted(c).value;
    n :| 0 <= n < |s.answered| && s.answered[n] == r;
    var j := s.written[n];
    assert j < |s.calls|;
    DispatchReplies(s.calls[j].request, s.outcomes[n], r);
    assert IdAt(i) == IdAt(j);
    IdsDiffer(i, j);
    SmallMod(i);
    SmallMod(j);
    AcceptedReports(s.calls[i], s.outcomes[n]);
  }

  lemma AcceptedReports(c: Call, o: Outcome)
    requires Accepted(c).Some? && Tells(Accepted(c).value) == Carried(o)
    requires c.phase.result.Success? <==> Accepted(c).value.error.None?
    ensures Reports(c.phase.result, o)
  {
  }

  lemma SmallMod(i: nat)
    requires i < WRAP
    ensures i % WRAP == i
  {
  }

  /** In every run, whatever times out, overlaps or is lost: a call that returns a
      result or a router error holds the server's answer to its own request, and so
      what its own request came to, as long as no more than 2^64 calls have been made. */
  lemma AnswersAreOwn(steps: seq<Step>, i: nat)
    requires Run(steps).Some? && |Run(steps).value.calls| <= 0x1_0000_0000_0000_0000
    requires i < |Run(steps).value.calls| && Accepted(Run(steps).value.calls[i]).Some?
    ensures var s := Run(steps).value;
            exists n: nat ::
              Answers(s, n, i, Accepted(s.calls[i]).value) && Reports(s.calls[i].phase.result, s.outcomes[n])
  {
    RunKeeps(steps);
    var n := AcceptedIsOwn(Run(steps).value, i);
  }

  /** In every run the server has answered a prefix of the requests written, in
      order, each by the response that tells its outcome. */
  lemma AnswersAreInOrder(steps: seq<Step>, n: nat)
    requires Run(steps).Some? && n < |Run(steps).value.answered|
    ensures var s := Run(steps).value;
            |s.answered| == |s.outcomes| <= |s.written| && s.written[n] < |s.calls|
                && Answers(s, n, s.written[n], s.answered[n])
  {
    RunKeeps(steps);
    var s := Run(steps).value;
    DispatchReplies(s.calls[s.written[n]].request, s.outcomes[n], s.answered[n]);
  }

  // ---- Lockstep ---------------------------------------------------------------------------------------

  predicate Idle(s: State) {
    s.calls == [] || s.calls[|s.calls| - 1].phase.Done?
  }

  predicate Pending(s: State) {
    s.calls != [] && s.calls[|s.calls| - 1].phase.Awaiting?
  }

  /** One call at a time, and no decoder takes more than its response. */
  predicate Calm(s: State, step: Step) {
    && (step.Begin? ==> Idle(s))
    && (step.Receive? || step.ReceiveFail? ==> step.lost == 0 && !step.torn)
  }

  function Wholes(answered: seq<Response>): (frames: seq<Frame>)
    ensures |frames| == |answered|
  {
    seq(|answered|, n requires 0 <= n < |answered| => Whole(answered[n]))
  }

  ghost predicate Queued(answered: seq<Response>, received: nat, toClient: seq<Frame>) {
    && received <= |answered|
    && (toClient == Wholes(answered[received..]) || toClient == Wholes(answered[received..]) + [Head])
  }

  /** The responses not yet taken are queued; those taken and those given up
      account for every request written but the pending one. */
  ghost predicate Lock(s: State) {
    && Queued(s.answered, s.received, s.toClient)
    && (!s.open || s.toClient == Wholes(s.answered[s.received..]))
    && (forall i :: 0 <= i < |s.calls| - 1 ==> s.calls[i].phase.Done?)
    && |s.written| == s.received + s.abandoned + (if Pending(s) then 1 else 0)
    && (Pending(s) ==> s.written[|s.written| - 1] == |s.calls| - 1)
  }

  lemma LockReceive(s: State, i: nat)
    requires Inv(s) && Lock(s) && Next(s, Receive(i, 0, false)).Some?
    ensures Lock(Next(s, Receive(i, 0, false)).value)
    ensures i == |s.calls| - 1 && s.received < |s.answered| && s.toClient[0] == Whole(s.answered[s.received])
  {
    assert Lose(s.toClient[1..], 0, false) == s.toClient[1..];
    var rest := s.answered[s.received..];
    assert |Wholes(rest)| == |rest|;
    assert s.answered[s.received + 1..] == rest[1..];
    assert Wholes(rest)[1..] == Wholes(rest[1..]);
    assert (Wholes(rest) + [Head])[1..] == Wholes(rest[1..]) + [Head];
  }

  lemma LockServe(s: State, o: Outcome)
    requires Inv(s) && Lock(s) && Next(s, Serve(o)).Some?
    ensures Lock(Next(s, Serve(o)).value)
  {
    var s' := Next(s, Serve(o)).value;
    var rest, last := s.answered[s.received..], s'.answered[|s.answered|];
    assert s'.answered[s.received..] == rest + [last];
    assert Wholes(rest + [last]) == Wholes(rest) + [Whole(last)];
  }

  lemma LockBegin(s: State, m: string, params: string)
    requires Lock(s) && Idle(s)
    ensures Lock(Next(s, Begin(m, params)).value)
  {
  }

  lemma LockSend(s: State, i: nat)
    requires Lock(s) && Next(s, Send(i)).Some?
    ensures Lock(Next(s, Send(i)).value)
  {
  }

  lemma LockBreak(s: State, i: nat)
    requires Lock(s) && In(s, i, Sending)
    ensures Lock(Break(s, i))
  {
  }

  lemma LockShut(s: State, torn: bool)
    requires Lock(s) && s.open
    ensures Lock(Shut(s, torn))
  {
    assert torn || s.toClient + [] == s.toClient;
  }

  lemma LockGiveUp(s: State, i: nat)
    requires Lock(s) && In(s, i, Awaiting)
    ensures Lock(GiveUp(s, i, s.toClient))
  {
  }

  lemma LockStep(s: State, step: Step)
    requires Inv(s) && Lock(s) && Calm(s, step) && Next(s, step).Some?
    ensures Lock(Next(s, step).value)
  {
    match step
    case Begin(m, params) => LockBegin(s, m, params);
    case Send(i) => LockSend(s, i);
    case SendFail(i) => LockBreak(s, i);
    case Serve(o) => LockServe(s, o);
    case Stop(torn) => LockShut(s, torn);
    case Receive(i, lost, torn) => LockReceive(s, i);
    case ReceiveFail(i, lost, torn) =>
      assert Lose(s.toClient, 0, false) == s.toClient;
      LockGiveUp(s, i);
    case Garble(i, lost, torn) => assert false;
  }

  ghost predicate CalmRun(steps: seq<Step>) {
    Run(steps).Some? && forall n :: 0 <= n < |steps| ==> Run(steps[..n]).Some? && Calm(Run(steps[..n]).value, steps[n])
  }

  lemma {:induction false} RunLocks(steps: seq<Step>)
    requires CalmRun(steps)
    ensures Lock(Run(steps).value)
    decreases |steps|
  {
    if steps != [] {
      var init, step := steps[..|steps| - 1], steps[|steps| - 1];
      assert forall n :: 0 <= n < |init| ==> init[..n] == steps[..n] && init[n] == steps[n];
      RunLocks(init);
      RunKeeps(init);
      LockStep(Run(init).value, step);
    } else {
      assert Wholes([]) == [];
    }
  }

  /** The response at hand belongs to the request written as many places earlier
      as calls have given up. */
  lemma HeadIsFor(s: State, i: nat)
    requires Inv(s) && Lock(s) && Next(s, Receive(i, 0, false)).Some?
    ensures s.received + s.abandoned < |s.written| && s.written[s.received + s.abandoned] == i
    ensures s.toClient[0].Whole? && s.toClient[0].response.id == IdAt(s.written[s.received])
  {
    LockReceive(s, i);
    DispatchEchoes(s.calls[s.written[s.received]].request, s.outcomes[s.received]);
  }

  lemma MismatchIff(s: State, i: nat)
    requires Inv(s) && Lock(s) && |s.calls| <= WRAP && Next(s, Receive(i, 0, false)).Some?
    ensures Judge(s.calls[i].request, s.toClient[0].response).Mismatch? <==> s.abandoned > 0
  {
    HeadIsFor(s, i);
    var j := s.written[s.received];
    SmallMod(i);
    SmallMod(j);
    IdsDiffer(i, j);
  }

  /** In a calm run a call that finds a response mismatches exactly when some
      earlier call has given up waiting: one abandoned response puts the
      connection out of step for good. */
  lemma MismatchIffAbandoned(steps: seq<Step>, i: nat)
    requires CalmRun(steps) && |Run(steps).value.calls| <= WRAP && Next(Run(steps).value, Receive(i, 0, false)).Some?
    ensures Next(Run(steps).value, Receive(i, 0, false)).value.calls[i].phase == Done(Mismatch)
        <==> Run(steps).value.abandoned > 0
  {
    RunLocks(steps);
    RunKeeps(steps);
    MismatchIff(Run(steps).value, i);
  }

  ghost predicate Correlated(calls: seq<Call>) {
    forall c :: c in calls ==> c.phase != Done(Mismatch)
  }

  lemma PhaseCorrelated(calls: seq<Call>, i: nat, phase: Phase)
    requires Correlated(calls) && i < |calls| && phase != Done(Mismatch)
    ensures Correlated(calls[i := calls[i].(phase := phase)])
  {
  }

  /** One call at a time; decoders may read ahead as they like. */
  ghost predicate SequentialRun(steps: seq<Step>) {
    Run(steps).Some? && forall n :: 0 <= n < |steps| ==>
      Run(steps[..n]).Some? && (steps[n].Begin? ==> Idle(Run(steps[..n]).value))
  }

  /** As long as nothing has been abandoned, no more than the answer to the pending
      call is ever on its way. */
  ghost predicate Steady(s: State) {
    && (forall i :: 0 <= i < |s.calls| - 1 ==> s.calls[i].phase.Done?)
    && |s.written| == s.received + (if Pending(s) then 1 else 0)
    && (Pending(s) ==> s.written[|s.written| - 1] == |s.calls| - 1)
    && Expected(s.answered, s.received, s.toClient)
    && Correlated(s.calls)
  }

  predicate Expected(answered: seq<Response>, received: nat, toClient: seq<Frame>) {
    || (|answered| == received && (toClient == [] || toClient == [Head]))
    || (|answered| == received + 1 && toClient == [Whole(answered[received])])
  }

  /** Steady until something is abandoned; a response cut short ends the server. */
  ghost predicate SteadyUnlessAbandoned(s: State) {
    s.abandoned == 0 ==> SteadyOpen(s)
  }

  ghost predicate SteadyOpen(s: State) {
    Steady(s) && (s.open ==> s.toClient != [Head])
  }

  lemma SteadyPhase(s: State, i: nat, phase: Phase)
    requires Steady(s) && i < |s.calls| && s.calls[i].phase.Sending? && phase.Done? && phase != Done(Mismatch)
    ensures Steady(SetPhase(s, i, phase))
  {
    PhaseCorrelated(s.calls, i, phase);
  }

  lemma SteadyBegin(s: State, m: string, params: string)
    requires SteadyOpen(s) && Idle(s)
    ensures SteadyOpen(Next(s, Begin(m, params)).value)
  {
  }

  lemma SteadySend(s: State, i: nat)
    requires SteadyOpen(s) && Next(s, Send(i)).Some?
    ensures SteadyOpen(Next(s, Send(i)).value)
  {
    PhaseCorrelated(s.calls, i, Awaiting);
  }

  lemma SteadySendFail(s: State, i: nat)
    requires SteadyOpen(s) && Next(s, SendFail(i)).Some?
    ensures SteadyOpen(Next(s, SendFail(i)).value)
  {
    SteadyPhase(s, i, Done(SendFailed));
  }

  lemma SteadyServe(s: State, o: Outcome)
    requires Inv(s) && SteadyOpen(s) && Next(s, Serve(o)).Some?
    ensures SteadyOpen(Next(s, Serve(o)).value)
  {
  }

  /** The pending call finds its own answer. */
  lemma SteadyReceive(s: State, i: nat, lost: nat, torn: bool)
    requires Inv(s) && SteadyOpen(s) && Next(s, Receive(i, lost, torn)).Some?
    ensures SteadyOpen(Next(s, Receive(i, lost, torn)).value)
  {
    var r := s.toClient[0].response;
    assert r == s.answered[s.received] == Dispatch(s.calls[i].request, s.outcomes[s.received]);
    DispatchEchoes(s.calls[i].request, s.outcomes[s.received]);
    PhaseCorrelated(s.calls, i, Done(Judge(s.calls[i].request, r)));
    assert s.toClient[1..] == [] && Lose([], lost, torn) == [];
    SteadyTake(s, i, r);
  }

  lemma SteadyTake(s: State, i: nat, r: Response)
    requires Inv(s) && Steady(s) && In(s, i, Awaiting) && |s.answered| == s.received + 1
    requires Correlated(Take(s, i, r, []).calls)
    ensures SteadyOpen(Take(s, i, r, []))
  {
  }

  lemma SteadyShut(s: State, torn: bool)
    requires Inv(s) && SteadyOpen(s) && s.open && (torn ==> s.toServer != [])
    ensures SteadyOpen(Shut(s, torn))
  {
    assert s.toClient + [] == s.toClient;
  }

  lemma SteadyStep(s: State, step: Step)
    requires Inv(s) && SteadyUnlessAbandoned(s) && (step.Begin? ==> Idle(s)) && Next(s, step).Some?
    ensures SteadyUnlessAbandoned(Next(s, step).value)
  {
    if s.abandoned == 0 {
      match step
      case Begin(m, params) => SteadyBegin(s, m, params);
      case Send(i) => SteadySend(s, i);
      case SendFail(i) => SteadySendFail(s, i);
      case Serve(o) => SteadyServe(s, o);
      case Stop(torn) => SteadyShut(s, torn);
      case Receive(i, lost, torn) => SteadyReceive(s, i, lost, torn);
      case ReceiveFail(_, _, _) =>
      case Garble(_, _, _) => assert false;
    }
  }

  /** In a sequential run, however far decoders read ahead: as long as no response is
      abandoned, no call fails on correlation. */
  lemma {:induction false} LockstepMatches(steps: seq<Step>)
    requires SequentialRun(steps)
    ensures Run(steps).value.abandoned == 0 ==> Correlated(Run(steps).value.calls)
    ensures SteadyUnlessAbandoned(Run(steps).value)
    decreases |steps|
  {
    if steps != [] {
      var init, step := steps[..|steps| - 1], steps[|steps| - 1];
      assert forall n :: 0 <= n < |init| ==> init[..n] == steps[..n] && init[n] == steps[n];
      LockstepMatches(init);
      RunKeeps(init);
      SteadyStep(Run(init).value, step);
    }
  }
}
