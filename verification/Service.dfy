/** The life of a server: listeners, one handler a connection, and the sweep that
    closes connections on cancellation. */
module Service {
  import opened Wrappers

  // ---- State ---------------------------------------------------------------------------------

  /** Where a handler is: before `Store`, between `Store` and `Delete`, between
      `Delete` and `Close`, before `Done`, and after it. */
  datatype Phase = Spawned | Tracked | Untracked | Closing | Exited

  datatype Connection = Connection(owner: nat, phase: Phase, closed: bool)

  datatype Loop = Accepting | WaitingForHandlers | Returned

  /** The goroutine that waits for cancellation: `must` are the connections found
      in the map when the sweep began. */
  datatype Sweep = Armed | ListenerClosed | Sweeping(must: set<nat>, visited: set<nat>) | Swept(must: set<nat>)

  /** One call of `Serve`; several share the server and its map. */
  datatype Serve = Serve(loop: Loop, waiting: nat, sweep: Sweep)

  datatype State = State(serves: seq<Serve>, connections: seq<Connection>, tracked: set<nat>, cancelled: bool)

  datatype Step =
    | Start
    | Cancel
    | Accept(k: nat)
    | AcceptFails(k: nat)
    | Return(k: nat)
    | CloseListener(k: nat)
    | BeginSweep(k: nat)
    | Visit(k: nat, c: nat)
    | EndSweep(k: nat)
    | Register(c: nat)
    | Unregister(c: nat)
    | Close(c: nat)
    | Exit(c: nat)

  const IDLE := State([], [], {}, false)

  // ---- Steps -----------------------------------------------------------------------------------

  function SetServe(s: State, k: nat, v: Serve): State
    requires k < |s.serves|
  {
    s.(serves := s.serves[k := v])
  }

  function SetPhase(s: State, c: nat, phase: Phase): State
    requires c < |s.connections|
  {
    s.(connections := s.connections[c := s.connections[c].(phase := phase)])
  }

  function SetClosed(s: State, c: nat): State
    requires c < |s.connections|
  {
    s.(connections := s.connections[c := s.connections[c].(closed := true)])
  }

  /** Every connection found at the start has been visited, unless it has left
      the map by now. */
  predicate SweepMayEnd(s: State, sweep: Sweep)
    requires sweep.Sweeping?
  {
    forall c :: c in sweep.must ==> c in sweep.visited || c !in s.tracked
  }

  function ServeStep(s: State, step: Step, k: nat): Option<State>
    requires k < |s.serves|
  {
    var v := s.serves[k];
    match step
    case Accept(_) =>
      if v.loop.Accepting? && v.sweep.Armed?
      then Some(SetServe(s, k, v.(waiting := v.waiting + 1)).(
                  connections := s.connections + [Connection(k, Spawned, false)]))
      else None
    case AcceptFails(_) => if v.loop.Accepting? then Some(SetServe(s, k, v.(loop := WaitingForHandlers))) else None
    case Return(_) =>
      if v.loop.WaitingForHandlers? && v.waiting == 0 then Some(SetServe(s, k, v.(loop := Returned))) else None
    case CloseListener(_) =>
      if s.cancelled && v.sweep.Armed? then Some(SetServe(s, k, v.(sweep := ListenerClosed))) else None
    case BeginSweep(_) =>
      if v.sweep.ListenerClosed? then Some(SetServe(s, k, v.(sweep := Sweeping(s.tracked, {})))) else None
    case Visit(_, c) =>
      if v.sweep.Sweeping? && c in s.tracked && c !in v.sweep.visited && c < |s.connections|
      then Some(SetClosed(SetServe(s, k, v.(sweep := Sweeping(v.sweep.must, v.sweep.visited + {c}))), c))
      else None
    case EndSweep(_) =>
      if v.sweep.Sweeping? && SweepMayEnd(s, v.sweep)
      then Some(SetServe(s, k, v.(sweep := Swept(v.sweep.must))))
      else None
    case _ => None
  }

  function HandlerStep(s: State, step: Step, c: nat): Option<State>
    requires c < |s.connections|
  {
    var phase := s.connections[c].phase;
    match step
    case Register(_) => if phase.Spawned? then Some(SetPhase(s, c, Tracked).(tracked := s.tracked + {c})) else None
    case Unregister(_) => if phase.Tracked? then Some(SetPhase(s, c, Untracked).(tracked := s.tracked - {c})) else None
    case Close(_) => if phase.Untracked? then Some(SetClosed(SetPhase(s, c, Closing), c)) else None
    case Exit(_) =>
      var k := s.connections[c].owner;
      if phase.Closing? && k < |s.serves| && s.serves[k].waiting > 0
      then Some(SetServe(SetPhase(s, c, Exited), k, s.serves[k].(waiting := s.serves[k].waiting - 1)))
      else None
    case _ => None
  }

  function Next(s: State, step: Step): Option<State> {
    match step
    case Start => Some(s.(serves := s.serves + [Serve(Accepting, 0, Armed)]))
    case Cancel => Some(s.(cancelled := true))
    case Register(c) => if c < |s.connections| then HandlerStep(s, step, c) else None
    case Unregister(c) => if c < |s.connections| then HandlerStep(s, step, c) else None
    case Close(c) => if c < |s.connections| then HandlerStep(s, step, c) else None
    case Exit(c) => if c < |s.connections| then HandlerStep(s, step, c) else None
    case _ => if step.k < |s.serves| then ServeStep(s, step, step.k) else None
  }

  function Run(steps: seq<Step>): Option<State>
    decreases |steps|
  {
    if steps == [] then Some(IDLE)
    else match Run(steps[..|steps| - 1]) case None => None case Some(s) => Next(s, steps[|steps| - 1])
  }

  // ---- Invariant ---------------------------------------------------------------------------------

  /** The handlers of one `Serve` that have not called `Done`. */
  function Running(connections: seq<Connection>, k: nat): nat
    decreases |connections|
  {
    if connections == [] then 0
    else
      var last := connections[|connections| - 1];
      Running(connections[..|connections| - 1], k) + if last.owner == k && !last.phase.Exited? then 1 else 0
  }

  /** The map holds exactly the connections whose handler is between `Store` and
      `Delete`. */
  ghost predicate TrackedIsExact(s: State) {
    forall c :: c in s.tracked <==> 0 <= c < |s.connections| && s.connections[c].phase.Tracked?
  }

  ghost predicate HandlersClose(s: State) {
    forall c :: 0 <= c < |s.connections| ==>
      s.connections[c].owner < |s.serves|
          && (s.connections[c].phase.Closing? || s.connections[c].phase.Exited? ==> s.connections[c].closed)
  }

  /** The wait group counts the running handlers; none is left once `Serve` has
      returned. */
  ghost predicate Counted(s: State) {
    forall k :: 0 <= k < |s.serves| ==>
      s.serves[k].waiting == Running(s.connections, k) && (s.serves[k].loop.Returned? ==> s.serves[k].waiting == 0)
  }

  /** Past `Spawned`, and closed unless its handler is about to close it. */
  predicate Left(s: State, c: nat) {
    c < |s.connections| && (s.connections[c].closed || s.connections[c].phase.Untracked?)
  }

  ghost predicate SweepOk(s: State, sweep: Sweep) {
    match sweep
    case Sweeping(must, visited) =>
      && (forall c :: c in visited ==> 0 <= c < |s.connections| && s.connections[c].closed)
      && (forall c :: c in must ==> 0 <= c < |s.connections| && !s.connections[c].phase.Spawned?)
    case Swept(must) => forall c :: c in must ==> Left(s, c)
    case _ => true
  }

  ghost predicate Inv(s: State) {
    && TrackedIsExact(s) && HandlersClose(s) && Counted(s)
    && forall k :: 0 <= k < |s.serves| ==> SweepOk(s, s.serves[k].sweep)
  }

  // ---- Counting ---------------------------------------------------------------------------------------

  function Counts(x: Connection, k: nat): nat {
    if x.owner == k && !x.phase.Exited? then 1 else 0
  }

  lemma {:induction false} RunningUpdate(connections: seq<Connection>, c: nat, x: Connection, k: nat)
    requires c < |connections|
    ensures Running(connections[c := x], k) + Counts(connections[c], k) == Running(connections, k) + Counts(x, k)
    decreases |connections|
  {
    var n := |connections| - 1;
    if c == n {
      assert connections[c := x][..n] == connections[..n];
    } else {
      assert connections[c := x][..n] == connections[..n][c := x];
      RunningUpdate(connections[..n], c, x, k);
    }
  }

  lemma RunningAppend(connections: seq<Connection>, x: Connection, k: nat)
    ensures Running(connections + [x], k) == Running(connections, k) + Counts(x, k)
  {
    assert (connections + [x])[..|connections|] == connections;
  }

  lemma {:induction false} NoneRunning(connections: seq<Connection>, c: nat, k: nat)
    requires Running(connections, k) == 0 && c < |connections| && connections[c].owner == k
    ensures connections[c].phase.Exited?
    decreases |connections|
  {
    var n := |connections| - 1;
    if c < n { NoneRunning(connections[..n], c, k); }
  }

  lemma {:induction false} SomeRunning(connections: seq<Connection>, c: nat, k: nat)
    requires c < |connections| && connections[c].owner == k && !connections[c].phase.Exited?
    ensures Running(connections, k) > 0
    decreases |connections|
  {
    var n := |connections| - 1;
    if c < n { SomeRunning(connections[..n], c, k); }
  }

  lemma {:induction false} RunningOf(connections: seq<Connection>, serves: nat, k: nat)
    requires forall c :: 0 <= c < |connections| ==> connections[c].owner < serves
    requires k >= serves
    ensures Running(connections, k) == 0
    decreases |connections|
  {
    if connections != [] { RunningOf(connections[..|connections| - 1], serves, k); }
  }

  // ---- Every step keeps the invariant ------------------------------------------------------------------

  /** Connections only move onward. */
  ghost predicate Onward(s: State, s': State) {
    forall c :: 0 <= c < |s.connections| ==>
      && c < |s'.connections|
      && (s.connections[c].closed ==> s'.connections[c].closed)
      && (!s.connections[c].phase.Spawned? ==> !s'.connections[c].phase.Spawned?)
      && (Left(s, c) ==> Left(s', c))
  }

  lemma SweepsStay(s: State, s': State)
    requires Onward(s, s') && |s'.serves| == |s.serves|
    requires forall k :: 0 <= k < |s.serves| ==> SweepOk(s, s.serves[k].sweep)
    ensures forall k :: 0 <= k < |s.serves| ==> SweepOk(s', s.serves[k].sweep)
  {
    forall k | 0 <= k < |s.serves| ensures SweepOk(s', s.serves[k].sweep) {
      assert SweepOk(s, s.serves[k].sweep);
    }
  }

  lemma PhaseOnward(s: State, c: nat, phase: Phase)
    requires c < |s.connections| && !phase.Spawned?
        && (s.connections[c].phase.Untracked? ==> phase.Untracked? || s.connections[c].closed)
    ensures Onward(s, SetPhase(s, c, phase))
  {
  }

  lemma StartKeeps(s: State)
    requires Inv(s)
    ensures Inv(Next(s, Start).value)
  {
    var s' := Next(s, Start).value;
    RunningOf(s.connections, |s.serves|, |s.serves|);
    forall k | 0 <= k < |s'.serves| ensures SweepOk(s', s'.serves[k].sweep) {
      if k < |s.serves| { assert SweepOk(s, s.serves[k].sweep); }
    }
  }

  lemma AcceptCounts(s: State, k: nat)
    requires Inv(s) && Next(s, Accept(k)).Some?
    ensures Counted(Next(s, Accept(k)).value)
  {
    var s' := Next(s, Accept(k)).value;
    forall j | 0 <= j < |s.serves|
      ensures Running(s'.connections, j) == Running(s.connections, j) + if j == k then 1 else 0
    {
      RunningAppend(s.connections, Connection(k, Spawned, false), j);
    }
  }

  lemma AppendKeepsSweeps(s: State, s': State, c: Connection)
    requires s'.connections == s.connections + [c] && |s'.serves| == |s.serves|
    requires forall j :: 0 <= j < |s.serves| ==> s'.serves[j].sweep == s.serves[j].sweep
    requires forall j :: 0 <= j < |s.serves| ==> SweepOk(s, s.serves[j].sweep)
    ensures forall j :: 0 <= j < |s'.serves| ==> SweepOk(s', s'.serves[j].sweep)
  {
    forall j | 0 <= j < |s.serves| ensures SweepOk(s', s'.serves[j].sweep) {
      assert SweepOk(s, s.serves[j].sweep);
    }
  }

  lemma AcceptKeeps(s: State, k: nat)
    requires Inv(s) && Next(s, Accept(k)).Some?
    ensures Inv(Next(s, Accept(k)).value)
  {
    AcceptCounts(s, k);
    AppendKeepsSweeps(s, Next(s, Accept(k)).value, Connection(k, Spawned, false));
  }

  /** A step of one `Serve` that touches no connection. */
  lemma LoopKeeps(s: State, k: nat, v: Serve)
    requires Inv(s) && k < |s.serves| && v.waiting == s.serves[k].waiting && (v.loop.Returned? ==> v.waiting == 0)
    requires SweepOk(s, v.sweep)
    ensures Inv(SetServe(s, k, v))
  {
    var s' := SetServe(s, k, v);
    forall j | 0 <= j < |s'.serves| ensures SweepOk(s', s'.serves[j].sweep) {
      assert SweepOk(s, s.serves[j].sweep);
    }
  }

  lemma ServeStepKeeps(s: State, step: Step, k: nat)
    requires Inv(s) && k < |s.serves| && ServeStep(s, step, k).Some?
    requires !step.Accept? && !step.Visit?
    ensures Inv(ServeStep(s, step, k).value)
  {
    var v := s.serves[k];
    assert SweepOk(s, v.sweep);
    match step
    case AcceptFails(_) => LoopKeeps(s, k, v.(loop := WaitingForHandlers));
    case Return(_) => LoopKeeps(s, k, v.(loop := Returned));
    case CloseListener(_) => LoopKeeps(s, k, v.(sweep := ListenerClosed));
    case BeginSweep(_) => LoopKeeps(s, k, v.(sweep := Sweeping(s.tracked, {})));
    case EndSweep(_) =>
      SweepLeavesNone(s, v.sweep);
      LoopKeeps(s, k, v.(sweep := Swept(v.sweep.must)));
  }

  /** What the end of a sweep means: every connection in the map at its start is
      closed, or its handler is between `Delete` and `Close`. */
  lemma SweepLeavesNone(s: State, sweep: Sweep)
    requires TrackedIsExact(s) && HandlersClose(s) && sweep.Sweeping? && SweepOk(s, sweep) && SweepMayEnd(s, sweep)
    ensures forall c :: c in sweep.must ==> Left(s, c)
  {
  }

  lemma VisitKeeps(s: State, k: nat, c: nat)
    requires Inv(s) && Next(s, Visit(k, c)).Some?
    ensures Inv(Next(s, Visit(k, c)).value)
  {
    var v := s.serves[k];
    var s1 := SetClosed(s, c);
    CloseKeeps(s, c);
    assert SweepOk(s1, v.sweep);
    LoopKeeps(s1, k, v.(sweep := Sweeping(v.sweep.must, v.sweep.visited + {c})));
  }

  lemma CloseKeeps(s: State, c: nat)
    requires Inv(s) && c < |s.connections|
    ensures Inv(SetClosed(s, c))
  {
    var s' := SetClosed(s, c);
    SweepsStay(s, s');
    forall k | 0 <= k < |s.serves| ensures Running(s'.connections, k) == Running(s.connections, k) {
      RunningUpdate(s.connections, c, s'.connections[c], k);
    }
  }

  /** A handler moves from one phase to a later one, short of its end. */
  lemma PhaseKeeps(s: State, c: nat, phase: Phase, tracked: set<nat>)
    requires Inv(s) && c < |s.connections| && !phase.Spawned? && !phase.Exited? && !s.connections[c].phase.Exited?
    requires phase.Closing? ==> s.connections[c].closed
    requires s.connections[c].phase.Untracked? ==> phase.Closing?
    requires tracked == if phase.Tracked? then s.tracked + {c} else s.tracked - {c}
    ensures Inv(SetPhase(s, c, phase).(tracked := tracked))
  {
    var s1, s' := SetPhase(s, c, phase), SetPhase(s, c, phase).(tracked := tracked);
    PhaseOnward(s, c, phase);
    SweepsStay(s, s1);
    forall k | 0 <= k < |s.serves| ensures SweepOk(s', s'.serves[k].sweep) {
      assert SweepOk(s1, s1.serves[k].sweep);
    }
    forall k | 0 <= k < |s.serves| ensures Running(s'.connections, k) == Running(s.connections, k) {
      RunningUpdate(s.connections, c, s'.connections[c], k);
    }
  }

  lemma HandlerCloseKeeps(s: State, c: nat)
    requires Inv(s) && Next(s, Close(c)).Some?
    ensures Inv(Next(s, Close(c)).value)
  {
    CloseKeeps(s, c);
    var s1 := SetClosed(s, c);
    PhaseKeeps(s1, c, Closing, s1.tracked - {c});
    assert s1.tracked - {c} == s.tracked;
    assert SetPhase(s1, c, Closing).connections == SetClosed(SetPhase(s, c, Closing), c).connections;
  }

  lemma ExitKeeps(s: State, c: nat)
    requires Inv(s) && Next(s, Exit(c)).Some?
    ensures Inv(Next(s, Exit(c)).value)
  {
    var s', k := Next(s, Exit(c)).value, s.connections[c].owner;
    PhaseOnward(s, c, Exited);
    SweepsStay(s, SetPhase(s, c, Exited));
    forall j | 0 <= j < |s.serves| ensures SweepOk(s', s'.serves[j].sweep) {
      assert SweepOk(SetPhase(s, c, Exited), s.serves[j].sweep);
    }
    forall j | 0 <= j < |s.serves|
      ensures Running(s'.connections, j) == Running(s.connections, j) - if j == k then 1 else 0
    {
      RunningUpdate(s.connections, c, s'.connections[c], j);
    }
  }

  lemma NextKeeps(s: State, step: Step)
    requires Inv(s) && Next(s, step).Some?
    ensures Inv(Next(s, step).value)
  {
    match step
    case Start => StartKeeps(s);
    case Cancel => CancelKeeps(s);
    case Accept(k) => AcceptKeeps(s, k);
    case Visit(k, c) => VisitKeeps(s, k, c);
    case Register(c) => PhaseKeeps(s, c, Tracked, s.tracked + {c});
    case Unregister(c) => PhaseKeeps(s, c, Untracked, s.tracked - {c});
    case Close(c) => HandlerCloseKeeps(s, c);
    case Exit(c) => ExitKeeps(s, c);
    case _ => ServeStepKeeps(s, step, step.k);
  }

  lemma CancelKeeps(s: State)
    requires Inv(s)
    ensures Inv(s.(cancelled := true))
  {
    var s' := s.(cancelled := true);
    assert Onward(s, s');
    SweepsStay(s, s');
  }

  lemma {:induction false} RunKeeps(steps: seq<Step>)
    requires Run(steps).Some?
    ensures Inv(Run(steps).value)
    decreases |steps|
  {
    if steps != [] {
      RunKeeps(steps[..|steps| - 1]);
      NextKeeps(Run(steps[..|steps| - 1]).value, steps[|steps| - 1]);
    }
  }

  // ---- What follows ---------------------------------------------------------------------------------------

  /** In every run the map holds exactly the connections between `Store` and `Delete`. */
  lemma MapIsExact(steps: seq<Step>, c: nat)
    requires Run(steps).Some?
    ensures var s := Run(steps).value; c in s.tracked <==> c < |s.connections| && s.connections[c].phase.Tracked?
  {
    RunKeeps(steps);
  }

  /** Once `Serve` has returned, every connection it accepted is closed and out of
      the map, and its handler is gone. */
  lemma ReturnedIsQuiet(steps: seq<Step>, k: nat, c: nat)
    requires Run(steps).Some?
    requires var s := Run(steps).value;
             k < |s.serves| && s.serves[k].loop.Returned? && c < |s.connections| && s.connections[c].owner == k
    ensures var s := Run(steps).value; s.connections[c].phase.Exited? && s.connections[c].closed && c !in s.tracked
  {
    RunKeeps(steps);
    NoneRunning(Run(steps).value.connections, c, k);
  }

  /** A handler that runs keeps its `Serve` from returning. */
  lemma ReturnWaits(steps: seq<Step>, c: nat)
    requires Run(steps).Some? && c < |Run(steps).value.connections| && !Run(steps).value.connections[c].phase.Exited?
    ensures var s := Run(steps).value; var k := s.connections[c].owner;
            k < |s.serves| && !s.serves[k].loop.Returned? && Next(s, Return(k)).None?
  {
    RunKeeps(steps);
    SomeRunning(Run(steps).value.connections, c, Run(steps).value.connections[c].owner);
  }

  /** In every run, after a sweep each connection registered before it is closed,
      or its handler is about to close it. */
  lemma SweptIsClosed(steps: seq<Step>, k: nat, c: nat)
    requires Run(steps).Some?
    requires var s := Run(steps).value; k < |s.serves| && s.serves[k].sweep.Swept? && c in s.serves[k].sweep.must
    ensures Left(Run(steps).value, c)
  {
    RunKeeps(steps);
    assert SweepOk(Run(steps).value, Run(steps).value.serves[k].sweep);
  }

  /** So a connection open in the map after a sweep registered after it began. */
  lemma OpenAfterSweepIsLate(steps: seq<Step>, k: nat, c: nat)
    requires Run(steps).Some?
    requires var s := Run(steps).value;
             && k < |s.serves| && s.serves[k].sweep.Swept?
             && c in s.tracked && c < |s.connections| && !s.connections[c].closed
    ensures c !in Run(steps).value.serves[k].sweep.must
  {
    RunKeeps(steps);
    if c in Run(steps).value.serves[k].sweep.must { SweptIsClosed(steps, k, c); }
  }

  // ---- The connection that comes too late --------------------------------------------------------------------

  lemma Extend(steps: seq<Step>, s: State, step: Step, s': State)
    requires Run(steps) == Some(s) && Next(s, step) == Some(s')
    ensures Run(steps + [step]) == Some(s')
  {
    assert (steps + [step])[..|steps|] == steps;
  }

  const LATE := Connection(0, Spawned, false)

  /** One connection accepted, none registered. */
  function OneAccepted(sweep: Sweep, cancelled: bool): State {
    State.State([Serve.Serve(Accepting, 1, sweep)], [LATE], {}, cancelled)
  }

  lemma AcceptOne() returns (steps: seq<Step>)
    ensures Run(steps) == Some(OneAccepted(Armed, false))
  {
    var s1, s2 := State.State([Serve.Serve(Accepting, 0, Armed)], [], {}, false), OneAccepted(Armed, false);
    assert IDLE.serves + s1.serves == s1.serves && s1.connections + [LATE] == s2.connections;
    assert s1.serves[0 := s2.serves[0]] == s2.serves;
    Extend([], IDLE, Start, s1);
    Extend([] + [Start], s1, Accept(0), s2);
    steps := [] + [Start] + [Accept(0)];
  }

  lemma CancelAfterAccept() returns (steps: seq<Step>)
    ensures Run(steps) == Some(OneAccepted(Armed, true))
  {
    steps := AcceptOne();
    Extend(steps, OneAccepted(Armed, false), Cancel, OneAccepted(Armed, true));
    steps := steps + [Cancel];
  }

  /** A sweep that finds nothing, though a connection has been accepted. */
  lemma EmptySweep() returns (steps: seq<Step>)
    ensures Run(steps) == Some(OneAccepted(Swept({}), true))
  {
    var s3, s4 := OneAccepted(Armed, true), OneAccepted(ListenerClosed, true);
    var s5, s6 := OneAccepted(Sweeping({}, {}), true), OneAccepted(Swept({}), true);
    assert s3.serves[0 := s4.serves[0]] == s4.serves;
    assert s4.serves[0 := s5.serves[0]] == s5.serves;
    assert s5.serves[0 := s6.serves[0]] == s6.serves;
    steps := CancelAfterAccept();
    Extend(steps, s3, CloseListener(0), s4);
    steps := steps + [CloseListener(0)];
    Extend(steps, s4, BeginSweep(0), s5);
    steps := steps + [BeginSweep(0)];
    Extend(steps, s5, EndSweep(0), s6);
    steps := steps + [EndSweep(0)];
  }

  /** A connection accepted before the listener closed may register after the
      sweep: it stays open, and `Serve` waits for it. */
  lemma LateRegistration() returns (steps: seq<Step>, s: State)
    ensures Run(steps) == Some(s)
    ensures s.serves == [Serve.Serve(WaitingForHandlers, 1, Swept({}))] && s.connections == [LATE.(phase := Tracked)]
        && s.tracked == {0}
  {
    steps := EmptySweep();
    var s6 := OneAccepted(Swept({}), true);
    var s7 := s6.(connections := [LATE.(phase := Tracked)], tracked := {0});
    s := s7.(serves := [Serve.Serve(WaitingForHandlers, 1, Swept({}))]);
    assert s6.connections[0 := LATE.(phase := Tracked)] == s7.connections && {} + {0} == s7.tracked;
    assert s7.serves[0 := Serve.Serve(WaitingForHandlers, 1, Swept({}))] == s.serves;
    Extend(steps, s6, Register(0), s7);
    steps := steps + [Register(0)];
    Extend(steps, s7, AcceptFails(0), s);
    steps := steps + [AcceptFails(0)];
  }

  /** Once every sweep is over, only its own handler closes a connection. */
  lemma OnlyItsHandlerCloses(s: State, step: Step, c: nat)
    requires c < |s.connections| && !s.connections[c].closed && Next(s, step).Some? && step != Close(c)
    requires forall k :: 0 <= k < |s.serves| ==> s.serves[k].sweep.Swept?
    ensures c < |Next(s, step).value.connections| && !Next(s, step).value.connections[c].closed
  {
    match step
    case Register(_) =>
    case Unregister(_) =>
    case Close(_) =>
    case Exit(_) =>
    case Start =>
    case Cancel =>
    case Visit(k, _) =>
    case _ =>
  }

  function RunFrom(s: State, steps: seq<Step>): Option<State>
    decreases |steps|
  {
    if steps == [] then Some(s)
    else match RunFrom(s, steps[..|steps| - 1]) case None => None case Some(t) => Next(t, steps[|steps| - 1])
  }

  ghost predicate AllSwept(s: State) {
    forall k :: 0 <= k < |s.serves| ==> s.serves[k].sweep.Swept?
  }

  lemma SweptStays(s: State, step: Step)
    requires AllSwept(s) && !step.Start? && Next(s, step).Some?
    ensures AllSwept(Next(s, step).value)
  {
  }

  /** Once every sweep is over and no listener starts, a late connection stays open
      through any run in which its own handler does not close it. */
  lemma {:induction false} LateStaysOpen(s: State, steps: seq<Step>, c: nat)
    requires AllSwept(s) && c < |s.connections| && !s.connections[c].closed
    requires RunFrom(s, steps).Some? && Start !in steps && Close(c) !in steps
    ensures var t := RunFrom(s, steps).value; AllSwept(t) && c < |t.connections| && !t.connections[c].closed
    decreases |steps|
  {
    if steps != [] {
      var init, last := steps[..|steps| - 1], steps[|steps| - 1];
      assert last in steps && forall x :: x in init ==> x in steps;
      LateStaysOpen(s, init, c);
      OnlyItsHandlerCloses(RunFrom(s, init).value, last, c);
      SweptStays(RunFrom(s, init).value, last);
    }
  }

  // ---- The sweep as the daemon runs it ------------------------------------------------------------------------

  class Server {
    var state: State

    constructor ()
      ensures state == IDLE && Inv(state)
    {
      state := IDLE;
    }

    /** Everything that other goroutines do meanwhile, up to the end of this sweep. */
    method Others(k: nat)
      requires Inv(state) && k < |state.serves| && state.serves[k].sweep.Sweeping?
      modifies this
      ensures Inv(state) && k < |state.serves| && state.serves[k].sweep == old(state.serves[k].sweep)
      ensures forall c :: c in state.serves[k].sweep.must && c !in old(state.tracked) ==> c !in state.tracked
    {
      var n: nat := *;
      while n > 0
        invariant Inv(state) && k < |state.serves| && state.serves[k].sweep == old(state.serves[k].sweep)
        invariant forall c :: c in state.serves[k].sweep.must && c !in old(state.tracked) ==> c !in state.tracked
      {
        var step: Step := *;
        if step != EndSweep(k) && !(step.Visit? && step.k == k) && Next(state, step).Some? {
          OthersSpareSweep(state, step, k);
          forall c | c in state.serves[k].sweep.must && c !in state.tracked
            ensures c !in Next(state, step).value.tracked
          {
            assert SweepOk(state, state.serves[k].sweep);
            OnceGone(state, step, c);
          }
          NextKeeps(state, step);
          state := Next(state, step).value;
        }
        n := n - 1;
      }
    }

    /** `closeActiveConnections`: visits what it finds in the map while handlers
        come and go. */
    method CloseActiveConnections(k: nat)
      requires Inv(state) && k < |state.serves| && state.serves[k].sweep.ListenerClosed?
      modifies this
      ensures Inv(state) && k < |state.serves| && state.serves[k].sweep == Swept(old(state.tracked))
      ensures forall c :: c in old(state.tracked) ==> Left(state, c)
    {
      ghost var found := state.tracked;
      var must := state.tracked;
      NextKeeps(state, BeginSweep(k));
      state := Next(state, BeginSweep(k)).value;
      var todo := must;
      while todo != {}
        invariant Inv(state) && k < |state.serves| && state.serves[k].sweep.Sweeping?
            && state.serves[k].sweep.must == found
        invariant forall c :: c in found ==> c in todo || c in state.serves[k].sweep.visited || c !in state.tracked
        decreases |todo|
      {
        var c :| c in todo;
        todo := todo - {c};
        Others(k);
        if c in state.tracked && c !in state.serves[k].sweep.visited {
          NextKeeps(state, Visit(k, c));
          state := Next(state, Visit(k, c)).value;
        }
      }
      SweepEnds(state, k, found);
      state := Next(state, EndSweep(k)).value;
    }
  }

  lemma SweepEnds(s: State, k: nat, found: set<nat>)
    requires Inv(s) && k < |s.serves| && s.serves[k].sweep.Sweeping? && s.serves[k].sweep.must == found
    requires forall c :: c in found ==> c in s.serves[k].sweep.visited || c !in s.tracked
    ensures Next(s, EndSweep(k)).Some? && Inv(Next(s, EndSweep(k)).value)
    ensures var t := Next(s, EndSweep(k)).value;
            k < |t.serves| && t.serves[k].sweep == Swept(found) && forall c :: c in found ==> Left(t, c)
  {
    NextKeeps(s, EndSweep(k));
    var t := Next(s, EndSweep(k)).value;
    assert SweepOk(t, t.serves[k].sweep);
  }

  /** A handler registers once: a connection gone from the map does not come back. */
  lemma OnceGone(s: State, step: Step, c: nat)
    requires c < |s.connections| && !s.connections[c].phase.Spawned? && c !in s.tracked && Next(s, step).Some?
    ensures c !in Next(s, step).value.tracked
  {
  }

  lemma OthersSpareSweep(s: State, step: Step, k: nat)
    requires k < |s.serves| && s.serves[k].sweep.Sweeping? && Next(s, step).Some?
    requires step != EndSweep(k) && !(step.Visit? && step.k == k)
    ensures k < |Next(s, step).value.serves| && Next(s, step).value.serves[k].sweep == s.serves[k].sweep
  {
  }
}
