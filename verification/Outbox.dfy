/** The debug collector's outbox: three bounded buffers that a report drains, and
    that a failed report is put back into. */
module Outbox {
  import opened Wrappers

  datatype Kind = Console | Network | Ui

  function Cap(k: Kind): nat {
    match k case Console => 500 case Network => 200 case Ui => 500
  }

  /** An entry; `plain` unless `JSON.stringify` throws on it, as it does on a BigInt. */
  datatype Event = Event(id: nat, plain: bool)

  datatype Lanes<T> = Lanes(console: T, network: T, ui: T)
  {
    function At(k: Kind): T {
      match k case Console => console case Network => network case Ui => ui
    }

    function With(k: Kind, x: T): Lanes<T> {
      match k case Console => this.(console := x) case Network => this.(network := x) case Ui => this.(ui := x)
    }
  }

  type Batch = Lanes<seq<Event>>

  /** The buffers and the reports under way, oldest first, with an account of
      every event: pushed, delivered, pruned, and lost when a report threw. */
  datatype State = State(
    store: Batch,
    flying: seq<Batch>,
    pushed: Batch,
    delivered: Lanes<multiset<Event>>,
    pruned: Lanes<multiset<Event>>,
    lost: Lanes<multiset<Event>>)

  const NOTHING: Batch := Lanes([], [], [])
  const NONE: Lanes<multiset<Event>> := Lanes(multiset{}, multiset{}, multiset{})
  const START := State(NOTHING, [], NOTHING, NONE, NONE, NONE)

  // ---- The steps ------------------------------------------------------------------------

  function Newest(buffer: seq<Event>, max: nat): seq<Event> {
    if |buffer| > max then buffer[|buffer| - max..] else buffer
  }

  function Oldest(buffer: seq<Event>, max: nat): seq<Event> {
    if |buffer| > max then buffer[..|buffer| - max] else []
  }

  /** The buffer of kind `k` becomes `buffer`, pruned. */
  function Refill(s: State, k: Kind, buffer: seq<Event>): State {
    s.(store := s.store.With(k, Newest(buffer, Cap(k))),
       pruned := s.pruned.With(k, s.pruned.At(k) + multiset(Oldest(buffer, Cap(k)))))
  }

  function Push(s: State, k: Kind, e: Event): State {
    Refill(s.(pushed := s.pushed.With(k, s.pushed.At(k) + [e])), k, s.store.At(k) + [e])
  }

  predicate Serialisable(b: Batch) {
    forall k: Kind, e :: e in b.At(k) ==> e.plain
  }

  function AddTo(account: Lanes<multiset<Event>>, b: Batch): Lanes<multiset<Event>> {
    Lanes(account.console + multiset(b.console), account.network + multiset(b.network), account.ui + multiset(b.ui))
  }

  /** Drains the buffers; a body that cannot be serialised throws them away. */
  function Report(s: State): State {
    var drained := s.(store := NOTHING);
    if s.store == NOTHING then s
    else if Serialisable(s.store) then drained.(flying := s.flying + [s.store])
    else drained.(lost := AddTo(s.lost, s.store))
  }

  function Without(flying: seq<Batch>, i: nat): seq<Batch>
    requires i < |flying|
  {
    flying[..i] + flying[i + 1..]
  }

  function Acknowledge(s: State, i: nat): State
    requires i < |s.flying|
  {
    s.(flying := Without(s.flying, i), delivered := AddTo(s.delivered, s.flying[i]))
  }

  function PutBack(s: State, i: nat): State
    requires i < |s.flying|
  {
    var b := s.flying[i];
    var s1 := Refill(s.(flying := Without(s.flying, i)), Console, b.console + s.store.console);
    var s2 := Refill(s1, Network, b.network + s1.store.network);
    Refill(s2, Ui, b.ui + s2.store.ui)
  }

  datatype Step = Pushes(k: Kind, e: Event) | Reports | Acknowledges(i: nat) | Fails(i: nat)

  function Next(s: State, step: Step): Option<State> {
    match step
    case Pushes(k, e) => Some(Push(s, k, e))
    case Reports => Some(Report(s))
    case Acknowledges(i) => if i < |s.flying| then Some(Acknowledge(s, i)) else None
    case Fails(i) => if i < |s.flying| then Some(PutBack(s, i)) else None
  }

  function Run(steps: seq<Step>): Option<State>
    decreases |steps|
  {
    if steps == [] then Some(START)
    else match Run(steps[..|steps| - 1]) case None => None case Some(s) => Next(s, steps[|steps| - 1])
  }

  // ---- Conservation ------------------------------------------------------------------------

  /** The events of one kind that are under way, oldest report first. */
  function Airborne(flying: seq<Batch>, k: Kind): seq<Event>
    decreases |flying|
  {
    if flying == [] then [] else flying[0].At(k) + Airborne(flying[1..], k)
  }

  function InFlight(flying: seq<Batch>, k: Kind): multiset<Event> {
    multiset(Airborne(flying, k))
  }

  /** Every event pushed is in exactly one place, and no buffer exceeds its cap. */
  ghost predicate Conserved(s: State) {
    forall k: Kind :: Balanced(s, k) && |s.store.At(k)| <= Cap(k)
  }

  ghost predicate Balanced(s: State, k: Kind) {
    multiset(s.pushed.At(k)) ==
      s.delivered.At(k) + InFlight(s.flying, k) + multiset(s.store.At(k)) + s.pruned.At(k) + s.lost.At(k)
  }

  lemma {:induction false} AirborneAppend(a: seq<Batch>, b: seq<Batch>, k: Kind)
    ensures Airborne(a + b, k) == Airborne(a, k) + Airborne(b, k)
    decreases |a|
  {
    if a == [] {
      assert a + b == b;
    } else {
      AirborneAppend(a[1..], b, k);
      assert (a + b)[1..] == a[1..] + b;
    }
  }

  lemma AirborneSplits(flying: seq<Batch>, i: nat, k: Kind) returns (a: seq<Event>, b: seq<Event>)
    requires i < |flying|
    ensures Airborne(flying, k) == a + (flying[i].At(k) + b) && Airborne(Without(flying, i), k) == a + b
    ensures a == Airborne(flying[..i], k) && b == Airborne(flying[i + 1..], k)
  {
    var before, x, after := flying[..i], flying[i], flying[i + 1..];
    AirborneAppend(before, after, k);
    AirborneAppend(before, [x] + after, k);
    assert flying == before + ([x] + after) && ([x] + after)[1..] == after;
    a, b := Airborne(before, k), Airborne(after, k);
  }

  lemma InFlightWithout(flying: seq<Batch>, i: nat, k: Kind)
    requires i < |flying|
    ensures InFlight(flying, k) == InFlight(Without(flying, i), k) + multiset(flying[i].At(k))
  {
    var a, b := AirborneSplits(flying, i, k);
    Regroup(a, flying[i].At(k), b);
  }

  lemma Regroup(a: seq<Event>, x: seq<Event>, b: seq<Event>)
    ensures multiset(a + (x + b)) == multiset(a + b) + multiset(x)
  {
  }

  lemma InFlightSnoc(flying: seq<Batch>, b: Batch, k: Kind)
    ensures InFlight(flying + [b], k) == InFlight(flying, k) + multiset(b.At(k))
  {
    AirborneAppend(flying, [b], k);
    assert [b][1..] == [] && b.At(k) + [] == b.At(k);
  }

  lemma PruneSplits(buffer: seq<Event>, max: nat)
    ensures multiset(buffer) == multiset(Oldest(buffer, max)) + multiset(Newest(buffer, max))
    ensures |Newest(buffer, max)| <= max
  {
    assert buffer == Oldest(buffer, max) + Newest(buffer, max);
  }

  lemma AddOnPush(p: multiset<Event>, d: multiset<Event>, f: multiset<Event>, b: multiset<Event>, r: multiset<Event>,
      l: multiset<Event>,
                  x: multiset<Event>, b': multiset<Event>, o: multiset<Event>)
    requires p == d + f + b + r + l && b + x == o + b'
    ensures p + x == d + f + b' + (r + o) + l
  {
    assert p + x == d + f + (b + x) + r + l;
    assert d + f + (o + b') + r + l == d + f + b' + (r + o) + l;
  }

  lemma RefillAt(s: State, k: Kind, buffer: seq<Event>, l: Kind)
    ensures var s' := Refill(s, k, buffer);
            && s'.store.At(l) == (if l == k then Newest(buffer, Cap(k)) else s.store.At(l))
            && s'.pruned.At(l) == (if l == k then s.pruned.At(k) + multiset(Oldest(buffer, Cap(k))) else s.pruned.At(l))
            && s'.pushed == s.pushed && s'.delivered == s.delivered && s'.lost == s.lost && s'.flying == s.flying
  {
  }

  lemma PushConserves(s: State, k: Kind, e: Event)
    requires Conserved(s)
    ensures Conserved(Push(s, k, e))
  {
    var buffer, s' := s.store.At(k) + [e], Push(s, k, e);
    PruneSplits(buffer, Cap(k));
    forall l: Kind ensures Balanced(s', l) && |s'.store.At(l)| <= Cap(l) {
      assert Balanced(s, l);
      RefillAt(s.(pushed := s.pushed.With(k, s.pushed.At(k) + [e])), k, buffer, l);
      if l == k {
        AddOnPush(multiset(s.pushed.At(k)), s.delivered.At(k), InFlight(s.flying, k), multiset(s.store.At(k)),
            s.pruned.At(k), s.lost.At(k),
          multiset{e}, multiset(Newest(buffer, Cap(k))), multiset(Oldest(buffer, Cap(k))));
      }
    }
  }

  lemma AddToAt(account: Lanes<multiset<Event>>, b: Batch, k: Kind)
    ensures AddTo(account, b).At(k) == account.At(k) + multiset(b.At(k))
  {
  }

  lemma ReportConserves(s: State)
    requires Conserved(s)
    ensures Conserved(Report(s))
  {
    var s' := Report(s);
    forall l: Kind ensures Balanced(s', l) && |s'.store.At(l)| <= Cap(l) {
      assert Balanced(s, l);
      InFlightSnoc(s.flying, s.store, l);
      AddToAt(s.lost, s.store, l);
      assert NOTHING.At(l) == [];
    }
  }

  lemma AcknowledgeConserves(s: State, i: nat)
    requires Conserved(s) && i < |s.flying|
    ensures Conserved(Acknowledge(s, i))
  {
    forall l: Kind ensures Balanced(Acknowledge(s, i), l) {
      assert Balanced(s, l);
      InFlightWithout(s.flying, i, l);
    }
  }

  lemma PutBackAt(s: State, i: nat, l: Kind)
    requires i < |s.flying|
    ensures var s', buffer := PutBack(s, i), s.flying[i].At(l) + s.store.At(l);
            && s'.store.At(l) == Newest(buffer, Cap(l))
            && s'.pruned.At(l) == s.pruned.At(l) + multiset(Oldest(buffer, Cap(l)))
            && s'.pushed == s.pushed && s'.delivered == s.delivered && s'.lost == s.lost
                && s'.flying == Without(s.flying, i)
  {
  }

  lemma PutBackConserves(s: State, i: nat)
    requires Conserved(s) && i < |s.flying|
    ensures Conserved(PutBack(s, i))
  {
    var s' := PutBack(s, i);
    forall l: Kind ensures Balanced(s', l) && |s'.store.At(l)| <= Cap(l) {
      assert Balanced(s, l);
      PutBackAt(s, i, l);
      InFlightWithout(s.flying, i, l);
      var batch, rest := s.flying[i].At(l), s.store.At(l);
      PruneSplits(batch + rest, Cap(l));
      assert multiset(batch + rest) == multiset(batch) + multiset(rest);
      AddOnPutBack(multiset(s.pushed.At(l)), s.delivered.At(l), InFlight(s'.flying, l), multiset(rest), s.pruned.At(l),
          s.lost.At(l),
        multiset(batch), multiset(Newest(batch + rest, Cap(l))), multiset(Oldest(batch + rest, Cap(l))));
    }
  }

  lemma AddOnPutBack(p: multiset<Event>, d: multiset<Event>, f: multiset<Event>, b: multiset<Event>, r: multiset<Event>,
      l: multiset<Event>,
                     x: multiset<Event>, b': multiset<Event>, o: multiset<Event>)
    requires p == d + (f + x) + b + r + l && x + b == o + b'
    ensures p == d + f + b' + (r + o) + l
  {
    assert p == d + f + (x + b) + r + l;
  }

  /** Over every run, whatever the interleaving of pushes, overlapping reports,
      acknowledgements and failures. */
  lemma {:induction false} RunConserves(steps: seq<Step>)
    requires Run(steps).Some?
    ensures Conserved(Run(steps).value)
    decreases |steps|
  {
    if steps != [] {
      RunConserves(steps[..|steps| - 1]);
      var s, step := Run(steps[..|steps| - 1]).value, steps[|steps| - 1];
      match step
      case Pushes(k, e) => PushConserves(s, k, e);
      case Reports => ReportConserves(s);
      case Acknowledges(i) => AcknowledgeConserves(s, i);
      case Fails(i) => PutBackConserves(s, i);
    }
  }

  /** No event is delivered, buffered or put back twice. */
  lemma NoEventTwice(steps: seq<Step>, k: Kind, e: Event)
    requires Run(steps).Some?
    ensures var s := Run(steps).value;
            s.delivered.At(k)[e] + InFlight(s.flying, k)[e] + multiset(s.store.At(k))[e] <= multiset(s.pushed.At(k))[e]
  {
    RunConserves(steps);
    assert Balanced(Run(steps).value, k);
  }

  /** A report loses events exactly when it finds one it cannot serialise; then
      it loses all three buffers. */
  lemma ReportLosesIff(s: State)
    ensures Report(s).lost == s.lost <==> Serialisable(s.store)
    ensures !Serialisable(s.store) ==>
              Report(s).lost == AddTo(s.lost, s.store) && Report(s).store == NOTHING && Report(s).flying == s.flying
  {
    if !Serialisable(s.store) {
      var k: Kind, e :| e in s.store.At(k) && !e.plain;
      assert multiset(s.store.At(k))[e] > 0;
      assert Report(s).lost.At(k)[e] > s.lost.At(k)[e];
    }
  }

  /** If only serialisable events are pushed, none is ever lost: each is
      delivered, under way, buffered or pruned. */
  lemma {:induction false} PlainEventsAreKept(steps: seq<Step>)
    requires Run(steps).Some? && forall step :: step in steps && step.Pushes? ==> step.e.plain
    ensures AllPlain(Run(steps).value)
    decreases |steps|
  {
    if steps != [] {
      PlainEventsAreKept(steps[..|steps| - 1]);
      assert steps[|steps| - 1] in steps;
      PlainStep(Run(steps[..|steps| - 1]).value, steps[|steps| - 1]);
    }
  }

  ghost predicate AllPlain(s: State) {
    s.lost == NONE && Serialisable(s.store) && forall b :: b in s.flying ==> Serialisable(b)
  }

  lemma PlainStep(s: State, step: Step)
    requires AllPlain(s) && Next(s, step).Some? && (step.Pushes? ==> step.e.plain)
    ensures AllPlain(Next(s, step).value)
  {
    match step
    case Pushes(k, e) => PushKeepsPlain(s, k, e);
    case Fails(i) => PutBackKeepsPlain(s, i);
    case Reports =>
    case Acknowledges(i) =>
  }

  lemma PushKeepsPlain(s: State, k: Kind, e: Event)
    requires Serialisable(s.store) && e.plain
    ensures Serialisable(Push(s, k, e).store)
  {
    forall l: Kind, x | x in Push(s, k, e).store.At(l) ensures x.plain {
      RefillAt(s.(pushed := s.pushed.With(k, s.pushed.At(k) + [e])), k, s.store.At(k) + [e], l);
      assert x in s.store.At(l) || x == e;
    }
  }

  lemma PutBackKeepsPlain(s: State, i: nat)
    requires i < |s.flying| && Serialisable(s.store) && Serialisable(s.flying[i])
    ensures Serialisable(PutBack(s, i).store)
  {
    forall k: Kind, e | e in PutBack(s, i).store.At(k) ensures e.plain {
      PutBackAt(s, i, k);
      assert e in s.flying[i].At(k) + s.store.At(k);
    }
  }

  // ---- Order -------------------------------------------------------------------------------

  /** At most one report carries events of this kind. */
  ghost predicate OneFlies(flying: seq<Batch>, k: Kind) {
    forall i, j :: 0 <= i < j < |flying| ==> flying[i].At(k) == [] || flying[j].At(k) == []
  }

  /** The buffer is the newest part of what was pushed, and the events under way
      directly precede it, unless pruning filled the gap. */
  ghost predicate InOrder(s: State, k: Kind) {
    OneFlies(s.flying, k) && LaneInOrder(s.pushed.At(k), s.store.At(k), Airborne(s.flying, k), Cap(k))
  }

  ghost predicate LaneInOrder(pushed: seq<Event>, buffer: seq<Event>, batch: seq<Event>, max: nat) {
    |buffer| <= max && IsNewest(pushed, buffer) && ReportInOrder(pushed, batch, |pushed| - |buffer|, |buffer| == max)
  }

  lemma NothingAirborne(pushed: seq<Event>, buffer: seq<Event>, max: nat)
    requires |buffer| <= max && IsNewest(pushed, buffer)
    ensures LaneInOrder(pushed, buffer, [], max)
  {
    assert EndsAt(pushed, [], |pushed| - |buffer|);
  }

  predicate IsNewest(pushed: seq<Event>, buffer: seq<Event>) {
    |buffer| <= |pushed| && buffer == pushed[|pushed| - |buffer|..]
  }

  lemma NewestOfNewest(pushed: seq<Event>, buffer: seq<Event>, max: nat)
    requires IsNewest(pushed, buffer)
    ensures IsNewest(pushed, Newest(buffer, max))
  {
  }

  lemma JoinNewest(pushed: seq<Event>, batch: seq<Event>, buffer: seq<Event>)
    requires IsNewest(pushed, buffer) && EndsAt(pushed, batch, |pushed| - |buffer|)
    ensures IsNewest(pushed, batch + buffer)
  {
    var end := |pushed| - |buffer|;
    assert pushed[end - |batch|..] == pushed[end - |batch|..end] + pushed[end..];
  }

  lemma PushNewest(pushed: seq<Event>, buffer: seq<Event>, e: Event)
    requires IsNewest(pushed, buffer)
    ensures IsNewest(pushed + [e], buffer + [e])
  {
    assert (pushed + [e])[|pushed| - |buffer|..] == pushed[|pushed| - |buffer|..] + [e];
  }

  ghost predicate ReportInOrder(pushed: seq<Event>, batch: seq<Event>, rest: int, full: bool) {
    exists end :: EndsAt(pushed, batch, end) && end <= rest && (end == rest || full)
  }

  /** The batch is the stretch of `pushed` that ends at `end`. */
  predicate EndsAt(pushed: seq<Event>, batch: seq<Event>, end: int) {
    |batch| <= end <= |pushed| && batch == pushed[end - |batch|..end]
  }

  lemma {:induction false} NoneAirborne(flying: seq<Batch>, k: Kind)
    requires forall i :: 0 <= i < |flying| ==> flying[i].At(k) == []
    ensures Airborne(flying, k) == []
    decreases |flying|
  {
    if flying != [] { NoneAirborne(flying[1..], k); }
  }

  /** Taking one report away takes away its events, which are all or none. */
  lemma AirborneWithout(flying: seq<Batch>, i: nat, k: Kind)
    requires i < |flying| && OneFlies(flying, k)
    ensures OneFlies(Without(flying, i), k)
    ensures var batch := flying[i].At(k);
            && (batch == [] ==> Airborne(Without(flying, i), k) == Airborne(flying, k))
            && (batch != [] ==> Airborne(flying, k) == batch && Airborne(Without(flying, i), k) == [])
  {
    var a, b := AirborneSplits(flying, i, k);
    if flying[i].At(k) != [] {
      var after := flying[i + 1..];
      forall j | 0 <= j < |after| ensures after[j].At(k) == [] {
        assert after[j] == flying[i + 1 + j];
      }
      NoneAirborne(flying[..i], k);
      NoneAirborne(after, k);
    }
  }

  lemma {:induction false} SomeAirborne(flying: seq<Batch>, k: Kind) returns (i: nat)
    requires Airborne(flying, k) != []
    ensures i < |flying| && flying[i].At(k) != []
    decreases |flying|
  {
    if flying[0].At(k) != [] {
      i := 0;
    } else {
      i := SomeAirborne(flying[1..], k);
      i := i + 1;
    }
  }

  lemma PushInOrder(s: State, k: Kind, e: Event, l: Kind)
    requires InOrder(s, l)
    ensures InOrder(Push(s, k, e), l)
  {
    RefillAt(s.(pushed := s.pushed.With(k, s.pushed.At(k) + [e])), k, s.store.At(k) + [e], l);
    if l == k { PushNewestInOrder(s.pushed.At(k), s.store.At(k), Airborne(s.flying, k), Cap(k), e); }
  }

  lemma PushNewestInOrder(pushed: seq<Event>, buffer: seq<Event>, batch: seq<Event>, max: nat, e: Event)
    requires LaneInOrder(pushed, buffer, batch, max)
    ensures LaneInOrder(pushed + [e], Newest(buffer + [e], max), batch, max)
  {
    PushNewest(pushed, buffer, e);
    NewestOfNewest(pushed + [e], buffer + [e], max);
    var rest := |pushed| - |buffer|;
    var end :| EndsAt(pushed, batch, end) && end <= rest && (end == rest || |buffer| == max);
    assert EndsAt(pushed + [e], batch, end);
  }

  lemma ReportKeepsOrder(s: State, l: Kind)
    requires InOrder(s, l) && (Airborne(s.flying, l) == [] || s.store.At(l) == [])
    ensures InOrder(Report(s), l)
  {
    var pushed, buffer, batch := s.pushed.At(l), s.store.At(l), Airborne(s.flying, l);
    assert NOTHING.At(l) == [];
    assert LaneInOrder(pushed, [], if batch == [] then buffer else batch, Cap(l)) by {
      assert EndsAt(pushed, buffer, |pushed|);
    }
    NothingAirborne(pushed, [], Cap(l));
    if s.store != NOTHING && Serialisable(s.store) {
      AirborneAppend(s.flying, [s.store], l);
      assert [s.store][1..] == [] && buffer + [] == buffer && [] + buffer == buffer && batch + [] == batch;
      NothingElseFlies(s.flying, s.store, l);
    }
  }

  lemma NothingElseFlies(flying: seq<Batch>, b: Batch, k: Kind)
    requires OneFlies(flying, k) && (Airborne(flying, k) == [] || b.At(k) == [])
    ensures OneFlies(flying + [b], k)
  {
    var more := flying + [b];
    forall i, j | 0 <= i < j < |more| ensures more[i].At(k) == [] || more[j].At(k) == [] {
      if j < |flying| {
        assert more[i] == flying[i] && more[j] == flying[j];
      } else if flying[i].At(k) != [] {
        AirborneWithout(flying, i, k);
      }
    }
  }

  lemma AcknowledgeKeepsOrder(s: State, i: nat, l: Kind)
    requires InOrder(s, l) && i < |s.flying|
    ensures InOrder(Acknowledge(s, i), l)
  {
    AirborneWithout(s.flying, i, l);
    NothingAirborne(s.pushed.At(l), s.store.At(l), Cap(l));
  }

  lemma PutBackKeepsOrder(s: State, i: nat, l: Kind)
    requires InOrder(s, l) && i < |s.flying|
    ensures InOrder(PutBack(s, i), l)
  {
    var batch, buffer := s.flying[i].At(l), s.store.At(l);
    PutBackAt(s, i, l);
    AirborneWithout(s.flying, i, l);
    if batch == [] {
      assert batch + buffer == buffer;
    } else {
      PutBackLane(s.pushed.At(l), batch, buffer, Cap(l));
    }
  }

  lemma PutBackLane(pushed: seq<Event>, batch: seq<Event>, buffer: seq<Event>, max: nat)
    requires LaneInOrder(pushed, buffer, batch, max)
    ensures LaneInOrder(pushed, Newest(batch + buffer, max), [], max)
  {
    PutBackNewest(pushed, batch, buffer, max);
    PruneSplits(batch + buffer, max);
    NothingAirborne(pushed, Newest(batch + buffer, max), max);
  }

  lemma PutBackNewest(pushed: seq<Event>, batch: seq<Event>, buffer: seq<Event>, max: nat)
    requires IsNewest(pushed, buffer) && |buffer| <= max
    requires ReportInOrder(pushed, batch, |pushed| - |buffer|, |buffer| == max)
    ensures IsNewest(pushed, Newest(batch + buffer, max))
  {
    var rest := |pushed| - |buffer|;
    var end :| EndsAt(pushed, batch, end) && end <= rest && (end == rest || |buffer| == max);
    if end == rest {
      JoinNewest(pushed, batch, buffer);
      NewestOfNewest(pushed, batch + buffer, max);
    } else {
      NewestKeepsFull(batch, buffer);
    }
  }

  lemma NewestKeepsFull(batch: seq<Event>, buffer: seq<Event>)
    ensures Newest(batch + buffer, |buffer|) == buffer
  {
  }

  /** Nothing of this kind is drained while events of this kind are under way. */
  predicate Calm(s: State, step: Step, k: Kind) {
    step.Reports? ==> Airborne(s.flying, k) == [] || s.store.At(k) == []
  }

  ghost predicate OneAtATime(steps: seq<Step>, k: Kind) {
    forall n :: 0 <= n < |steps| ==> Run(steps[..n]).Some? && Calm(Run(steps[..n]).value, steps[n], k)
  }

  lemma StepInOrder(s: State, step: Step, l: Kind)
    requires InOrder(s, l) && Calm(s, step, l) && Next(s, step).Some?
    ensures InOrder(Next(s, step).value, l)
  {
    match step
    case Pushes(k, e) => PushInOrder(s, k, e, l);
    case Reports => ReportKeepsOrder(s, l);
    case Acknowledges(i) => AcknowledgeKeepsOrder(s, i, l);
    case Fails(i) => PutBackKeepsOrder(s, i, l);
  }

  /** In a run that is calm for a kind, its buffer is at every moment the newest part
      of what was pushed, in order and without gaps. */
  lemma {:induction false} RunInOrder(steps: seq<Step>, l: Kind)
    requires OneAtATime(steps, l) && Run(steps).Some?
    ensures InOrder(Run(steps).value, l)
    decreases |steps|
  {
    if steps == [] {
      StartInOrder(l);
    } else {
      CalmInit(steps, l);
      RunInOrder(steps[..|steps| - 1], l);
      StepInOrder(Run(steps[..|steps| - 1]).value, steps[|steps| - 1], l);
    }
  }

  lemma CalmInit(steps: seq<Step>, l: Kind)
    requires OneAtATime(steps, l) && steps != []
    ensures OneAtATime(steps[..|steps| - 1], l)
    ensures Run(steps[..|steps| - 1]).Some? && Calm(Run(steps[..|steps| - 1]).value, steps[|steps| - 1], l)
  {
    var init := steps[..|steps| - 1];
    assert forall n :: 0 <= n < |init| ==> init[..n] == steps[..n] && init[n] == steps[n];
  }

  lemma StartInOrder(l: Kind)
    ensures InOrder(START, l)
  {
    assert NOTHING.At(l) == [];
    NothingAirborne([], [], Cap(l));
  }

  // ---- Calmness is needed ------------------------------------------------------------------------

  /** These reports fail, one after the other. */
  function FailAll(s: State, indices: seq<nat>): Option<State>
    decreases |indices|
  {
    if indices == [] then Some(s)
    else if indices[0] < |s.flying| then FailAll(PutBack(s, indices[0]), indices[1..])
    else None
  }

  ghost predicate NoEventRepeats(pushed: seq<Event>) {
    forall i, j :: 0 <= i < j < |pushed| ==> pushed[i] != pushed[j]
  }

  /** Whatever fails afterwards, once nothing of the kind is under way any more the
      buffer is the newest part of what was pushed. */
  ghost predicate StaysNewest(s: State, k: Kind) {
    forall indices :: FailAll(s, indices).Some? ==> NewestIfSettled(FailAll(s, indices).value, k)
  }

  predicate NewestIfSettled(s: State, k: Kind) {
    Airborne(s.flying, k) == [] ==> IsNewest(s.pushed.At(k), s.store.At(k))
  }

  lemma {:induction false} FailuresKeepOrder(s: State, indices: seq<nat>, k: Kind)
    requires InOrder(s, k) && FailAll(s, indices).Some?
    ensures InOrder(FailAll(s, indices).value, k)
    decreases |indices|
  {
    if indices != [] {
      PutBackKeepsOrder(s, indices[0], k);
      FailuresKeepOrder(PutBack(s, indices[0]), indices[1..], k);
    }
  }

  /** A buffer that ends in an event older than the newest is not the newest part. */
  lemma OldEndIsNotNewest(pushed: seq<Event>, buffer: seq<Event>, batch: seq<Event>, kept: seq<Event>, full: bool)
    requires NoEventRepeats(pushed) && IsNewest(pushed, buffer) && buffer != [] && batch != []
    requires ReportInOrder(pushed, batch, |pushed| - |buffer|, full)
    requires EndsLike(kept, batch)
    ensures !IsNewest(pushed, kept)
  {
    var end :| EndsAt(pushed, batch, end) && end <= |pushed| - |buffer|;
    assert batch[|batch| - 1] == pushed[end - 1];
    assert pushed[end - 1] != pushed[|pushed| - 1];
  }

  lemma NewestEnds(buffer: seq<Event>, max: nat)
    requires buffer != [] && max > 0
    ensures Newest(buffer, max) != [] && Newest(buffer, max)[|Newest(buffer, max)| - 1] == buffer[|buffer| - 1]
  {
  }

  lemma PutBackEnds(s: State, i: nat, k: Kind, batch: seq<Event>)
    requires i < |s.flying| && batch != []
    requires if s.store.At(k) == [] then s.flying[i].At(k) == batch else EndsLike(s.store.At(k), batch)
    ensures var s' := PutBack(s, i);
            && s'.pushed == s.pushed && s'.flying == Without(s.flying, i)
            && EndsLike(s'.store.At(k), batch)
  {
    PutBackAt(s, i, k);
    var joined := s.flying[i].At(k) + s.store.At(k);
    assert joined[|joined| - 1] == batch[|batch| - 1];
    NewestEnds(joined, Cap(k));
  }

  /** Draining events of a kind while others of it are under way: if the older report
      fails first, and then the younger, the buffer is out of order for good. */
  lemma UncalmReportReorders(s: State, k: Kind) returns (indices: seq<nat>)
    requires InOrder(s, k) && NoEventRepeats(s.pushed.At(k)) && !Calm(s, Reports, k)
    ensures var r := FailAll(Report(s), indices);
            r.Some? && Airborne(r.value.flying, k) == [] && !IsNewest(r.value.pushed.At(k), r.value.store.At(k))
  {
    var batch := Airborne(s.flying, k);
    var i := SomeAirborne(s.flying, k);
    AirborneWithout(s.flying, i, k);
    DrainedLane(s, k);
    var end;
    if Serialisable(s.store) {
      indices, end := BothFail(Report(s), s.flying, s.store, i, k);
    } else {
      indices, end := OneFails(Report(s), i, k);
    }
    OldEndIsNotNewest(s.pushed.At(k), s.store.At(k), batch, end.store.At(k), |s.store.At(k)| == Cap(k));
  }

  lemma OneFails(s: State, i: nat, k: Kind) returns (indices: seq<nat>, end: State)
    requires i < |s.flying| && s.flying[i].At(k) != [] && s.store.At(k) == [] && OneFlies(s.flying, k)
    ensures FailAll(s, indices) == Some(end) && end.pushed == s.pushed && Airborne(end.flying, k) == []
    ensures EndsLike(end.store.At(k), s.flying[i].At(k))
  {
    PutBackEnds(s, i, k, s.flying[i].At(k));
    AirborneWithout(s.flying, i, k);
    indices, end := [i], PutBack(s, i);
    assert [i][1..] == [];
  }

  lemma BothFail(s: State, older: seq<Batch>, b: Batch, i: nat, k: Kind) returns (indices: seq<nat>, end: State)
    requires i < |older| && older[i].At(k) != [] && s.flying == older + [b] && s.store.At(k) == [] && OneFlies(older, k)
    ensures FailAll(s, indices) == Some(end) && end.pushed == s.pushed && Airborne(end.flying, k) == []
    ensures EndsLike(end.store.At(k), older[i].At(k))
  {
    var last := |older| - 1;
    WithoutSnoc(older, b, i);
    AirborneWithout(older, i, k);
    PutBackEnds(s, i, k, older[i].At(k));
    var s1 := PutBack(s, i);
    PutBackEnds(s1, last, k, older[i].At(k));
    FailTwo(s, i, last);
    indices, end := [i, last], PutBack(s1, last);
  }

  lemma WithoutSnoc(older: seq<Batch>, b: Batch, i: nat)
    requires i < |older|
    ensures Without(older + [b], i) == Without(older, i) + [b]
    ensures Without(Without(older, i) + [b], |older| - 1) == Without(older, i)
  {
  }

  lemma FailTwo(s: State, i: nat, j: nat)
    requires i < |s.flying| && j < |PutBack(s, i).flying|
    ensures FailAll(s, [i, j]) == Some(PutBack(PutBack(s, i), j))
  {
    assert [i, j][1..] == [j] && [j][1..] == [];
    assert FailAll(PutBack(s, i), [j]) == FailAll(PutBack(PutBack(s, i), j), []);
  }

  /** The sequences end in the same event. */
  predicate EndsLike(kept: seq<Event>, batch: seq<Event>) {
    kept != [] && batch != [] && kept[|kept| - 1] == batch[|batch| - 1]
  }

  lemma DrainedLane(s: State, k: Kind)
    requires s.store.At(k) != []
    ensures var s' := Report(s);
            && s'.store.At(k) == [] && s'.pushed == s.pushed
            && s'.flying == if Serialisable(s.store) then s.flying + [s.store] else s.flying
  {
    assert NOTHING.At(k) == [];
  }

  /** From any state in order: a report keeps the order against all failures exactly
      when it is calm. */
  lemma ReportKeepsOrderIff(s: State, k: Kind)
    requires InOrder(s, k) && NoEventRepeats(s.pushed.At(k))
    ensures StaysNewest(Report(s), k) <==> Calm(s, Reports, k)
  {
    if Calm(s, Reports, k) {
      ReportKeepsOrder(s, k);
      forall indices | FailAll(Report(s), indices).Some?
        ensures NewestIfSettled(FailAll(Report(s), indices).value, k)
      {
        FailuresKeepOrder(Report(s), indices, k);
      }
    } else {
      var indices := UncalmReportReorders(s, k);
    }
  }

  // ---- What the guarantees depend on ---------------------------------------------------------

  /** Two reports under way that fail oldest first leave the buffer out of order. */
  lemma OverlapReorders(a: Event, b: Event)
    requires a.plain && b.plain
    ensures var r := Run([Pushes(Console, a), Reports, Pushes(Console, b), Reports, Fails(0), Fails(0)]);
            r.Some? && r.value.pushed.console == [a, b] && r.value.store.console == [b, a]
  {
    var s2 := AfterTwo(a, b);
    var s3 := PutBack(s2, 0);
    assert s3.store.console == [a] && s3.flying == [Lanes([b], [], [])];
    assert PutBack(s3, 0).store.console == [b, a];
    var run := [Pushes(Console, a), Reports, Pushes(Console, b), Reports, Fails(0), Fails(0)];
    assert run[..5][..4] == [Pushes(Console, a), Reports, Pushes(Console, b), Reports];
    assert Run(run[..5]) == Some(s3);
  }

  lemma AfterTwo(a: Event, b: Event) returns (s: State)
    requires a.plain && b.plain
    ensures Run([Pushes(Console, a), Reports, Pushes(Console, b), Reports]) == Some(s)
    ensures s.store == NOTHING && s.flying == [Lanes([a], [], []), Lanes([b], [], [])]
        && s.pushed == Lanes([a, b], [], [])
  {
    var s1 := AfterOne(a);
    var s2 := Push(s1, Console, b);
    assert [] + [b] == [b] && [a] + [b] == [a, b];
    assert s2.store == Lanes([b], [], []) && s2.pushed == Lanes([a, b], [], []);
    s := Report(s2);
    var run := [Pushes(Console, a), Reports, Pushes(Console, b), Reports];
    assert run[..3][..2] == [Pushes(Console, a), Reports];
    assert Run(run[..3]) == Some(s2);
  }

  lemma AfterOne(a: Event) returns (s: State)
    requires a.plain
    ensures Run([Pushes(Console, a), Reports]) == Some(s)
    ensures s.store == NOTHING && s.flying == [Lanes([a], [], [])] && s.pushed == Lanes([a], [], [])
  {
    var s1 := Push(START, Console, a);
    assert [] + [a] == [a];
    assert s1.store == Lanes([a], [], []) && s1.pushed == Lanes([a], [], []);
    s := Report(s1);
    var run := [Pushes(Console, a), Reports];
    assert run[..1][..0] == [] && Run(run[..1]) == Some(s1);
  }

  /** A single BigInt takes every buffered event with it. */
  lemma BigIntIsLost(a: Event, b: Event)
    requires !a.plain
    ensures var s := Report(Push(Push(START, Network, b), Console, a));
            s.flying == [] && s.store == NOTHING && s.lost == Lanes(multiset{a}, multiset{b}, multiset{})
  {
    var s := Push(Push(START, Network, b), Console, a);
    assert [] + [a] == [a] && [] + [b] == [b];
    assert s.store == Lanes([a], [b], []);
    assert a in s.store.At(Console);
  }

  lemma PushStores(s: State, k: Kind, e: Event)
    ensures Push(s, k, e).store == s.store.With(k, Newest(s.store.At(k) + [e], Cap(k)))
        && Push(s, k, e).flying == s.flying
  {
  }

  // ---- The collector --------------------------------------------------------------------------

  /** The end of `all`, as much of it as is allowed. */
  predicate IsTail(kept: seq<Event>, all: seq<Event>, max: nat) {
    |kept| == (if |all| < max then |all| else max) && kept == all[|all| - |kept|..]
  }

  function Added(buffer: seq<Event>, grows: bool, e: Event): seq<Event> {
    if grows then buffer + [e] else buffer
  }

  lemma NewestIsTail(buffer: seq<Event>, max: nat)
    ensures IsTail(Newest(buffer, max), buffer, max)
  {
  }

  class Collector {
    var consoleLogs: seq<Event>
    var networkRequests: seq<Event>
    var uiEvents: seq<Event>
    /** Reports whose promise has not settled. */
    var pending: seq<Batch>
    /** The buffers and reports again, with the account of every event. */
    ghost var ledger: State

    ghost predicate Valid()
      reads this
    {
      Conserved(ledger) && ledger.store == Lanes(consoleLogs, networkRequests, uiEvents) && ledger.flying == pending
    }

    constructor ()
      ensures Valid() && ledger == START
    {
      consoleLogs, networkRequests, uiEvents, pending := [], [], [], [];
      ledger := START;
    }

    /** `pruneBuffer`: what is kept is the end of the buffer, as much as is allowed. */
    method PruneBuffer(buffer: seq<Event>, maxSize: nat) returns (kept: seq<Event>)
      ensures IsTail(kept, buffer, maxSize)
    {
      kept := buffer;
      if |buffer| > maxSize { kept := buffer[|buffer| - maxSize..]; }
    }

    /** The places that log: console calls, requests, interface events. */
    method Log(k: Kind, e: Event)
      requires Valid()
      modifies this
      ensures Valid() && ledger == Push(old(ledger), k, e) && pending == old(pending)
      ensures IsTail(consoleLogs, Added(old(consoleLogs), k.Console?, e), 500)
      ensures IsTail(networkRequests, Added(old(networkRequests), k.Network?, e), 200)
      ensures IsTail(uiEvents, Added(old(uiEvents), k.Ui?, e), 500)
    {
      PushConserves(ledger, k, e);
      PushStores(ledger, k, e);
      NewestIsTail(ledger.store.At(k) + [e], Cap(k));
      assert |ledger.store.At(Console)| <= Cap(Console) && |ledger.store.At(Network)| <= Cap(Network)
          && |ledger.store.At(Ui)| <= Cap(Ui);
      ledger := Push(ledger, k, e);
      PushAndPrune(k, e);
    }

    method PushAndPrune(k: Kind, e: Event)
      modifies this`consoleLogs, this`networkRequests, this`uiEvents
      ensures var b := Lanes(old(consoleLogs), old(networkRequests), old(uiEvents));
              Lanes(consoleLogs, networkRequests, uiEvents) == b.With(k, Newest(b.At(k) + [e], Cap(k)))
    {
      match k {
        case Console =>
          consoleLogs := consoleLogs + [e];
          consoleLogs := PruneBuffer(consoleLogs, Cap(Console));
        case Network =>
          networkRequests := networkRequests + [e];
          networkRequests := PruneBuffer(networkRequests, Cap(Network));
        case Ui =>
          uiEvents := uiEvents + [e];
          uiEvents := PruneBuffer(uiEvents, Cap(Ui));
      }
    }

    /** `reportLogs` up to the request; false if serialising threw. */
    method ReportLogs() returns (ok: bool)
      requires Valid()
      modifies this
      ensures Valid() && ledger == Report(old(ledger))
      ensures ok <==> Serialisable(old(ledger).store)
      ensures consoleLogs == networkRequests == uiEvents == []
      ensures pending == old(pending) +
                if ok && (old(consoleLogs) != [] || old(networkRequests) != [] || old(uiEvents) != [])
                then [Lanes(old(consoleLogs), old(networkRequests), old(uiEvents))] else []
    {
      ReportConserves(ledger);
      ledger := Report(ledger);
      var payload := Lanes(consoleLogs, networkRequests, uiEvents);
      consoleLogs, networkRequests, uiEvents := [], [], [];
      if |payload.console| == 0 && |payload.network| == 0 && |payload.ui| == 0 {
        assert payload == NOTHING && forall k: Kind :: NOTHING.At(k) == [];
        return true;
      }
      ok := Serialisable(payload);
      if ok { pending := pending + [payload]; }
    }

    /** The request's promise resolves. */
    method Resolve(i: nat)
      requires Valid() && i < |pending|
      modifies this
      ensures Valid() && ledger == Acknowledge(old(ledger), i)
    {
      AcknowledgeConserves(ledger, i);
      ledger := Acknowledge(ledger, i);
      pending := Without(pending, i);
    }

    /** The request's promise is rejected: the handler puts its data back. */
    method Reject(i: nat)
      requires Valid() && i < |pending|
      modifies this
      ensures Valid() && ledger == PutBack(old(ledger), i)
      ensures pending == old(pending[..i] + pending[i + 1..])
      ensures IsTail(consoleLogs, old(pending[i].console + consoleLogs), 500)
      ensures IsTail(networkRequests, old(pending[i].network + networkRequests), 200)
      ensures IsTail(uiEvents, old(pending[i].ui + uiEvents), 500)
    {
      PutBackConserves(ledger, i);
      PutBackTails(ledger, i);
      var b := pending[i];
      ledger := PutBack(ledger, i);
      pending := Without(pending, i);
      PutBackData(b);
      TailsAgree(consoleLogs, networkRequests, uiEvents, ledger.store, old(b.console + consoleLogs),
        old(b.network + networkRequests), old(b.ui + uiEvents));
    }

    method PutBackData(b: Batch)
      modifies this`consoleLogs, this`networkRequests, this`uiEvents
      ensures IsTail(consoleLogs, b.console + old(consoleLogs), 500)
      ensures IsTail(networkRequests, b.network + old(networkRequests), 200)
      ensures IsTail(uiEvents, b.ui + old(uiEvents), 500)
    {
      consoleLogs := b.console + consoleLogs;
      networkRequests := b.network + networkRequests;
      uiEvents := b.ui + uiEvents;
      consoleLogs := PruneBuffer(consoleLogs, Cap(Console));
      networkRequests := PruneBuffer(networkRequests, Cap(Network));
      uiEvents := PruneBuffer(uiEvents, Cap(Ui));
    }
  }

  predicate AreTails(c: seq<Event>, n: seq<Event>, u: seq<Event>, ac: seq<Event>, an: seq<Event>, au: seq<Event>) {
    IsTail(c, ac, 500) && IsTail(n, an, 200) && IsTail(u, au, 500)
  }

  lemma PutBackTails(s: State, i: nat)
    requires i < |s.flying|
    ensures var s', b := PutBack(s, i), s.flying[i];
            && s'.flying == Without(s.flying, i)
            && AreTails(s'.store.console, s'.store.network, s'.store.ui, b.console + s.store.console,
                 b.network + s.store.network, b.ui + s.store.ui)
  {
    var b := s.flying[i];
    PutBackAt(s, i, Console);
    PutBackAt(s, i, Network);
    PutBackAt(s, i, Ui);
    NewestIsTail(b.console + s.store.console, 500);
    NewestIsTail(b.network + s.store.network, 200);
    NewestIsTail(b.ui + s.store.ui, 500);
  }

  lemma TailsAgree(c: seq<Event>, n: seq<Event>, u: seq<Event>, store: Batch, ac: seq<Event>, an: seq<Event>,
      au: seq<Event>)
    requires AreTails(c, n, u, ac, an, au) && AreTails(store.console, store.network, store.ui, ac, an, au)
    ensures store == Lanes(c, n, u)
  {
  }

  // ---- Nothing is pruned early -----------------------------------------------------------------

  /** What the buffer of this kind has room for. */
  predicate HasRoomFor(n: nat, k: Kind) {
    match k case Console => n <= 500 case Network => n <= 200 case Ui => n <= 500
  }

  lemma NothingOldest(buffer: seq<Event>, k: Kind)
    requires HasRoomFor(|buffer|, k)
    ensures Oldest(buffer, Cap(k)) == []
  {
  }

  lemma StoreIsSmall(s: State, k: Kind)
    requires Conserved(s)
    ensures |s.store.At(k)| + |Airborne(s.flying, k)| <= |s.pushed.At(k)|
  {
    assert Balanced(s, k);
    var pushed, rest := multiset(s.pushed.At(k)), s.delivered.At(k) + s.pruned.At(k) + s.lost.At(k);
    assert pushed == InFlight(s.flying, k) + multiset(s.store.At(k)) + rest;
    assert |pushed| == |s.pushed.At(k)|;
  }

  lemma BatchIsSmall(flying: seq<Batch>, i: nat, k: Kind)
    requires i < |flying|
    ensures |flying[i].At(k)| <= |Airborne(flying, k)|
  {
    var a, b := AirborneSplits(flying, i, k);
  }

  /** In every run, an event is pruned only if more events of its kind were pushed than
      its buffer holds. */
  lemma {:induction false} NothingPrunedEarly(steps: seq<Step>, k: Kind)
    requires Run(steps).Some? && HasRoomFor(|Run(steps).value.pushed.At(k)|, k)
    ensures Run(steps).value.pruned.At(k) == multiset{}
    decreases |steps|
  {
    if steps != [] {
      var s, step := Run(steps[..|steps| - 1]).value, steps[|steps| - 1];
      RunConserves(steps[..|steps| - 1]);
      StoreIsSmall(s, k);
      StepPrunesNothing(s, step, k);
      NothingPrunedEarly(steps[..|steps| - 1], k);
    }
  }

  lemma StepPrunesNothing(s: State, step: Step, k: Kind)
    requires Next(s, step).Some? && HasRoomFor(|Next(s, step).value.pushed.At(k)|, k)
    requires |s.store.At(k)| + |Airborne(s.flying, k)| <= |s.pushed.At(k)|
    ensures |s.pushed.At(k)| <= |Next(s, step).value.pushed.At(k)|
    ensures Next(s, step).value.pruned.At(k) == s.pruned.At(k)
  {
    match step
    case Pushes(l, e) => if l == k { NothingOldest(s.store.At(k) + [e], k); }
    case Reports =>
    case Acknowledges(_) =>
    case Fails(i) =>
      PutBackAt(s, i, k);
      BatchIsSmall(s.flying, i, k);
      NothingOldest(s.flying[i].At(k) + s.store.At(k), k);
  }
}
