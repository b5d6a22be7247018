/** The traffic sampler: rates between samples, and per interface a history whose
    slices are handed out while later samples append to the same arrays. */
module Traffic {
  import opened Wrappers

  const U64: int := 0x1_0000_0000_0000_0000

  type Counter = c: int | 0 <= c < 0x1_0000_0000_0000_0000

  datatype Counters = Counters(rxBytes: Counter, txBytes: Counter, rxPackets: Counter, txPackets: Counter)
  {
    function Bytes(d: Direction): Counter {
      match d case Rx => rxBytes case Tx => txBytes
    }
  }

  datatype Direction = Rx | Tx

  /** One reading of the interface table. */
  datatype Sample = Sample(now: real, counters: map<string, Counters>)

  /** `uint64(float64)`: truncation where the result fits, anything elsewhere. */
  type Conversion = real -> Counter

  ghost predicate Truncates(convert: Conversion) {
    forall r :: 0.0 <= r < U64 as real ==> convert(r) == r.Floor
  }

  // ---- Rates -----------------------------------------------------------------------------------

  function TimeDelta(last: Option<real>, now: real): (dt: real)
    ensures dt > 0.0
  {
    if last.None? || now - last.value <= 0.0 then 1.0 else now - last.value
  }

  function Rate(convert: Conversion, prev: Option<Counter>, cur: Counter, dt: real): Counter
    requires dt > 0.0
  {
    if prev.Some? && cur >= prev.value then convert(((cur - prev.value) * 8 % U64) as real / dt) else 0
  }

  /** The rate is the number of bits over the time, rounded down. */
  predicate Exact(rate: int, bytes: int, dt: real) {
    rate as real * dt <= (8 * bytes) as real < rate as real * dt + dt
  }

  lemma Positive(a: real, dt: real, p: real)
    requires a > 0.0 && dt > 0.0 && p == a * dt
    ensures p > 0.0
  {
  }

  lemma NonNeg(a: real, dt: real, p: real)
    requires a >= 0.0 && dt > 0.0 && p == a * dt
    ensures p >= 0.0
  {
  }

  lemma Between(f: real, q: real, dt: real, z: real, y: real)
    requires f <= q < f + 1.0 && dt > 0.0 && z == f * dt && y == q * dt
    ensures z <= y < z + dt
  {
    assert (q - f) * dt == y - z;
    assert (f + 1.0 - q) * dt == z + dt - y;
    NonNeg(q - f, dt, y - z);
    Positive(f + 1.0 - q, dt, z + dt - y);
  }

  lemma FloorDivides(x: real, dt: real)
    requires dt > 0.0 && x >= 0.0
    ensures (x / dt).Floor as real * dt <= x < (x / dt).Floor as real * dt + dt
    ensures x / dt >= 0.0
  {
    var q, f := x / dt, (x / dt).Floor;
    assert f as real <= q < f as real + 1.0;
    Between(f as real, q, dt, f as real * dt, x);
  }

  lemma RateIsExact(convert: Conversion, prev: Counter, cur: Counter, dt: real)
    requires Truncates(convert) && 0 <= cur - prev < 0x2000_0000_0000_0000
    requires dt > 0.0 && ((cur - prev) * 8) as real / dt < U64 as real
    ensures Exact(Rate(convert, Some(prev), cur, dt), cur - prev, dt)
  {
    var bits := (cur - prev) * 8;
    assert bits % U64 == bits;
    FloorDivides(bits as real, dt);
  }

  /** Multiplying by 8 in 64 bits loses the rate exactly when the counter has grown
      by 2^61 or more. */
  lemma RateIsExactIff(convert: Conversion, prev: Counter, cur: Counter, dt: real)
    requires Truncates(convert) && cur >= prev && 0.0 < dt <= U64 as real
    requires ((cur - prev) * 8 % U64) as real / dt < U64 as real
    ensures Exact(Rate(convert, Some(prev), cur, dt), cur - prev, dt) <==> cur - prev < 0x2000_0000_0000_0000
  {
    var bits := (cur - prev) * 8;
    var w := bits % U64;
    FloorDivides(w as real, dt);
    assert Rate(convert, Some(prev), cur, dt) == (w as real / dt).Floor;
    if cur - prev < 0x2000_0000_0000_0000 {
      assert w == bits;
    } else {
      assert w <= bits - U64;
    }
  }

  // ---- Rates over a run ------------------------------------------------------------------------------

  function LastTime(log: seq<Sample>): Option<real> {
    if log == [] then None else Some(log[|log| - 1].now)
  }

  /** The counter in the sample before, if the interface was in it. */
  function Previous(log: seq<Sample>, name: string, d: Direction): Option<Counter> {
    if log == [] || name !in log[|log| - 1].counters then None
    else Some(log[|log| - 1].counters[name].Bytes(d))
  }

  /** The rate that `sample` yields after `log`. */
  function RateAfter(convert: Conversion, log: seq<Sample>, sample: Sample, name: string, d: Direction): Counter
    requires name in sample.counters
  {
    Rate(convert, Previous(log, name, d), sample.counters[name].Bytes(d), TimeDelta(LastTime(log), sample.now))
  }

  /** All rates of an interface, one for each sample it appears in. */
  function Rates(convert: Conversion, log: seq<Sample>, name: string, d: Direction): seq<Counter>
    decreases |log|
  {
    if log == [] then []
    else
      var init, sample := log[..|log| - 1], log[|log| - 1];
      Rates(convert, init, name, d) +
      if name in sample.counters then [RateAfter(convert, init, sample, name, d)] else []
  }

  /** The samples of the log in which an interface appears. */
  function Appearances(log: seq<Sample>, name: string): (at: seq<nat>)
    ensures forall j :: 0 <= j < |at| ==> at[j] < |log| && name in log[at[j]].counters
    decreases |log|
  {
    if log == [] then []
    else
      var n := |log| - 1;
      Appearances(log[..n], name) + if name in log[n].counters then [n] else []
  }

  /** They are all such samples, in order. */
  lemma {:induction false} AppearancesAreAll(log: seq<Sample>, name: string)
    ensures var at := Appearances(log, name);
            && (forall i, j :: 0 <= i < j < |at| ==> at[i] < at[j])
            && forall m :: 0 <= m < |log| ==> (m in at <==> name in log[m].counters)
    decreases |log|
  {
    if log != [] {
      var n := |log| - 1;
      AppearancesAreAll(log[..n], name);
      assert forall m :: 0 <= m < n ==> log[..n][m] == log[m];
    }
  }

  lemma {:induction false} AsManyRates(convert: Conversion, log: seq<Sample>, name: string, d: Direction)
    ensures |Rates(convert, log, name, d)| == |Appearances(log, name)|
    decreases |log|
  {
    if log != [] { AsManyRates(convert, log[..|log| - 1], name, d); }
  }

  /** One rate for each appearance, and it is the rate of that sample. */
  lemma {:induction false} RateAtAppearance(convert: Conversion, log: seq<Sample>, name: string, d: Direction, j: nat)
    requires j < |Appearances(log, name)|
    ensures |Rates(convert, log, name, d)| == |Appearances(log, name)|
    ensures Rates(convert, log, name, d)[j] == RateAt(convert, log, name, d, Appearances(log, name)[j])
    decreases |log|
  {
    var n := |log| - 1;
    var init := log[..n];
    AsManyRates(convert, init, name, d);
    if j < |Appearances(init, name)| {
      RateAtAppearance(convert, init, name, d, j);
      var m := Appearances(init, name)[j];
      assert init[..m] == log[..m] && init[m] == log[m];
    }
  }

  function RateAt(convert: Conversion, log: seq<Sample>, name: string, d: Direction, m: nat): Counter
    requires m < |log| && name in log[m].counters
  {
    RateAfter(convert, log[..m], log[m], name, d)
  }

  /** The first sample, a reappearance and a counter reset give rate 0. */
  lemma NoBaseNoRate(convert: Conversion, log: seq<Sample>, name: string, d: Direction, m: nat)
    requires m < |log| && name in log[m].counters
    requires m == 0 || name !in log[m - 1].counters
        || log[m].counters[name].Bytes(d) < log[m - 1].counters[name].Bytes(d)
    ensures RateAt(convert, log, name, d, m) == 0
  {
  }

  /** When the clock has not advanced, the growth counts as that of one second. */
  lemma StoppedClock(convert: Conversion, log: seq<Sample>, name: string, d: Direction, m: nat)
    requires Truncates(convert) && 0 < m < |log| && name in log[m - 1].counters && name in log[m].counters
    requires log[m].now <= log[m - 1].now
    requires 0 <= log[m].counters[name].Bytes(d) - log[m - 1].counters[name].Bytes(d) < 0x2000_0000_0000_0000
    ensures RateAt(convert, log, name, d, m) ==
            8 * (log[m].counters[name].Bytes(d) - log[m - 1].counters[name].Bytes(d))
  {
    var bits := (log[m].counters[name].Bytes(d) - log[m - 1].counters[name].Bytes(d)) * 8;
    assert log[..m][m - 1] == log[m - 1];
    assert bits % U64 == bits && bits as real / 1.0 == bits as real;
    assert TimeDelta(LastTime(log[..m]), log[m].now) == 1.0;
  }

  /** Samples `i` to `j` in which time advances and the counter grows, by less than
      2^61 and slowly enough for the rate to fit in 64 bits. */
  ghost predicate Stretch(log: seq<Sample>, name: string, d: Direction, i: nat, j: nat) {
    && i <= j < |log|
    && (forall m :: i <= m <= j ==> name in log[m].counters)
    && forall m :: i < m <= j ==> Grows(log[m - 1], log[m], name, d)
  }

  ghost predicate Grows(a: Sample, b: Sample, name: string, d: Direction)
    requires name in a.counters && name in b.counters
  {
    var grown := b.counters[name].Bytes(d) - a.counters[name].Bytes(d);
    a.now < b.now && 0 <= grown < 0x2000_0000_0000_0000 && (grown * 8) as real / (b.now - a.now) < U64 as real
  }

  /** The bits the rates account for. */
  function Accounted(convert: Conversion, log: seq<Sample>, name: string, d: Direction, i: nat, j: nat): real
    requires i <= j < |log| && forall m :: i <= m <= j ==> name in log[m].counters
    decreases j
  {
    if j == i then 0.0
    else
      Accounted(convert, log, name, d, i, j - 1)
      + RateAt(convert, log, name, d, j) as real * (log[j].now - log[j - 1].now)
  }

  lemma GrowsExactly(convert: Conversion, log: seq<Sample>, name: string, d: Direction, j: nat)
    requires Truncates(convert) && 0 < j < |log| && name in log[j - 1].counters && name in log[j].counters
    requires Grows(log[j - 1], log[j], name, d)
    ensures Exact(RateAt(convert, log, name, d, j), log[j].counters[name].Bytes(d) - log[j - 1].counters[name].Bytes(d),
        log[j].now - log[j - 1].now)
  {
    var prev, cur, dt := log[j - 1].counters[name].Bytes(d), log[j].counters[name].Bytes(d),
        log[j].now - log[j - 1].now;
    assert log[..j][j - 1] == log[j - 1];
    assert RateAt(convert, log, name, d, j) == Rate(convert, Some(prev), cur, dt);
    RateIsExact(convert, prev, cur, dt);
  }

  /** Over any such stretch the rates account for the bytes counted, up to less
      than one bit a second. */
  lemma {:induction false} Telescopes(convert: Conversion, log: seq<Sample>, name: string, d: Direction, i: nat, j: nat)
    requires Truncates(convert) && Stretch(log, name, d, i, j)
    ensures var bits := 8 * (log[j].counters[name].Bytes(d) - log[i].counters[name].Bytes(d));
            var accounted := Accounted(convert, log, name, d, i, j);
            && accounted <= bits as real
            && (i < j ==> bits as real < accounted + (log[j].now - log[i].now))
    decreases j
  {
    if i < j {
      assert Grows(log[j - 1], log[j], name, d);
      Telescopes(convert, log, name, d, i, j - 1);
      GrowsExactly(convert, log, name, d, j);
    }
  }
}
