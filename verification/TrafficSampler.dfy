/** `ReadTrafficStats`: one pass over the counters in any order, appending a rate to
    both histories of every interface. */
module TrafficSampler {
  import opened Wrappers
  import opened Traffic
  import opened TrafficHistory

  datatype Item = Item(
    name: string, counters: Counters, rxRate: Counter, txRate: Counter, rxHistory: Slice, txHistory: Slice)

  /** What every item of a result states, given the log before and the sample. */
  ghost predicate IsItem(item: Item, convert: Conversion, log: seq<Sample>, sample: Sample, published: set<Published>) {
    && item.name in sample.counters && item.counters == sample.counters[item.name]
    && item.rxRate == RateAfter(convert, log, sample, item.name, Rx)
    && item.txRate == RateAfter(convert, log, sample, item.name, Tx)
    && Published(item.rxHistory, Newest(Rates(convert, log + [sample], item.name, Rx))) in published
    && Published(item.txHistory, Newest(Rates(convert, log + [sample], item.name, Tx))) in published
  }

  /** The rates of the newest sixty samples in which the interface appears, or of all if
      they are fewer, oldest first. */
  ghost predicate AreNewestRates(xs: seq<Counter>, convert: Conversion, log: seq<Sample>, name: string, d: Direction) {
    var at := Appearances(log, name);
    && |xs| == (if |at| < 60 then |at| else 60)
    && forall i: nat :: i < |xs| ==> IsNewestRate(xs, convert, log, name, d, i)
  }

  ghost predicate Shows(h: Slice, convert: Conversion, log: seq<Sample>, name: string, d: Direction)
    reads h.data
  {
    End(h) <= h.data.Length && AreNewestRates(Contents(h), convert, log, name, d)
  }

  /** The current rate comes last in both histories. */
  ghost predicate EndsWithRates(item: Item)
    reads item.rxHistory.data, item.txHistory.data
  {
    var rx, tx := item.rxHistory, item.txHistory;
    && 0 < rx.len && End(rx) <= rx.data.Length && rx.data[End(rx) - 1] == item.rxRate
    && 0 < tx.len && End(tx) <= tx.data.Length && tx.data[End(tx) - 1] == item.txRate
  }

  lemma NewestAreNewest(convert: Conversion, log: seq<Sample>, name: string, d: Direction)
    ensures AreNewestRates(Newest(Rates(convert, log, name, d)), convert, log, name, d)
  {
    AsManyRates(convert, log, name, d);
    forall i: nat | i < |Newest(Rates(convert, log, name, d))|
      ensures IsNewestRate(Newest(Rates(convert, log, name, d)), convert, log, name, d, i)
    {
      NewestRateAt(convert, log, name, d, i);
    }
  }

  /** Value `i` is the rate of its appearance, counted from the end. */
  ghost predicate IsNewestRate(xs: seq<Counter>, convert: Conversion, log: seq<Sample>, name: string, d: Direction,
      i: nat)
    requires i < |xs| <= |Appearances(log, name)|
  {
    var at := Appearances(log, name);
    xs[i] == RateAt(convert, log, name, d, at[|at| - |xs| + i])
  }

  lemma NewestRateAt(convert: Conversion, log: seq<Sample>, name: string, d: Direction, i: nat)
    requires i < |Newest(Rates(convert, log, name, d))|
    ensures |Rates(convert, log, name, d)| == |Appearances(log, name)|
    ensures IsNewestRate(Newest(Rates(convert, log, name, d)), convert, log, name, d, i)
  {
    AsManyRates(convert, log, name, d);
    var rates, at := Rates(convert, log, name, d), Appearances(log, name);
    NewestAt(rates, i);
    RateAtAppearance(convert, log, name, d, |at| - |Newest(rates)| + i);
  }

  lemma ItemShows(item: Item, convert: Conversion, log: seq<Sample>, sample: Sample, published: set<Published>)
    requires IsItem(item, convert, log, sample, published)
    requires forall p :: p in published ==> Holds(p.slice, p.contents)
    ensures Shows(item.rxHistory, convert, log + [sample], item.name, Rx)
    ensures Shows(item.txHistory, convert, log + [sample], item.name, Tx)
    ensures EndsWithRates(item)
  {
    NewestAreNewest(convert, log + [sample], item.name, Rx);
    NewestAreNewest(convert, log + [sample], item.name, Tx);
    RateIsLast(item.rxHistory, convert, log, sample, item.name, Rx);
    RateIsLast(item.txHistory, convert, log, sample, item.name, Tx);
  }

  lemma RateIsLast(h: Slice, convert: Conversion, log: seq<Sample>, sample: Sample, name: string, d: Direction)
    requires name in sample.counters && Holds(h, Newest(Rates(convert, log + [sample], name, d)))
    ensures 0 < h.len && h.data[End(h) - 1] == RateAfter(convert, log, sample, name, d)
  {
    RatesSnoc(convert, log, sample, name, d);
    assert h.data[End(h) - 1] == Contents(h)[h.len - 1];
  }

  /** One item for each of these interfaces. */
  ghost predicate AreItems(items: seq<Item>, convert: Conversion, log: seq<Sample>, sample: Sample, done: set<string>,
      published: set<Published>)
  {
    && (forall item :: item in items ==> item.name in done && IsItem(item, convert, log, sample, published))
    && (forall i, j :: 0 <= i < j < |items| ==> items[i].name != items[j].name)
    && |items| == |done|
  }

  lemma AddItem(items: seq<Item>, item: Item, convert: Conversion, log: seq<Sample>, sample: Sample, done: set<string>,
                published: set<Published>, published': set<Published>)
    requires AreItems(items, convert, log, sample, done, published) && published <= published'
    requires IsItem(item, convert, log, sample, published') && item.name !in done
    ensures AreItems(items + [item], convert, log, sample, done + {item.name}, published')
  {
    var more := items + [item];
    forall i, j | 0 <= i < j < |more| ensures more[i].name != more[j].name {
      assert items[i] in items;
    }
  }

  lemma RatesSnoc(convert: Conversion, log: seq<Sample>, sample: Sample, name: string, d: Direction)
    ensures Rates(convert, log + [sample], name, d) ==
              Rates(convert, log, name, d) +
              if name in sample.counters then [RateAfter(convert, log, sample, name, d)] else []
  {
    assert (log + [sample])[..|log|] == log;
  }

  /** The rates are those of the log. */
  ghost predicate Logged(rates: map<Key, seq<Counter>>, convert: Conversion, log: seq<Sample>) {
    forall k :: RatesIn(rates, k) == Rates(convert, log, k.name, k.d)
  }

  /** Those of the log, with the sample's for the interfaces done. */
  ghost predicate Logging(rates: map<Key, seq<Counter>>, convert: Conversion, log: seq<Sample>, sample: Sample,
      done: set<string>)
  {
    forall k {:trigger RatesIn(rates, k)} :: RatesIn(rates, k) == Expected(convert, log, sample, done, k)
  }

  function Expected(convert: Conversion, log: seq<Sample>, sample: Sample, done: set<string>, k: Key): seq<Counter> {
    Rates(convert, if k.name in done then log + [sample] else log, k.name, k.d)
  }

  lemma LoggingStep(rates: map<Key, seq<Counter>>, convert: Conversion, log: seq<Sample>, sample: Sample,
      done: set<string>, name: string)
    requires Logging(rates, convert, log, sample, done) && name in sample.counters && name !in done
    ensures Logging(WithBoth(rates, name, RateAfter(convert, log, sample, name, Rx),
        RateAfter(convert, log, sample, name, Tx)),
                    convert, log, sample, done + {name})
  {
    var rxRate, txRate := RateAfter(convert, log, sample, name, Rx), RateAfter(convert, log, sample, name, Tx);
    forall k ensures RatesIn(WithBoth(rates, name, rxRate, txRate), k)
        == Expected(convert, log, sample, done + {name}, k) {
      WithBothHas(rates, name, rxRate, txRate, k);
      assert RatesIn(rates, k) == Expected(convert, log, sample, done, k);
      ExpectedGrows(convert, log, sample, done, name, k);
    }
  }

  lemma ExpectedGrows(convert: Conversion, log: seq<Sample>, sample: Sample, done: set<string>, name: string, k: Key)
    requires name in sample.counters && name !in done
    ensures Expected(convert, log, sample, done + {name}, k) ==
              Expected(convert, log, sample, done, k) +
              if k.name == name then [RateAfter(convert, log, sample, name, k.d)] else []
  {
    if k.name == name { RatesSnoc(convert, log, sample, name, k.d); }
  }

  /** A rate is appended to both histories of an interface. */
  function WithBoth(rates: map<Key, seq<Counter>>, name: string, rxRate: Counter, txRate: Counter)
    : map<Key, seq<Counter>>
  {
    rates[Key(Rx, name) := RatesIn(rates, Key(Rx, name)) + [rxRate]]
         [Key(Tx, name) := RatesIn(rates, Key(Tx, name)) + [txRate]]
  }

  lemma WithBothHas(rates: map<Key, seq<Counter>>, name: string, rxRate: Counter, txRate: Counter, k: Key)
    ensures RatesIn(WithBoth(rates, name, rxRate, txRate), k) ==
              if k.name != name then RatesIn(rates, k) else RatesIn(rates, k) + [if k.d.Rx? then rxRate else txRate]
  {
  }

  lemma LoggingEnds(rates: map<Key, seq<Counter>>, convert: Conversion, log: seq<Sample>, sample: Sample)
    requires Logging(rates, convert, log, sample, sample.counters.Keys)
    ensures Logged(rates, convert, log + [sample])
  {
    forall k ensures RatesIn(rates, k) == Rates(convert, log + [sample], k.name, k.d) {
      RatesSnoc(convert, log, sample, k.name, k.d);
    }
  }

  class Sampler {
    const histories: Histories
    const convert: Conversion
    var lastSnapshot: map<string, Counters>
    var lastTime: Option<real>
    /** Every sample taken. */
    ghost var log: seq<Sample>

    /** What the log says of the sampler's variables. */
    ghost predicate Remembers()
      reads this
    {
      && lastTime == LastTime(log)
      && lastSnapshot == (if log == [] then map[] else log[|log| - 1].counters)
    }

    /** Every history is the newest sixty of the rates that the log yields, and every
        slice ever handed out holds what it held. */
    ghost predicate Valid()
      reads this, histories, histories.arrays.Keys
    {
      histories.Valid() && Remembers() && Logged(histories.rates, convert, log)
    }

    constructor (convert: Conversion)
      ensures Valid() && log == [] && this.convert == convert && fresh(histories)
    {
      this.convert := convert;
      histories := new Histories();
      lastSnapshot, lastTime, log := map[], None, [];
    }

    /** Adds one interface to both histories. */
    method Record(name: string, sample: Sample, dt: real) returns (item: Item)
      requires histories.Valid() && Remembers() && name in sample.counters && dt == TimeDelta(lastTime, sample.now)
      requires RatesIn(histories.rates, Key(Rx, name)) == Rates(convert, log, name, Rx)
      requires RatesIn(histories.rates, Key(Tx, name)) == Rates(convert, log, name, Tx)
      modifies histories, histories.arrays.Keys
      ensures histories.Valid() && fresh(histories.arrays.Keys - old(histories.arrays.Keys))
      ensures old(histories.published) <= histories.published
      ensures item.name == name && IsItem(item, convert, log, sample, histories.published)
      ensures histories.rates == WithBoth(old(histories.rates), name, item.rxRate, item.txRate)
    {
      var cur := sample.counters[name];
      var rxRate, txRate := RatesSince(name, cur, dt);
      RatesSnoc(convert, log, sample, name, Rx);
      RatesSnoc(convert, log, sample, name, Tx);
      var rHistory, tHistory := PushBoth(name, rxRate, txRate);
      item := Item(name, cur, rxRate, txRate, rHistory, tHistory);
    }

    method PushBoth(name: string, rxRate: Counter, txRate: Counter) returns (rHistory: Slice, tHistory: Slice)
      requires histories.Valid()
      modifies histories, histories.arrays.Keys
      ensures histories.Valid() && fresh(histories.arrays.Keys - old(histories.arrays.Keys))
      ensures old(histories.published) <= histories.published
      ensures histories.rates == WithBoth(old(histories.rates), name, rxRate, txRate)
      ensures Published(rHistory, Newest(RatesIn(old(histories.rates), Key(Rx, name))
          + [rxRate])) in histories.published
      ensures Published(tHistory, Newest(RatesIn(old(histories.rates), Key(Tx, name))
          + [txRate])) in histories.published
    {
      rHistory := histories.Push(Key(Rx, name), rxRate);
      tHistory := histories.Push(Key(Tx, name), txRate);
    }

    /** Both rates since the sample before; 0 without a base or after a reset. */
    method RatesSince(name: string, cur: Counters, dt: real) returns (rxRate: Counter, txRate: Counter)
      requires Remembers() && dt > 0.0
      ensures rxRate == Rate(convert, Previous(log, name, Rx), cur.rxBytes, dt)
      ensures txRate == Rate(convert, Previous(log, name, Tx), cur.txBytes, dt)
    {
      rxRate, txRate := 0, 0;
      if name in lastSnapshot {
        var prev := lastSnapshot[name];
        if cur.rxBytes >= prev.rxBytes {
          rxRate := convert(((cur.rxBytes - prev.rxBytes) * 8 % U64) as real / dt);
        }
        if cur.txBytes >= prev.txBytes {
          txRate := convert(((cur.txBytes - prev.txBytes) * 8 % U64) as real / dt);
        }
      }
    }

    method AddOne(name: string, sample: Sample, dt: real, items: seq<Item>, ghost done: set<string>)
        returns (more: seq<Item>)
      requires histories.Valid() && Remembers() && name in sample.counters && name !in done
          && dt == TimeDelta(lastTime, sample.now)
      requires Logging(histories.rates, convert, log, sample, done)
      requires AreItems(items, convert, log, sample, done, histories.published)
      modifies histories, histories.arrays.Keys
      ensures histories.Valid() && fresh(histories.arrays.Keys - old(histories.arrays.Keys))
      ensures old(histories.published) <= histories.published
      ensures Logging(histories.rates, convert, log, sample, done + {name})
      ensures AreItems(more, convert, log, sample, done + {name}, histories.published)
    {
      LoggingStep(histories.rates, convert, log, sample, done, name);
      ghost var before := histories.published;
      var item := Record(name, sample, dt);
      AddItem(items, item, convert, log, sample, done, before, histories.published);
      more := items + [item];
    }

    /** The loop over the counters. */
    method Collect(sample: Sample, dt: real) returns (items: seq<Item>)
      requires Valid() && dt == TimeDelta(lastTime, sample.now)
      modifies histories, histories.arrays.Keys
      ensures histories.Valid() && Remembers() && Logged(histories.rates, convert, log + [sample])
      ensures old(histories.published) <= histories.published
          && fresh(histories.arrays.Keys - old(histories.arrays.Keys))
      ensures AreItems(items, convert, log, sample, sample.counters.Keys, histories.published)
    {
      items := [];
      var todo := sample.counters.Keys;
      ghost var done: set<string> := {};
      while todo != {}
        invariant histories.Valid() && todo !! done && todo + done == sample.counters.Keys
        invariant fresh(histories.arrays.Keys - old(histories.arrays.Keys))
            && old(histories.published) <= histories.published
        invariant Logging(histories.rates, convert, log, sample, done)
        invariant AreItems(items, convert, log, sample, done, histories.published)
        decreases |todo|
      {
        var name :| name in todo;
        items := AddOne(name, sample, dt, items, done);
        todo := todo - {name};
        done := done + {name};
      }
      assert done == sample.counters.Keys;
      LoggingEnds(histories.rates, convert, log, sample);
    }

    /** One item for every interface in the counters, with its newest sixty rates, the
        current one last; no slice handed out by this or an earlier call has changed. */
    method ReadTrafficStats(now: real, counters: map<string, Counters>) returns (items: seq<Item>)
      requires Valid()
      modifies this, histories, histories.arrays.Keys
      ensures Valid() && log == old(log) + [Sample(now, counters)]
      ensures old(histories.published) <= histories.published
          && fresh(histories.arrays.Keys - old(histories.arrays.Keys))
      ensures AreItems(items, convert, old(log), Sample(now, counters), counters.Keys, histories.published)
      ensures forall item :: item in items ==>
                && Shows(item.rxHistory, convert, log, item.name, Rx)
                && Shows(item.txHistory, convert, log, item.name, Tx) && EndsWithRates(item)
      ensures forall p :: p in histories.published ==> Holds(p.slice, p.contents)
    {
      var sample := Sample(now, counters);
      items := Collect(sample, TimeDelta(lastTime, now));
      lastSnapshot := counters;
      lastTime := Some(now);
      forall item | item in items
        ensures Shows(item.rxHistory, convert, log + [sample], item.name, Rx)
        ensures Shows(item.txHistory, convert, log + [sample], item.name, Tx) && EndsWithRates(item)
      {
        ItemShows(item, convert, log, sample, histories.published);
      }
      log := log + [sample];
    }
  }
}
