/** The sampler's histories as Go slices that share arrays, and the sampler itself. */
module TrafficHistory {
  import opened Wrappers
  import opened Traffic

  const MAX_HISTORY: nat := 60

  /** An interface's history in one direction. */
  datatype Key = Key(d: Direction, name: string)

  /** A slice header; its capacity reaches to the end of the array. */
  datatype Slice = Slice(data: array<Counter>, start: nat, len: nat)

  function End(s: Slice): nat {
    s.start + s.len
  }

  function Contents(s: Slice): seq<Counter>
    requires End(s) <= s.data.Length
    reads s.data
  {
    s.data[s.start..End(s)]
  }

  /** The end of the list: all that was dropped comes before what is kept. */
  function Newest(xs: seq<Counter>): (r: seq<Counter>)
    ensures |r| == if |xs| < 60 then |xs| else 60
  {
    if |xs| > MAX_HISTORY then xs[|xs| - MAX_HISTORY..] else xs
  }

  lemma NewestIsEnd(xs: seq<Counter>)
    ensures xs[..|xs| - |Newest(xs)|] + Newest(xs) == xs
  {
  }

  lemma NewestAt(xs: seq<Counter>, i: nat)
    requires i < |Newest(xs)|
    ensures Newest(xs)[i] == xs[|xs| - |Newest(xs)| + i]
  {
  }

  lemma NewestAppend(xs: seq<Counter>, x: Counter)
    ensures Newest(Newest(xs) + [x]) == Newest(xs + [x])
  {
  }

  /** The built-in `append`: in place while the capacity lasts, otherwise into a new
      array of any sufficient size. */
  method Append(s: Slice, x: Counter) returns (r: Slice)
    requires End(s) <= s.data.Length
    modifies s.data
    ensures End(r) <= r.data.Length && Contents(r) == old(Contents(s)) + [x]
    ensures r.data == s.data || (fresh(r.data) && s.data[..] == old(s.data[..]))
    ensures r.data == s.data ==> r.start == s.start && r.len == s.len + 1
    ensures forall i :: 0 <= i < s.data.Length && i != End(s) ==> s.data[i] == old(s.data[i])
  {
    if End(s) < s.data.Length {
      s.data[End(s)] := x;
      r := s.(len := s.len + 1);
    } else {
      var capacity: int := *;
      if capacity <= s.len { capacity := s.len + 1; }
      var data := new Counter[capacity];
      forall i | 0 <= i < s.len { data[i] := s.data[s.start + i]; }
      data[s.len] := x;
      r := Slice(data, 0, s.len + 1);
    }
  }

  /** A slice that was handed out, and what it held then. */
  datatype Published = Published(slice: Slice, contents: seq<Counter>)

  /** The slice holds exactly these values. */
  ghost predicate Holds(s: Slice, xs: seq<Counter>)
    reads s.data
  {
    End(s) <= s.data.Length && Contents(s) == xs
  }

  /** Appends and drops what exceeds sixty values from the front of the slice. */
  method AppendNewest(s: Slice, ghost all: seq<Counter>, x: Counter) returns (r: Slice)
    requires Holds(s, Newest(all))
    modifies s.data
    ensures Holds(r, Newest(all + [x]))
    ensures (r.data == s.data && End(r) == End(s) + 1) || fresh(r.data)
    ensures forall i :: 0 <= i < s.data.Length && i != End(s) ==> s.data[i] == old(s.data[i])
  {
    r := Append(s, x);
    NewestAppend(all, x);
    if r.len > MAX_HISTORY { r := Slice(r.data, r.start + r.len - MAX_HISTORY, MAX_HISTORY); }
  }

  /** Writing at `end` disturbs no slice that ends there or before. */
  lemma Undisturbed(before: seq<Counter>, after: seq<Counter>, end: nat, t: Slice)
    requires |before| == |after| && forall i :: 0 <= i < |before| && i != end ==> after[i] == before[i]
    requires End(t) <= end && End(t) <= |before|
    ensures after[t.start..End(t)] == before[t.start..End(t)]
  {
  }

  /** Which interface an array belongs to, and how far it has been written. */
  datatype Use = Use(owner: Key, end: nat)

  /** A current history ends where its array has been written to. */
  ghost predicate IsHistory(k: Key, s: Slice, all: seq<Counter>, arrays: map<array<Counter>, Use>)
    reads s.data
  {
    s.data in arrays && arrays[s.data] == Use(k, End(s)) && Holds(s, Newest(all))
  }

  /** A slice handed out lies in the part already written, and holds what it held. */
  ghost predicate IsSafe(p: Published, arrays: map<array<Counter>, Use>)
    reads p.slice.data
  {
    p.slice.data in arrays && End(p.slice) <= arrays[p.slice.data].end && Holds(p.slice, p.contents)
  }

  /** All histories but one. */
  ghost predicate HistoriesBut(but: Option<Key>, slices: map<Key, Slice>, rates: map<Key, seq<Counter>>,
      arrays: map<array<Counter>, Use>)
    reads arrays.Keys
  {
    && slices.Keys == rates.Keys
    && forall n :: n in slices && but != Some(n) ==>
         slices[n].data in arrays && IsHistory(n, slices[n], rates[n], arrays)
  }

  ghost predicate AllSafe(published: set<Published>, arrays: map<array<Counter>, Use>)
    reads arrays.Keys
  {
    forall p :: p in published ==> p.slice.data in arrays && IsSafe(p, arrays)
  }

  /** `r` may become the history of `k`. */
  ghost predicate IsNext(k: Key, r: Slice, all: seq<Counter>, arrays: map<array<Counter>, Use>)
    reads r.data
  {
    Holds(r, Newest(all)) && (r.data in arrays ==> arrays[r.data].owner == k && arrays[r.data].end <= End(r))
  }

  lemma RecordHistory(k: Key, r: Slice, all: seq<Counter>, slices: map<Key, Slice>, rates: map<Key, seq<Counter>>,
      arrays: map<array<Counter>, Use>)
    requires HistoriesBut(Some(k), slices, rates, arrays) && IsNext(k, r, all, arrays)
    ensures HistoriesBut(None, slices[k := r], rates[k := all], arrays[r.data := Use(k, End(r))])
  {
  }

  lemma RecordPublished(k: Key, r: Slice, all: seq<Counter>, published: set<Published>,
      arrays: map<array<Counter>, Use>)
    requires AllSafe(published, arrays) && IsNext(k, r, all, arrays)
    ensures AllSafe(published + {Published(r, Newest(all))}, arrays[r.data := Use(k, End(r))])
  {
  }

  function RatesIn(rates: map<Key, seq<Counter>>, k: Key): seq<Counter> {
    if k in rates then rates[k] else []
  }

  /** The history maps of both directions in one: `rxHistory` and `txHistory` are
      its entries for the two directions. */
  class Histories {
    var slices: map<Key, Slice>
    /** Every rate ever appended, every slice ever handed out, every array. */
    ghost var rates: map<Key, seq<Counter>>
    ghost var published: set<Published>
    ghost var arrays: map<array<Counter>, Use>

    ghost predicate Valid()
      reads this, arrays.Keys
    {
      HistoriesBut(None, slices, rates, arrays) && AllSafe(published, arrays)
    }

    constructor ()
      ensures Valid() && slices == map[] && rates == map[] && published == {} && arrays == map[]
    {
      slices, rates, published, arrays := map[], map[], {}, map[];
    }

    /** The rates of an interface so far. */
    ghost function RatesOf(k: Key): seq<Counter>
      reads this
    {
      RatesIn(rates, k)
    }

    /** Appends, keeps the newest sixty, stores and hands out. Every slice handed out
        before still holds what it held. */
    method Push(k: Key, rate: Counter) returns (snapshot: Slice)
      requires Valid()
      modifies this, arrays.Keys
      ensures Valid() && fresh(arrays.Keys - old(arrays.Keys)) && old(arrays.Keys) <= arrays.Keys
      ensures rates == old(rates)[k := old(RatesOf(k)) + [rate]]
      ensures published == old(published) + {Published(snapshot, Newest(rates[k]))}
    {
      var s := Current(k);
      var r := Extend(k, s, rate);
      Record(k, r, rate);
      snapshot := r;
    }

    /** The slice to append to; nil, of no capacity, when there is none. */
    method Current(k: Key) returns (s: Slice)
      requires Valid()
      ensures Holds(s, Newest(RatesOf(k)))
      ensures if k in slices then s == slices[k] else fresh(s.data)
    {
      if k in slices { return slices[k]; }
      var none := new Counter[0];
      return Slice(none, 0, 0);
    }

    /** What `Extend` leaves to be stored: everything but the entry of `k` is in
        place, and `r` is what that entry becomes. */
    ghost predicate Extended(k: Key, r: Slice, rate: Counter)
      reads this, arrays.Keys, r.data
    {
      && HistoriesBut(Some(k), slices, rates, arrays) && AllSafe(published, arrays)
      && IsNext(k, r, RatesOf(k) + [rate], arrays)
    }

    /** Appends to the array behind `s` without disturbing what others see of it. */
    method Extend(k: Key, s: Slice, rate: Counter) returns (r: Slice)
      requires Valid() && Holds(s, Newest(RatesOf(k)))
      requires if k in slices then s == slices[k] else s.data !in arrays
      modifies s.data
      ensures Extended(k, r, rate) && (r.data == s.data || fresh(r.data))
    {
      ghost var before := s.data[..];
      r := AppendNewest(s, RatesOf(k), rate);
      forall n | n in slices && n != k ensures IsHistory(n, slices[n], rates[n], arrays) {
        assert slices[n].data != s.data;
      }
      forall p | p in published ensures IsSafe(p, arrays) {
        if p.slice.data == s.data {
          assert p.contents == before[p.slice.start..End(p.slice)];
          Undisturbed(before, s.data[..], End(s), p.slice);
        }
      }
    }

    method Record(k: Key, r: Slice, rate: Counter)
      requires Extended(k, r, rate)
      modifies this
      ensures Valid()
      ensures arrays.Keys == old(arrays.Keys) + {r.data}
      ensures rates == old(rates)[k := old(RatesOf(k)) + [rate]]
      ensures published == old(published) + {Published(r, Newest(rates[k]))}
    {
      ghost var all := RatesOf(k) + [rate];
      RecordHistory(k, r, all, slices, rates, arrays);
      RecordPublished(k, r, all, published, arrays);
      slices := slices[k := r];
      arrays := arrays[r.data := Use(k, End(r))];
      rates := rates[k := all];
      published := published + {Published(r, Newest(all))};
    }
  }
}
