/** `sanitizeValue`: a bounded, censored copy of any JavaScript value, cyclic
    ones included. */
module Sanitize {

  /** Values; `Scalar` stands for numbers, booleans, big integers, symbols and
      functions, which are passed through. */
  datatype Value = Undefined | Null | Str(text: string) | Scalar(id: nat) | Ref(address: nat)

  datatype Prop = Prop(key: string, value: Value)

  /** An object with its own enumerable properties in order. */
  datatype Object = Arr(items: seq<Value>) | Rec(props: seq<Prop>)

  /** Objects may refer to each other in any way. */
  type Heap = nat -> Object

  /** What a sanitised value is: no object of it is shared. */
  datatype Tree = Leaf(value: Value) | Items(items: seq<Tree>) | Props(props: seq<Entry>)
  datatype Entry = Entry(key: string, tree: Tree)

  const MAX_DEPTH := "[Max Depth]"
  const REDACTED := "[REDACTED]"
  const TRUNCATED := "...[truncated]"
  const PROTO := "__proto__"

  // ---- Sensitive keys -------------------------------------------------------------------

  const FIELDS: seq<string> := ["password", "token", "secret", "key", "authorization", "cookie", "session"]

  /** Lower case, as far as it can yield ASCII letters: the capitals, the Kelvin
      sign and the dotted I. */
  function LowerChar(c: char): string {
    if 'A' <= c <= 'Z' then [c + ('a' - 'A')]
    else if c == '\U{212A}' then "k"
    else if c == '\U{0130}' then "i\U{0307}"
    else [c]
  }

  function Lower(s: string): string {
    if s == "" then "" else LowerChar(s[0]) + Lower(s[1..])
  }

  predicate Contains(s: string, part: string) {
    |s| >= |part| && (s[..|part|] == part || (s != "" && Contains(s[1..], part)))
  }

  predicate IsSensitive(key: string) {
    exists f :: f in FIELDS && Contains(Lower(key), f)
  }

  /** The text has this part somewhere. */
  ghost predicate Occurs(part: string, s: string) {
    exists before, after :: s == before + part + after
  }

  lemma {:induction false} ContainsIff(s: string, part: string)
    ensures Contains(s, part) <==> Occurs(part, s)
    decreases |s|
  {
    if |s| >= |part| && s[..|part|] == part {
      assert s == "" + part + s[|part|..];
    } else if s != "" {
      ContainsIff(s[1..], part);
      if before, after :| s[1..] == before + part + after {
        assert s == [s[0]] + before + part + after;
      }
      if before, after :| s == before + part + after {
        StartsLater(s, before, part, after);
      }
    }
  }

  lemma StartsLater(s: string, before: string, part: string, after: string)
    requires s == before + part + after && !(|s| >= |part| && s[..|part|] == part)
    ensures before != "" && s[1..] == before[1..] + part + after
  {
    assert (part + after)[..|part|] == part && "" + part + after == part + after;
    assert before[..1] + before[1..] == before;
    assert before[..1] + before[1..] + part + after == before[..1] + (before[1..] + part + after);
  }

  /** A key is sensitive exactly when one of seven words occurs in it in lower case. */
  lemma SensitiveIff(key: string)
    ensures IsSensitive(key) <==>
            exists w :: w in {"password", "token", "secret", "key", "authorization", "cookie", "session"}
                     && Occurs(w, Lower(key))
  {
    forall w ensures Contains(Lower(key), w) <==> Occurs(w, Lower(key)) {
      ContainsIff(Lower(key), w);
    }
    FieldsAre();
  }

  lemma FieldsAre()
    ensures forall w :: w in FIELDS <==>
              w in {"password", "token", "secret", "key", "authorization", "cookie", "session"}
  {
    var f := FIELDS;
    assert f[0] == "password" && f[1] == "token" && f[2] == "secret" && f[3] == "key";
    assert f[4] == "authorization" && f[5] == "cookie" && f[6] == "session";
    forall w | w in f ensures w in {"password", "token", "secret", "key", "authorization", "cookie", "session"} {
      var i :| 0 <= i < 7 && f[i] == w;
    }
  }

  lemma Regroup(x: string, y: string, z: string)
    ensures x + y + z == x + (y + z)
  {
  }

  lemma {:induction false} LowerAppend(a: string, b: string)
    ensures Lower(a + b) == Lower(a) + Lower(b)
  {
    if a == "" {
      assert a + b == b;
    } else {
      LowerAppend(a[1..], b);
      assert (a + b)[1..] == a[1..] + b;
      Regroup(LowerChar(a[0]), Lower(a[1..]), Lower(b));
    }
  }

  /** In whatever case the word is written, and whatever surrounds it. */
  lemma AnyCaseIsSensitive(before: string, word: string, after: string)
    requires Lower(word) in {"password", "token", "secret", "key", "authorization", "cookie", "session"}
    ensures IsSensitive(before + word + after)
  {
    LowerAppend(before + word, after);
    LowerAppend(before, word);
    assert Occurs(Lower(word), Lower(before) + Lower(word) + Lower(after));
    SensitiveIff(before + word + after);
  }

  // ---- Sanitising ------------------------------------------------------------------------

  function Truncate(s: string): string {
    if |s| > 1000 then s[..1000] + TRUNCATED else s
  }

  function Left(depth: nat): nat {
    if depth > 5 then 0 else 6 - depth
  }

  /** Terminates on every heap: the depth left decreases. */
  function SanitizeValue(h: Heap, v: Value, depth: nat): Tree
    decreases Left(depth), 0, 0
  {
    if depth > 5 then Leaf(Str(MAX_DEPTH))
    else match v
      case Str(s) => Leaf(Str(Truncate(s)))
      case Ref(a) =>
        (match h(a)
         case Arr(items) => Items(SanitizeItems(h, if |items| > 100 then items[..100] else items, depth + 1))
         case Rec(props) => Props(SanitizeProps(h, props, depth + 1)))
      case _ => Leaf(v)
  }

  function SanitizeItems(h: Heap, items: seq<Value>, depth: nat): (r: seq<Tree>)
    ensures |r| == |items|
    decreases Left(depth), 1, |items|
  {
    if items == [] then [] else [SanitizeValue(h, items[0], depth)] + SanitizeItems(h, items[1..], depth)
  }

  /** Assigning to "__proto__" creates no property. */
  function SanitizeProps(h: Heap, props: seq<Prop>, depth: nat): seq<Entry>
    decreases Left(depth), 1, |props|
  {
    if props == [] then []
    else
      var Prop(key, value) := props[0];
      var rest := SanitizeProps(h, props[1..], depth);
      if IsSensitive(key) then [Entry(key, Leaf(Str(REDACTED)))] + rest
      else if key == PROTO then rest
      else [Entry(key, SanitizeValue(h, value, depth))] + rest
  }

  // ---- What comes out ----------------------------------------------------------------------

  /** Bounded and censored, for a value found at this depth. */
  predicate Tidy(t: Tree, depth: nat)
    decreases t
  {
    if depth > 5 then t == Leaf(Str("[Max Depth]"))
    else match t
      case Leaf(Str(s)) => |s| <= 1000 || (|s| == 1014 && s[1000..] == "...[truncated]")
      case Leaf(Ref(_)) => false
      case Leaf(_) => true
      case Items(items) => |items| <= 100 && TidyItems(items, depth + 1)
      case Props(props) => TidyProps(props, depth + 1)
  }

  predicate TidyItems(items: seq<Tree>, depth: nat)
    decreases items
  {
    items == [] || (Tidy(items[0], depth) && TidyItems(items[1..], depth))
  }

  predicate TidyProps(props: seq<Entry>, depth: nat)
    decreases props
  {
    props == [] || (TidyEntry(props[0], depth) && TidyProps(props[1..], depth))
  }

  predicate TidyEntry(e: Entry, depth: nat)
    decreases e
  {
    if IsSensitive(e.key) then e.tree == Leaf(Str("[REDACTED]")) else e.key != "__proto__" && Tidy(e.tree, depth)
  }

  /** Whatever goes in, what comes out is tidy. */
  lemma {:induction false} OutputIsTidy(h: Heap, v: Value, depth: nat)
    ensures Tidy(SanitizeValue(h, v, depth), depth)
    decreases Left(depth), 0, 0
  {
    if depth <= 5 && v.Ref? {
      match h(v.address)
      case Arr(items) => ItemsAreTidy(h, if |items| > 100 then items[..100] else items, depth + 1);
      case Rec(props) => PropsAreTidy(h, props, depth + 1);
    }
  }

  lemma {:induction false} ItemsAreTidy(h: Heap, items: seq<Value>, depth: nat)
    ensures TidyItems(SanitizeItems(h, items, depth), depth)
    decreases Left(depth), 1, |items|
  {
    if items != [] {
      OutputIsTidy(h, items[0], depth);
      ItemsAreTidy(h, items[1..], depth);
    }
  }

  lemma {:induction false} PropsAreTidy(h: Heap, props: seq<Prop>, depth: nat)
    ensures TidyProps(SanitizeProps(h, props, depth), depth)
    decreases Left(depth), 1, |props|
  {
    if props != [] {
      PropsAreTidy(h, props[1..], depth);
      if !IsSensitive(props[0].key) { OutputIsTidy(h, props[0].value, depth); }
    }
  }

  // ---- What it shows -----------------------------------------------------------------------------

  /** The tree shows the value: a text's beginning, an array's first items in their
      places, all properties of an object but "__proto__", in order. */
  predicate Shows(h: Heap, v: Value, t: Tree)
    decreases t
  {
    t == Leaf(Str("[Max Depth]")) ||
    match t
    case Leaf(Str(s)) => v.Str? && (s == v.text || (|s| >= 1000 && |v.text| > 1000 && s[..1000] == v.text[..1000]))
    case Leaf(w) => v == w
    case Items(ts) =>
      && v.Ref? && h(v.address).Arr?
      && (|ts| == |h(v.address).items| || 100 == |ts| < |h(v.address).items|) && ShowsItems(h, h(v.address).items, ts)
    case Props(es) => v.Ref? && h(v.address).Rec? && ShowsProps(h, Ordinary(h(v.address).props), es)
  }

  predicate ShowsItems(h: Heap, items: seq<Value>, ts: seq<Tree>)
    decreases ts
  {
    ts == [] || (items != [] && Shows(h, items[0], ts[0]) && ShowsItems(h, items[1..], ts[1..]))
  }

  predicate ShowsProps(h: Heap, props: seq<Prop>, es: seq<Entry>)
    decreases es
  {
    && |props| == |es|
    && (es == [] || (props[0].key == es[0].key && ShowsEntry(h, props[0].value, es[0])
        && ShowsProps(h, props[1..], es[1..])))
  }

  predicate ShowsEntry(h: Heap, v: Value, e: Entry)
    decreases e
  {
    IsSensitive(e.key) || Shows(h, v, e.tree)
  }

  function Ordinary(props: seq<Prop>): seq<Prop> {
    if props == [] then []
    else (if props[0].key == "__proto__" && !IsSensitive(props[0].key) then [] else [props[0]]) + Ordinary(props[1..])
  }

  /** Whatever goes in, what comes out shows it. */
  lemma {:induction false} OutputShowsInput(h: Heap, v: Value, depth: nat)
    ensures Shows(h, v, SanitizeValue(h, v, depth))
    decreases Left(depth), 0, 0
  {
    if depth <= 5 {
      match v
      case Ref(a) =>
        match h(a) {
          case Arr(items) =>
            ItemsShow(h, items, if |items| > 100 then 100 else |items|, depth + 1);
            assert items[..|items|] == items;
          case Rec(props) => PropsShow(h, props, depth + 1);
        }
      case Str(s) => if |s| > 1000 { assert (s[..1000] + TRUNCATED)[..1000] == s[..1000]; }
      case _ =>
    }
  }

  lemma {:induction false} ItemsShow(h: Heap, items: seq<Value>, n: nat, depth: nat)
    requires n <= |items|
    ensures ShowsItems(h, items, SanitizeItems(h, items[..n], depth))
    decreases Left(depth), 1, n
  {
    if n > 0 {
      OutputShowsInput(h, items[0], depth);
      ItemsShow(h, items[1..], n - 1, depth);
      assert items[..n][1..] == items[1..][..n - 1];
    }
  }

  lemma {:induction false} PropsShow(h: Heap, props: seq<Prop>, depth: nat)
    ensures ShowsProps(h, Ordinary(props), SanitizeProps(h, props, depth))
    decreases Left(depth), 1, |props|
  {
    if props != [] {
      PropsShow(h, props[1..], depth);
      if !IsSensitive(props[0].key) { OutputShowsInput(h, props[0].value, depth); }
      var key, rest := props[0].key, SanitizeProps(h, props[1..], depth);
      if IsSensitive(key) {
        FirstShows(h, props, Entry(key, Leaf(Str(REDACTED))), rest);
      } else if key != PROTO {
        FirstShows(h, props, Entry(key, SanitizeValue(h, props[0].value, depth)), rest);
      } else {
        assert Ordinary(props) == Ordinary(props[1..]);
      }
    }
  }

  lemma {:induction false} FirstShows(h: Heap, props: seq<Prop>, first: Entry, rest: seq<Entry>)
    requires props != [] && ShowsProps(h, Ordinary(props[1..]), rest)
    requires !(props[0].key == PROTO && !IsSensitive(props[0].key))
    requires first.key == props[0].key && ShowsEntry(h, props[0].value, first)
    ensures ShowsProps(h, Ordinary(props), [first] + rest)
  {
    assert ([first] + rest)[1..] == rest;
    assert Ordinary(props) == [props[0]] + Ordinary(props[1..]);
    assert Ordinary(props)[1..] == Ordinary(props[1..]);
  }

  // ---- What stays --------------------------------------------------------------------------------

  /** The value is this tree, laid out in the heap in any way. */
  predicate Represents(h: Heap, v: Value, t: Tree)
    decreases t
  {
    match t
    case Leaf(w) => v == w && !v.Ref?
    case Items(ts) => v.Ref? && h(v.address).Arr? && RepresentsItems(h, h(v.address).items, ts)
    case Props(es) => v.Ref? && h(v.address).Rec? && RepresentsProps(h, h(v.address).props, es)
  }

  predicate RepresentsItems(h: Heap, items: seq<Value>, ts: seq<Tree>)
    decreases ts
  {
    |items| == |ts| && (ts == [] || (Represents(h, items[0], ts[0]) && RepresentsItems(h, items[1..], ts[1..])))
  }

  predicate RepresentsProps(h: Heap, props: seq<Prop>, es: seq<Entry>)
    decreases es
  {
    && |props| == |es|
    && (es == [] || (props[0].key == es[0].key && RepresentsEntry(h, props[0].value, es[0])
        && RepresentsProps(h, props[1..], es[1..])))
  }

  predicate RepresentsEntry(h: Heap, v: Value, e: Entry)
    decreases e
  {
    Represents(h, v, e.tree)
  }

  /** Sanitising changes nothing exactly when the value is tidy already. */
  lemma {:induction false} FixedIffTidy(h: Heap, v: Value, t: Tree, depth: nat)
    requires Represents(h, v, t)
    ensures SanitizeValue(h, v, depth) == t <==> Tidy(t, depth)
    decreases t
  {
    OutputIsTidy(h, v, depth);
    if depth <= 5 && Tidy(t, depth) {
      match t
      case Leaf(w) => if w.Str? && |w.text| > 1000 { assert w.text == w.text[..1000] + w.text[1000..]; }
      case Items(ts) => TidyItemsStay(h, h(v.address).items, ts, depth + 1);
      case Props(es) => TidyPropsStay(h, h(v.address).props, es, depth + 1);
    }
  }

  lemma {:induction false} TidyItemsStay(h: Heap, items: seq<Value>, ts: seq<Tree>, depth: nat)
    requires RepresentsItems(h, items, ts) && TidyItems(ts, depth)
    ensures SanitizeItems(h, items, depth) == ts
    decreases ts
  {
    if ts != [] {
      FixedIffTidy(h, items[0], ts[0], depth);
      TidyItemsStay(h, items[1..], ts[1..], depth);
    }
  }

  lemma {:induction false} TidyPropsStay(h: Heap, props: seq<Prop>, es: seq<Entry>, depth: nat)
    requires RepresentsProps(h, props, es) && TidyProps(es, depth)
    ensures SanitizeProps(h, props, depth) == es
    decreases es
  {
    if es != [] {
      FixedEntry(h, props[0].value, es[0], depth);
      TidyPropsStay(h, props[1..], es[1..], depth);
      assert es == [es[0]] + es[1..];
    }
  }

  lemma {:induction false} FixedEntry(h: Heap, v: Value, e: Entry, depth: nat)
    requires RepresentsEntry(h, v, e) && TidyEntry(e, depth)
    ensures !IsSensitive(e.key) ==> SanitizeValue(h, v, depth) == e.tree
    decreases e
  {
    if !IsSensitive(e.key) { FixedIffTidy(h, v, e.tree, depth); }
  }

  /** Sanitising twice is sanitising once, wherever the result is stored. */
  lemma Idempotent(h: Heap, v: Value, h': Heap, v': Value, depth: nat)
    requires Represents(h', v', SanitizeValue(h, v, depth))
    ensures SanitizeValue(h', v', depth) == SanitizeValue(h, v, depth)
  {
    OutputIsTidy(h, v, depth);
    FixedIffTidy(h', v', SanitizeValue(h, v, depth), depth);
  }

  // ---- What does not show ------------------------------------------------------------------------

  /** The objects that can be reached without passing a sensitive key. */
  type Open = nat -> bool

  predicate IsOpen(open: Open, v: Value) {
    v.Ref? ==> open(v.address)
  }

  /** Objects that differ only in what stands under sensitive keys. */
  predicate AlikeButSecrets(open: Open, o: Object, o': Object) {
    match (o, o')
    case (Arr(items), Arr(items')) => items == items' && forall i :: 0 <= i < |items| ==> IsOpen(open, items[i])
    case (Rec(props), Rec(props')) => AlikeProps(open, props, props')
    case _ => false
  }

  predicate AlikeProps(open: Open, props: seq<Prop>, props': seq<Prop>) {
    && |props| == |props'|
    && forall i :: 0 <= i < |props| ==>
         && props[i].key == props'[i].key
         && ((props[i].value == props'[i].value && IsOpen(open, props[i].value)) || IsSensitive(props[i].key))
  }

  ghost predicate AlikeHeaps(open: Open, h: Heap, h': Heap) {
    forall a :: open(a) ==> AlikeButSecrets(open, h(a), h'(a))
  }

  /** Neither what is stored under sensitive keys nor anything reachable only
      through them has an influence on the result. */
  lemma {:induction false} SecretsDoNotShow(open: Open, h: Heap, h': Heap, v: Value, depth: nat)
    requires AlikeHeaps(open, h, h') && IsOpen(open, v)
    ensures SanitizeValue(h, v, depth) == SanitizeValue(h', v, depth)
    decreases Left(depth), 0, 0
  {
    if depth <= 5 && v.Ref? {
      assert AlikeButSecrets(open, h(v.address), h'(v.address));
      match h(v.address)
      case Arr(items) => ItemsDoNotShow(open, h, h', if |items| > 100 then items[..100] else items, depth + 1);
      case Rec(props) => PropsDoNotShow(open, h, h', props, h'(v.address).props, depth + 1);
    }
  }

  lemma {:induction false} ItemsDoNotShow(open: Open, h: Heap, h': Heap, items: seq<Value>, depth: nat)
    requires AlikeHeaps(open, h, h') && forall i :: 0 <= i < |items| ==> IsOpen(open, items[i])
    ensures SanitizeItems(h, items, depth) == SanitizeItems(h', items, depth)
    decreases Left(depth), 1, |items|
  {
    if items != [] {
      SecretsDoNotShow(open, h, h', items[0], depth);
      ItemsDoNotShow(open, h, h', items[1..], depth);
    }
  }

  lemma {:induction false} PropsDoNotShow(open: Open, h: Heap, h': Heap, props: seq<Prop>, props': seq<Prop>,
      depth: nat)
    requires AlikeHeaps(open, h, h') && AlikeProps(open, props, props')
    ensures SanitizeProps(h, props, depth) == SanitizeProps(h', props', depth)
    decreases Left(depth), 1, |props|
  {
    if props != [] {
      PropsDoNotShow(open, h, h', props[1..], props'[1..], depth);
      if !IsSensitive(props[0].key) { SecretsDoNotShow(open, h, h', props[0].value, depth); }
    }
  }
}
