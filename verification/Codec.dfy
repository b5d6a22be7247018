/** JSON encoding and decoding of tagged Go structs: `omitempty`, keys matched
    without regard to case, unknown keys ignored, decoding into a base value. */
module Codec {
  import opened Wrappers

  // ---- Values, types and trees ------------------------------------------------------------

  /** A JSON document; `JFraction` stands for numbers that are no integers. */
  datatype Json =
    | JNull
    | JBool(flag: bool)
    | JInt(number: int)
    | JFraction
    | JString(text: string)
    | JArray(items: seq<Json>)
    | JObject(members: seq<Member>)

  datatype Member = Member(key: string, value: Json)

  datatype Type =
    | TString
    | TBool
    | TInt(lo: int, hi: int)
    | TSlice(elem: Type)
    | TStruct(fields: seq<Field>)

  /** A struct field with its tag. */
  datatype Field = Field(name: string, ty: Type, omitEmpty: bool)

  /** A Go value; a nil slice differs from an empty one. */
  datatype Val =
    | VString(text: string)
    | VBool(flag: bool)
    | VInt(number: int)
    | VNil
    | VSlice(items: seq<Val>)
    | VStruct(values: seq<Val>)

  predicate HasType(v: Val, t: Type)
    decreases v, t
  {
    match (v, t)
    case (VString(_), TString) => true
    case (VBool(_), TBool) => true
    case (VInt(n), TInt(lo, hi)) => lo <= n <= hi
    case (VNil, TSlice(_)) => true
    case (VSlice(items), TSlice(e)) => forall i :: 0 <= i < |items| ==> HasType(items[i], e)
    case (VStruct(values), TStruct(fields)) =>
      |values| == |fields| && forall i :: 0 <= i < |values| ==> HasType(values[i], fields[i].ty)
    case _ => false
  }

  /** The zero value of a type. */
  function Zero(t: Type): Val
    decreases t
  {
    match t
    case TString => VString("")
    case TBool => VBool(false)
    case TInt(_, _) => VInt(0)
    case TSlice(_) => VNil
    case TStruct(fields) => VStruct(ZeroFields(fields))
  }

  function ZeroFields(fields: seq<Field>): (zs: seq<Val>)
    ensures |zs| == |fields| && forall i :: 0 <= i < |zs| ==> zs[i] == Zero(fields[i].ty)
    decreases fields
  {
    seq(|fields|, i requires 0 <= i < |fields| => Zero(fields[i].ty))
  }

  /** What `omitempty` leaves out; a struct is never empty. */
  predicate IsEmpty(v: Val) {
    v == VString("") || v == VBool(false) || v == VInt(0) || v == VNil || v == VSlice([])
  }

  // ---- Encoding -----------------------------------------------------------------------------

  function Encode(t: Type, v: Val): Json
    requires HasType(v, t)
    decreases v, 1
  {
    match v
    case VString(s) => JString(s)
    case VBool(b) => JBool(b)
    case VInt(n) => JInt(n)
    case VNil => JNull
    case VSlice(items) => JArray(seq(|items|, i requires 0 <= i < |items| => Encode(t.elem, items[i])))
    case VStruct(values) => JObject(EncodeFields(t.fields, values))
  }

  function EncodeFields(fields: seq<Field>, values: seq<Val>): seq<Member>
    requires |values| == |fields| && forall i :: 0 <= i < |values| ==> HasType(values[i], fields[i].ty)
    decreases values, 0
  {
    if fields == [] then []
    else
      var rest := EncodeFields(fields[1..], values[1..]);
      if fields[0].omitEmpty && IsEmpty(values[0]) then rest
      else [Member(fields[0].name, Encode(fields[0].ty, values[0]))] + rest
  }

  // ---- Decoding -----------------------------------------------------------------------------

  /** Case folding of ASCII letters and the two signs that fold onto them. */
  function FoldChar(c: char): char {
    if 'A' <= c <= 'Z' then c + ('a' - 'A')
    else if c == '\U{212A}' then 'k'
    else if c == '\U{017F}' then 's'
    else c
  }

  function Fold(s: string): string {
    seq(|s|, i requires 0 <= i < |s| => FoldChar(s[i]))
  }

  /** The field a key denotes. */
  function FindField(fields: seq<Field>, key: string): (k: Option<nat>)
    ensures k.Some? ==> k.value < |fields|
    decreases |fields|
  {
    if fields == [] then None
    else if Fold(fields[0].name) == Fold(key) then Some(0)
    else match FindField(fields[1..], key) case None => None case Some(k) => Some(k + 1)
  }

  /** `Unmarshal` of `j` into a variable of type `t` holding `cur`; None is an
      error. Null leaves scalars and structs alone and makes a slice nil. */
  function Decode(t: Type, cur: Val, j: Json): Option<Val>
    decreases j, 1
  {
    match (t, j)
    case (TSlice(_), JNull) => Some(VNil)
    case (_, JNull) => Some(cur)
    case (TString, JString(s)) => Some(VString(s))
    case (TBool, JBool(b)) => Some(VBool(b))
    case (TInt(lo, hi), JInt(n)) => if lo <= n <= hi then Some(VInt(n)) else None
    case (TSlice(e), JArray(items)) =>
      (match DecodeItems(e, if cur.VSlice? then cur.items else [], items)
       case Some(values) => Some(VSlice(values))
       case None => None)
    case (TStruct(fields), JObject(members)) =>
      if cur.VStruct? && |cur.values| == |fields| then
        (match DecodeFields(fields, cur.values, members)
         case Some(values) => Some(VStruct(values))
         case None => None)
      else None
    case _ => None
  }

  /** Elements are decoded over those already in the slice, then over zeros. */
  function DecodeItems(e: Type, cur: seq<Val>, items: seq<Json>): Option<seq<Val>>
    decreases items, 0
  {
    if items == [] then Some([])
    else
      var head := Decode(e, if cur == [] then Zero(e) else cur[0], items[0]);
      var tail := DecodeItems(e, if cur == [] then [] else cur[1..], items[1..]);
      if head.Some? && tail.Some? then Some([head.value] + tail.value) else None
  }

  /** Members in order of appearance: a repeated key is decoded over the first. */
  function DecodeFields(fields: seq<Field>, cur: seq<Val>, members: seq<Member>): (r: Option<seq<Val>>)
    requires |cur| == |fields|
    ensures r.Some? ==> |r.value| == |fields|
    decreases members, 0
  {
    if members == [] then Some(cur)
    else
      match FindField(fields, members[0].key)
      case None => DecodeFields(fields, cur, members[1..])
      case Some(k) =>
        match Decode(fields[k].ty, cur[k], members[0].value)
        case None => None
        case Some(v) => DecodeFields(fields, cur[k := v], members[1..])
  }

  /** A document decoded into a fresh variable. */
  function DecodeNew(t: Type, j: Json): Option<Val> {
    Decode(t, Zero(t), j)
  }

  // ---- The round trip -------------------------------------------------------------------------

  /** Plain names that differ, at every level. */
  predicate WellFormed(t: Type)
    decreases t
  {
    match t
    case TSlice(e) => WellFormed(e)
    case TStruct(fields) => DistinctNames(fields) && forall i :: 0 <= i < |fields| ==> WellFormed(fields[i].ty)
    case _ => true
  }

  predicate IsPlain(name: string) {
    forall i :: 0 <= i < |name| ==> 'a' <= name[i] <= 'z' || name[i] == '_'
  }

  predicate DistinctNames(fields: seq<Field>) {
    && (forall i :: 0 <= i < |fields| ==> IsPlain(fields[i].name))
    && forall i, j :: 0 <= i < j < |fields| ==> fields[i].name != fields[j].name
  }

  /** What survives a round trip: a slice that is empty but not nil becomes nil
      where `omitempty` drops it. */
  function Normal(t: Type, v: Val): Val
    requires HasType(v, t)
    decreases v, 1
  {
    match v
    case VSlice(items) => VSlice(seq(|items|, i requires 0 <= i < |items| => Normal(t.elem, items[i])))
    case VStruct(values) => VStruct(seq(|values|, i requires 0 <= i < |values| => NormalField(t.fields[i], values[i])))
    case _ => v
  }

  function NormalField(f: Field, v: Val): Val
    requires HasType(v, f.ty)
    decreases v, 2
  {
    if f.omitEmpty && v == VSlice([]) then VNil else Normal(f.ty, v)
  }

  lemma PlainFolds(name: string)
    requires IsPlain(name)
    ensures Fold(name) == name
  {
  }

  lemma {:induction false} FindOwnField(fields: seq<Field>, k: nat)
    requires DistinctNames(fields) && k < |fields|
    ensures FindField(fields, fields[k].name) == Some(k)
    decreases |fields|
  {
    PlainFolds(fields[0].name);
    PlainFolds(fields[k].name);
    if k > 0 {
      var rest := fields[1..];
      assert forall i :: 0 <= i < |rest| ==> rest[i] == fields[i + 1];
      FindOwnField(rest, k - 1);
    }
  }

  lemma EmptyIsZero(t: Type, v: Val)
    requires HasType(v, t) && IsEmpty(v)
    ensures v == VSlice([]) || v == Zero(t)
    ensures v == VSlice([]) ==> Zero(t) == VNil
  {
  }

  /** Decoding what was encoded gives the normal form, for every type and every
      value of it. */
  lemma {:induction false} RoundTrip(t: Type, v: Val)
    requires WellFormed(t) && HasType(v, t)
    ensures DecodeNew(t, Encode(t, v)) == Some(Normal(t, v))
    decreases v, 1
  {
    match v
    case VSlice(items) =>
      ItemsRoundTrip(t.elem, items);
      assert Encode(t, v).items == EncodeItems(t.elem, items);
      assert Normal(t, v).items == NormalItems(t.elem, items);
    case VStruct(values) =>
      var zeros := ZeroFields(t.fields);
      assert NormalFields(t.fields, values)[..0] + zeros[0..] == zeros;
      FieldsRoundTrip(t.fields, values, 0, zeros);
      assert t.fields[0..] == t.fields && values[0..] == values;
    case _ =>
  }

  function EncodeItems(e: Type, items: seq<Val>): seq<Json>
    requires forall i :: 0 <= i < |items| ==> HasType(items[i], e)
  {
    seq(|items|, i requires 0 <= i < |items| => Encode(e, items[i]))
  }

  function NormalItems(e: Type, items: seq<Val>): seq<Val>
    requires forall i :: 0 <= i < |items| ==> HasType(items[i], e)
  {
    seq(|items|, i requires 0 <= i < |items| => Normal(e, items[i]))
  }

  function NormalFields(fields: seq<Field>, values: seq<Val>): seq<Val>
    requires |values| == |fields| && forall i :: 0 <= i < |values| ==> HasType(values[i], fields[i].ty)
  {
    seq(|values|, i requires 0 <= i < |values| => NormalField(fields[i], values[i]))
  }

  lemma {:induction false} ItemsRoundTrip(e: Type, items: seq<Val>)
    requires WellFormed(e) && forall i :: 0 <= i < |items| ==> HasType(items[i], e)
    ensures DecodeItems(e, [], EncodeItems(e, items)) == Some(NormalItems(e, items))
    decreases items, 0
  {
    if items != [] {
      RoundTrip(e, items[0]);
      ItemsRoundTrip(e, items[1..]);
      assert EncodeItems(e, items)[1..] == EncodeItems(e, items[1..]);
      assert NormalItems(e, items) == [Normal(e, items[0])] + NormalItems(e, items[1..]);
    }
  }

  /** After the first `n` fields their normal forms are in place and the rest
      is still zero. */
  lemma {:induction false} FieldsRoundTrip(fields: seq<Field>, values: seq<Val>, n: nat, cur: seq<Val>)
    requires DistinctNames(fields) && forall i :: 0 <= i < |fields| ==> WellFormed(fields[i].ty)
    requires |values| == |fields| && forall i :: 0 <= i < |values| ==> HasType(values[i], fields[i].ty)
    requires n <= |fields| && cur == NormalFields(fields, values)[..n] + ZeroFields(fields)[n..]
    ensures DecodeFields(fields, cur, EncodeFields(fields[n..], values[n..])) == Some(NormalFields(fields, values))
    decreases values[n..], 0
  {
    var normal, zeros := NormalFields(fields, values), ZeroFields(fields);
    if n == |fields| {
      assert cur == normal;
    } else {
      var f, v := fields[n], values[n];
      assert fields[n..][1..] == fields[n + 1..] && values[n..][1..] == values[n + 1..];
      var next := cur[n := normal[n]];
      assert next == normal[..n + 1] + zeros[n + 1..];
      FieldsRoundTrip(fields, values, n + 1, next);
      if f.omitEmpty && IsEmpty(v) {
        EmptyIsZero(f.ty, v);
        assert normal[n] == Zero(f.ty) && next == cur;
      } else {
        assert values[n..][0] == v;
        RoundTrip(f.ty, v);
        FindOwnField(fields, n);
        var members := EncodeFields(fields[n..], values[n..]);
        assert members[0] == Member(f.name, Encode(f.ty, v));
        assert members[1..] == EncodeFields(fields[n + 1..], values[n + 1..]);
        assert cur[n] == Zero(f.ty);
      }
    }
  }

  /** No slice under `omitempty` is empty without being nil. */
  predicate Clean(t: Type, v: Val)
    requires HasType(v, t)
    decreases v
  {
    match v
    case VSlice(items) => forall i :: 0 <= i < |items| ==> Clean(t.elem, items[i])
    case VStruct(values) =>
      forall i :: 0 <= i < |values| ==>
        !(t.fields[i].omitEmpty && values[i] == VSlice([])) && Clean(t.fields[i].ty, values[i])
    case _ => true
  }

  /** The round trip is exact precisely on clean values. */
  lemma {:induction false} NormalIffClean(t: Type, v: Val)
    requires HasType(v, t)
    ensures Normal(t, v) == v <==> Clean(t, v)
    decreases v
  {
    match v
    case VSlice(items) =>
      forall i | 0 <= i < |items| ensures Normal(t.elem, items[i]) == items[i] <==> Clean(t.elem, items[i]) {
        NormalIffClean(t.elem, items[i]);
      }
      var normal := Normal(t, v).items;
      assert normal == items <==> forall i :: 0 <= i < |items| ==> normal[i] == items[i];
    case VStruct(values) =>
      var normal := Normal(t, v).values;
      forall i | 0 <= i < |values|
        ensures normal[i] == values[i] <==>
                !(t.fields[i].omitEmpty && values[i] == VSlice([])) && Clean(t.fields[i].ty, values[i])
      {
        NormalIffClean(t.fields[i].ty, values[i]);
        assert normal[i] == NormalField(t.fields[i], values[i]);
      }
      assert normal == values <==> forall i :: 0 <= i < |values| ==> normal[i] == values[i];
    case _ =>
  }

  /** The normal form is typed, clean, and encodes to the same document. */
  lemma {:induction false} NormalIsClean(t: Type, v: Val)
    requires HasType(v, t)
    ensures HasType(Normal(t, v), t) && Clean(t, Normal(t, v))
    decreases v
  {
    match v
    case VSlice(items) =>
      forall i | 0 <= i < |items| ensures HasType(Normal(t.elem, items[i]), t.elem)
          && Clean(t.elem, Normal(t.elem, items[i])) {
        NormalIsClean(t.elem, items[i]);
      }
    case VStruct(values) =>
      var normal := Normal(t, v).values;
      forall i | 0 <= i < |values|
        ensures HasType(normal[i], t.fields[i].ty) && Clean(t.fields[i].ty, normal[i])
        ensures !(t.fields[i].omitEmpty && normal[i] == VSlice([]))
      {
        NormalIsClean(t.fields[i].ty, values[i]);
        assert normal[i] == NormalField(t.fields[i], values[i]);
      }
    case _ =>
  }

  /** Decoding yields typed values, whatever the document. */
  lemma {:induction false} DecodeTyped(t: Type, cur: Val, j: Json)
    requires HasType(cur, t) && ZerosTyped(t)
    ensures Decode(t, cur, j).Some? ==> HasType(Decode(t, cur, j).value, t)
    decreases j, 1
  {
    match (t, j)
    case (TSlice(e), JArray(items)) =>
      var before := if cur.VSlice? then cur.items else [];
      ItemsTyped(e, before, items);
      var r := DecodeItems(e, before, items);
      if r.Some? {
        assert Decode(t, cur, j) == Some(VSlice(r.value));
      }
    case (TStruct(fields), JObject(members)) => FieldsTyped(fields, cur.values, members);
    case _ =>
  }

  /** Integer ranges include zero, at every level. */
  predicate ZerosTyped(t: Type)
    decreases t
  {
    match t
    case TInt(lo, hi) => lo <= 0 <= hi
    case TSlice(e) => ZerosTyped(e)
    case TStruct(fields) => forall i :: 0 <= i < |fields| ==> ZerosTyped(fields[i].ty)
    case _ => true
  }

  lemma {:induction false} ZeroTyped(t: Type)
    requires ZerosTyped(t)
    ensures HasType(Zero(t), t)
    decreases t
  {
    if t.TStruct? {
      forall i | 0 <= i < |t.fields| ensures HasType(Zero(t.fields[i].ty), t.fields[i].ty) {
        ZeroTyped(t.fields[i].ty);
      }
    }
  }

  lemma {:induction false} ItemsTyped(e: Type, cur: seq<Val>, items: seq<Json>)
    requires ZerosTyped(e) && HasType(VSlice(cur), TSlice(e))
    ensures var r := DecodeItems(e, cur, items); r.Some? ==> HasType(VSlice(r.value), TSlice(e))
    decreases items, 0
  {
    if items != [] {
      ZeroTyped(e);
      var first, others := if cur == [] then Zero(e) else cur[0], if cur == [] then [] else cur[1..];
      DecodeTyped(e, first, items[0]);
      ItemsTyped(e, others, items[1..]);
      var tail, r := DecodeItems(e, others, items[1..]), DecodeItems(e, cur, items);
      if r.Some? {
        assert r.value[0] == Decode(e, first, items[0]).value;
        assert forall i :: 1 <= i < |r.value| ==> r.value[i] == tail.value[i - 1];
      }
    }
  }

  lemma {:induction false} FieldsTyped(fields: seq<Field>, cur: seq<Val>, members: seq<Member>)
    requires forall i :: 0 <= i < |fields| ==> ZerosTyped(fields[i].ty)
    requires |cur| == |fields| && forall i :: 0 <= i < |cur| ==> HasType(cur[i], fields[i].ty)
    ensures var r := DecodeFields(fields, cur, members);
            r.Some? ==> forall i :: 0 <= i < |fields| ==> HasType(r.value[i], fields[i].ty)
    decreases members, 0
  {
    if members != [] {
      match FindField(fields, members[0].key)
      case None => FieldsTyped(fields, cur, members[1..]);
      case Some(k) =>
        DecodeTyped(fields[k].ty, cur[k], members[0].value);
        match Decode(fields[k].ty, cur[k], members[0].value)
        case None =>
        case Some(v) => FieldsTyped(fields, cur[k := v], members[1..]);
    }
  }
}
