/** What any document means for a struct: every field takes the members that name it, in
    order and in any case of letters, and nothing else counts. */
module CodecDocuments {
  import opened Wrappers
  import opened Codec

  /** A character of a key that stands for a character of a name: itself, its capital,
      the Kelvin sign for "k" or the long s for "s". */
  predicate StandsFor(c: char, d: char) {
    || c == d
    || ('a' <= d <= 'z' && c as int == d as int - 32)
    || (c == '\U{212A}' && d == 'k') || (c == '\U{017F}' && d == 's')
  }

  predicate Names(key: string, name: string) {
    |key| == |name| && forall i :: 0 <= i < |key| ==> StandsFor(key[i], name[i])
  }

  /** The values of the members that name a field. */
  function ValuesFor(members: seq<Member>, name: string): seq<Json> {
    if members == [] then []
    else (if Names(members[0].key, name) then [members[0].value] else []) + ValuesFor(members[1..], name)
  }

  /** One value decoded over another. */
  function DecodeAll(t: Type, cur: Val, values: seq<Json>): Option<Val>
    decreases |values|
  {
    if values == [] then Some(cur)
    else match Decode(t, cur, values[0]) case None => None case Some(v) => DecodeAll(t, v, values[1..])
  }

  lemma FoldIsNames(key: string, name: string)
    requires IsPlain(name)
    ensures Fold(key) == Fold(name) <==> Names(key, name)
  {
    PlainFolds(name);
    if Fold(key) == Fold(name) {
      forall i | 0 <= i < |key| ensures StandsFor(key[i], name[i]) {
        assert Fold(key)[i] == Fold(name)[i];
      }
    }
    if Names(key, name) {
      assert forall i :: 0 <= i < |key| ==> StandsFor(key[i], name[i]) && Fold(key)[i] == name[i];
    }
  }

  lemma {:induction false} FindIsNames(fields: seq<Field>, key: string)
    requires forall i :: 0 <= i < |fields| ==> IsPlain(fields[i].name)
    ensures match FindField(fields, key)
            case Some(k) => Names(key, fields[k].name) && forall i :: 0 <= i < k ==> !Names(key, fields[i].name)
            case None => forall i :: 0 <= i < |fields| ==> !Names(key, fields[i].name)
    decreases |fields|
  {
    if fields != [] {
      FoldIsNames(key, fields[0].name);
      FindIsNames(fields[1..], key);
    }
  }

  lemma NamesOne(key: string, a: string, b: string)
    requires IsPlain(a) && IsPlain(b) && Names(key, a) && Names(key, b)
    ensures a == b
  {
    FoldIsNames(key, a);
    FoldIsNames(key, b);
    PlainFolds(a);
    PlainFolds(b);
  }

  lemma FindIsOne(fields: seq<Field>, key: string, k: nat)
    requires DistinctNames(fields) && k < |fields|
    ensures FindField(fields, key) == Some(k) <==> Names(key, fields[k].name)
  {
    FindIsNames(fields, key);
    var f := FindField(fields, key);
    if f.Some? && Names(key, fields[k].name) { NamesOne(key, fields[f.value].name, fields[k].name); }
  }

  /** What the members make of field `k`. */
  function Made(fields: seq<Field>, cur: seq<Val>, members: seq<Member>, k: nat): Option<Val>
    requires |cur| == |fields| && k < |fields|
  {
    DecodeAll(fields[k].ty, cur[k], ValuesFor(members, fields[k].name))
  }

  /** A document decodes into a struct exactly when for each field the values that name it
      do, one over the other, and then the field is what they make of it. */
  lemma {:induction false} FieldByField(fields: seq<Field>, cur: seq<Val>, members: seq<Member>)
    requires DistinctNames(fields) && |cur| == |fields|
    ensures match DecodeFields(fields, cur, members)
            case Some(values) => forall k: nat :: k < |fields| ==> Made(fields, cur, members, k) == Some(values[k])
            case None => exists k: nat :: k < |fields| && Made(fields, cur, members, k).None?
    decreases members
  {
    if members != [] {
      var found := FindField(fields, members[0].key);
      match found
      case None =>
        FieldByField(fields, cur, members[1..]);
        forall k: nat | k < |fields| ensures Made(fields, cur, members, k) == Made(fields, cur, members[1..], k) {
          FindIsOne(fields, members[0].key, k);
          NotTaken(members, fields[k].name);
        }
      case Some(n) =>
        FindIsOne(fields, members[0].key, n);
        match Decode(fields[n].ty, cur[n], members[0].value) {
          case None => FirstFails(fields, cur, members, n);
          case Some(v) =>
            var cur', rest := cur[n := v], members[1..];
            FieldByField(fields, cur', rest);
            forall k: nat | k < |fields| ensures Made(fields, cur, members, k) == Made(fields, cur', rest, k) {
              FindIsOne(fields, members[0].key, k);
              FirstTaken(fields, cur, members, n, v, k);
            }
            if k: nat :| k < |fields| && Made(fields, cur', rest, k).None? {
              assert Made(fields, cur, members, k).None?;
            }
        }
    }
  }

  lemma NotTaken(members: seq<Member>, name: string)
    requires members != [] && !Names(members[0].key, name)
    ensures ValuesFor(members, name) == ValuesFor(members[1..], name)
  {
    assert [] + ValuesFor(members[1..], name) == ValuesFor(members[1..], name);
  }

  lemma FirstFails(fields: seq<Field>, cur: seq<Val>, members: seq<Member>, n: nat)
    requires |cur| == |fields| && n < |fields| && members != [] && Names(members[0].key, fields[n].name)
    requires Decode(fields[n].ty, cur[n], members[0].value).None?
    ensures Made(fields, cur, members, n).None?
  {
    var rest := ValuesFor(members[1..], fields[n].name);
    assert ValuesFor(members, fields[n].name) == [members[0].value] + rest;
  }

  lemma FirstTaken(fields: seq<Field>, cur: seq<Val>, members: seq<Member>, n: nat, v: Val, k: nat)
    requires |cur| == |fields| && members != [] && n < |fields| && k < |fields|
    requires Decode(fields[n].ty, cur[n], members[0].value) == Some(v)
    requires Names(members[0].key, fields[k].name) <==> k == n
    ensures Made(fields, cur, members, k) == Made(fields, cur[n := v], members[1..], k)
  {
    var rest := ValuesFor(members[1..], fields[k].name);
    if k == n {
      assert ValuesFor(members, fields[n].name) == [members[0].value] + rest;
      assert ([members[0].value] + rest)[1..] == rest;
    } else {
      NotTaken(members, fields[k].name);
    }
  }
}
