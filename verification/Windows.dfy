/** The child windows of the desktop page and their stacking order. */
module Windows {
  import opened Wrappers
  import opened Text

  /** The names of window kinds contain no dash. */
  type Kind = s: string | '-' !in s

  datatype Window = Window(id: string, kind: Kind, position: (int, int), size: (int, int), z: int, minimized: bool,
      maximized: bool)

  datatype Desktop = Desktop(windows: seq<Window>, active: string)

  datatype Event =
    | Focus(id: string)
    | Open(kind: Kind, stamp: nat)
    | Close(id: string)
    | ToggleMinimize(id: string)
    | ToggleMaximize(id: string)
    | Move(id: string, position: (int, int))
    | CloseAll

  /** Where a kind of window appears, and how large. */
  datatype Metadata = Metadata(position: (int, int), size: (int, int))
  type Catalogue = Kind -> Metadata

  // ---- The handlers -----------------------------------------------------------------------

  function IdOf(kind: Kind, stamp: nat): string {
    kind + "-" + Dec(stamp)
  }

  /** `Math.max` over the z-indexes and 1. */
  function Highest(ws: seq<Window>): (h: int)
    ensures h >= 1 && forall w :: w in ws ==> w.z <= h
  {
    if ws == [] then 1 else var h := Highest(ws[1..]); if ws[0].z > h then ws[0].z else h
  }

  function Update(ws: seq<Window>, id: string, f: Window -> Window): (r: seq<Window>)
    ensures |r| == |ws|
  {
    seq(|ws|, i requires 0 <= i < |ws| => if ws[i].id == id then f(ws[i]) else ws[i])
  }

  function FocusWindow(d: Desktop, id: string): Desktop {
    var z := Highest(d.windows) + 1;
    Desktop(Update(d.windows, id, (w: Window) => w.(z := z, minimized := false)), id)
  }

  function Find(ws: seq<Window>, kind: Kind): (r: Option<Window>)
    ensures r.Some? ==> r.value in ws && r.value.kind == kind
    ensures r.None? ==> forall w :: w in ws ==> w.kind != kind
  {
    if ws == [] then None else if ws[0].kind == kind then Some(ws[0]) else Find(ws[1..], kind)
  }

  /** The handler looks in the windows of the last rendering. */
  function OpenWindow(c: Catalogue, rendered: seq<Window>, d: Desktop, kind: Kind, stamp: nat): Desktop {
    match Find(rendered, kind)
    case Some(w) => FocusWindow(d, w.id)
    case None => Desktop(d.windows + [NewWindow(c, rendered, kind, stamp)], IdOf(kind, stamp))
  }

  function NewWindow(c: Catalogue, rendered: seq<Window>, kind: Kind, stamp: nat): Window {
    Window(IdOf(kind, stamp), kind, c(kind).position, c(kind).size, Highest(rendered) + 1, false, false)
  }

  function Filtered(ws: seq<Window>, id: string): seq<Window> {
    if ws == [] then []
    else if ws[0].id != id then [ws[0]] + Filtered(ws[1..], id)
    else Filtered(ws[1..], id)
  }

  function Next(c: Catalogue, d: Desktop, e: Event): Desktop {
    match e
    case Focus(id) => FocusWindow(d, id)
    case Open(kind, stamp) => OpenWindow(c, d.windows, d, kind, stamp)
    case Close(id) => d.(windows := Filtered(d.windows, id))
    case ToggleMinimize(id) => d.(windows := Update(d.windows, id, (w: Window) => w.(minimized := !w.minimized)))
    case ToggleMaximize(id) =>
      Desktop(Update(d.windows, id, (w: Window) => w.(maximized := !w.maximized, minimized := false)), id)
    case Move(id, position) => d.(windows := Update(d.windows, id, (w: Window) => w.(position := position)))
    case CloseAll => d.(windows := [])
  }

  const DASHBOARD: Kind := "dashboard"
  const INTERFACES: Kind := "interfaces"
  const TRAFFIC: Kind := "traffic"

  const INITIAL := Desktop([
    Window(IdOf(DASHBOARD, 1), DASHBOARD, (18, 16), (510, 470), 2, false, false),
    Window(IdOf(INTERFACES, 1), INTERFACES, (116, 74), (760, 410), 3, false, false),
    Window(IdOf(TRAFFIC, 1), TRAFFIC, (472, 52), (445, 430), 1, false, false)], IdOf(INTERFACES, 1))

  function Run(c: Catalogue, events: seq<Event>): Desktop
    decreases |events|
  {
    if events == [] then INITIAL else Next(c, Run(c, events[..|events| - 1]), events[|events| - 1])
  }

  // ---- The abstract list ---------------------------------------------------------------------

  /** The kind an id was made for. */
  function KindOf(id: string): string {
    Split(id, '-')[0]
  }

  function Without(order: seq<string>, id: string): seq<string> {
    if order == [] then []
    else if order[0] != id then [order[0]] + Without(order[1..], id)
    else Without(order[1..], id)
  }

  /** Move to front; the front is the end of the list. */
  function Raise(order: seq<string>, id: string): seq<string> {
    if id in order then Without(order, id) + [id] else order
  }

  function FindKind(order: seq<string>, kind: string): (r: Option<string>)
    ensures r.Some? ==> r.value in order && KindOf(r.value) == kind
    ensures r.None? ==> forall x :: x in order ==> KindOf(x) != kind
  {
    if order == [] then None else if KindOf(order[0]) == kind then Some(order[0]) else FindKind(order[1..], kind)
  }

  /** The ids from back to front, and what an event does to them. */
  function NextOrder(order: seq<string>, e: Event): seq<string> {
    match e
    case Focus(id) => Raise(order, id)
    case Open(kind, stamp) =>
      (match FindKind(order, kind)
       case Some(id) => Raise(order, id)
       case None => order + [IdOf(kind, stamp)])
    case Close(id) => Without(order, id)
    case CloseAll => []
    case _ => order
  }

  const INITIAL_ORDER := [IdOf(TRAFFIC, 1), IdOf(DASHBOARD, 1), IdOf(INTERFACES, 1)]

  function RunOrder(events: seq<Event>): seq<string>
    decreases |events|
  {
    if events == [] then INITIAL_ORDER else NextOrder(RunOrder(events[..|events| - 1]), events[|events| - 1])
  }

  // ---- The invariant -------------------------------------------------------------------------------

  /** Ids carry their kinds; kinds and z-indexes are pairwise distinct, and so are
      ids. */
  predicate Inv(ws: seq<Window>) {
    && (forall w :: w in ws ==> KindOf(w.id) == w.kind)
    && forall i, j :: 0 <= i < j < |ws| ==> Apart(ws[i], ws[j])
  }

  predicate Apart(a: Window, b: Window) {
    a.kind != b.kind && a.id != b.id && a.z != b.z
  }

  /** The z-index of every id. */
  function Heights(ws: seq<Window>): map<string, int> {
    if ws == [] then map[] else Heights(ws[1..])[ws[0].id := ws[0].z]
  }

  /** The list is in ascending order of height. */
  predicate Ascending(order: seq<string>, heights: map<string, int>) {
    order == [] ||
    (&& order[0] in heights && (forall x :: x in order[1..] ==> x in heights && heights[order[0]] < heights[x])
     && Ascending(order[1..], heights))
  }

  /** `order` is what sorting the windows by z-index gives. */
  ghost predicate Stacked(ws: seq<Window>, order: seq<string>) {
    Ascending(order, Heights(ws)) && forall id :: id in Heights(ws) ==> id in order
  }

  /** There is only one such list. */
  lemma {:induction false} OrderIsUnique(heights: map<string, int>, a: seq<string>, b: seq<string>)
    requires Ascending(a, heights) && Ascending(b, heights)
    requires forall x :: x in a <==> x in b
    ensures a == b
    decreases |a|
  {
    if b != [] { assert b[0] in b; }
    if a != [] {
      assert a[0] in a;
      assert a[0] == b[0];
      forall x ensures x in a[1..] <==> x in b[1..] {
        assert x in a <==> x == a[0] || x in a[1..];
        assert x in b <==> x == b[0] || x in b[1..];
      }
      OrderIsUnique(heights, a[1..], b[1..]);
      assert a == [a[0]] + a[1..] && b == [b[0]] + b[1..];
    }
  }

  // ---- Heights under the handlers -----------------------------------------------------------------

  lemma {:induction false} HeightsOf(ws: seq<Window>, w: Window)
    requires Inv(ws) && w in ws
    ensures w.id in Heights(ws) && Heights(ws)[w.id] == w.z
  {
    if w != ws[0] {
      assert Inv(ws[1..]);
      HeightsOf(ws[1..], w);
    }
  }

  lemma {:induction false} HeightsBelow(ws: seq<Window>, id: string)
    requires id in Heights(ws)
    ensures Heights(ws)[id] <= Highest(ws)
  {
    if ws[0].id != id { HeightsBelow(ws[1..], id); }
  }

  lemma {:induction false} HeightsSame(ws: seq<Window>, ws': seq<Window>)
    requires |ws| == |ws'| && forall i :: 0 <= i < |ws| ==> ws[i].id == ws'[i].id && ws[i].z == ws'[i].z
    ensures Heights(ws) == Heights(ws')
  {
    if ws != [] { HeightsSame(ws[1..], ws'[1..]); }
  }

  lemma {:induction false} HeightsRaised(ws: seq<Window>, id: string, f: Window -> Window, z: int)
    requires forall w :: f(w).id == w.id && f(w).z == z
    ensures Heights(Update(ws, id, f)) == if id in Heights(ws) then Heights(ws)[id := z] else Heights(ws)
  {
    if ws != [] {
      HeightsRaised(ws[1..], id, f, z);
      var rest, rest' := Heights(ws[1..]), Heights(Update(ws[1..], id, f));
      assert Update(ws, id, f)[1..] == Update(ws[1..], id, f);
      var first := ws[0];
      if first.id == id {
        assert Heights(Update(ws, id, f)) == rest'[id := z];
        assert rest'[id := z] == rest[id := first.z][id := z];
      } else {
        assert Heights(Update(ws, id, f)) == rest'[first.id := first.z];
        assert rest[id := z][first.id := first.z] == rest[first.id := first.z][id := z];
      }
    }
  }

  lemma {:induction false} HeightsFiltered(ws: seq<Window>, id: string)
    ensures Heights(Filtered(ws, id)) == Heights(ws) - {id}
  {
    if ws != [] { HeightsFiltered(ws[1..], id); }
  }

  lemma {:induction false} HeightsAppended(ws: seq<Window>, w: Window)
    requires w.id !in Heights(ws)
    ensures Heights(ws + [w]) == Heights(ws)[w.id := w.z]
  {
    if ws == [] {
      assert ws + [w] == [w] && [w][1..] == [];
    } else {
      HeightsAppended(ws[1..], w);
      assert (ws + [w])[1..] == ws[1..] + [w];
    }
  }

  // ---- Lists under move-to-front ---------------------------------------------------------------------

  lemma {:induction false} WithoutHas(order: seq<string>, id: string)
    ensures forall x :: x in Without(order, id) <==> x in order && x != id
  {
    if order != [] {
      WithoutHas(order[1..], id);
      assert forall x :: x in order <==> x == order[0] || x in order[1..];
    }
  }

  lemma {:induction false} AscendingWithout(order: seq<string>, heights: map<string, int>, id: string)
    requires Ascending(order, heights)
    ensures Ascending(Without(order, id), heights - {id})
  {
    if order != [] {
      AscendingWithout(order[1..], heights, id);
      WithoutHas(order[1..], id);
    }
  }

  lemma {:induction false} AscendingFrame(order: seq<string>, heights: map<string, int>, heights': map<string, int>)
    requires Ascending(order, heights)
    requires forall x :: x in order ==> x in heights' && heights'[x] == heights[x]
    ensures Ascending(order, heights')
  {
    if order != [] {
      assert order[0] in order && forall x :: x in order[1..] ==> x in order;
      AscendingFrame(order[1..], heights, heights');
    }
  }

  lemma {:induction false} AscendingAppend(order: seq<string>, heights: map<string, int>, id: string)
    requires Ascending(order, heights) && id in heights
    requires forall x :: x in order ==> x in heights && heights[x] < heights[id]
    ensures Ascending(order + [id], heights)
  {
    if order == [] {
      assert order + [id] == [id] && [id][1..] == [];
    } else {
      assert (order + [id])[1..] == order[1..] + [id];
      AscendingAppend(order[1..], heights, id);
      assert order[0] in order;
    }
  }

  lemma {:induction false} AscendingHas(order: seq<string>, heights: map<string, int>)
    requires Ascending(order, heights)
    ensures forall x :: x in order ==> x in heights
  {
    if order != [] {
      AscendingHas(order[1..], heights);
      assert forall x :: x in order <==> x == order[0] || x in order[1..];
    }
  }

  /** Raising to a new height above all others. */
  lemma RaiseToTop(order: seq<string>, heights: map<string, int>, id: string, z: int)
    requires Ascending(order, heights) && id in order && forall x :: x in heights ==> heights[x] < z
    ensures Ascending(Raise(order, id), heights[id := z])
    ensures forall x :: x in Raise(order, id) <==> x in order
  {
    AscendingWithout(order, heights, id);
    AscendingHas(order, heights);
    WithoutHas(order, id);
    AscendingFrame(Without(order, id), heights - {id}, heights[id := z]);
    AscendingAppend(Without(order, id), heights[id := z], id);
  }

  // ---- Each handler keeps the invariant and refines its abstract step ----------------------------------

  lemma {:induction false} WindowOf(ws: seq<Window>, id: string) returns (w: Window)
    requires id in Heights(ws)
    ensures w in ws && w.id == id
  {
    if ws[0].id == id { w := ws[0]; } else { w := WindowOf(ws[1..], id); }
  }

  lemma {:induction false} FilteredHas(ws: seq<Window>, id: string)
    ensures forall w :: w in Filtered(ws, id) <==> w in ws && w.id != id
  {
    if ws != [] {
      FilteredHas(ws[1..], id);
      assert forall w :: w in ws <==> w == ws[0] || w in ws[1..];
    }
  }

  lemma {:induction false} FilteredKeepsInv(ws: seq<Window>, id: string)
    requires Inv(ws)
    ensures Inv(Filtered(ws, id))
  {
    if ws != [] {
      assert Inv(ws[1..]) by { assert forall w :: w in ws[1..] ==> w in ws; }
      FilteredKeepsInv(ws[1..], id);
      FilteredHas(ws, id);
      FilteredHas(ws[1..], id);
      var rest := Filtered(ws[1..], id);
      forall j | 0 <= j < |rest| ensures Apart(ws[0], rest[j]) {
        assert rest[j] in ws[1..];
      }
    }
  }

  lemma UpdatedKeepsInv(ws: seq<Window>, id: string, f: Window -> Window)
    requires Inv(ws) && forall w :: f(w).id == w.id && f(w).kind == w.kind
    requires (forall w :: f(w).z == w.z) || (forall w, v :: v in ws ==> f(w).z > v.z)
    ensures Inv(Update(ws, id, f))
  {
    var r := Update(ws, id, f);
    forall i, j | 0 <= i < j < |r| ensures Apart(r[i], r[j]) {
      assert Apart(ws[i], ws[j]) && ws[i] in ws && ws[j] in ws;
    }
    forall w | w in r ensures KindOf(w.id) == w.kind {
      var i :| 0 <= i < |r| && r[i] == w;
      assert ws[i] in ws;
    }
  }

  lemma FocusRefines(d: Desktop, order: seq<string>, id: string)
    requires Inv(d.windows) && Stacked(d.windows, order)
    ensures var d' := FocusWindow(d, id); Inv(d'.windows) && Stacked(d'.windows, Raise(order, id))
  {
    var z := Highest(d.windows) + 1;
    var f := (w: Window) => w.(z := z, minimized := false);
    UpdatedKeepsInv(d.windows, id, f);
    HeightsRaised(d.windows, id, f, z);
    AscendingHas(order, Heights(d.windows));
    if id in order {
      forall x | x in Heights(d.windows) ensures Heights(d.windows)[x] < z { HeightsBelow(d.windows, x); }
      RaiseToTop(order, Heights(d.windows), id, z);
    }
  }

  lemma SameRefines(ws: seq<Window>, order: seq<string>, id: string, f: Window -> Window)
    requires Inv(ws) && Stacked(ws, order)
    requires forall w :: f(w).id == w.id && f(w).kind == w.kind && f(w).z == w.z
    ensures Inv(Update(ws, id, f)) && Stacked(Update(ws, id, f), order)
  {
    UpdatedKeepsInv(ws, id, f);
    HeightsSame(ws, Update(ws, id, f));
  }

  lemma CloseRefines(ws: seq<Window>, order: seq<string>, id: string)
    requires Inv(ws) && Stacked(ws, order)
    ensures Inv(Filtered(ws, id)) && Stacked(Filtered(ws, id), Without(order, id))
  {
    FilteredKeepsInv(ws, id);
    HeightsFiltered(ws, id);
    AscendingWithout(order, Heights(ws), id);
    WithoutHas(order, id);
  }

  lemma KindOfId(kind: Kind, stamp: nat)
    ensures KindOf(IdOf(kind, stamp)) == kind
  {
    SplitCons(kind, '-', Dec(stamp));
    assert IdOf(kind, stamp) == kind + ['-'] + Dec(stamp);
  }

  /** A new window keeps the invariant exactly when its kind is not open and no
      window has its z-index; if so, it goes on top provided it is highest. */
  lemma AppendKeepsInvIff(ws: seq<Window>, w: Window)
    requires Inv(ws) && KindOf(w.id) == w.kind
    ensures Inv(ws + [w]) <==> forall v :: v in ws ==> v.kind != w.kind && v.z != w.z
  {
    var r := ws + [w];
    if forall v :: v in ws ==> v.kind != w.kind && v.z != w.z {
      forall i, j | 0 <= i < j < |r| ensures Apart(r[i], r[j]) {
        assert r[i] in ws;
        assert KindOf(r[i].id) == r[i].kind;
        if j < |ws| { assert Apart(ws[i], ws[j]); }
      }
    } else {
      var i :| 0 <= i < |ws| && !(ws[i].kind != w.kind && ws[i].z != w.z);
      assert r[i] == ws[i] && r[|ws|] == w && !Apart(r[i], r[|ws|]);
    }
  }

  lemma AppendRefines(ws: seq<Window>, order: seq<string>, w: Window)
    requires Inv(ws) && Stacked(ws, order) && KindOf(w.id) == w.kind
    requires forall v :: v in ws ==> v.kind != w.kind && v.z < w.z
    ensures Inv(ws + [w]) && Stacked(ws + [w], order + [w.id])
  {
    AppendKeepsInvIff(ws, w);
    AscendingHas(order, Heights(ws));
    forall x | x in Heights(ws) ensures Heights(ws)[x] < w.z && x != w.id {
      var v := WindowOf(ws, x);
      HeightsOf(ws, v);
    }
    HeightsAppended(ws, w);
    AscendingFrame(order, Heights(ws), Heights(ws + [w]));
    AscendingAppend(order, Heights(ws + [w]), w.id);
  }

  /** Looking a kind up among the windows and in the list comes to the same. */
  lemma FindAgrees(ws: seq<Window>, order: seq<string>, kind: Kind)
    requires Inv(ws) && Stacked(ws, order)
    ensures FindKind(order, kind) == match Find(ws, kind) case None => None case Some(w) => Some(w.id)
  {
    var found := FindKind(order, kind);
    AscendingHas(order, Heights(ws));
    if found.Some? {
      var v := WindowOf(ws, found.value);
      if Find(ws, kind).Some? { KindIsUnique(ws, v, Find(ws, kind).value); }
    }
    if Find(ws, kind).Some? { HeightsOf(ws, Find(ws, kind).value); }
  }

  lemma KindIsUnique(ws: seq<Window>, v: Window, w: Window)
    requires Inv(ws) && v in ws && w in ws && v.kind == w.kind
    ensures v == w
  {
    var i :| 0 <= i < |ws| && ws[i] == v;
    var j :| 0 <= j < |ws| && ws[j] == w;
    assert i < j ==> Apart(ws[i], ws[j]);
    assert j < i ==> Apart(ws[j], ws[i]);
  }

  lemma OpenRefines(c: Catalogue, d: Desktop, order: seq<string>, kind: Kind, stamp: nat)
    requires Inv(d.windows) && Stacked(d.windows, order)
    ensures var d' := OpenWindow(c, d.windows, d, kind, stamp);
            Inv(d'.windows) && Stacked(d'.windows, NextOrder(order, Open(kind, stamp)))
  {
    FindAgrees(d.windows, order, kind);
    match Find(d.windows, kind)
    case Some(w) => FocusRefines(d, order, w.id);
    case None =>
      KindOfId(kind, stamp);
      AppendRefines(d.windows, order, NewWindow(c, d.windows, kind, stamp));
  }

  lemma StepRefines(c: Catalogue, d: Desktop, order: seq<string>, e: Event)
    requires Inv(d.windows) && Stacked(d.windows, order)
    ensures Inv(Next(c, d, e).windows) && Stacked(Next(c, d, e).windows, NextOrder(order, e))
  {
    match e
    case Focus(id) => FocusRefines(d, order, id);
    case Open(kind, stamp) => OpenRefines(c, d, order, kind, stamp);
    case Close(id) => CloseRefines(d.windows, order, id);
    case ToggleMinimize(id) => SameRefines(d.windows, order, id, (w: Window) => w.(minimized := !w.minimized));
    case ToggleMaximize(id) => SameRefines(d.windows, order, id,
        (w: Window) => w.(maximized := !w.maximized, minimized := false));
    case Move(id, position) => SameRefines(d.windows, order, id, (w: Window) => w.(position := position));
    case CloseAll =>
  }

  lemma InitialIsStacked()
    ensures Inv(INITIAL.windows) && Stacked(INITIAL.windows, INITIAL_ORDER)
  {
    KindOfId(DASHBOARD, 1);
    KindOfId(INTERFACES, 1);
    KindOfId(TRAFFIC, 1);
    KindsDiffer();
    ThreeStacked(INITIAL.windows[0], INITIAL.windows[1], INITIAL.windows[2]);
  }

  lemma KindsDiffer()
    ensures DASHBOARD != INTERFACES && DASHBOARD != TRAFFIC && INTERFACES != TRAFFIC
  {
    assert DASHBOARD[0] == 'd' && INTERFACES[0] == 'i' && TRAFFIC[0] == 't';
  }

  lemma ThreeStacked(a: Window, b: Window, c: Window)
    requires c.z < a.z < b.z && Apart(a, b) && Apart(a, c) && Apart(b, c)
    ensures Stacked([a, b, c], [c.id, a.id, b.id])
  {
    assert [a, b, c][1..] == [b, c] && [b, c][1..] == [c] && [c][1..] == [];
    var h := Heights([a, b, c]);
    assert Heights([]) == map[];
    assert Heights([c]) == map[][c.id := c.z];
    assert Heights([b, c]) == Heights([c])[b.id := b.z];
    assert h == Heights([b, c])[a.id := a.z];
    assert [c.id, a.id, b.id][1..] == [a.id, b.id] && [a.id, b.id][1..] == [b.id] && [b.id][1..] == [];
    assert Ascending([b.id], h);
    assert Ascending([a.id, b.id], h);
  }

  /** In every reachable state ids, kinds and z-indexes are distinct, and the
      windows sorted by z-index are the abstract list. */
  lemma {:induction false} RunRefines(c: Catalogue, events: seq<Event>)
    ensures Inv(Run(c, events).windows) && Stacked(Run(c, events).windows, RunOrder(events))
    decreases |events|
  {
    if events == [] {
      InitialIsStacked();
    } else {
      RunRefines(c, events[..|events| - 1]);
      StepRefines(c, Run(c, events[..|events| - 1]), RunOrder(events[..|events| - 1]), events[|events| - 1]);
    }
  }

  // ---- What does not change, and what is undone ----------------------------------------------------------

  /** The window an event is about. */
  function Subject(order: seq<string>, e: Event): string {
    match e
    case Open(kind, stamp) => (match FindKind(order, kind) case Some(id) => id case None => IdOf(kind, stamp))
    case CloseAll => ""
    case _ => e.id
  }

  lemma {:induction false} WithoutAppend(order: seq<string>, x: string, id: string)
    ensures Without(order + [x], id) == Without(order, id) + if x == id then [] else [x]
  {
    if order == [] {
      assert order + [x] == [x] && [x][1..] == [];
    } else {
      assert (order + [x])[1..] == order[1..] + [x];
      WithoutAppend(order[1..], x, id);
    }
  }

  lemma {:induction false} WithoutAbsent(order: seq<string>, id: string)
    requires id !in order
    ensures Without(order, id) == order
  {
    if order != [] {
      assert order[0] in order && id !in order[1..];
      WithoutAbsent(order[1..], id);
    }
  }

  /** All other windows keep their relative order. */
  lemma OthersKeepOrder(order: seq<string>, e: Event)
    requires !e.CloseAll?
    ensures Without(NextOrder(order, e), Subject(order, e)) == Without(order, Subject(order, e))
  {
    var id := Subject(order, e);
    WithoutHas(order, id);
    WithoutAbsent(Without(order, id), id);
    WithoutAppend(Without(order, id), id, id);
    WithoutAppend(order, id, id);
  }

  /** All other windows stay exactly as they are. */
  lemma OthersStay(c: Catalogue, d: Desktop, order: seq<string>, e: Event, w: Window)
    requires Inv(d.windows) && Stacked(d.windows, order) && !e.CloseAll?
    requires w in d.windows && w.id != Subject(order, e)
    ensures w in Next(c, d, e).windows
  {
    FilteredHas(d.windows, Subject(order, e));
    var i :| 0 <= i < |d.windows| && d.windows[i] == w;
    match e
    case Open(kind, stamp) =>
      FindAgrees(d.windows, order, kind);
      assert Next(c, d, e).windows[i] == w;
    case Close(_) =>
    case CloseAll =>
    case _ => assert Next(c, d, e).windows[i] == w;
  }

  /** Which event may change which field of a window, and to what. */
  lemma FieldsAfter(c: Catalogue, d: Desktop, order: seq<string>, e: Event, w: Window, w': Window)
    requires Inv(d.windows) && Stacked(d.windows, order)
    requires w in d.windows && w' in Next(c, d, e).windows && w'.id == w.id
    ensures w'.kind == w.kind && w'.size == w.size
    ensures w'.position == if e.Move? && e.id == w.id then e.position else w.position
    ensures w'.maximized == (w.maximized != (e == ToggleMaximize(w.id)))
    ensures w'.minimized == if e == ToggleMinimize(w.id) then !w.minimized
                            else
                              w.minimized && !((e.Focus? || e.Open? || e.ToggleMaximize?) && w.id == Subject(order, e))
  {
    match e
    case Open(kind, stamp) =>
      FindAgrees(d.windows, order, kind);
      match Find(d.windows, kind) {
        case Some(v) =>
          var f := (u: Window) => u.(z := Highest(d.windows) + 1, minimized := false);
          UpdatedWindow(d.windows, v.id, f, w, w');
        case None =>
          KindOfId(kind, stamp);
          assert w' in d.windows;
          SameWindow(d.windows, w, w');
      }
    case Close(id) =>
      FilteredHas(d.windows, id);
      SameWindow(d.windows, w, w');
    case CloseAll =>
    case Focus(id) => UpdatedWindow(d.windows, id, (u: Window) => u.(z := Highest(d.windows) + 1, minimized := false),
        w, w');
    case ToggleMinimize(id) => UpdatedWindow(d.windows, id, (u: Window) => u.(minimized := !u.minimized), w, w');
    case ToggleMaximize(id) => UpdatedWindow(d.windows, id,
        (u: Window) => u.(maximized := !u.maximized, minimized := false), w, w');
    case Move(id, position) => UpdatedWindow(d.windows, id, (u: Window) => u.(position := position), w, w');
  }

  lemma UpdatedWindow(ws: seq<Window>, id: string, f: Window -> Window, w: Window, w': Window)
    requires Inv(ws) && w in ws && w' in Update(ws, id, f) && w'.id == w.id && forall u :: f(u).id == u.id
    ensures w' == if w.id == id then f(w) else w
  {
    var j :| 0 <= j < |ws| && Update(ws, id, f)[j] == w';
    SameWindow(ws, w, ws[j]);
  }

  lemma SameWindow(ws: seq<Window>, v: Window, w: Window)
    requires Inv(ws) && v in ws && w in ws && v.id == w.id
    ensures v == w
  {
    KindIsUnique(ws, v, w);
  }

  /** Minimising is undone by repeating it. */
  lemma MinimiseTwice(c: Catalogue, d: Desktop, id: string)
    ensures Next(c, Next(c, d, ToggleMinimize(id)), ToggleMinimize(id)) == d
  {
  }

  /** Closing a window just opened restores the others. */
  lemma OpenThenClose(c: Catalogue, d: Desktop, kind: Kind, stamp: nat)
    requires Inv(d.windows) && Find(d.windows, kind).None?
    ensures Next(c, Next(c, d, Open(kind, stamp)), Close(IdOf(kind, stamp))).windows == d.windows
  {
    KindOfId(kind, stamp);
    FilteredAppend(d.windows, NewWindow(c, d.windows, kind, stamp));
  }

  lemma {:induction false} FilteredAppend(ws: seq<Window>, w: Window)
    requires forall v :: v in ws ==> v.id != w.id
    ensures Filtered(ws + [w], w.id) == ws
  {
    if ws == [] {
      assert ws + [w] == [w] && [w][1..] == [];
    } else {
      assert (ws + [w])[1..] == ws[1..] + [w] && ws[0] in ws;
      FilteredAppend(ws[1..], w);
    }
  }

  // ---- The active window ------------------------------------------------------------------------------------

  predicate OnTop(order: seq<string>, id: string) {
    order != [] && order[|order| - 1] == id
  }

  /** Opening always, and focusing a window that exists, leaves the active window on top. */
  lemma OpenedIsOnTop(c: Catalogue, d: Desktop, order: seq<string>, e: Event)
    requires Inv(d.windows) && Stacked(d.windows, order)
    requires e.Open? || (e.Focus? && e.id in order)
    ensures Next(c, d, e).active == Subject(order, e) && OnTop(NextOrder(order, e), Subject(order, e))
  {
    if e.Open? { FindAgrees(d.windows, order, e.kind); }
  }

  /** When the active id has a window after an event, in terms of the list, the active
      id and the event. */
  predicate WillHaveWindow(order: seq<string>, active: string, e: Event) {
    match e
    case Focus(id) => id in order
    case Open(_, _) => true
    case Close(id) => active in order && active != id
    case ToggleMinimize(_) => active in order
    case ToggleMaximize(id) => id in order
    case Move(_, _) => active in order
    case CloseAll => false
  }

  /** When it is on top. Closing the topmost window uncovers the one below it. */
  predicate WillBeOnTop(order: seq<string>, active: string, e: Event) {
    match e
    case Focus(id) => id in order
    case Open(_, _) => true
    case Close(id) => OnTop(if OnTop(order, id) then order[..|order| - 1] else order, active)
    case ToggleMinimize(_) => OnTop(order, active)
    case ToggleMaximize(id) => OnTop(order, id)
    case Move(_, _) => OnTop(order, active)
    case CloseAll => false
  }

  /** For every event and every reachable kind of state, exactly. */
  lemma ActiveAfterIff(c: Catalogue, d: Desktop, order: seq<string>, e: Event)
    requires Inv(d.windows) && Stacked(d.windows, order)
    ensures Next(c, d, e).active in NextOrder(order, e) <==> WillHaveWindow(order, d.active, e)
    ensures OnTop(NextOrder(order, e), Next(c, d, e).active) <==> WillBeOnTop(order, d.active, e)
  {
    match e
    case Focus(id) => FocusedIff(order, id);
    case Open(kind, _) =>
      FindAgrees(d.windows, order, kind);
      if FindKind(order, kind).Some? { FocusedIff(order, FindKind(order, kind).value); }
    case Close(id) =>
      WithoutHas(order, id);
      TopWithout(order, Heights(d.windows), id);
    case _ =>
  }

  lemma FocusedIff(order: seq<string>, id: string)
    ensures id in Raise(order, id) <==> id in order
    ensures OnTop(Raise(order, id), id) <==> id in order
  {
  }

  /** What is on top once `id` is gone. */
  lemma {:induction false} TopWithout(order: seq<string>, heights: map<string, int>, id: string)
    requires Ascending(order, heights)
    ensures forall x ::
              OnTop(Without(order, id), x) <==> OnTop(if OnTop(order, id) then order[..|order| - 1] else order, x)
    decreases |order|
  {
    if order != [] {
      var init, last := order[..|order| - 1], order[|order| - 1];
      assert order == init + [last];
      WithoutAppend(init, last, id);
      if last == id {
        OnceIn(order, heights);
        WithoutAbsent(init, id);
      }
    }
  }

  /** The topmost id occurs once. */
  lemma {:induction false} OnceIn(order: seq<string>, heights: map<string, int>)
    requires Ascending(order, heights) && order != []
    ensures order[|order| - 1] !in order[..|order| - 1]
    decreases |order|
  {
    if |order| > 1 {
      OnceIn(order[1..], heights);
      assert order[..|order| - 1] == [order[0]] + order[1..][..|order| - 2];
      assert order[|order| - 1] in order[1..];
    }
  }

  /** The same for one more event after any run. */
  lemma NextActiveIff(c: Catalogue, events: seq<Event>, e: Event)
    ensures var d, order, more := Run(c, events), RunOrder(events), events + [e];
            && (Run(c, more).active in RunOrder(more) <==> WillHaveWindow(order, d.active, e))
            && (OnTop(RunOrder(more), Run(c, more).active) <==> WillBeOnTop(order, d.active, e))
  {
    assert (events + [e])[..|events|] == events;
    RunRefines(c, events);
    ActiveAfterIff(c, Run(c, events), RunOrder(events), e);
  }

  // ---- Over whole runs ------------------------------------------------------------------------

  /** Events that make a window active. */
  predicate Activates(e: Event) {
    e.Focus? || e.Open? || e.ToggleMaximize?
  }

  /** Some event from the `k`-th on closes this window. */
  predicate ClosedSince(events: seq<Event>, k: nat, id: string) {
    exists m :: k <= m < |events| && (events[m] == Close(id) || events[m].CloseAll?)
  }

  /** `x` is at place `i`, still open, and everything above it has been closed. */
  ghost predicate Uncovered(order: seq<string>, events: seq<Event>, k: nat, x: string, i: int) {
    0 <= i < |order| && order[i] == x && !ClosedSince(events, k, x) && forall j :: i < j < |order| ==>
        ClosedSince(events, k, order[j])
  }

  function Survivors(order: seq<string>, events: seq<Event>, k: nat): seq<string> {
    if order == [] then []
    else (if ClosedSince(events, k, order[0]) then [] else [order[0]]) + Survivors(order[1..], events, k)
  }

  ghost predicate QuietSince(events: seq<Event>, k: nat) {
    k <= |events| && forall m :: k <= m < |events| ==> !Activates(events[m])
  }

  /** While nothing is made active, the list only loses what is closed, and the active
      id stays. */
  lemma {:induction false} QuietOrder(events: seq<Event>, k: nat)
    requires QuietSince(events, k)
    ensures RunOrder(events) == Survivors(RunOrder(events[..k]), events, k)
    decreases |events|
  {
    if k == |events| {
      assert events[..k] == events;
      AllSurvive(RunOrder(events), events, k);
    } else {
      var init := events[..|events| - 1];
      assert init[..k] == events[..k];
      QuietOrder(init, k);
      MoreClosed(RunOrder(events[..k]), events, k);
    }
  }

  lemma {:induction false} QuietActive(c: Catalogue, events: seq<Event>, k: nat)
    requires QuietSince(events, k)
    ensures Run(c, events).active == Run(c, events[..k]).active
    decreases |events|
  {
    if k == |events| {
      assert events[..k] == events;
    } else {
      var init := events[..|events| - 1];
      assert init[..k] == events[..k];
      QuietActive(c, init, k);
    }
  }

  lemma {:induction false} AllSurvive(order: seq<string>, events: seq<Event>, k: nat)
    requires k >= |events|
    ensures Survivors(order, events, k) == order
  {
    if order != [] { AllSurvive(order[1..], events, k); }
  }

  lemma {:induction false} MoreClosed(order: seq<string>, events: seq<Event>, k: nat)
    requires k < |events| && !Activates(events[|events| - 1])
    ensures Survivors(order, events, k) == NextOrder(Survivors(order, events[..|events| - 1], k), events[|events| - 1])
  {
    if order != [] {
      var init, last, x := events[..|events| - 1], events[|events| - 1], order[0];
      MoreClosed(order[1..], events, k);
      ClosedNow(events, k, x);
      var rest := Survivors(order[1..], init, k);
      NextOrderHead(x, rest, last);
      assert [] + rest == rest && [] + NextOrder(rest, last) == NextOrder(rest, last);
    }
  }

  lemma NextOrderHead(x: string, rest: seq<string>, e: Event)
    requires !Activates(e)
    ensures NextOrder([x] + rest, e) == (if e == Close(x) || e.CloseAll? then [] else [x]) + NextOrder(rest, e)
  {
    assert ([x] + rest)[1..] == rest && [] + NextOrder(rest, e) == NextOrder(rest, e);
  }

  lemma ClosedNow(events: seq<Event>, k: nat, x: string)
    requires k < |events|
    ensures var last := events[|events| - 1];
            ClosedSince(events, k, x) <==>
              ClosedSince(events[..|events| - 1], k, x) || last == Close(x) || last.CloseAll?
  {
    var n := |events| - 1;
    var init := events[..n];
    if ClosedSince(init, k, x) {
      var m :| k <= m < n && (init[m] == Close(x) || init[m].CloseAll?);
      assert events[m] == init[m];
    }
    if ClosedSince(events, k, x) {
      var m :| k <= m < |events| && (events[m] == Close(x) || events[m].CloseAll?);
      assert m < n ==> init[m] == events[m];
    }
  }

  /** In every run, with `k` just after the last event that made a window active: the
      active id has a window exactly when it had one then and has not been closed
      since; and it is on top exactly when, besides, every window above it then has
      been closed since. */
  lemma ActiveIff(c: Catalogue, events: seq<Event>, k: nat)
    requires QuietSince(events, k)
    ensures var active, order := Run(c, events[..k]).active, RunOrder(events[..k]);
            && Run(c, events).active == active
            && (active in RunOrder(events) <==> active in order && !ClosedSince(events, k, active))
            && (OnTop(RunOrder(events), active) <==>
                  exists i :: Uncovered(order, events, k, active, i))
  {
    QuietOrder(events, k);
    QuietActive(c, events, k);
    SurvivorsHave(RunOrder(events[..k]), events, k);
    TopSurvivor(RunOrder(events[..k]), events, k, Run(c, events[..k]).active);
  }

  lemma {:induction false} SurvivorsHave(order: seq<string>, events: seq<Event>, k: nat)
    ensures forall x :: x in Survivors(order, events, k) <==> x in order && !ClosedSince(events, k, x)
  {
    if order != [] {
      SurvivorsHave(order[1..], events, k);
      assert forall x :: x in order <==> x == order[0] || x in order[1..];
    }
  }

  lemma {:induction false} TopSurvivor(order: seq<string>, events: seq<Event>, k: nat, x: string)
    ensures OnTop(Survivors(order, events, k), x) <==> exists i :: Uncovered(order, events, k, x, i)
  {
    if order != [] {
      var rest := order[1..];
      SurvivorsHave(rest, events, k);
      TopSurvivor(rest, events, k, x);
      if OnTop(Survivors(rest, events, k), x) {
        var i :| Uncovered(rest, events, k, x, i);
        assert Uncovered(order, events, k, x, i + 1);
      } else if OnTop(Survivors(order, events, k), x) {
        assert Survivors(rest, events, k) == [];
        assert forall j :: 0 < j < |order| ==> order[j] == rest[j - 1] && rest[j - 1] in rest;
        assert Uncovered(order, events, k, x, 0);
      }
      if i :| Uncovered(order, events, k, x, i) {
        UncoveredIsTop(order, events, k, x, i);
      }
    }
  }

  lemma UncoveredIsTop(order: seq<string>, events: seq<Event>, k: nat, x: string, i: int)
    requires Uncovered(order, events, k, x, i)
    ensures OnTop(Survivors(order, events, k), x)
    decreases |order|
  {
    var rest := order[1..];
    if i > 0 {
      assert Uncovered(rest, events, k, x, i - 1);
      UncoveredIsTop(rest, events, k, x, i - 1);
    } else {
      forall y | y in rest ensures ClosedSince(events, k, y) {
        var j :| 0 <= j < |rest| && rest[j] == y;
        assert order[j + 1] == y;
      }
      NoneSurvive(rest, events, k);
    }
  }

  lemma {:induction false} NoneSurvive(order: seq<string>, events: seq<Event>, k: nat)
    requires forall x :: x in order ==> ClosedSince(events, k, x)
    ensures Survivors(order, events, k) == []
  {
    if order != [] {
      assert order[0] in order && forall x :: x in order[1..] ==> x in order;
      NoneSurvive(order[1..], events, k);
    }
  }

  /** Closing leaves the active id without a window exactly when it was the one
      closed or had none before. */
  lemma CloseDanglesIff(c: Catalogue, d: Desktop, order: seq<string>, id: string)
    requires Inv(d.windows) && Stacked(d.windows, order)
    ensures var d' := Next(c, d, Close(id));
            d'.active == d.active && (d'.active in NextOrder(order, Close(id)) <==> d.active in order && d.active != id)
  {
    WithoutHas(order, id);
  }

  /** The run that shows the active id may dangle, and the one that shows it need
      not be on top. */
  lemma ActiveMayDangle(c: Catalogue)
    ensures Run(c, [Close(IdOf(INTERFACES, 1))]).active !in RunOrder([Close(IdOf(INTERFACES, 1))])
    ensures var run := [ToggleMaximize(IdOf(TRAFFIC, 1))];
            Run(c, run).active in RunOrder(run) && !OnTop(RunOrder(run), Run(c, run).active)
  {
    var close, maximise := [Close(IdOf(INTERFACES, 1))], [ToggleMaximize(IdOf(TRAFFIC, 1))];
    assert close[..0] == [] && maximise[..0] == [];
    WithoutHas(INITIAL_ORDER, IdOf(INTERFACES, 1));
    KindOfId(INTERFACES, 1);
    KindOfId(TRAFFIC, 1);
    KindsDiffer();
  }

  /** Opening from an outdated rendering keeps the invariant exactly when the
      rendering shows the kind, or neither the kind nor the new z-index is taken. */
  lemma OpenKeepsInvIff(c: Catalogue, rendered: seq<Window>, d: Desktop, kind: Kind, stamp: nat)
    requires Inv(d.windows)
    ensures Inv(OpenWindow(c, rendered, d, kind, stamp).windows) <==>
              || Find(rendered, kind).Some?
              || forall v :: v in d.windows ==> v.kind != kind && v.z != Highest(rendered) + 1
  {
    match Find(rendered, kind)
    case Some(w) =>
      var z := Highest(d.windows) + 1;
      UpdatedKeepsInv(d.windows, w.id, (w: Window) => w.(z := z, minimized := false));
    case None =>
      KindOfId(kind, stamp);
      AppendKeepsInvIff(d.windows, NewWindow(c, rendered, kind, stamp));
  }
}
