/** What every window looks like after any run of events, told from the events alone. */
module WindowHistory {
  import opened Wrappers
  import opened Windows

  datatype Look = Look(position: (int, int), size: (int, int), minimized: bool, maximized: bool)

  function LookOf(w: Window): Look {
    Look(w.position, w.size, w.minimized, w.maximized)
  }

  /** The three windows the page starts with. */
  function FirstLook(id: string): Look {
    if id == IdOf(DASHBOARD, 1) then Look((18, 16), (510, 470), false, false)
    else if id == IdOf(INTERFACES, 1) then Look((116, 74), (760, 410), false, false)
    else Look((472, 52), (445, 430), false, false)
  }

  /** A window appears where its kind belongs, with its kind's size; then it moves when it
      is moved, and is minimised, shown again and maximised by the events about it. */
  function LookAfter(c: Catalogue, events: seq<Event>, id: string): Look
    decreases |events|
  {
    if events == [] then FirstLook(id)
    else
      var init, e := events[..|events| - 1], events[|events| - 1];
      var order, before := RunOrder(init), LookAfter(c, init, id);
      if e.CloseAll? || Subject(order, e) != id then before
      else match e
        case Open(kind, _) =>
          if id in order then before.(minimized := false)
          else Look(c(kind).position, c(kind).size, false, false)
        case Focus(_) => before.(minimized := false)
        case ToggleMinimize(_) => before.(minimized := !before.minimized)
        case ToggleMaximize(_) => before.(maximized := !before.maximized, minimized := false)
        case Move(_, position) => before.(position := position)
        case Close(_) => before
  }

  /** A kind that is not shown gets a window in its place, on top and active. */
  lemma OpenedWindow(c: Catalogue, d: Desktop, kind: Kind, stamp: nat)
    requires Inv(d.windows) && forall w :: w in d.windows ==> w.kind != kind
    ensures var d' := Next(c, d, Open(kind, stamp));
            && |d'.windows| == |d.windows| + 1 && d'.windows[..|d.windows|] == d.windows
            && var w := d'.windows[|d.windows|];
            && w.id == IdOf(kind, stamp) == d'.active && w.kind == kind
            && LookOf(w) == Look(c(kind).position, c(kind).size, false, false)
            && forall v :: v in d.windows ==> v.z < w.z
  {
    assert Find(d.windows, kind).None?;
  }

  lemma UpdateIds(ws: seq<Window>, id: string, f: Window -> Window, w': Window) returns (w: Window)
    requires w' in Update(ws, id, f) && forall u :: f(u).id == u.id
    ensures w in ws && w.id == w'.id
  {
    var j :| 0 <= j < |ws| && Update(ws, id, f)[j] == w';
    w := ws[j];
  }

  ghost predicate IsNew(c: Catalogue, d: Desktop, e: Event, w: Window) {
    e.Open? && Find(d.windows, e.kind).None? && w == NewWindow(c, d.windows, e.kind, e.stamp)
  }

  /** A window after an event was there before, or has just been opened. */
  lemma ComesFrom(c: Catalogue, d: Desktop, e: Event, w': Window) returns (w: Window)
    requires w' in Next(c, d, e).windows
    ensures IsNew(c, d, e, w') || (w in d.windows && w.id == w'.id)
  {
    w := w';
    match e
    case Focus(id) =>
      w := UpdateIds(d.windows, id, (u: Window) => u.(z := Highest(d.windows) + 1, minimized := false), w');
    case Open(kind, _) =>
      var found := Find(d.windows, kind);
      if found.Some? {
        w := UpdateIds(d.windows, found.value.id,
          (u: Window) => u.(z := Highest(d.windows) + 1, minimized := false), w');
      }
    case Close(id) => FilteredHas(d.windows, id);
    case ToggleMinimize(id) =>
      w := UpdateIds(d.windows, id, (u: Window) => u.(minimized := !u.minimized), w');
    case ToggleMaximize(id) =>
      w := UpdateIds(d.windows, id, (u: Window) => u.(maximized := !u.maximized, minimized := false), w');
    case Move(id, position) => w := UpdateIds(d.windows, id, (u: Window) => u.(position := position), w');
    case CloseAll =>
  }

  /** After any run every window looks as the events say. */
  lemma {:induction false} LooksAreHistory(c: Catalogue, events: seq<Event>, w': Window)
    requires w' in Run(c, events).windows
    ensures LookOf(w') == LookAfter(c, events, w'.id)
    decreases |events|
  {
    if events == [] {
      FirstLooks(w');
    } else {
      var init, e := events[..|events| - 1], events[|events| - 1];
      var d, order := Run(c, init), RunOrder(init);
      RunRefines(c, init);
      var w := ComesFrom(c, d, e, w');
      if IsNew(c, d, e, w') {
        FindAgrees(d.windows, order, e.kind);
        KindOfId(e.kind, e.stamp);
      } else {
        LooksAreHistory(c, init, w);
        FieldsAfter(c, d, order, e, w, w');
        HeightsOf(d.windows, w);
        AscendingHas(order, Heights(d.windows));
      }
    }
  }

  lemma FirstLooks(w: Window)
    requires w in INITIAL.windows
    ensures LookOf(w) == FirstLook(w.id)
  {
    KindOfId(DASHBOARD, 1);
    KindOfId(INTERFACES, 1);
    KindOfId(TRAFFIC, 1);
    assert |DASHBOARD| == 9 && |INTERFACES| == 10 && |TRAFFIC| == 7;
  }
}
