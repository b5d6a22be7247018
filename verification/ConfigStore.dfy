/** The configuration store: one value in memory, one JSON file on disk. */
module ConfigStore {
  import opened Wrappers
  import opened FileSystem
  import opened StagedConfig
  import opened Codec
  import opened ConfigSchema
  import opened Manager

  const DEFAULT_PATH := Path(2, "config.json")

  // ---- Text and values --------------------------------------------------------------------------

  /** The JSON text format: documents printed can be read. */
  datatype Syntax = Syntax(format: Json -> string, parse: string -> Option<Json>)

  ghost predicate Faithful(x: Syntax) {
    forall j :: x.parse(x.format(j)) == Some(j)
  }

  function Marshal(x: Syntax, v: Val): string
    requires HasType(v, CONFIG)
  {
    x.format(Encode(CONFIG, v))
  }

  /** `json.Unmarshal` into a zero `Config`. */
  function Unmarshal(x: Syntax, text: string): (r: Option<Val>)
    ensures r.Some? ==> HasType(r.value, CONFIG)
  {
    ConfigZerosTyped();
    match x.parse(text)
    case None => None
    case Some(j) =>
      DecodeTyped(CONFIG, Zero(CONFIG), j);
      DecodeNew(CONFIG, j)
  }

  /** Reading back what was written gives the normal form, and the value itself
      exactly when no slice under `omitempty` is empty without being nil. */
  lemma ReadsBack(x: Syntax, v: Val)
    requires Faithful(x) && HasType(v, CONFIG)
    ensures Unmarshal(x, Marshal(x, v)) == Some(Normal(CONFIG, v))
    ensures Unmarshal(x, Marshal(x, v)) == Some(v) <==> Clean(CONFIG, v)
  {
    ConfigWellFormed();
    RoundTrip(CONFIG, v);
    NormalIffClean(CONFIG, v);
  }

  // ---- What each operation does ---------------------------------------------------------------------

  /** The store as a caller can see it: its value and its file. */
  datatype Memory = Memory(data: Val, file: Option<Content>)

  datatype Op = Load | Save(cfg: Val) | Import(text: Content)

  /** The effect of an operation that reported success (`ok`) or an error. Only
      `Load` of a missing file leaves the disk out of account. */
  ghost predicate Did(x: Syntax, op: Op, ok: bool, m: Memory, m': Memory) {
    if !ok then m' == m
    else match op
      case Load =>
        (match m.file
         case Some(text) => Unmarshal(x, text) == Some(m'.data) && m'.file == m.file
         case None => SavedOrLost(x, m'))
      case Save(cfg) => Saved(x, cfg, m')
      case Import(text) => Unmarshal(x, text).Some? && Saved(x, Unmarshal(x, text).value, m')
  }

  ghost predicate Saved(x: Syntax, cfg: Val, m: Memory) {
    HasType(cfg, CONFIG) && m == Memory(cfg, Some(Marshal(x, cfg)))
  }

  ghost predicate SavedOrLost(x: Syntax, m: Memory) {
    m == Memory(Default(), None) || Saved(x, Default(), m)
  }

  /** A missing file: `cfg`, the default value, went to memory and perhaps to disk. */
  lemma LoadedDefault(x: Syntax, cfg: Val, before: Memory, m: Memory)
    requires cfg == Default() && before.file.None? && (m == Memory(cfg, None) || Saved(x, cfg, m))
    ensures Did(x, Op.Load, true, before, m)
  {
  }

  /** Memory and disk hold the same configuration, up to normal form. */
  ghost predicate Agree(x: Syntax, m: Memory) {
    && HasType(m.data, CONFIG) && m.file.Some? && Unmarshal(x, m.file.value).Some?
    && Normal(CONFIG, Unmarshal(x, m.file.value).value) == Normal(CONFIG, m.data)
  }

  lemma SavedAgrees(x: Syntax, cfg: Val, m: Memory)
    requires Faithful(x) && Saved(x, cfg, m)
    ensures Agree(x, m)
    ensures Unmarshal(x, m.file.value) == Some(m.data) <==> Clean(CONFIG, cfg)
  {
    ReadsBack(x, cfg);
    NormalIsClean(CONFIG, cfg);
    NormalIffClean(CONFIG, Normal(CONFIG, cfg));
  }

  /** Success with a file to work from: `Save`, `Import`, `Load` of an existing file. */
  predicate Anchors(op: Op, ok: bool, m: Memory) {
    ok && (op.Load? ==> m.file.Some?)
  }

  lemma AnchorAgrees(x: Syntax, op: Op, ok: bool, m: Memory, m': Memory)
    requires Faithful(x) && Did(x, op, ok, m, m') && Anchors(op, ok, m)
    ensures Agree(x, m')
  {
    match op
    case Load =>
    case Save(cfg) => SavedAgrees(x, cfg, m');
    case Import(text) => SavedAgrees(x, Unmarshal(x, text).value, m');
  }

  datatype Event = Event(op: Op, ok: bool)

  ghost predicate History(x: Syntax, events: seq<Event>, ms: seq<Memory>) {
    |ms| == |events| + 1 && forall i :: 0 <= i < |events| ==> Did(x, events[i].op, events[i].ok, ms[i], ms[i + 1])
  }

  /** Over any run, once one operation has anchored memory to the disk they agree
      for good, whatever fails afterwards. */
  lemma {:induction false} RunAgrees(x: Syntax, events: seq<Event>, ms: seq<Memory>, i: nat, k: nat)
    requires Faithful(x) && History(x, events, ms) && i < k <= |events|
    requires Anchors(events[i].op, events[i].ok, ms[i])
    ensures Agree(x, ms[k])
    decreases k
  {
    if k == i + 1 {
      AnchorAgrees(x, events[i].op, events[i].ok, ms[i], ms[k]);
    } else {
      RunAgrees(x, events, ms, i, k - 1);
      var e := events[k - 1];
      assert Did(x, e.op, e.ok, ms[k - 1], ms[k]);
      if e.ok { AnchorAgrees(x, e.op, e.ok, ms[k - 1], ms[k]); }
    }
  }

  /** The `i`-th operation was the last to succeed. */
  ghost predicate LastSuccess(events: seq<Event>, i: nat) {
    i < |events| && events[i].ok && forall j :: i < j < |events| ==> !events[j].ok
  }

  lemma {:induction false} FailuresKeep(x: Syntax, events: seq<Event>, ms: seq<Memory>, i: nat, k: nat)
    requires History(x, events, ms) && LastSuccess(events, i) && i < k <= |events|
    ensures ms[k] == ms[i + 1]
    decreases k
  {
    if k > i + 1 {
      FailuresKeep(x, events, ms, i, k - 1);
      assert Did(x, events[k - 1].op, events[k - 1].ok, ms[k - 1], ms[k]);
    }
  }

  /** Over any run, memory is exactly what the file decodes to if and only if the last
      operation to succeed was a load, of a file that existed, or left a clean value. */
  lemma RunAgreesExactly(x: Syntax, events: seq<Event>, ms: seq<Memory>, i: nat)
    requires Faithful(x) && History(x, events, ms) && LastSuccess(events, i) && Anchors(events[i].op, true, ms[i])
    ensures var m := ms[|events|];
            && HasType(m.data, CONFIG) && m.file.Some?
            && (Unmarshal(x, m.file.value) == Some(m.data) <==> events[i].op.Load? || Clean(CONFIG, m.data))
  {
    FailuresKeep(x, events, ms, i, |events|);
    assert Did(x, events[i].op, events[i].ok, ms[i], ms[i + 1]);
    match events[i].op
    case Load =>
    case Save(cfg) => SavedAgrees(x, cfg, ms[i + 1]);
    case Import(text) => SavedAgrees(x, Unmarshal(x, text).value, ms[i + 1]);
  }

  /** A restart loads the normal form of whatever was in memory. */
  lemma RestartRestores(x: Syntax, cfg: Val, m: Memory, restarted: Memory, m': Memory)
    requires Faithful(x) && Saved(x, cfg, m) && restarted.file == m.file && Did(x, Load, true, restarted, m')
    ensures m'.data == Normal(CONFIG, cfg) && (m'.data == cfg <==> Clean(CONFIG, cfg))
  {
    ReadsBack(x, cfg);
  }

  /** Importing an export into any store always gives the normal form, on disk
      and in memory; it is the exported value exactly when that was clean. */
  lemma ImportOfExport(x: Syntax, v: Val, m: Memory, m': Memory)
    requires Faithful(x) && HasType(v, CONFIG) && Did(x, Import(Marshal(x, v)), true, m, m')
    ensures m'.data == Normal(CONFIG, v) && Unmarshal(x, m'.file.value) == Some(m'.data)
    ensures m'.data == v <==> Clean(CONFIG, v)
  {
    ReadsBack(x, v);
    NormalIsClean(CONFIG, v);
    ReadsBack(x, m'.data);
  }

  function EmptyPeers(): Val {
    VStruct([VBool(false), VString("wg0"), VInt(51820), VString(""), VString("10.10.0.1/24"), VSlice([])])
  }

  /** The default configuration with an empty peer list that is not nil, as the
      JSON text "[]" gives: it does not survive. */
  lemma EmptyPeersAreDropped()
    ensures var v := VStruct(Default().values[6 := EmptyPeers()]);
            HasType(v, CONFIG) && !Clean(CONFIG, v) && Normal(CONFIG, v) != v
  {
    DefaultIsSound();
    assert HasType(EmptyPeers(), WIREGUARD);
    var v := VStruct(Default().values[6 := EmptyPeers()]);
    assert HasType(v, CONFIG);
    assert EmptyPeers().values[5] == VSlice([]) && WIREGUARD.fields[5].omitEmpty;
    assert !Clean(WIREGUARD, EmptyPeers());
    assert v.values[6] == EmptyPeers() && CONFIG.fields[6].ty == WIREGUARD;
    NormalIffClean(CONFIG, v);
  }

  // ---- Crashes --------------------------------------------------------------------------------------------

  /** After a power failure now, `p` holds what it could have held before, or
      all of `text`. */
  ghost predicate OldOrNew(before: Fs, now: Fs, p: Path, text: Content) {
    forall r :: AfterCrash(now, p, r) ==> AfterCrash(before, p, r) || r == Some(text)
  }

  /** `text` is possible, and so is everything that was. */
  ghost predicate OldAndNew(before: Fs, now: Fs, p: Path, text: Content) {
    forall r :: AfterCrash(before, p, r) || r == Some(text) ==> AfterCrash(now, p, r)
  }

  lemma KeptIsOld(before: Fs, now: Fs, p: Path, text: Content)
    requires BoundInodesExist(before) && InodesKept(before, now) && Bindings(now, p) == Bindings(before, p)
    ensures OldOrNew(before, now, p, text)
  {
    forall r | AfterCrash(now, p, r) ensures AfterCrash(before, p, r) {
      var b :| b in Bindings(now, p) && match b
        case None => r == None
        case Some(i) => r.Some? && (i in now.inodes && now.inodes[i].synced ==> r.value == now.inodes[i].content);
      assert b in Bindings(before, p);
    }
  }

  lemma ReplacedIsBoth(before: Fs, now: Fs, p: Path, ino: nat, text: Content)
    requires BoundInodesExist(before) && InodesKept(before, now) && FileIs(now, ino, text, true)
    requires Bindings(now, p) == Bindings(before, p) + [Some(ino)]
    ensures OldOrNew(before, now, p, text) && OldAndNew(before, now, p, text)
  {
    forall r | AfterCrash(now, p, r) ensures AfterCrash(before, p, r) || r == Some(text) {
      var b :| b in Bindings(now, p) && match b
        case None => r == None
        case Some(i) => r.Some? && (i in now.inodes && now.inodes[i].synced ==> r.value == now.inodes[i].content);
      assert b in Bindings(before, p) || b == Some(ino);
    }
    assert Some(ino) in Bindings(now, p);
    forall r | AfterCrash(before, p, r) ensures AfterCrash(now, p, r) {
      var b :| b in Bindings(before, p) && match b
        case None => r == None
        case Some(i) => r.Some? && (i in before.inodes && before.inodes[i].synced ==>
            r.value == before.inodes[i].content);
      assert b in Bindings(now, p);
    }
  }

  /** The rename after staging. */
  lemma RenameIsBoth(before: Fs, staged: Fs, from: Path, p: Path, ino: nat, text: Content)
    requires BoundInodesExist(before) && SameFiles(before, staged) && InodesKept(before, staged)
        && BoundInodesExist(staged)
    requires IsTempName(from.name) && !IsTempName(p.name) && Current(staged, from) == Some(ino)
        && FileIs(staged, ino, text, true)
    ensures var now := Rename(staged, from, p);
            && OldOrNew(before, now, p, text) && OldAndNew(before, now, p, text)
            && OldOrNew(before, Remove(now, from), p, text) && OldAndNew(before, Remove(now, from), p, text)
  {
    RenameBindings(staged, from, p, ino);
    var now := Rename(staged, from, p);
    ReplacedIsBoth(before, now, p, ino, text);
    RemoveBindings(now, from);
    ReplacedIsBoth(before, Remove(now, from), p, ino, text);
  }

  /** Removing the staged name changes no outcome. */
  lemma RemovalIsNoCrash(before: Fs, staged: Fs, from: Path, ino: nat, p: Path, text: Content)
    requires BoundInodesExist(before) && SameFiles(before, staged) && InodesKept(before, staged)
        && BoundInodesExist(staged)
    requires IsTempName(from.name) && !IsTempName(p.name) && ino !in before.inodes
    ensures OldOrNew(before, staged, p, text) && OldOrNew(before, Remove(staged, from), p, text)
    ensures SameFiles(before, Remove(staged, from)) && BoundInodesExist(Remove(staged, from))
    ensures forall q :: Current(Remove(staged, from), q).Some? ==> Current(staged, q).Some?
  {
    RemoveBindings(staged, from);
    TemporaryStepsKeepFiles(before, staged, from, ino, text);
    KeptIsOld(before, staged, p, text);
    KeptIsOld(before, Remove(staged, from), p, text);
    assert forall q :: q != from ==> Current(Remove(staged, from), q) == Current(staged, q);
  }

  lemma RemovalIsQuiet(before: Fs, now: Fs, from: Path, p: Path, text: Content)
    requires BoundInodesExist(now) && IsTempName(from.name) && !IsTempName(p.name)
    ensures var after := Remove(now, from);
            && BoundInodesExist(after) && (forall q :: Current(after, q).Some? ==> Current(now, q).Some?)
            && forall q: Path :: !IsTempName(q.name) ==> Read(after, q) == Read(now, q)
  {
    RemoveBindings(now, from);
    assert forall q :: q != from ==> Current(Remove(now, from), q) == Current(now, q);
  }

  lemma StagingIsOld(before: Fs, steps: seq<Fs>, p: Path, text: Content)
    requires BoundInodesExist(before) && !IsTempName(p.name)
    requires forall f :: f in steps ==> SameFiles(before, f) && InodesKept(before, f)
    ensures forall f :: f in steps ==> OldOrNew(before, f, p, text)
  {
    forall f | f in steps ensures OldOrNew(before, f, p, text) {
      KeptIsOld(before, f, p, text);
    }
  }

  /** With the staged name renamed or removed, no temporary name is left. */
  lemma NoTempIsLeft(before: Fs, staged: Fs, from: Path, ino: nat, p: Path)
    requires NoNewTemps(before, staged, [from]) && Current(staged, from) == Some(ino)
    requires IsTempName(from.name) && !IsTempName(p.name)
    ensures NoNewTemps(before, Remove(staged, from), [])
    ensures var now := Rename(staged, from, p); NoNewTemps(before, now, []) && NoNewTemps(before, Remove(now, from), [])
  {
    RemoveBindings(staged, from);
    RenameBindings(staged, from, p, ino);
    var now := Rename(staged, from, p);
    RemoveBindings(now, from);
    assert Bindings(now, from) == Bindings(staged, from) + [None];
    forall q: Path | IsTempName(q.name) && q != from
      ensures Current(now, q) == Current(staged, q) && Current(Remove(now, from), q) == Current(staged, q)
      ensures Current(Remove(staged, from), q) == Current(staged, q)
    {
    }
  }

  /** Every other file reads as before. */
  ghost predicate OthersRead(before: Fs, after: Fs, p: Path) {
    forall q: Path :: q != p && !IsTempName(q.name) ==> Read(after, q) == Read(before, q)
  }

  // ---- The store ----------------------------------------------------------------------------------------------

  class Store {
    const host: Host
    const path: Path
    const syntax: Syntax
    var data: Val

    ghost predicate Valid()
      reads this, host
    {
      host.Valid() && !IsTempName(path.name) && Faithful(syntax) && HasType(data, CONFIG)
    }

    ghost function View(): Memory
      reads this, host
    {
      Memory(data, Read(host.fs, path))
    }

    /** `NewStore`: an empty path means the default one; the disk is not consulted. */
    constructor (host: Host, path: Option<Path>, syntax: Syntax)
      requires host.Valid() && Faithful(syntax) && (path.Some? ==> !IsTempName(path.value.name))
      ensures Valid() && this.host == host && this.syntax == syntax
      ensures this.path == (if path.Some? then path.value else Path(2, "config.json"))
      ensures data == Default()
    {
      this.host, this.syntax, this.data := host, syntax, Default();
      this.path := if path.Some? then path.value else DEFAULT_PATH;
      DefaultIsSound();
      if IsTempName(DEFAULT_PATH.name) { TempNameIsHidden(DEFAULT_PATH.name); }
    }

    method Get() returns (cfg: Val)
      ensures cfg == data
    {
      return data;
    }

    /** The rename and the deferred removal. */
    method Replace(from: Path, ghost ino: nat, ghost text: Content, ghost before: Fs)
        returns (ok: bool, ghost steps: seq<Fs>)
      requires host.Valid() && !IsTempName(path.name) && IsTempName(from.name)
      requires BoundInodesExist(before) && SameFiles(before, host.fs) && InodesKept(before, host.fs)
      requires ino !in before.inodes && Current(host.fs, from) == Some(ino) && FileIs(host.fs, ino, text, true)
      requires NoNewTemps(before, host.fs, [from])
      modifies host`fs, host`unremoved
      ensures host.Valid()
      ensures if ok then ReplacedBy(before, host.fs, path, text) else SameFiles(before, host.fs)
      ensures CleanedUp(before, host.fs, old(host.unremoved), host.unremoved)
      ensures forall f :: f in steps ==> OldOrNew(before, f, path, text)
      ensures steps != [] && steps[|steps| - 1] == host.fs
      ensures ok ==> OldAndNew(before, host.fs, path, text)
    {
      RenameReplaces(host.fs, from, path, ino, text);
      RenameIsBoth(before, host.fs, from, path, ino, text);
      RemovalIsNoCrash(before, host.fs, from, ino, path, text);
      NoTempIsLeft(before, host.fs, from, ino, path);
      RemovalIsQuiet(before, Rename(host.fs, from, path), from, path, text);
      ReplacedSince(before, host.fs, Rename(host.fs, from, path), path, text);
      ok := host.RenameFile(from, path);
      steps := [host.fs];
      host.RemoveFile(from);
      steps := steps + [host.fs];
    }

    /** Stages the encoded value beside the file and renames it into place.
        `steps` are the file systems a crash may meet. Nothing synchronises the
        directory, so even after success the old file may come back. */
    method SaveAtomicLocked(cfg: Val) returns (ok: bool, ghost steps: seq<Fs>)
      requires Valid() && HasType(cfg, CONFIG)
      modifies this`data, host`fs, host`unremoved
      ensures Valid()
      ensures Did(syntax, Op.Save(cfg), ok, old(View()), View())
      ensures OthersRead(old(host.fs), host.fs, path)
      ensures CleanedUp(old(host.fs), host.fs, old(host.unremoved), host.unremoved)
      ensures forall f :: f in steps ==> OldOrNew(old(host.fs), f, path, Marshal(syntax, cfg))
      ensures steps != [] && steps[|steps| - 1] == host.fs
      ensures ok ==> OldAndNew(old(host.fs), host.fs, path, Marshal(syntax, cfg))
    {
      var encoded := Marshal(syntax, cfg);
      var staged;
      staged, steps := StageWrite(host, path.dir, encoded, false);
      StagingIsOld(old(host.fs), steps + [host.fs], path, encoded);
      if staged.None? {
        SameFilesRead(old(host.fs), host.fs, path);
        return false, steps + [host.fs];
      }
      var (p, ino) := staged.value;
      ghost var replacing;
      ok, replacing := Replace(p, ino, encoded, old(host.fs));
      steps := steps + replacing;
      if ok {
        data := cfg;
      } else {
        SameFilesRead(old(host.fs), host.fs, path);
      }
    }

    method Save(cfg: Val) returns (ok: bool)
      requires Valid() && HasType(cfg, CONFIG)
      modifies this`data, host`fs, host`unremoved
      ensures Valid()
      ensures Did(syntax, Op.Save(cfg), ok, old(View()), View())
      ensures OthersRead(old(host.fs), host.fs, path)
      ensures CleanedUp(old(host.fs), host.fs, old(host.unremoved), host.unremoved)
    {
      ghost var steps;
      ok, steps := SaveAtomicLocked(cfg);
    }

    /** Uses `cfg` in place of a missing file, saved if that succeeds. */
    method Adopt(cfg: Val)
      requires Valid() && View().file.None? && HasType(cfg, CONFIG)
      modifies this`data, host`fs, host`unremoved
      ensures Valid()
      ensures View() == Memory(cfg, None) || Saved(syntax, cfg, View())
      ensures OthersRead(old(host.fs), host.fs, path)
      ensures CleanedUp(old(host.fs), host.fs, old(host.unremoved), host.unremoved)
    {
      data := cfg;
      var ok;
      ghost var steps;
      ok, steps := SaveAtomicLocked(cfg);
    }

    /** Reading the file may fail for reasons of its own. A missing file gives
        the default configuration, whether or not it could be saved. */
    method Load() returns (r: Option<Val>)
      requires Valid()
      modifies this`data, host`fs, host`unremoved
      ensures Valid()
      ensures Did(syntax, Op.Load, r.Some?, old(View()), View())
      ensures r.Some? ==> r.value == data
      ensures OthersRead(old(host.fs), host.fs, path)
      ensures CleanedUp(old(host.fs), host.fs, old(host.unremoved), host.unremoved)
    {
      var ok := host.Harmless();
      if !ok { return None; }
      var text := Read(host.fs, path);
      if text.None? {
        var cfg := Default();
        DefaultIsSound();
        Adopt(cfg);
        LoadedDefault(syntax, cfg, old(View()), View());
        return Some(data);
      }
      var cfg := Unmarshal(syntax, text.value);
      if cfg.None? { return None; }
      data := cfg.value;
      return Some(data);
    }

    /** What is exported reads back as the normal form of the value in memory, and as
        that value exactly when it is clean. */
    method Export() returns (text: Content)
      requires Valid()
      ensures Unmarshal(syntax, text) == Some(Normal(CONFIG, data))
      ensures Unmarshal(syntax, text) == Some(data) <==> Clean(CONFIG, data)
    {
      ReadsBack(syntax, data);
      return Marshal(syntax, data);
    }

    method Import(text: Content) returns (ok: bool)
      requires Valid()
      modifies this`data, host`fs, host`unremoved
      ensures Valid()
      ensures Did(syntax, Op.Import(text), ok, old(View()), View())
      ensures OthersRead(old(host.fs), host.fs, path)
      ensures CleanedUp(old(host.fs), host.fs, old(host.unremoved), host.unremoved)
    {
      var cfg := Unmarshal(syntax, text);
      if cfg.None? { return false; }
      ok := Save(cfg.value);
    }
  }
}
