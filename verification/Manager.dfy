/** The apply operations as the daemon runs them: one request, one system call
    after another, with early returns and the deferred removal. */
module Manager {
  import opened Wrappers
  import opened FileSystem
  import opened StagedConfig

  /** A `killall -HUP dnsmasq`: what the configuration read at that moment, and whether
      it was sent. */
  datatype Signal = Signal(seen: Option<Content>, sent: bool)

  /** The machine the daemon runs on. Every call may fail for reasons of its own. */
  class Host {
    var fs: Fs
    /** The texts loaded into the kernel, oldest first. */
    var live: seq<Content>
    /** The texts the validators have accepted, oldest first. */
    var accepted: seq<Content>
    /** The reloads asked of dnsmasq, and the names whose removal failed. */
    var signals: seq<Signal>
    var unremoved: seq<Path>

    ghost predicate Valid()
      reads this
    {
      BoundInodesExist(fs)
    }

    /** The exclusive open of `CreateTemp`: a name that is free. */
    method CreateTemp(dir: nat) returns (r: Option<(Path, nat)>)
      requires Valid()
      modifies this`fs
      ensures Valid()
      ensures r.None? ==> fs == old(fs)
      ensures r.Some? ==>
                var (p, ino) := r.value;
                && p.dir == dir && IsTempName(p.name) && Current(old(fs), p).None? && ino !in old(fs).inodes
                && fs == Create(old(fs), p, ino)
    {
      var name: string, ino: nat := *, *;
      var p := Path(dir, name);
      if !IsTempName(name) || Current(fs, p).Some? || ino in fs.inodes { return None; }
      CreateBindings(fs, p, ino);
      fs := Create(fs, p, ino);
      return Some((p, ino));
    }

    /** A write that fails may have stored anything. */
    method WriteFile(ino: nat, c: Content) returns (ok: bool, ghost written: Content)
      modifies this`fs
      ensures fs == Write(old(fs), ino, written) && (ok ==> written == c)
    {
      ok := *;
      var stored: Content := *;
      if ok { stored := c; }
      fs := Write(fs, ino, stored);
      written := stored;
    }

    method Fsync(ino: nat) returns (ok: bool)
      requires ino in fs.inodes
      modifies this`fs
      ensures fs == if ok then SyncFile(old(fs), ino) else old(fs)
    {
      ok := *;
      if ok { fs := SyncFile(fs, ino); }
    }

    method RemoveFile(p: Path)
      modifies this`fs, this`unremoved
      ensures || (fs == Remove(old(fs), p) && unremoved == old(unremoved))
              || (fs == old(fs) && unremoved == old(unremoved) + [p])
    {
      var ok := *;
      if ok { fs := Remove(fs, p); } else { unremoved := unremoved + [p]; }
    }

    /** `killall -HUP dnsmasq`: the daemon reads its configuration again. */
    method HangUpDnsmasq() returns (ok: bool)
      modifies this`signals
      ensures signals == old(signals) + [Signal(Read(fs, DNSMASQ), ok)]
    {
      ok := *;
      signals := signals + [Signal(Read(fs, DNSMASQ), ok)];
    }

    method RenameFile(from: Path, to: Path) returns (ok: bool)
      modifies this`fs
      ensures fs == if ok then Rename(old(fs), from, to) else old(fs)
    {
      ok := *;
      if ok { fs := Rename(fs, from, to); }
    }

    method FsyncDir(dir: nat) returns (ok: bool)
      modifies this`fs
      ensures fs == if ok then SyncDir(old(fs), dir) else old(fs)
    {
      ok := *;
      if ok { fs := SyncDir(fs, dir); }
    }

    /** `dnsmasq --test` or `nft -c`: a verdict on what the file holds now. */
    method CheckFile(p: Path) returns (ok: bool)
      modifies this`accepted
      ensures ok ==> Read(fs, p).Some? && accepted == old(accepted) + [Read(fs, p).value]
      ensures !ok ==> accepted == old(accepted)
    {
      ok := *;
      var c := Read(fs, p);
      if c.None? { ok := false; }
      if ok { accepted := accepted + [c.value]; }
    }

    /** `nft -f`: all of the file or nothing. */
    method LoadFile(p: Path) returns (ok: bool)
      modifies this`live
      ensures ok ==> Read(fs, p).Some? && live == old(live) + [Read(fs, p).value]
      ensures !ok ==> live == old(live)
    {
      ok := *;
      var c := Read(fs, p);
      if c.None? { ok := false; }
      if ok { live := live + [c.value]; }
    }

    /** Calls that change nothing modelled here: mkdir, chmod, close, open. */
    method Harmless() returns (ok: bool)
    {
      ok := *;
    }
  }

  /** Files other than temporary ones are bound and read as before. */
  ghost predicate SameFiles(before: Fs, after: Fs) {
    forall q: Path :: !IsTempName(q.name) ==>
      Bindings(after, q) == Bindings(before, q) && SameInode(before, after, Current(before, q))
  }

  ghost predicate SameInode(before: Fs, after: Fs, i: Option<nat>) {
    i.Some? ==> i.value in before.inodes && i.value in after.inodes && after.inodes[i.value] == before.inodes[i.value]
  }

  lemma SameFilesRead(before: Fs, after: Fs, q: Path)
    requires SameFiles(before, after) && !IsTempName(q.name)
    ensures Read(after, q) == Read(before, q)
  {
  }

  lemma TemporaryStepsKeepFiles(before: Fs, fs: Fs, p: Path, ino: nat, c: Content)
    requires SameFiles(before, fs) && IsTempName(p.name) && ino !in before.inodes
    ensures SameFiles(before, Remove(fs, p)) && SameFiles(before, Write(fs, ino, c))
    ensures ino in fs.inodes ==> SameFiles(before, SyncFile(fs, ino))
  {
    RemoveBindings(fs, p);
    assert forall q :: Bindings(Write(fs, ino, c), q) == Bindings(fs, q);
    assert ino in fs.inodes ==> forall q :: Bindings(SyncFile(fs, ino), q) == Bindings(fs, q);
  }

  /** No file that existed before has been written. */
  ghost predicate InodesKept(before: Fs, after: Fs) {
    forall i :: i in before.inodes ==> i in after.inodes && after.inodes[i] == before.inodes[i]
  }

  /** No temporary name is bound that was not, but for these. */
  ghost predicate NoNewTemps(before: Fs, after: Fs, but: seq<Path>) {
    forall q: Path :: IsTempName(q.name) && Current(after, q).Some? ==> Current(before, q).Some? || q in but
  }

  /** Since `before`, every new temporary name has been removed again, unless its removal
      failed: those are the ones added to `earlier` in `unremoved`. */
  ghost predicate CleanedUp(before: Fs, after: Fs, earlier: seq<Path>, unremoved: seq<Path>) {
    earlier <= unremoved && NoNewTemps(before, after, unremoved[|earlier|..])
  }

  /** Steps on a staged file: the rest of the system stays as it was. */
  ghost predicate OnlyStaged(before: Fs, fs: Fs, p: Path, ino: nat) {
    && SameFiles(before, fs) && InodesKept(before, fs) && BoundInodesExist(fs) && IsTempName(p.name)
    && ino !in before.inodes && NoNewTemps(before, fs, [p])
    && Current(fs, p) == Some(ino) && ino in fs.inodes && IsPrivate(fs, p, ino)
  }

  /** No other name leads to the file, now or after a crash. */
  ghost predicate IsPrivate(fs: Fs, p: Path, ino: nat) {
    forall q :: q != p ==> Some(ino) !in Bindings(fs, q)
  }

  lemma CreatedIsStaged(before: Fs, p: Path, ino: nat)
    requires BoundInodesExist(before) && IsTempName(p.name) && ino !in before.inodes
    ensures OnlyStaged(before, Create(before, p, ino), p, ino)
  {
    CreateBindings(before, p, ino);
  }

  lemma WriteStaysStaged(before: Fs, fs: Fs, p: Path, ino: nat, c: Content)
    requires OnlyStaged(before, fs, p, ino)
    ensures OnlyStaged(before, Write(fs, ino, c), p, ino)
  {
    assert forall q :: Bindings(Write(fs, ino, c), q) == Bindings(fs, q);
  }

  lemma SyncStaysStaged(before: Fs, fs: Fs, p: Path, ino: nat)
    requires OnlyStaged(before, fs, p, ino)
    ensures OnlyStaged(before, SyncFile(fs, ino), p, ino)
  {
    assert forall q :: Bindings(SyncFile(fs, ino), q) == Bindings(fs, q);
  }

  /** `Write`, `Chmod` if asked for, `Sync`, `Close` on the new file; `steps` are
      the file systems a crash may meet on the way. */
  method FillTemp(host: Host, p: Path, ino: nat, contents: Content, chmod: bool, ghost before: Fs)
      returns (ok: bool, ghost steps: seq<Fs>)
    requires host.Valid() && OnlyStaged(before, host.fs, p, ino)
    modifies host`fs
    ensures host.Valid() && OnlyStaged(before, host.fs, p, ino)
    ensures ok ==> FileIs(host.fs, ino, contents, true)
    ensures forall f :: f in steps ==> OnlyStaged(before, f, p, ino)
  {
    ghost var fs0 := host.fs;
    ghost var written;
    ok, written := host.WriteFile(ino, contents);
    WriteStaysStaged(before, fs0, p, ino, written);
    assert forall q :: Current(host.fs, q) == Current(fs0, q);
    steps := [host.fs];
    if !ok { return; }
    if chmod { ok := host.Harmless(); }
    if !ok { return; }
    ghost var fs1 := host.fs;
    SyncStaysStaged(before, fs1, p, ino);
    ok := host.Fsync(ino);
    assert forall q :: Current(host.fs, q) == Current(fs1, q);
    steps := steps + [host.fs];
    if !ok { return; }
    ok := host.Harmless();
  }

  /** `stageWrite`: a private, durable file with the contents, or nothing but
      leftovers under temporary names. */
  method StageWrite(host: Host, dir: nat, contents: Content, chmod: bool)
      returns (r: Option<(Path, nat)>, ghost steps: seq<Fs>)
    requires host.Valid()
    modifies host`fs, host`unremoved
    ensures host.Valid() && SameFiles(old(host.fs), host.fs)
    ensures r.Some? ==>
              var (p, ino) := r.value;
              && IsTempName(p.name) && p.dir == dir && Current(host.fs, p) == Some(ino)
              && ino !in old(host.fs).inodes && FileIs(host.fs, ino, contents, true) && IsPrivate(host.fs, p, ino)
              && NoNewTemps(old(host.fs), host.fs, [p]) && host.unremoved == old(host.unremoved)
    ensures r.None? ==> CleanedUp(old(host.fs), host.fs, old(host.unremoved), host.unremoved)
    ensures forall f :: f in steps + [host.fs] ==> SameFiles(old(host.fs), f) && InodesKept(old(host.fs), f)
  {
    var ok := host.Harmless();
    if !ok { return None, []; }
    var made := host.CreateTemp(dir);
    if made.None? { return None, []; }
    var (p, ino) := made.value;
    CreatedIsStaged(old(host.fs), p, ino);
    ghost var created := host.fs;
    ok, steps := FillTemp(host, p, ino, contents, chmod, old(host.fs));
    steps := [created] + steps;
    if ok { return Some((p, ino)), steps; }
    Discard(host, p, ino, old(host.fs));
    return None, steps;
  }

  /** The `cleanup` that `stageWrite` runs on failure and hands out on success. */
  method Discard(host: Host, p: Path, ghost ino: nat, ghost before: Fs)
    requires host.Valid() && OnlyStaged(before, host.fs, p, ino)
    modifies host`fs, host`unremoved
    ensures host.Valid() && SameFiles(before, host.fs) && InodesKept(before, host.fs)
    ensures CleanedUp(before, host.fs, old(host.unremoved), host.unremoved)
  {
    TemporaryStepsKeepFiles(before, host.fs, p, ino, "");
    RemoveBindings(host.fs, p);
    host.RemoveFile(p);
  }

  /** The file was replaced by `text`, which the validator had accepted. */
  ghost predicate ReplacedBy(before: Fs, after: Fs, t: Path, text: Content) {
    && Read(after, t) == Some(text)
    && forall q: Path :: q != t && !IsTempName(q.name) ==> Read(after, q) == Read(before, q)
  }

  /** The only thing a crash can leave under `t` is `text`. */
  ghost predicate Durably(fs: Fs, t: Path, text: Content) {
    forall r :: AfterCrash(fs, t, r) ==> r == Some(text)
  }

  /** Outcomes of requests whose text the validator accepted. */
  predicate PastValidation(o: Outcome) {
    o.Success? || o.at.LiveLoad? || o.at.Replacement? || o.at.OpenDirectory? || o.at.DirectorySync? || o.at.Reload?
  }

  datatype Commit = NotRenamed | NotOpened | NotSynced | Committed

  /** `commitStaged`: rename, then open and synchronise the directory. */
  method CommitStaged(host: Host, from: Path, t: Path, ghost ino: nat, ghost text: Content) returns (c: Commit)
    requires host.Valid() && IsTempName(from.name) && t in TARGETS && from.dir == t.dir
    requires Current(host.fs, from) == Some(ino) && FileIs(host.fs, ino, text, true)
    modifies host`fs
    ensures host.Valid()
    ensures c.NotRenamed? ==> host.fs == old(host.fs)
    ensures !c.NotRenamed? ==> ReplacedBy(old(host.fs), host.fs, t, text)
    ensures c.Committed? ==> Durably(host.fs, t, text)
    ensures NoNewTemps(old(host.fs), host.fs, [])
  {
    if IsTempName(t.name) { TempIsNoTarget(t); }
    RenameReplaces(host.fs, from, t, ino, text);
    var ok := host.RenameFile(from, t);
    if !ok { return NotRenamed; }
    ok := host.Harmless();
    if !ok { return NotOpened; }
    SyncMakesDurable(old(host.fs), host.fs, t, text, ino);
    ok := host.FsyncDir(t.dir);
    return if ok then Committed else NotSynced;
  }

  lemma RenameReplaces(fs: Fs, from: Path, t: Path, ino: nat, text: Content)
    requires BoundInodesExist(fs) && IsTempName(from.name) && !IsTempName(t.name)
    requires Current(fs, from) == Some(ino) && FileIs(fs, ino, text, true)
    ensures var after := Rename(fs, from, t);
            && BoundInodesExist(after) && ReplacedBy(fs, after, t, text) && Current(after, t) == Some(ino)
            && FileIs(after, ino, text, true) && forall q :: Current(after, q).Some? ==> q == t || Current(fs, q).Some?
  {
    RenameBindings(fs, from, t, ino);
    var after := Rename(fs, from, t);
    assert forall q :: q != t && q != from ==> Current(after, q) == Current(fs, q);
    assert Current(after, from).None? by {
      assert Bindings(after, from) == Bindings(fs, from) + [None];
    }
  }

  lemma SyncMakesDurable(before: Fs, fs: Fs, t: Path, text: Content, ino: nat)
    requires ReplacedBy(before, fs, t, text) && Current(fs, t) == Some(ino) && FileIs(fs, ino, text, true)
        && BoundInodesExist(fs)
    ensures var after := SyncDir(fs, t.dir);
            ReplacedBy(before, after, t, text) && Durably(after, t, text) && BoundInodesExist(after)
                && forall q :: Current(after, q) == Current(fs, q)
  {
    SyncDirBindings(fs, t.dir);
    var after := SyncDir(fs, t.dir);
    assert forall q :: Read(after, q) == Read(fs, q);
    forall r | AfterCrash(after, t, r) ensures r == Some(text) {
      assert Bindings(after, t) == [Some(ino)];
    }
  }

  lemma ReplacedSince(start: Fs, staged: Fs, fs: Fs, t: Path, text: Content)
    requires SameFiles(start, staged) && ReplacedBy(staged, fs, t, text)
    ensures ReplacedBy(start, fs, t, text)
  {
    forall q: Path | q != t && !IsTempName(q.name) ensures Read(staged, q) == Read(start, q) {
      SameFilesRead(start, staged, q);
    }
  }

  /** The tail both operations share after validation: the deferred removal
      comes last and disturbs nothing. */
  lemma RemovalKeepsOutcome(before: Fs, fs: Fs, p: Path, t: Path, text: Content)
    requires ReplacedBy(before, fs, t, text) && IsTempName(p.name) && t in TARGETS
    ensures ReplacedBy(before, Remove(fs, p), t, text)
    ensures Durably(fs, t, text) ==> Durably(Remove(fs, p), t, text)
  {
    TempIsNoTarget(p);
    RemoveBindings(fs, p);
    assert Bindings(Remove(fs, p), t) == Bindings(fs, t);
    forall r | AfterCrash(Remove(fs, p), t, r) ensures AfterCrash(fs, t, r) {
    }
  }

  /** The reloads a DHCP request asked for: one, after the replacement, if it got that
      far, and it succeeded exactly if the request did. */
  function Reloads(o: Outcome, text: Content): seq<Signal> {
    match o
    case Success => [Signal(Some(text), true)]
    case Failed(Reload) => [Signal(Some(text), false)]
    case _ => []
  }

  /** Validation, replacement and reload of staged DHCP and DNS settings. */
  method ActivateDhcpDns(host: Host, p: Path, ghost ino: nat, ghost text: Content) returns (o: Outcome)
    requires host.Valid() && IsTempName(p.name) && p.dir == DNSMASQ.dir
    requires Current(host.fs, p) == Some(ino) && FileIs(host.fs, ino, text, true)
    modifies host`fs, host`accepted, host`signals
    ensures host.Valid()
    ensures host.signals == old(host.signals) + Reloads(o, text)
    ensures o in {Failed(Validation), Failed(Replacement), Failed(OpenDirectory), Failed(DirectorySync), Failed(Reload),
        Success}
    ensures !Late(o) ==> host.fs == old(host.fs)
    ensures NoNewTemps(old(host.fs), host.fs, [])
    ensures host.accepted == if PastValidation(o) then old(host.accepted) + [text] else old(host.accepted)
    ensures Late(o) ==> ReplacedBy(old(host.fs), host.fs, DNSMASQ, text)
    ensures o.Success? || o == Failed(Reload) ==> Durably(host.fs, DNSMASQ, text)
  {
    var ok := host.CheckFile(p);
    if !ok { return Failed(Validation); }
    var c := CommitStaged(host, p, DNSMASQ, ino, text);
    match c {
      case NotRenamed => return Failed(Replacement);
      case NotOpened => return Failed(OpenDirectory);
      case NotSynced => return Failed(DirectorySync);
      case Committed =>
        ok := host.HangUpDnsmasq();
        return if ok then Success else Failed(Reload);
    }
  }

  /** Staging, activation and the deferred removal. */
  method InstallDhcpDns(host: Host, text: Content) returns (o: Outcome)
    requires host.Valid()
    modifies host
    ensures host.Valid() && host.live == old(host.live)
    ensures host.signals == old(host.signals) + Reloads(o, text)
    ensures o != Failed(Rendering) && o != Failed(RootCheck)
    ensures !Late(o) ==> SameFiles(old(host.fs), host.fs)
    ensures CleanedUp(old(host.fs), host.fs, old(host.unremoved), host.unremoved)
    ensures host.accepted == if PastValidation(o) then old(host.accepted) + [text] else old(host.accepted)
    ensures Late(o) ==> ReplacedBy(old(host.fs), host.fs, DNSMASQ, text)
    ensures o.Success? || o == Failed(Reload) ==> Durably(host.fs, DNSMASQ, text)
  {
    var staged, _ := StageWrite(host, DNSMASQ.dir, text, true);
    if staged.None? { return Failed(Staging); }
    var (p, ino) := staged.value;
    ghost var before := host.fs;
    o := ActivateDhcpDns(host, p, ino, text);
    Finish(host, old(host.fs), before, p, ino, DNSMASQ, text, Late(o));
  }

  /** `ApplyDHCPDNS`, by outcome: success means the accepted text is active and
      durable, and dnsmasq has been told when it was; an error after the rename leaves
      it active all the same; any other error leaves every file as it was. */
  method ApplyDhcpDns(host: Host, job: Job, root: bool) returns (o: Outcome)
    requires host.Valid() && job.ApplyDhcpDns?
    modifies host
    ensures host.Valid() && host.live == old(host.live)
    ensures !Late(o) ==> SameFiles(old(host.fs), host.fs)
    ensures CleanedUp(old(host.fs), host.fs, old(host.unremoved), host.unremoved)
    ensures Late(o) ==>
              && Render(job).Some?
              && ReplacedBy(old(host.fs), host.fs, DNSMASQ, Render(job).value)
    ensures match o
            case Success => host.signals == old(host.signals) + [Signal(Render(job), true)]
            case Failed(Reload) => host.signals == old(host.signals) + [Signal(Render(job), false)]
            case _ => host.signals == old(host.signals)
    ensures o.Success? || o == Failed(Reload) ==> Durably(host.fs, DNSMASQ, Render(job).value)
    ensures if PastValidation(o) then Render(job).Some? && host.accepted == old(host.accepted) + [Render(job).value]
            else host.accepted == old(host.accepted)
    ensures Render(job).None? <==> o == Failed(Rendering)
    ensures Render(job).Some? && !root <==> o == Failed(RootCheck)
    ensures Render(job).None? || !root ==> host.fs == old(host.fs)
  {
    var contents := Render(job);
    if contents.None? { return Failed(Rendering); }
    if !root { return Failed(RootCheck); }
    o := InstallDhcpDns(host, contents.value);
  }

  lemma RemovalLeavesNone(start: Fs, staged: Fs, fs: Fs, p: Path)
    requires NoNewTemps(start, staged, [p]) && NoNewTemps(staged, fs, [])
    ensures NoNewTemps(start, fs, [p]) && NoNewTemps(start, Remove(fs, p), [])
  {
    RemoveBindings(fs, p);
    forall q: Path | q != p ensures Current(Remove(fs, p), q) == Current(fs, q) {
    }
  }

  /** The deferred removal of the staged name. */
  method Finish(host: Host, ghost start: Fs, ghost staged: Fs, p: Path, ghost ino: nat, ghost t: Path,
      ghost text: Content, ghost late: bool)
    requires host.Valid() && IsTempName(p.name) && t in TARGETS && SameFiles(start, staged) && ino !in start.inodes
    requires if late then ReplacedBy(staged, host.fs, t, text) else host.fs == staged
    requires NoNewTemps(start, staged, [p]) && NoNewTemps(staged, host.fs, [])
    modifies host`fs, host`unremoved
    ensures host.Valid()
    ensures if late then ReplacedBy(start, host.fs, t, text) else SameFiles(start, host.fs)
    ensures CleanedUp(start, host.fs, old(host.unremoved), host.unremoved)
    ensures late && Durably(old(host.fs), t, text) ==> Durably(host.fs, t, text)
  {
    RemoveBindings(host.fs, p);
    if late {
      ReplacedSince(start, staged, host.fs, t, text);
      RemovalKeepsOutcome(start, host.fs, p, t, text);
    } else {
      TemporaryStepsKeepFiles(start, host.fs, p, ino, "");
    }
    RemovalLeavesNone(start, staged, host.fs, p);
    host.RemoveFile(p);
  }

  /** Validation, live load and replacement of a staged ruleset. */
  method ActivateFirewall(host: Host, p: Path, ghost ino: nat, ghost text: Content) returns (o: Outcome)
    requires host.Valid() && IsTempName(p.name) && p.dir == NFTABLES.dir
    requires Current(host.fs, p) == Some(ino) && FileIs(host.fs, ino, text, true)
    modifies host`fs, host`accepted, host`live
    ensures host.Valid()
    ensures o in {Failed(Validation), Failed(LiveLoad), Failed(Replacement), Failed(OpenDirectory),
        Failed(DirectorySync), Success}
    ensures !Late(o) ==> host.fs == old(host.fs)
    ensures NoNewTemps(old(host.fs), host.fs, [])
    ensures host.accepted == if PastValidation(o) then old(host.accepted) + [text] else old(host.accepted)
    ensures Late(o) ==> ReplacedBy(old(host.fs), host.fs, NFTABLES, text)
    ensures o.Success? ==> Durably(host.fs, NFTABLES, text)
    ensures host.live == if Late(o) || o == Failed(Replacement) then old(host.live) + [text] else old(host.live)
  {
    var ok := host.CheckFile(p);
    if !ok { return Failed(Validation); }
    ok := host.LoadFile(p);
    if !ok { return Failed(LiveLoad); }
    var c := CommitStaged(host, p, NFTABLES, ino, text);
    match c {
      case NotRenamed => return Failed(Replacement);
      case NotOpened => return Failed(OpenDirectory);
      case NotSynced => return Failed(DirectorySync);
      case Committed => return Success;
    }
  }

  /** Staging, activation and the deferred removal. */
  method InstallFirewall(host: Host, text: Content) returns (o: Outcome)
    requires host.Valid()
    modifies host
    ensures host.Valid() && host.signals == old(host.signals)
    ensures o != Failed(Reload) && o != Failed(Rendering) && o != Failed(RootCheck)
    ensures !Late(o) ==> SameFiles(old(host.fs), host.fs)
    ensures CleanedUp(old(host.fs), host.fs, old(host.unremoved), host.unremoved)
    ensures host.accepted == if PastValidation(o) then old(host.accepted) + [text] else old(host.accepted)
    ensures Late(o) ==> ReplacedBy(old(host.fs), host.fs, NFTABLES, text)
    ensures o.Success? ==> Durably(host.fs, NFTABLES, text)
    ensures host.live == if Late(o) || o == Failed(Replacement) then old(host.live) + [text] else old(host.live)
  {
    var staged, _ := StageWrite(host, NFTABLES.dir, text, true);
    if staged.None? { return Failed(Staging); }
    var (p, ino) := staged.value;
    ghost var before := host.fs;
    o := ActivateFirewall(host, p, ino, text);
    Finish(host, old(host.fs), before, p, ino, NFTABLES, text, Late(o));
  }

  /** `ApplyFirewall`, by outcome: the kernel changes exactly when the load was
      reached and worked, the file exactly when the rename was. So without
      overlap the kernel and the disk agree after success, and differ after a
      replacement that failed. */
  method ApplyFirewall(host: Host, job: Job, root: bool) returns (o: Outcome)
    requires host.Valid() && job.ApplyFirewall?
    modifies host
    ensures host.Valid() && host.signals == old(host.signals)
    ensures !Late(o) ==> SameFiles(old(host.fs), host.fs)
    ensures CleanedUp(old(host.fs), host.fs, old(host.unremoved), host.unremoved)
    ensures Late(o) ==>
              && Render(job).Some?
              && ReplacedBy(old(host.fs), host.fs, NFTABLES, Render(job).value)
    ensures o.Success? ==> Durably(host.fs, NFTABLES, Render(job).value)
    ensures o != Failed(Reload)
    ensures if Late(o) || o == Failed(Replacement)
            then Render(job).Some? && host.live == old(host.live) + [Render(job).value]
            else host.live == old(host.live)
    ensures if PastValidation(o) then Render(job).Some? && host.accepted == old(host.accepted) + [Render(job).value]
            else host.accepted == old(host.accepted)
    ensures Render(job).None? <==> o == Failed(Rendering)
    ensures Render(job).Some? && !root <==> o == Failed(RootCheck)
    ensures Render(job).None? || !root ==> host.fs == old(host.fs)
  {
    var contents := Render(job);
    if contents.None? { return Failed(Rendering); }
    if !root { return Failed(RootCheck); }
    o := InstallFirewall(host, contents.value);
  }
}
