/** Runs from the empty system that reach the situations in which the staged
    transaction can go wrong. */
module StagedScenarios {
  import opened Wrappers
  import opened FileSystem
  import opened StagedConfig
  import opened StagedRuns
  import opened StagedNames
  import StagedLive

  const EMPTY := State(Fs(map[], map[]), map[], [], {}, {}, map[DNSMASQ := [None], NFTABLES := [None]],
      map[DNSMASQ := 0, NFTABLES := 0], [])

  lemma EmptyIsInitial()
    ensures Initial(EMPTY)
  {
  }

  lemma {:induction false} CarefulIsFree(s: State, trace: Trace)
    requires Run(s, trace, false).Some?
    ensures Run(s, trace, true) == Run(s, trace, false)
    decreases |trace|
  {
    if trace != [] { CarefulIsFree(s, trace[..|trace| - 1]); }
  }

  lemma {:induction false} RunJoins(s: State, trace: Trace, more: Trace, reuse: bool, s1: State)
    requires Run(s, trace, reuse) == Some(s1)
    ensures Run(s, trace + more, reuse) == Run(s1, more, reuse)
    decreases |more|
  {
    if more == [] {
      assert trace + more == trace;
    } else {
      assert (trace + more)[..|trace + more| - 1] == trace + more[..|more| - 1];
      RunJoins(s, trace, more[..|more| - 1], reuse, s1);
    }
  }

  // ---- Getting going ---------------------------------------------------------------------------

  const NAME := ".netrouter-1"
  const OTHER := ".netrouter-2"

  lemma NamesAreTemp(dir: nat)
    ensures IsTempName(NAME) && IsTempName(OTHER) && NAME != OTHER
    ensures Path(dir, NAME) !in TARGETS && Path(dir, OTHER) !in TARGETS
  {
    assert NAME[..11] == STAGED_PREFIX && OTHER[..11] == STAGED_PREFIX && NAME[11] != OTHER[11];
    TempIsNoTarget(Path(dir, NAME));
    TempIsNoTarget(Path(dir, OTHER));
  }

  /** Request `id` has staged and validated its file. */
  function Checked(s: State, id: nat, r: Request): State {
    WithPhase(Staged(s, id, r).(accepted := s.accepted + {(id, r.contents)}), id,
        if r.job.ApplyFirewall? then LoadLive else RenameTemp)
  }

  lemma Joins(t0: Trace, s: State, id: nat, r: Request) returns (trace: Trace)
    requires Reaches(EMPTY, t0, false, s) && id !in s.requests && Carries(r.job, r.contents) && r.phase.Validate?
    requires r.temp.dir == Target(r.job).dir && MayPick(s, r.temp, r.ino, false) && r.temp.name != ""
    ensures Reaches(EMPTY, trace, false, Checked(s, id, r))
  {
    var r0 := Request(r.job, r.contents, Path(0, ""), 0, CreateTemp);
    trace := Submitted(EMPTY, t0, false, s, id, r.job, r.contents);
    assert !Claimed(With(s, id, r0).requests, r.temp);
    trace := Creating(EMPTY, trace, false, s, id, r0, r);
    trace := StagingRun(EMPTY, trace, false, s, id, r);
    StagedReads(s.fs, r);
    trace := Validated(EMPTY, trace, false, Staged(s, id, r), id, r.contents);
  }

  lemma StagedReads(fs: Fs, r: Request)
    ensures Read(SyncFile(Write(Create(fs, r.temp, r.ino), r.ino, r.contents), r.ino), r.temp) == Some(r.contents)
    ensures forall q :: q != r.temp && (Current(fs, q).Some? ==> Current(fs, q).value != r.ino) ==>
              Read(SyncFile(Write(Create(fs, r.temp, r.ino), r.ino, r.contents), r.ino), q) == Read(fs, q)
  {
  }

  // ---- A claimed name ----------------------------------------------------------------------------

  /** The first request has replaced the file and still claims its name; the second
      is about to create its own. */
  ghost predicate Tempting(s: State, p: Path, b: Job, ca: Content, cb: Content) {
    && s.requests.Keys == {1, 2} && s.requests[1].temp == p && s.requests[1].phase.OpenDir?
    && s.requests[2].job == b && s.requests[2].contents == cb && s.requests[2].phase.CreateTemp?
    && Current(s.fs, p).None? && 2 !in s.fs.inodes && s.accepted == {(1, ca)}
  }

  lemma TemptingIsReached(a: Job, b: Job, ca: Content, cb: Content) returns (trace: Trace, s: State)
    requires a.ApplyDhcpDns? && Carries(a, ca) && Carries(b, cb)
    ensures Reaches(EMPTY, trace, false, s) && Tempting(s, Path(Target(a).dir, NAME), b, ca, cb)
  {
    var p := Path(Target(a).dir, NAME);
    NamesAreTemp(p.dir);
    var r := Request(a, ca, p, 1, Validate);
    assert Reaches(EMPTY, [], false, EMPTY);
    trace := Joins([], EMPTY, 1, r);
    var s1 := Checked(EMPTY, 1, r);
    StagedReads(EMPTY.fs, r);
    trace := Renamed(EMPTY, trace, false, s1, 1);
    var s2 := Replacing(s1, 1);
    assert Target(a) in TARGETS;
    assert Current(s2.fs, p).None?;
    trace := Submitted(EMPTY, trace, false, s2, 2, b, cb);
    s := With(s2, 2, Request(b, cb, Path(0, ""), 0, CreateTemp));
  }

  /** With any free name allowed, for any three DHCP requests of which the last
      renders a text of its own, some run puts that text into the active file
      although the validator has never accepted it. */
  lemma NameReuseBreaksValidation(a: Job, b: Job, c: Job, ca: Content, cb: Content, cc: Content)
    requires a.ApplyDhcpDns? && b.ApplyDhcpDns? && c.ApplyDhcpDns?
    requires Render(a) == Some(ca) && Render(b) == Some(cb) && Render(c) == Some(cc) && cc != ca && cc != cb
    ensures exists trace, s ::
              Reaches(EMPTY, trace, true, s) && Read(s.fs, DNSMASQ) == Some(cc) && forall id :: (id, cc) !in s.accepted
  {
    RenderedCarries(a, ca);
    RenderedCarries(b, cb);
    RenderedCarries(c, cc);
    var trace, s := ReuseRun(a, b, c, ca, cb, cc);
    assert Reaches(EMPTY, trace, true, s);
  }

  lemma ReuseRun(a: Job, b: Job, c: Job, ca: Content, cb: Content, cc: Content) returns (trace: Trace, s': State)
    requires a.ApplyDhcpDns? && b.ApplyDhcpDns? && c.ApplyDhcpDns?
    requires Carries(a, ca) && Carries(b, cb) && Carries(c, cc) && cc != ca && cc != cb
    ensures Reaches(EMPTY, trace, true, s') && Read(s'.fs, DNSMASQ) == Some(cc) && forall id :: (id, cc) !in s'.accepted
  {
    var p := Path(Target(a).dir, NAME);
    var s, s1, more;
    trace, s := TemptingIsReached(a, b, ca, cb);
    EmptyIsInitial();
    RunKeepsInv(EMPTY, trace);
    NamesAreTemp(p.dir);
    s1, more, s' := CarriedBreaks(EMPTY.fs, s, 1, 2, p, 2, 3, c, cc);
    CarefulIsFree(EMPTY, trace);
    trace := Extend(EMPTY, trace, true, s, 2, PickTemp(p.name, 2), s1);
    RunJoins(EMPTY, trace, more, true, s1);
    trace := trace + more;
  }

  // ---- Overlapping firewall requests -----------------------------------------------------------

  /** The first firewall request is in between, the second is about to load. */
  ghost predicate Overlapping(s: State, ca: Content, cb: Content) {
    && s.requests.Keys == {1, 2}
    && StagedLive.Between(s, 1) && s.requests[1].contents == ca && s.live == [ca]
    && s.requests[2].job.ApplyFirewall? && s.requests[2].phase.LoadLive? && s.requests[2].contents == cb
  }

  lemma FirstIsBetween(a: Job, ca: Content) returns (trace: Trace, s: State)
    requires a.ApplyFirewall? && Carries(a, ca)
    ensures Reaches(EMPTY, trace, false, s) && s.requests.Keys == {1} && StagedLive.Between(s, 1)
    ensures s.requests[1].contents == ca && s.requests[1].temp == Path(NFTABLES.dir, NAME) && s.live == [ca]
    ensures Current(s.fs, Path(NFTABLES.dir, OTHER)).None? && 2 !in s.fs.inodes
  {
    var r := Request(a, ca, Path(NFTABLES.dir, NAME), 1, Validate);
    NamesAreTemp(NFTABLES.dir);
    assert Reaches(EMPTY, [], false, EMPTY);
    trace := Joins([], EMPTY, 1, r);
    var s1 := Checked(EMPTY, 1, r);
    StagedReads(EMPTY.fs, r);
    trace := Loaded(EMPTY, trace, false, s1, 1, ca);
    s := WithPhase(s1.(loaded := s1.loaded + {(1, ca)}, live := s1.live + [ca]), 1, RenameTemp);
  }

  lemma OverlapIsReached(a: Job, b: Job, ca: Content, cb: Content) returns (trace: Trace, s: State)
    requires a.ApplyFirewall? && b.ApplyFirewall? && Carries(a, ca) && Carries(b, cb)
    ensures Reaches(EMPTY, trace, false, s) && Overlapping(s, ca, cb)
  {
    NamesAreTemp(NFTABLES.dir);
    var r, s1 := Request(b, cb, Path(NFTABLES.dir, OTHER), 2, Validate), EMPTY;
    trace, s1 := FirstIsBetween(a, ca);
    assert !Claimed(s1.requests, r.temp);
    trace := Joins(trace, s1, 2, r);
    s := Checked(s1, 2, r);
  }

  /** Two overlapping firewall requests can both replace the file while the kernel
      runs one ruleset and the disk holds the other. */
  lemma OverlapSplitsLiveFromDisk(a: Job, b: Job, ca: Content, cb: Content)
    requires a.ApplyFirewall? && b.ApplyFirewall? && Render(a) == Some(ca) && Render(b) == Some(cb) && ca != cb
    ensures exists trace, s :: Reaches(EMPTY, trace, false, s) && s.live == [ca, cb] && Read(s.fs, NFTABLES) == Some(ca)
  {
    RenderedCarries(a, ca);
    RenderedCarries(b, cb);
    var trace, s := OverlapRun(a, b, ca, cb);
    assert Reaches(EMPTY, trace, false, s);
  }

  lemma OverlapRun(a: Job, b: Job, ca: Content, cb: Content) returns (trace: Trace, s': State)
    requires a.ApplyFirewall? && b.ApplyFirewall? && Carries(a, ca) && Carries(b, cb)
    ensures Reaches(EMPTY, trace, false, s') && s'.live == [ca, cb] && Read(s'.fs, NFTABLES) == Some(ca)
  {
    var s;
    trace, s := OverlapIsReached(a, b, ca, cb);
    EmptyIsInitial();
    RunKeepsInv(EMPTY, trace);
    var more := StagedLive.SecondLoadSplits(EMPTY.fs, s, 1, 2);
    RunJoins(EMPTY, trace, more, false, s);
    trace, s' := trace + more, StagedLive.Crossed(s, 1, 2);
  }
}
