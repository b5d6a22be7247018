/** Runs of the staged transaction, built step by step from any state. */
module StagedRuns {
  import opened Wrappers
  import opened FileSystem
  import opened StagedConfig

  type Trace = seq<(nat, Action)>

  /** A run and the state it ends in. */
  ghost predicate Reaches(from: State, trace: Trace, reuse: bool, s: State) {
    Run(from, trace, reuse) == Some(s)
  }

  lemma Extend(from: State, trace: Trace, reuse: bool, s: State, id: nat, a: Action, s': State) returns (longer: Trace)
    requires Reaches(from, trace, reuse, s) && Next(s, id, a, reuse) == Some(s')
    ensures Reaches(from, longer, reuse, s')
  {
    longer := trace + [(id, a)];
    assert longer[..|longer| - 1] == trace;
  }

  /** Where an uneventful step leads. */
  function Following(phase: Phase): Option<Phase> {
    match phase
    case MakeDir => Some(CreateTemp)
    case ChmodTemp => Some(SyncTemp)
    case CloseTemp => Some(Validate)
    case _ => None
  }

  lemma Advance(from: State, trace: Trace, reuse: bool, s: State, id: nat) returns (longer: Trace)
    requires Reaches(from, trace, reuse, s) && id in s.requests && Following(s.requests[id].phase).Some?
    ensures Reaches(from, longer, reuse, WithPhase(s, id, Following(s.requests[id].phase).value))
  {
    longer := Extend(from, trace, reuse, s, id, Succeed, WithPhase(s, id, Following(s.requests[id].phase).value));
  }

  function With(s: State, id: nat, r: Request): State {
    s.(requests := s.requests[id := r])
  }

  /** A job that can be submitted anywhere and carries this text. */
  ghost predicate Carries(job: Job, text: Content) {
    forall s: State, id: nat, reuse: bool :: id !in s.requests ==>
      Next(s, id, Submit(job, true), reuse) == Some(With(s, id, Request(job, text, Path(0, ""), 0, MakeDir)))
  }

  lemma RenderedCarries(job: Job, text: Content)
    requires Render(job) == Some(text)
    ensures Carries(job, text)
  {
  }

  lemma Begun(from: State, trace: Trace, reuse: bool, s: State, id: nat, job: Job, text: Content)
      returns (longer: Trace)
    requires Reaches(from, trace, reuse, s) && id !in s.requests && Carries(job, text)
    ensures Reaches(from, longer, reuse, With(s, id, Request(job, text, Path(0, ""), 0, MakeDir)))
  {
    longer := Extend(from, trace, reuse, s, id, Submit(job, true),
        With(s, id, Request(job, text, Path(0, ""), 0, MakeDir)));
  }

  /** Updating a request that was just put in. */
  lemma WithTwice(s: State, id: nat, r: Request, phase: Phase)
    ensures WithPhase(With(s, id, r), id, phase) == With(s, id, r.(phase := phase))
  {
    assert s.requests[id := r][id := r.(phase := phase)] == s.requests[id := r.(phase := phase)];
  }

  lemma Submitted(from: State, trace: Trace, reuse: bool, s: State, id: nat, job: Job, text: Content)
      returns (longer: Trace)
    requires Reaches(from, trace, reuse, s) && id !in s.requests && Carries(job, text)
    ensures Reaches(from, longer, reuse, With(s, id, Request(job, text, Path(0, ""), 0, CreateTemp)))
  {
    var r := Request(job, text, Path(0, ""), 0, MakeDir);
    longer := Begun(from, trace, reuse, s, id, job, text);
    longer := Advance(from, longer, reuse, With(s, id, r), id);
    WithTwice(s, id, r, CreateTemp);
  }

  lemma Picked(from: State, trace: Trace, reuse: bool, s: State, id: nat, p: Path, ino: nat) returns (longer: Trace)
    requires Reaches(from, trace, reuse, s) && id in s.requests && s.requests[id].phase.CreateTemp?
    requires p.dir == Target(s.requests[id].job).dir && MayPick(s, p, ino, reuse)
    ensures Reaches(from, longer, reuse,
      With(s.(fs := Create(s.fs, p, ino)), id, s.requests[id].(temp := p, ino := ino, phase := WriteTemp)))
  {
    assert Path(Target(s.requests[id].job).dir, p.name) == p;
    longer := Extend(from, trace, reuse, s, id, PickTemp(p.name, ino),
      With(s.(fs := Create(s.fs, p, ino)), id, s.requests[id].(temp := p, ino := ino, phase := WriteTemp)));
  }

  lemma Wrote(from: State, trace: Trace, reuse: bool, s: State, id: nat) returns (longer: Trace)
    requires Reaches(from, trace, reuse, s) && id in s.requests && s.requests[id].phase.WriteTemp?
    ensures Reaches(from, longer, reuse,
        WithPhase(s.(fs := Write(s.fs, s.requests[id].ino, s.requests[id].contents)), id, ChmodTemp))
  {
    longer := Extend(from, trace, reuse, s, id, Succeed,
        WithPhase(s.(fs := Write(s.fs, s.requests[id].ino, s.requests[id].contents)), id, ChmodTemp));
  }

  lemma Synced(from: State, trace: Trace, reuse: bool, s: State, id: nat) returns (longer: Trace)
    requires Reaches(from, trace, reuse, s) && id in s.requests && s.requests[id].phase.SyncTemp?
        && s.requests[id].ino in s.fs.inodes
    ensures Reaches(from, longer, reuse, WithPhase(s.(fs := SyncFile(s.fs, s.requests[id].ino)), id, CloseTemp))
  {
    longer := Extend(from, trace, reuse, s, id, Succeed,
        WithPhase(s.(fs := SyncFile(s.fs, s.requests[id].ino)), id, CloseTemp));
  }

  /** The request has written its file; the data are not yet durable. */
  function Written(s: State, id: nat, r: Request): State {
    With(s.(fs := Write(Create(s.fs, r.temp, r.ino), r.ino, r.contents)), id, r)
  }

  /** `r` is `r0` some steps later, with a staged file. */
  predicate Later(r0: Request, r: Request) {
    r0.phase.CreateTemp? && r == r0.(temp := r.temp, ino := r.ino, phase := r.phase)
  }

  /** The file has just been created. */
  function Created(s: State, id: nat, r: Request): State {
    With(s.(fs := Create(s.fs, r.temp, r.ino)), id, r.(phase := WriteTemp))
  }

  lemma Creating(from: State, trace: Trace, reuse: bool, s: State, id: nat, r0: Request, r: Request)
      returns (longer: Trace)
    requires Reaches(from, trace, reuse, With(s, id, r0)) && Later(r0, r)
    requires r.temp.dir == Target(r.job).dir && MayPick(With(s, id, r0), r.temp, r.ino, reuse)
    ensures Reaches(from, longer, reuse, Created(s, id, r))
  {
    longer := Picked(from, trace, reuse, With(s, id, r0), id, r.temp, r.ino);
    assert s.requests[id := r0][id := r.(phase := WriteTemp)] == s.requests[id := r.(phase := WriteTemp)];
  }

  lemma Writing(from: State, trace: Trace, reuse: bool, s: State, id: nat, r: Request) returns (longer: Trace)
    requires Reaches(from, trace, reuse, Created(s, id, r)) && r.phase.ChmodTemp?
    ensures Reaches(from, longer, reuse, Written(s, id, r))
  {
    var made, r1 := s.(fs := Create(s.fs, r.temp, r.ino)), r.(phase := WriteTemp);
    longer := Wrote(from, trace, reuse, With(made, id, r1), id);
    WithTwice(made.(fs := Write(made.fs, r.ino, r.contents)), id, r1, ChmodTemp);
  }

  /** The request has staged its file and is about to validate it. */
  function Staged(s: State, id: nat, r: Request): State {
    With(s.(fs := SyncFile(Write(Create(s.fs, r.temp, r.ino), r.ino, r.contents), r.ino)), id, r)
  }

  lemma StagingRun(from: State, trace: Trace, reuse: bool, s: State, id: nat, r: Request) returns (longer: Trace)
    requires Reaches(from, trace, reuse, Created(s, id, r)) && r.phase.Validate?
    ensures Reaches(from, longer, reuse, Staged(s, id, r))
  {
    var r1, r2, r3 := r.(phase := ChmodTemp), r.(phase := SyncTemp), r.(phase := CloseTemp);
    var wrote := s.(fs := Write(Create(s.fs, r.temp, r.ino), r.ino, r.contents));
    var synced := wrote.(fs := SyncFile(wrote.fs, r.ino));
    longer := Writing(from, trace, reuse, s, id, r1);
    longer := Advance(from, longer, reuse, With(wrote, id, r1), id);
    WithTwice(wrote, id, r1, SyncTemp);
    longer := Synced(from, longer, reuse, With(wrote, id, r2), id);
    WithTwice(synced, id, r2, CloseTemp);
    longer := Advance(from, longer, reuse, With(synced, id, r3), id);
    WithTwice(synced, id, r3, Validate);
  }

  lemma Validated(from: State, trace: Trace, reuse: bool, s: State, id: nat, c: Content) returns (longer: Trace)
    requires Reaches(from, trace, reuse, s) && id in s.requests && s.requests[id].phase.Validate?
        && Read(s.fs, s.requests[id].temp) == Some(c)
    ensures Reaches(from, longer, reuse,
        WithPhase(s.(accepted := s.accepted + {(id, c)}), id,
        if s.requests[id].job.ApplyFirewall? then LoadLive else RenameTemp))
  {
    longer := Extend(from, trace, reuse, s, id, Succeed,
      WithPhase(s.(accepted := s.accepted + {(id, c)}), id,
          if s.requests[id].job.ApplyFirewall? then LoadLive else RenameTemp));
  }

  lemma Loaded(from: State, trace: Trace, reuse: bool, s: State, id: nat, c: Content) returns (longer: Trace)
    requires Reaches(from, trace, reuse, s) && id in s.requests && s.requests[id].phase.LoadLive?
        && Read(s.fs, s.requests[id].temp) == Some(c)
    ensures Reaches(from, longer, reuse,
        WithPhase(s.(loaded := s.loaded + {(id, c)}, live := s.live + [c]), id, RenameTemp))
  {
    longer := Extend(from, trace, reuse, s, id, Succeed,
        WithPhase(s.(loaded := s.loaded + {(id, c)}, live := s.live + [c]), id, RenameTemp));
  }

  function Replacing(s: State, id: nat): State
    requires id in s.requests
  {
    var r := s.requests[id];
    var t := Target(r.job);
    WithPhase(s.(fs := Rename(s.fs, r.temp, t),
        commits := s.commits[t := (if t in s.commits then s.commits[t] else []) + [Some(id)]]), id, OpenDir)
  }

  lemma Renamed(from: State, trace: Trace, reuse: bool, s: State, id: nat) returns (longer: Trace)
    requires Reaches(from, trace, reuse, s) && id in s.requests && s.requests[id].phase.RenameTemp?
    requires Read(s.fs, s.requests[id].temp).Some? && Target(s.requests[id].job) in s.commits
    ensures Reaches(from, longer, reuse, Replacing(s, id))
  {
    longer := Extend(from, trace, reuse, s, id, Succeed, Replacing(s, id));
  }

  /** Giving up after the rename; if at the reload, it is noted that it failed. */
  lemma GaveUp(from: State, trace: Trace, reuse: bool, s: State, id: nat)
      returns (longer: Trace, o: Outcome, told: State)
    requires Reaches(from, trace, reuse, s) && id in s.requests
    requires var p := s.requests[id].phase; p.OpenDir? || p.SyncDirectory? || p.HangUp? || p.Cleanup?
    ensures told == s.(notices := told.notices) && Reaches(from, longer, reuse, WithPhase(told, id, Cleanup(o)))
  {
    told := s;
    match s.requests[id].phase
    case Cleanup(then_) =>
      longer, o := trace, then_;
      assert WithPhase(s, id, Cleanup(then_)).requests == s.requests;
    case OpenDir =>
      o := Failed(OpenDirectory);
      longer := Extend(from, trace, reuse, s, id, Fail, WithPhase(s, id, Cleanup(o)));
    case SyncDirectory =>
      o := Failed(DirectorySync);
      longer := Extend(from, trace, reuse, s, id, Fail, WithPhase(s, id, Cleanup(o)));
    case HangUp =>
      o, told := Failed(Reload), Notified(s, id, false);
      longer := Extend(from, trace, reuse, s, id, Fail, WithPhase(told, id, Cleanup(o)));
  }

  /** The deferred removal. */
  lemma CleanedUp(from: State, trace: Trace, reuse: bool, s: State, id: nat, o: Outcome) returns (longer: Trace)
    requires Reaches(from, trace, reuse, s) && id in s.requests && s.requests[id].phase == Cleanup(o)
    ensures Reaches(from, longer, reuse, WithPhase(s.(fs := Remove(s.fs, s.requests[id].temp)), id, Done(o)))
  {
    longer := Extend(from, trace, reuse, s, id, Succeed,
        WithPhase(s.(fs := Remove(s.fs, s.requests[id].temp)), id, Done(o)));
  }
}
