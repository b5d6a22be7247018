/** Why creation must not return a name that an unfinished request still claims. */
module StagedNames {
  import opened Wrappers
  import opened FileSystem
  import opened StagedConfig
  import opened StagedRuns

  /** What the run below needs to know: `a` will remove the name `p`, `b` will rename
      it to `t`, and what `p` reads now. */
  ghost predicate Trap(s: State, t: Path, p: Path, a: nat, pa: Phase, b: nat, pb: Phase, named: Option<Content>,
      accepted: set<(nat, Content)>)
  {
    && a != b && a in s.requests && s.requests[a].temp == p && s.requests[a].phase == pa
    && b in s.requests && s.requests[b].temp == p && s.requests[b].phase == pb && Target(s.requests[b].job) == t
    && Read(s.fs, p) == named && (named.None? ==> Current(s.fs, p).None?)
    && t in s.commits && s.accepted == accepted
  }

  /** Free, yet claimed: then the claimant has replaced the file or given up. */
  lemma ClaimantIsLate(fs0: Fs, s: State, a: nat)
    requires Inv(fs0, s) && a in s.requests && !s.requests[a].phase.Done?
    requires IsTempName(s.requests[a].temp.name) && Current(s.fs, s.requests[a].temp).None?
    ensures var p := s.requests[a].phase; p.OpenDir? || p.SyncDirectory? || p.HangUp? || p.Cleanup?
  {
    TempIsNoTarget(s.requests[a].temp);
    assert FileOk(fs0, s.fs, s.requests[a]);
  }

  /** `b` stages its file under the name that `a` still claims. */
  lemma StagedTrap(s: State, t: Path, p: Path, a: nat, b: nat, r: Request)
    requires a in s.requests && s.requests[a].temp == p && a != b && r.temp == p && Target(r.job) == t && t in s.commits
    ensures Trap(Staged(s, b, r), t, p, a, s.requests[a].phase, b, r.phase, Some(r.contents), s.accepted)
  {
  }

  /** It is validated, and for the firewall loaded. */
  lemma ValidatedTrap(from: State, t0: Trace, s0: State, t: Path, p: Path, a: nat, pa: Phase, b: nat, c: Content,
      accepted: set<(nat, Content)>)
    returns (trace: Trace, s: State)
    requires Reaches(from, t0, true, s0) && Trap(s0, t, p, a, pa, b, Validate, Some(c), accepted)
    ensures Reaches(from, trace, true, s) && Trap(s, t, p, a, pa, b, RenameTemp, Some(c), accepted + {(b, c)})
    ensures s.requests.Keys == s0.requests.Keys
  {
    trace := Validated(from, t0, true, s0, b, c);
    s := WithPhase(s0.(accepted := s0.accepted + {(b, c)}), b,
        if s0.requests[b].job.ApplyFirewall? then LoadLive else RenameTemp);
    if s0.requests[b].job.ApplyFirewall? {
      trace := Loaded(from, trace, true, s, b, c);
      s := WithPhase(s.(loaded := s.loaded + {(b, c)}, live := s.live + [c]), b, RenameTemp);
    }
  }

  /** `a` gives up and its deferred removal takes away the file of `b`. */
  lemma RemovedTrap(from: State, t0: Trace, s0: State, t: Path, p: Path, a: nat, pa: Phase, b: nat,
      named: Option<Content>, accepted: set<(nat, Content)>)
    returns (trace: Trace, s: State, o: Outcome)
    requires Reaches(from, t0, true, s0) && Trap(s0, t, p, a, pa, b, RenameTemp, named, accepted)
    requires pa.OpenDir? || pa.SyncDirectory? || pa.HangUp? || pa.Cleanup?
    ensures Reaches(from, trace, true, s) && Trap(s, t, p, a, Done(o), b, RenameTemp, None, accepted)
    ensures s.requests.Keys == s0.requests.Keys
  {
    var told;
    trace, o, told := GaveUp(from, t0, true, s0, a);
    var s1 := WithPhase(told, a, Cleanup(o));
    trace := CleanedUp(from, trace, true, s1, a, o);
    s := WithPhase(s1.(fs := Remove(s1.fs, p)), a, Done(o));
    RemoveFrees(s1.fs, p);
  }

  lemma RemoveFrees(fs: Fs, p: Path)
    ensures Current(Remove(fs, p), p).None? && Read(Remove(fs, p), p).None?
  {
  }

  /** A third request writes under the name once more. */
  lemma WrittenTrap(from: State, t0: Trace, s0: State, t: Path, p: Path, a: nat, pa: Phase, b: nat,
      accepted: set<(nat, Content)>, c: nat, job: Job, text: Content)
    returns (trace: Trace, s: State)
    requires Reaches(from, t0, true, s0) && Trap(s0, t, p, a, pa, b, RenameTemp, None, accepted)
    requires c !in s0.requests && Carries(job, text) && Target(job) == t && p.dir == t.dir && IsTempName(p.name)
    ensures Reaches(from, trace, true, s) && Trap(s, t, p, a, pa, b, RenameTemp, Some(text), accepted)
  {
    var ino := Above(s0.fs.inodes.Keys);
    var r0 := Request(job, text, Path(0, ""), 0, CreateTemp);
    var r := r0.(temp := p, ino := ino, phase := ChmodTemp);
    trace := Submitted(from, t0, true, s0, c, job, text);
    trace := Creating(from, trace, true, s0, c, r0, r);
    trace := Writing(from, trace, true, s0, c, r);
    s := Written(s0, c, r);
  }

  /** `b` renames what the name now reads. */
  lemma RenamedTrap(from: State, t0: Trace, s0: State, t: Path, p: Path, a: nat, pa: Phase, b: nat, text: Content,
      accepted: set<(nat, Content)>)
    returns (trace: Trace, s: State)
    requires Reaches(from, t0, true, s0) && Trap(s0, t, p, a, pa, b, RenameTemp, Some(text), accepted) && p != t
    ensures Reaches(from, trace, true, s) && Read(s.fs, t) == Some(text) && s.accepted == accepted
  {
    trace := Renamed(from, t0, true, s0, b);
    s := Replacing(s0, b);
    RenameBindings(s0.fs, p, t, Current(s0.fs, p).value);
  }

  /** The policy is needed. From any state that the invariant allows: when creation
      returns to `b` a free name that an unfinished request still claims, and any
      further job renders a text never accepted, some continuation puts that text
      into the active file although no validator has seen it. */
  lemma ClaimedNameBreaks(fs0: Fs, s: State, a: nat, b: nat, p: Path, ino: nat, c: nat, job: Job, text: Content)
    returns (s1: State, trace: Trace, s': State)
    requires Inv(fs0, s) && a in s.requests && s.requests[a].temp == p && !s.requests[a].phase.Done?
    requires b in s.requests && s.requests[b].phase.CreateTemp? && MayPick(s, p, ino, true)
        && p.dir == Target(s.requests[b].job).dir
    requires c !in s.requests && Render(job) == Some(text) && Target(job) == Target(s.requests[b].job)
    requires text != s.requests[b].contents && forall id :: (id, text) !in s.accepted
    ensures !MayPick(s, p, ino, false) && Next(s, b, PickTemp(p.name, ino), true) == Some(s1)
    ensures Run(s1, trace, true) == Some(s') && Read(s'.fs, Target(job)) == Some(text)
        && forall id :: (id, text) !in s'.accepted
  {
    RenderedCarries(job, text);
    s1, trace, s' := CarriedBreaks(fs0, s, a, b, p, ino, c, job, text);
  }

  lemma CarriedBreaks(fs0: Fs, s: State, a: nat, b: nat, p: Path, ino: nat, c: nat, job: Job, text: Content)
    returns (s1: State, trace: Trace, s': State)
    requires Inv(fs0, s) && a in s.requests && s.requests[a].temp == p && !s.requests[a].phase.Done?
    requires b in s.requests && s.requests[b].phase.CreateTemp? && MayPick(s, p, ino, true)
        && p.dir == Target(s.requests[b].job).dir
    requires c !in s.requests && Carries(job, text) && Target(job) == Target(s.requests[b].job)
    requires text != s.requests[b].contents && forall id :: (id, text) !in s.accepted
    ensures !MayPick(s, p, ino, false) && Next(s, b, PickTemp(p.name, ino), true) == Some(s1)
    ensures Reaches(s1, trace, true, s') && Read(s'.fs, Target(job)) == Some(text)
        && forall id :: (id, text) !in s'.accepted
  {
    var r := s.requests[b].(temp := p, ino := ino, phase := Validate);
    s1 := Created(s, b, r);
    PickIsCreated(s, b, p, ino);
    trace, s' := TrapRun(fs0, s, a, b, p, r, c, job, text);
  }

  lemma PickIsCreated(s: State, b: nat, p: Path, ino: nat)
    requires b in s.requests && s.requests[b].phase.CreateTemp? && MayPick(s, p, ino, true)
        && p.dir == Target(s.requests[b].job).dir
    ensures Next(s, b, PickTemp(p.name, ino), true)
        == Some(Created(s, b, s.requests[b].(temp := p, ino := ino, phase := Validate)))
  {
    assert Path(Target(s.requests[b].job).dir, p.name) == p;
  }

  lemma TrapRun(fs0: Fs, s: State, a: nat, b: nat, p: Path, r: Request, c: nat, job: Job, text: Content)
    returns (trace: Trace, s': State)
    requires Inv(fs0, s) && a in s.requests && s.requests[a].temp == p && !s.requests[a].phase.Done?
    requires b in s.requests && s.requests[b].phase.CreateTemp? && IsTempName(p.name) && Current(s.fs, p).None?
        && p.dir == Target(r.job).dir
    requires r.job == s.requests[b].job && r.contents == s.requests[b].contents && r.temp == p && r.phase.Validate?
    requires c !in s.requests && Carries(job, text) && Target(job) == Target(r.job)
    requires text != r.contents && forall id :: (id, text) !in s.accepted
    ensures Reaches(Created(s, b, r), trace, true, s')
    ensures Read(s'.fs, Target(job)) == Some(text) && forall id :: (id, text) !in s'.accepted
  {
    var t, s1, pa, accepted := Target(r.job), Created(s, b, r), s.requests[a].phase, s.accepted + {(b, r.contents)};
    TempIsNoTarget(p);
    assert t in TARGETS && FileOk(fs0, s.fs, s.requests[b]);
    trace, s', pa := TrapSet(fs0, s, a, b, p, r);
    trace, s' := WrittenTrap(s1, trace, s', t, p, a, pa, b, accepted, c, job, text);
    trace, s' := RenamedTrap(s1, trace, s', t, p, a, pa, b, text, accepted);
  }

  lemma TrapSet(fs0: Fs, s: State, a: nat, b: nat, p: Path, r: Request) returns (trace: Trace, s': State, pa: Phase)
    requires Inv(fs0, s) && a in s.requests && s.requests[a].temp == p && !s.requests[a].phase.Done?
    requires b in s.requests && a != b && IsTempName(p.name) && Current(s.fs, p).None?
    requires r.job == s.requests[b].job && r.temp == p && r.phase.Validate? && Target(r.job) in s.commits
    ensures Reaches(Created(s, b, r), trace, true, s') && s'.requests.Keys == s.requests.Keys
    ensures Trap(s', Target(r.job), p, a, pa, b, RenameTemp, None, s.accepted + {(b, r.contents)})
  {
    var t, s1 := Target(r.job), Created(s, b, r);
    pa := s.requests[a].phase;
    ClaimantIsLate(fs0, s, a);
    assert Reaches(s1, [], true, s1);
    trace := StagingRun(s1, [], true, s, b, r);
    StagedTrap(s, t, p, a, b, r);
    trace, s' := ValidatedTrap(s1, trace, Staged(s, b, r), t, p, a, pa, b, r.contents, s.accepted);
    var o;
    trace, s', o := RemovedTrap(s1, trace, s', t, p, a, pa, b, Some(r.contents), s.accepted + {(b, r.contents)});
    pa := Done(o);
  }
}
