/** The apply operations as the daemon runs them among other requests: every system
    call is a step of the machine, and between any two the others may take theirs. */
module Daemon {
  import opened Wrappers
  import opened FileSystem
  import opened StagedConfig
  import opened StagedReloads

  // ---- Single calls ----------------------------------------------------------------------------

  /** Where a call that works, and one that fails, leads. */
  function OnSuccess(job: Job, phase: Phase): Phase {
    match phase
    case MakeDir => CreateTemp
    case WriteTemp => ChmodTemp
    case ChmodTemp => SyncTemp
    case SyncTemp => CloseTemp
    case CloseTemp => Validate
    case Validate => if job.ApplyFirewall? then LoadLive else RenameTemp
    case LoadLive => RenameTemp
    case RenameTemp => OpenDir
    case OpenDir => SyncDirectory
    case SyncDirectory => if job.ApplyDhcpDns? then HangUp else Cleanup(Success)
    case HangUp => Cleanup(Success)
    case Cleanup(o) => Done(o)
    case _ => phase
  }

  function OnFailure(phase: Phase): Phase {
    match phase
    case MakeDir => Done(Failed(Staging))
    case WriteTemp => Cleanup(Failed(Staging))
    case ChmodTemp => Cleanup(Failed(Staging))
    case SyncTemp => Cleanup(Failed(Staging))
    case CloseTemp => Cleanup(Failed(Staging))
    case Validate => Cleanup(Failed(Validation))
    case LoadLive => Cleanup(Failed(LiveLoad))
    case RenameTemp => Cleanup(Failed(Replacement))
    case OpenDir => Cleanup(Failed(OpenDirectory))
    case SyncDirectory => Cleanup(Failed(DirectorySync))
    case HangUp => Cleanup(Failed(Reload))
    case Cleanup(o) => Done(o)
    case _ => phase
  }

  predicate Pending(phase: Phase) {
    !phase.Done? && !phase.CreateTemp?
  }

  /** After `n` calls that work. */
  function After(job: Job, phase: Phase, n: nat): Phase {
    if n == 0 then phase else OnSuccess(job, After(job, phase, n - 1))
  }

  lemma StagingSucceeds(fs0: Fs, s: State, id: nat)
    requires Inv(fs0, s) && id in s.requests && IsStaging(s.requests[id].phase) && Pending(s.requests[id].phase)
    ensures var r := s.requests[id]; var s' := Next(s, id, Succeed, false);
            s'.Some? && s'.value.requests == s.requests[id := r.(phase := OnSuccess(r.job, r.phase))]
  {
    assert FileOk(fs0, s.fs, s.requests[id]);
  }

  lemma CommitSucceeds(fs0: Fs, s: State, id: nat)
    requires Inv(fs0, s) && id in s.requests && s.requests[id].phase in {Validate, LoadLive, RenameTemp}
    ensures var r := s.requests[id]; var s' := Next(s, id, Succeed, false);
            s'.Some? && s'.value.requests == s.requests[id := r.(phase := OnSuccess(r.job, r.phase))]
  {
    StagedFileIsOwn(fs0, s, id);
    assert Target(s.requests[id].job) in TARGETS;
  }

  lemma FinishSucceeds(fs0: Fs, s: State, id: nat)
    requires Inv(fs0, s) && id in s.requests && !IsStaging(s.requests[id].phase) && !s.requests[id].phase.Done?
    requires s.requests[id].phase !in {Validate, LoadLive, RenameTemp}
    ensures var r := s.requests[id]; var s' := Next(s, id, Succeed, false);
            s'.Some? && s'.value.requests == s.requests[id := r.(phase := OnSuccess(r.job, r.phase))]
  {
    var t := Target(s.requests[id].job);
    assert t in TARGETS && TargetOk(fs0, s.fs, s.requests, s.commits[t], s.flushed[t], t);
  }

  lemma Succeeds(fs0: Fs, s: State, id: nat)
    requires Inv(fs0, s) && id in s.requests && Pending(s.requests[id].phase)
    ensures var r := s.requests[id]; var s' := Next(s, id, Succeed, false);
            s'.Some? && s'.value.requests == s.requests[id := r.(phase := OnSuccess(r.job, r.phase))]
  {
    if IsStaging(s.requests[id].phase) {
      StagingSucceeds(fs0, s, id);
    } else if s.requests[id].phase in {Validate, LoadLive, RenameTemp} {
      CommitSucceeds(fs0, s, id);
    } else {
      FinishSucceeds(fs0, s, id);
    }
  }

  function Failing(phase: Phase, junk: Content): Action {
    if phase.WriteTemp? then WritePart(junk) else Fail
  }

  lemma Fails(s: State, id: nat, junk: Content)
    requires id in s.requests && Pending(s.requests[id].phase)
    ensures var r := s.requests[id]; var s' := Next(s, id, Failing(r.phase, junk), false);
            s'.Some? && s'.value.requests == s.requests[id := r.(phase := OnFailure(r.phase))]
  {
  }

  lemma Picks(s: State, id: nat, name: string, ino: nat)
    requires id in s.requests && s.requests[id].phase.CreateTemp?
    requires MayPick(s, Path(Target(s.requests[id].job).dir, name), ino, false)
    ensures var r := s.requests[id]; var s' := Next(s, id, PickTemp(name, ino), false);
            && s'.Some? && id in s'.value.requests
            && s'.value.requests[id].job == r.job && s'.value.requests[id].contents == r.contents
                && s'.value.requests[id].phase == WriteTemp
  {
  }

  lemma PickFails(s: State, id: nat)
    requires id in s.requests && s.requests[id].phase.CreateTemp?
    ensures Next(s, id, Fail, false) == Some(WithPhase(s, id, Done(Failed(Staging))))
  {
  }

  // ---- What an outcome says -----------------------------------------------------------------------

  /** Request `id` has ended in this way: it replaced the file exactly if it failed late
      or succeeded, and then with the text its job renders to, which the validator
      had accepted and, for the firewall, the kernel had loaded from its own file; and
      dnsmasq was told exactly if a DHCP request succeeded, after the replacement. */
  ghost predicate Ended(s: State, id: nat, job: Job, rendered: Option<Content>, o: Outcome) {
    && id in s.requests && s.requests[id].job == job && s.requests[id].phase == Done(o) && Target(job) in s.commits
    && (Late(o) <==> Some(id) in s.commits[Target(job)])
    && (Late(o) ==> ValidatedBy(s, Target(job), rendered, id))
    && (o == Success || o == Failed(Reload) ==> Flushed(s, id, Target(job)))
    && (Reloaded(s, id, true) <==> job.ApplyDhcpDns? && o == Success)
    && (Reloaded(s, id, false) <==> job.ApplyDhcpDns? && o == Failed(Reload))
  }

  /** The directory was synchronised after the replacement. */
  ghost predicate Flushed(s: State, id: nat, t: Path) {
    t in s.commits && t in s.flushed && exists k ::
      0 <= k <= s.flushed[t] && k < |s.commits[t]| && s.commits[t][k] == Some(id)
  }

  lemma DoneIsEnded(fs0: Fs, s: State, id: nat, job: Job, text: Content, rendered: Option<Content>, o: Outcome)
    requires Inv(fs0, s) && NoticesOk(s) && At(s, id, job, text, Done(o)) && (rendered.None? ==> !Late(o))
        && (rendered.Some? ==> text == rendered.value)
    ensures Ended(s, id, job, rendered, o)
  {
    var r := s.requests[id];
    assert CommitOk(s.commits, s.flushed, id, r) && SeenOk(s.accepted, s.loaded, id, r);
    DoneIsTold(s, id);
  }

  // ---- The daemon --------------------------------------------------------------------------------------

  class Daemon {
    var state: State
    /** The files found at start. */
    ghost const start: Fs

    ghost predicate Valid()
      reads this
    {
      Inv(start, state) && NoticesOk(state) && BoundInodesExist(start)
    }

    constructor (state: State)
      requires Initial(state)
      ensures Valid() && this.state == state
    {
      this.state, start := state, state.fs;
      new;
      InitialInv(state);
    }

    method Step(id: nat, a: Action)
      requires Valid() && Next(state, id, a, false).Some?
      modifies this
      ensures Valid() && Some(state) == Next(old(state), id, a, false)
    {
      NextKeepsInv(start, state, id, a);
      NextKeepsNotices(start, state, id, a);
      state := Next(state, id, a, false).value;
    }

    /** Any steps of requests other than `id`. */
    method Others(id: nat)
      requires Valid() && id in state.requests
      modifies this
      ensures Valid() && id in state.requests && state.requests[id] == old(state.requests[id])
    {
      var n: nat := *;
      while n > 0
        invariant Valid() && id in state.requests && state.requests[id] == old(state.requests[id])
      {
        var other: nat, a: Action := *, *;
        if other != id && Next(state, other, a, false).Some? {
          OthersSpare(state, other, a, id);
          Step(other, a);
        }
        n := n - 1;
      }
    }

    /** A request arrives and is rendered. */
    method Submit(job: Job, rendered: Option<Content>, root: bool) returns (id: nat, ghost text: Content)
      requires Valid() && rendered == Render(job)
      modifies this
      ensures Valid() && id !in old(state.requests) && text == if rendered.Some? then rendered.value else ""
      ensures At(state, id, job, text,
          if rendered.None? then Done(Failed(Rendering)) else if root then MakeDir else Done(Failed(RootCheck)))
    {
      ghost var n := Above(state.requests.Keys);
      assert n !in state.requests;
      id :| id !in state.requests;
      Step(id, Action.Submit(job, root));
      text := state.requests[id].contents;
    }

    /** The next call of request `id`, which may fail; then others go on. */
    method Try(id: nat) returns (ok: bool)
      requires Valid() && id in state.requests && Pending(state.requests[id].phase)
      modifies this
      ensures Valid() && id in state.requests
      ensures var r := old(state.requests[id]);
              state.requests[id] == r.(phase := if ok then OnSuccess(r.job, r.phase) else OnFailure(r.phase))
    {
      ok := *;
      if ok {
        Succeeds(start, state, id);
        Step(id, Succeed);
      } else {
        var junk: Content := *;
        Fails(state, id, junk);
        Step(id, Failing(state.requests[id].phase, junk));
      }
      Others(id);
    }

    /** Calls in a row, up to the first that fails. */
    method TryAll(id: nat, n: nat) returns (ok: bool, done: nat)
      requires Valid() && id in state.requests
      requires forall k :: 0 <= k < n ==> Pending(After(state.requests[id].job, state.requests[id].phase, k))
      modifies this
      ensures Valid() && id in state.requests && (if ok then done == n else done < n)
      ensures var r := old(state.requests[id]);
              var phase := After(r.job, r.phase, done);
              state.requests[id] == r.(phase := if ok then phase else OnFailure(phase))
    {
      ok, done := true, 0;
      while done < n && ok
        invariant Valid() && id in state.requests && done <= n && (!ok ==> done < n)
        invariant var r := old(state.requests[id]);
                  var phase := After(r.job, r.phase, done);
                  state.requests[id] == r.(phase := if ok then phase else OnFailure(phase))
        decreases n - done, ok
      {
        ok := Try(id);
        if ok { done := done + 1; }
      }
    }

    method CreateTempFile(id: nat) returns (ok: bool)
      requires Valid() && id in state.requests && state.requests[id].phase.CreateTemp?
      modifies this
      ensures Valid() && At(state, id, old(state.requests[id]).job, old(state.requests[id]).contents,
          if ok then WriteTemp else Done(Failed(Staging)))
    {
      var name: string, ino: nat := *, *;
      var p := Path(Target(state.requests[id].job).dir, name);
      ok := *;
      if !IsTempName(name) || ino in state.fs.inodes || Current(state.fs, p).Some?
          || Claimed(state.requests, p) { ok := false; }
      if ok {
        Picks(state, id, name, ino);
        Step(id, PickTemp(name, ino));
      } else {
        PickFails(state, id);
        Step(id, Fail);
      }
      Others(id);
    }

    /** The deferred removal. */
    method CleanUp(id: nat) returns (o: Outcome)
      requires Valid() && id in state.requests && state.requests[id].phase.Cleanup?
      modifies this
      ensures Valid() && At(state, id, old(state.requests[id]).job, old(state.requests[id]).contents, Done(o))
          && o == old(state.requests[id]).phase.then_
    {
      o := state.requests[id].phase.then_;
      var ok := Try(id);
    }

    /** The four calls on the new file. */
    method FillTemp(id: nat) returns (ok: bool)
      requires Valid() && id in state.requests && state.requests[id].phase.WriteTemp?
      modifies this
      ensures Valid() && At(state, id, old(state.requests[id]).job, old(state.requests[id]).contents,
          if ok then Validate else Cleanup(Failed(Staging)))
    {
      ghost var job := state.requests[id].job;
      FillPhases(job);
      var done;
      ok, done := TryAll(id, 4);
    }

    /** `stageWrite`. */
    method StageWrite(id: nat) returns (ok: bool)
      requires Valid() && id in state.requests && state.requests[id].phase.MakeDir?
      modifies this
      ensures Valid() && At(state, id, old(state.requests[id]).job, old(state.requests[id]).contents,
          if ok then Validate else Done(Failed(Staging)))
    {
      ok := Try(id);
      if !ok { return; }
      ok := CreateTempFile(id);
      if !ok { return; }
      ok := FillTemp(id);
      if !ok { var o := CleanUp(id); }
    }

    /** `commitStaged`; true when the directory has been synchronised. */
    method CommitStaged(id: nat, job: Job, ghost text: Content) returns (ok: bool)
      requires Valid() && At(state, id, job, text, RenameTemp)
      modifies this
      ensures Valid() && Belongs(state, id, job, text)
      ensures if ok then At(state, id, job, text, OnSuccess(job, SyncDirectory))
              else FailedIn(state.requests[id].phase, {Replacement, OpenDirectory, DirectorySync})
    {
      CommitPhases(job);
      var done;
      ok, done := TryAll(id, 3);
    }

    /** Validation and, for the firewall, the live load. */
    method Check(id: nat, job: Job, ghost text: Content) returns (ok: bool)
      requires Valid() && At(state, id, job, text, Validate)
      modifies this
      ensures Valid() && Belongs(state, id, job, text)
      ensures if ok then At(state, id, job, text, RenameTemp) else FailedIn(state.requests[id].phase, Stages(job))
    {
      CheckPhases(job);
      var done;
      ok, done := TryAll(id, if job.ApplyFirewall? then 2 else 1);
    }

    /** The last call of a DHCP request. */
    method HangUpDnsmasq(id: nat, job: Job, ghost text: Content)
      requires Valid() && At(state, id, job, text, OnSuccess(job, SyncDirectory))
      modifies this
      ensures Valid() && Belongs(state, id, job, text)
      ensures state.requests[id].phase == Cleanup(Success) || FailedIn(state.requests[id].phase, Stages(job))
    {
      ReloadPhases(job);
      var ok, done := TryAll(id, if job.ApplyDhcpDns? then 1 else 0);
    }

    /** The request after its checks: staging, validation, for the firewall the live
        load, replacement, and otherwise the reload. */
    method Serve(id: nat, job: Job, ghost text: Content) returns (o: Outcome)
      requires Valid() && At(state, id, job, text, MakeDir)
      modifies this
      ensures Valid() && At(state, id, job, text, Done(o)) && (o.Failed? ==> o.at in Stages(job))
    {
      var ok := StageWrite(id);
      if !ok { return Failed(Staging); }
      ok := Check(id, job, text);
      if ok { ok := CommitStaged(id, job, text); }
      if ok { HangUpDnsmasq(id, job, text); }
      o := CleanUp(id);
    }

    /** A request from its checks to its end. */
    method Run(job: Job, rendered: Option<Content>, root: bool) returns (id: nat, o: Outcome)
      requires Valid() && rendered == Render(job)
      modifies this
      ensures Valid() && id !in old(state.requests) && Ended(state, id, job, rendered, o)
      ensures HowItEnds(job, rendered, root, o)
    {
      ghost var text;
      id, text := Submit(job, rendered, root);
      if rendered.None? {
        o := Failed(Rendering);
      } else {
        o := Checked(id, job, text, root);
      }
      DoneIsEnded(start, state, id, job, text, rendered, o);
    }

    /** A request whose text has been rendered. */
    method Checked(id: nat, job: Job, ghost text: Content, root: bool) returns (o: Outcome)
      requires Valid() && At(state, id, job, text, if root then MakeDir else Done(Failed(RootCheck)))
      modifies this
      ensures Valid() && At(state, id, job, text, Done(o)) && HowItEnds(job, Some(text), root, o)
    {
      o := Failed(RootCheck);
      if root { o := Serve(id, job, text); }
      StagesEnd(job, text, root, o);
    }

    /** `ApplyDHCPDNS` and `ApplyFirewall` among other requests. */
    method Apply(job: Job, root: bool) returns (id: nat, o: Outcome, ghost rendered: Option<Content>)
      requires Valid()
      modifies this
      ensures Valid() && id !in old(state.requests) && Ended(state, id, job, rendered, o)
      ensures rendered == Render(job) && HowItEnds(job, rendered, root, o)
    {
      var contents := Render(job);
      rendered := contents;
      id, o := Run(job, contents, root);
    }
  }

  lemma StagesEnd(job: Job, text: Content, root: bool, o: Outcome)
    requires if root then o.Failed? ==> o.at in Stages(job) else o == Failed(RootCheck)
    ensures HowItEnds(job, Some(text), root, o)
  {
  }

  /** Rendering alone can fail to render, and then only the root check can refuse; only
      a firewall request loads, and only a DHCP request reloads. */
  predicate HowItEnds(job: Job, rendered: Option<Content>, root: bool, o: Outcome) {
    && (rendered.None? <==> o == Failed(Rendering))
    && (rendered.Some? && !root <==> o == Failed(RootCheck))
    && (o == Failed(LiveLoad) ==> job.ApplyFirewall?) && (o == Failed(Reload) ==> job.ApplyDhcpDns?)
  }

  predicate Belongs(s: State, id: nat, job: Job, text: Content) {
    id in s.requests && s.requests[id].job == job && s.requests[id].contents == text
  }

  lemma CheckPhases(job: Job)
    ensures var n := if job.ApplyFirewall? then 2 else 1;
            && After(job, Validate, n) == RenameTemp
            && forall k :: 0 <= k < n ==>
                 Pending(After(job, Validate, k)) && FailedIn(OnFailure(After(job, Validate, k)), Stages(job))
  {
    assert After(job, Validate, 0) == Validate && After(job, Validate, 1)
        == if job.ApplyFirewall? then LoadLive else RenameTemp;
  }

  lemma ReloadPhases(job: Job)
    ensures var n, phase := if job.ApplyDhcpDns? then 1 else 0, OnSuccess(job, SyncDirectory);
            && After(job, phase, n) == Cleanup(Success)
            && forall k :: 0 <= k < n ==>
                 Pending(After(job, phase, k)) && FailedIn(OnFailure(After(job, phase, k)), Stages(job))
  {
  }

  predicate At(s: State, id: nat, job: Job, text: Content, phase: Phase) {
    Belongs(s, id, job, text) && s.requests[id].phase == phase
  }

  predicate FailedIn(phase: Phase, stages: set<Stage>) {
    phase.Cleanup? && phase.then_.Failed? && phase.then_.at in stages
  }

  /** Where a request that passed its checks can fail. */
  function Stages(job: Job): set<Stage> {
    {Staging, Validation, Replacement, OpenDirectory, DirectorySync}
        + if job.ApplyDhcpDns? then {Reload} else {LiveLoad}
  }

  lemma FillPhases(job: Job)
    ensures After(job, WriteTemp, 4) == Validate
    ensures forall k :: 0 <= k < 4 ==>
              Pending(After(job, WriteTemp, k)) && OnFailure(After(job, WriteTemp, k)) == Cleanup(Failed(Staging))
  {
    assert After(job, WriteTemp, 0) == WriteTemp && After(job, WriteTemp, 1) == ChmodTemp;
    assert After(job, WriteTemp, 2) == SyncTemp && After(job, WriteTemp, 3) == CloseTemp;
  }

  lemma CommitPhases(job: Job)
    ensures After(job, RenameTemp, 3) == OnSuccess(job, SyncDirectory)
    ensures forall k :: 0 <= k < 3 ==>
              Pending(After(job, RenameTemp, k))
                  && FailedIn(OnFailure(After(job, RenameTemp, k)), {Replacement, OpenDirectory, DirectorySync})
  {
    assert After(job, RenameTemp, 0) == RenameTemp && After(job, RenameTemp, 1) == OpenDir
        && After(job, RenameTemp, 2) == SyncDirectory;
  }

  lemma OthersSpare(s: State, other: nat, a: Action, id: nat)
    requires other != id && id in s.requests && Next(s, other, a, false).Some?
    ensures var s' := Next(s, other, a, false).value; id in s'.requests && s'.requests[id] == s.requests[id]
  {
    if !a.Submit? { NextMoves(s, other, a, false); }
  }
}
