/** The ruleset in the kernel and the one on disk: when requests do not overlap they
    agree, and an overlap or a failed rename can split them. */
module StagedLive {
  import opened Wrappers
  import opened FileSystem
  import opened StagedConfig

  type Trace = seq<(nat, Action)>

  /** The request has loaded its rules and not yet replaced the file. */
  predicate Between(s: State, id: nat) {
    id in s.requests && s.requests[id].job.ApplyFirewall? && s.requests[id].phase.RenameTemp?
  }

  ghost predicate NoneBetween(s: State) {
    forall id :: !Between(s, id)
  }

  /** No firewall request loads while another is in between, and none fails to
      rename. */
  ghost predicate Orderly(s: State, id: nat, a: Action) {
    id in s.requests && s.requests[id].job.ApplyFirewall? ==>
      && (s.requests[id].phase.LoadLive? && a.Succeed? ==> NoneBetween(s))
      && (s.requests[id].phase.RenameTemp? ==> !a.Fail?)
  }

  ghost predicate OrderlyRun(s0: State, trace: Trace) {
    && Run(s0, trace, false).Some?
    && forall n :: 0 <= n < |trace| ==>
         Run(s0, trace[..n], false).Some? && Orderly(Run(s0, trace[..n], false).value, trace[n].0, trace[n].1)
  }

  // ---- The invariant ------------------------------------------------------------------------

  /** The last commit is that of the last text in `live`, or both are missing. */
  predicate Shown(requests: map<nat, Request>, commits: seq<Option<nat>>, live: seq<Content>) {
    commits != [] &&
    match commits[|commits| - 1]
    case None => live == []
    case Some(id) => id in requests && live != [] && requests[id].contents == live[|live| - 1]
  }

  ghost predicate OnlyFirewallLoads(s: State) {
    forall id :: id in s.requests && s.requests[id].phase.LoadLive? ==> s.requests[id].job.ApplyFirewall?
  }

  /** At most one request is in between; apart from its text the kernel has loaded
      what the file holds. */
  ghost predicate InStep(s: State) {
    && NFTABLES in s.commits && OnlyFirewallLoads(s)
    && (forall x, y :: Between(s, x) && Between(s, y) ==> x == y)
    && (NoneBetween(s) ==> Shown(s.requests, s.commits[NFTABLES], s.live))
    && forall x :: Between(s, x) ==>
         && s.live != [] && s.live[|s.live| - 1] == s.requests[x].contents
         && Shown(s.requests, s.commits[NFTABLES], s.live[..|s.live| - 1])
  }

  /** Requests and commits as before, as far as the kernel and its file go. */
  ghost predicate Quiet(s: State, s': State) {
    && s'.live == s.live && NFTABLES in s'.commits && NFTABLES in s.commits
        && s'.commits[NFTABLES] == s.commits[NFTABLES]
    && (forall id :: id in s.requests ==> id in s'.requests && s'.requests[id].contents == s.requests[id].contents)
    && (forall id :: Between(s', id) <==> Between(s, id))
    && OnlyFirewallLoads(s')
  }

  lemma QuietKeeps(s: State, s': State)
    requires InStep(s) && Quiet(s, s')
    ensures InStep(s')
  {
    assert NoneBetween(s') <==> NoneBetween(s);
  }

  /** The steps that matter to the kernel. */
  predicate Matters(s: State, id: nat, a: Action) {
    && id in s.requests && s.requests[id].job.ApplyFirewall? && !a.Submit?
    && ((s.requests[id].phase.LoadLive? && a.Succeed?) || s.requests[id].phase.RenameTemp?)
  }

  lemma BeginIsQuiet(s: State, id: nat, job: Job, root: bool)
    requires id !in s.requests && NFTABLES in s.commits && OnlyFirewallLoads(s)
    ensures Quiet(s, Begin(s, id, job, root))
  {
    var phase := Begin(s, id, job, root).requests[id].phase;
    assert phase.MakeDir? || phase.Done?;
  }

  lemma MoveIsQuiet(s: State, s': State, id: nat)
    requires NFTABLES in s.commits && OnlyFirewallLoads(s) && OnlyMoves(s, s', id)
    requires s'.live == s.live && NFTABLES in s'.commits && s'.commits[NFTABLES] == s.commits[NFTABLES]
    requires !Between(s, id) && !Between(s', id)
    requires s'.requests[id].phase.LoadLive? ==> s'.requests[id].job.ApplyFirewall?
    ensures Quiet(s, s')
  {
  }

  lemma StagingIsQuiet(s: State, id: nat, a: Action)
    requires id in s.requests && NFTABLES in s.commits && OnlyFirewallLoads(s) && Stage1(s, id, a, false).Some?
    ensures Quiet(s, Stage1(s, id, a, false).value)
  {
    Stage1Moves(s, id, a, false);
    StagingShape(s, id, a);
    MoveIsQuiet(s, Stage1(s, id, a, false).value, id);
  }

  lemma StagingShape(s: State, id: nat, a: Action)
    requires id in s.requests && Stage1(s, id, a, false).Some?
    ensures var s' := Stage1(s, id, a, false).value;
            && s'.live == s.live && s'.commits == s.commits && id in s'.requests && !s.requests[id].phase.RenameTemp?
            && !s'.requests[id].phase.RenameTemp? && !s'.requests[id].phase.LoadLive?
  {
  }

  lemma CommitIsQuiet(s: State, id: nat, a: Action)
    requires id in s.requests && NFTABLES in s.commits && OnlyFirewallLoads(s) && Stage2(s, id, a).Some?
        && !Matters(s, id, a) && !a.Submit?
    ensures Quiet(s, Stage2(s, id, a).value)
  {
    Stage2Moves(s, id, a);
    MoveIsQuiet(s, Stage2(s, id, a).value, id);
  }

  lemma FinishIsQuiet(s: State, id: nat, a: Action)
    requires id in s.requests && NFTABLES in s.commits && OnlyFirewallLoads(s) && Stage3(s, id, a).Some?
        && !s.requests[id].phase.RenameTemp?
    ensures Quiet(s, Stage3(s, id, a).value)
  {
    Stage3Moves(s, id, a);
    MoveIsQuiet(s, Stage3(s, id, a).value, id);
  }

  lemma OtherStepsKeep(s: State, id: nat, a: Action)
    requires InStep(s) && Next(s, id, a, false).Some? && !Matters(s, id, a)
    ensures InStep(Next(s, id, a, false).value)
  {
    var s' := Next(s, id, a, false).value;
    if a.Submit? {
      BeginIsQuiet(s, id, a.job, a.root);
    } else if IsStaging(s.requests[id].phase) {
      StagingIsQuiet(s, id, a);
    } else if s.requests[id].phase in {Validate, LoadLive, RenameTemp} {
      CommitIsQuiet(s, id, a);
    } else {
      FinishIsQuiet(s, id, a);
    }
    QuietKeeps(s, s');
  }

  /** The state after a load, and after a rename, of firewall request `id`. */
  function Loaded(s: State, id: nat): State
    requires id in s.requests
  {
    var c := s.requests[id].contents;
    WithPhase(s.(loaded := s.loaded + {(id, c)}, live := s.live + [c]), id, RenameTemp)
  }

  function Renamed(s: State, id: nat): State
    requires id in s.requests && NFTABLES in s.commits
  {
    WithPhase(s.(fs := Rename(s.fs, s.requests[id].temp, NFTABLES),
        commits := s.commits[NFTABLES := s.commits[NFTABLES] + [Some(id)]]), id, OpenDir)
  }

  lemma LoadedNext(fs0: Fs, s: State, id: nat)
    requires Inv(fs0, s) && id in s.requests && s.requests[id].phase.LoadLive?
    ensures Next(s, id, Succeed, false) == Some(Loaded(s, id)) && Inv(fs0, Loaded(s, id))
  {
    StagedFileIsOwn(fs0, s, id);
    LoadStep(fs0, s, id);
  }

  lemma RenamedNext(fs0: Fs, s: State, id: nat)
    requires Inv(fs0, s) && Between(s, id)
    ensures NFTABLES in s.commits && Next(s, id, Succeed, false) == Some(Renamed(s, id)) && Inv(fs0, Renamed(s, id))
  {
    StagedFileIsOwn(fs0, s, id);
    assert NFTABLES in TARGETS;
    RenameStep(fs0, s, id);
  }

  lemma RenamedReads(fs0: Fs, s: State, id: nat)
    requires Inv(fs0, s) && Between(s, id)
        && (Current(fs0, NFTABLES).Some? ==> Current(fs0, NFTABLES).value in fs0.inodes)
    ensures NFTABLES in s.commits && Read(Renamed(s, id).fs, NFTABLES) == Some(s.requests[id].contents)
  {
    RenamedNext(fs0, s, id);
    DiskIsLastCommit(fs0, Renamed(s, id));
  }

  /** The actions possible at a rename. */
  lemma RenameActs(s: State, id: nat, a: Action)
    requires id in s.requests && s.requests[id].phase.RenameTemp? && !a.Submit? && Next(s, id, a, false).Some?
    ensures a.Succeed? || a.Fail?
  {
  }

  lemma LoadKeeps(s: State, id: nat)
    requires InStep(s) && id in s.requests && s.requests[id].job.ApplyFirewall? && s.requests[id].phase.LoadLive?
        && NoneBetween(s)
    ensures InStep(Loaded(s, id))
  {
    var s' := Loaded(s, id);
    assert Between(s', id);
    assert forall x :: Between(s', x) ==> x == id || Between(s, x);
    assert s'.live[..|s'.live| - 1] == s.live;
  }

  lemma RenameKeeps(s: State, id: nat)
    requires InStep(s) && Between(s, id)
    ensures InStep(Renamed(s, id))
  {
    var s' := Renamed(s, id);
    assert forall x :: Between(s', x) ==> Between(s, x) && x != id;
  }

  lemma StepKeeps(fs0: Fs, s: State, id: nat, a: Action)
    requires Inv(fs0, s) && InStep(s) && Orderly(s, id, a) && Next(s, id, a, false).Some?
    ensures InStep(Next(s, id, a, false).value)
  {
    if !Matters(s, id, a) {
      OtherStepsKeep(s, id, a);
    } else if s.requests[id].phase.LoadLive? {
      LoadedNext(fs0, s, id);
      LoadKeeps(s, id);
    } else {
      RenameActs(s, id, a);
      RenamedNext(fs0, s, id);
      RenameKeeps(s, id);
    }
  }

  lemma {:induction false} RunInStep(s0: State, trace: Trace)
    requires Initial(s0) && OrderlyRun(s0, trace)
    ensures InStep(Run(s0, trace, false).value)
    decreases |trace|
  {
    if trace != [] {
      var n := |trace| - 1;
      assert forall m :: 0 <= m < n ==> trace[..n][..m] == trace[..m] && trace[..n][m] == trace[m];
      RunInStep(s0, trace[..n]);
      RunKeepsInv(s0, trace[..n]);
      StepKeeps(s0.fs, Run(s0, trace[..n], false).value, trace[n].0, trace[n].1);
    }
  }

  /** What the file reads, by the last commit. */
  lemma DiskIsLastCommit(fs0: Fs, s: State)
    requires Inv(fs0, s) && (Current(fs0, NFTABLES).Some? ==> Current(fs0, NFTABLES).value in fs0.inodes)
    ensures NFTABLES in s.commits && s.commits[NFTABLES] != []
    ensures match s.commits[NFTABLES][|s.commits[NFTABLES]| - 1]
            case None => Read(s.fs, NFTABLES) == Read(fs0, NFTABLES)
            case Some(id) => id in s.requests && Read(s.fs, NFTABLES) == Some(s.requests[id].contents)
  {
    assert NFTABLES in TARGETS;
    ActiveIsLastCommit(fs0, s, NFTABLES);
  }

  /** The kernel's last ruleset and the file are the same. */
  predicate LiveIsDisk(fs0: Fs, s: State) {
    Read(s.fs, NFTABLES) == if s.live == [] then Read(fs0, NFTABLES) else Some(s.live[|s.live| - 1])
  }

  /** In every orderly run, whenever no request is in between, the file holds the
      last ruleset loaded. */
  lemma OrderlyAgrees(s0: State, trace: Trace)
    requires Initial(s0) && OrderlyRun(s0, trace) && NoneBetween(Run(s0, trace, false).value)
    ensures LiveIsDisk(s0.fs, Run(s0, trace, false).value)
  {
    RunInStep(s0, trace);
    RunKeepsInv(s0, trace);
    assert NFTABLES in TARGETS;
    DiskIsLastCommit(s0.fs, Run(s0, trace, false).value);
  }

  // ---- What disorder can lead to -----------------------------------------------------------------

  lemma RunOn(s: State, trace: Trace, s1: State, id: nat, a: Action, s2: State)
    requires Run(s, trace, false) == Some(s1) && Next(s1, id, a, false) == Some(s2)
    ensures Run(s, trace + [(id, a)], false) == Some(s2)
  {
    assert (trace + [(id, a)])[..|trace|] == trace;
  }

  ghost predicate Leads(s: State, trace: Trace, s': State) {
    Run(s, trace, false) == Some(s')
  }

  predicate Extends(longer: Trace, trace: Trace, id: nat, a: Action) {
    longer != [] && longer[0] == if trace == [] then (id, a) else trace[0]
  }

  lemma LoadOn(fs0: Fs, s: State, trace: Trace, s1: State, id: nat) returns (longer: Trace)
    requires Leads(s, trace, s1) && Inv(fs0, s1) && id in s1.requests && s1.requests[id].phase.LoadLive?
    ensures Leads(s, longer, Loaded(s1, id)) && Inv(fs0, Loaded(s1, id)) && Extends(longer, trace, id, Succeed)
  {
    LoadedNext(fs0, s1, id);
    RunOn(s, trace, s1, id, Succeed, Loaded(s1, id));
    longer := trace + [(id, Succeed)];
  }

  lemma RenameOn(fs0: Fs, s: State, trace: Trace, s1: State, id: nat) returns (longer: Trace)
    requires Leads(s, trace, s1) && Inv(fs0, s1) && Between(s1, id)
    ensures NFTABLES in s1.commits && Leads(s, longer, Renamed(s1, id)) && Inv(fs0, Renamed(s1, id))
        && Extends(longer, trace, id, Succeed)
  {
    RenamedNext(fs0, s1, id);
    RunOn(s, trace, s1, id, Succeed, Renamed(s1, id));
    longer := trace + [(id, Succeed)];
  }

  function Crossed(s: State, a: nat, b: nat): State
    requires a in s.requests && b in s.requests && NFTABLES in s.commits
  {
    Renamed(Renamed(Loaded(s, b), b), a)
  }

  lemma CrossedShape(s: State, a: nat, b: nat)
    requires Between(s, a) && b in s.requests && s.requests[b].phase.LoadLive? && NFTABLES in s.commits
    ensures Crossed(s, a, b).live == s.live + [s.requests[b].contents]
    ensures forall x :: Between(Crossed(s, a, b), x) <==> Between(s, x) && x != a && x != b
  {
  }

  /** A second load while `a` is in between: both can go on to replace the file in
      the opposite order. */
  lemma SecondLoadSplits(fs0: Fs, s: State, a: nat, b: nat) returns (more: Trace)
    requires Inv(fs0, s) && Between(s, a) && b in s.requests && s.requests[b].job.ApplyFirewall?
        && s.requests[b].phase.LoadLive?
    requires Current(fs0, NFTABLES).Some? ==> Current(fs0, NFTABLES).value in fs0.inodes
    ensures NFTABLES in s.commits && Extends(more, [], b, Succeed) && Leads(s, more, Crossed(s, a, b))
    ensures Read(Crossed(s, a, b).fs, NFTABLES) == Some(s.requests[a].contents)
    ensures Crossed(s, a, b).live == s.live + [s.requests[b].contents]
    ensures forall x :: Between(Crossed(s, a, b), x) <==> Between(s, x) && x != a && x != b
  {
    assert NFTABLES in TARGETS;
    CrossedShape(s, a, b);
    assert Leads(s, [], s);
    var s1 := Loaded(s, b);
    more := LoadOn(fs0, s, [], s, b);
    var s2 := Renamed(s1, b);
    more := RenameOn(fs0, s, more, s1, b);
    more := RenameOn(fs0, s, more, s2, a);
    RenamedReads(fs0, s2, a);
  }

  /** A rename that fails leaves the kernel with a ruleset that the file has not. */
  lemma FailedRenameSplits(fs0: Fs, s: State, a: nat)
    requires Inv(fs0, s) && Between(s, a)
    ensures var s' := WithPhase(s, a, Cleanup(Failed(Replacement)));
            && Run(s, [(a, Fail)], false) == Some(s')
            && s'.live == s.live && s'.fs == s.fs
            && forall x :: Between(s', x) <==> Between(s, x) && x != a
  {
    assert [(a, Fail)][..0] == [];
  }

  /** The step loads over, or gives up, a text that the file would not hold. */
  ghost predicate TextsDiffer(s: State, id: nat) {
    if Between(s, id) then Read(s.fs, NFTABLES) != Some(s.requests[id].contents)
    else id in s.requests && forall x :: Between(s, x) ==> s.requests[x].contents != s.requests[id].contents
  }

  /** Orderliness is needed: from any state of an orderly run, a step that breaks it
      can end, with nobody in between, in a file unlike the last ruleset loaded, if
      the texts differ at all. */
  lemma DisorderSplits(s0: State, trace: Trace, id: nat, a: Action) returns (more: Trace, s': State)
    requires Initial(s0) && OrderlyRun(s0, trace)
    requires var s := Run(s0, trace, false).value;
             !Orderly(s, id, a) && Next(s, id, a, false).Some? && TextsDiffer(s, id)
    ensures more != [] && more[0] == (id, a) && Run(Run(s0, trace, false).value, more, false) == Some(s')
    ensures NoneBetween(s') && !LiveIsDisk(s0.fs, s')
  {
    var s := Run(s0, trace, false).value;
    RunInStep(s0, trace);
    RunKeepsInv(s0, trace);
    assert NFTABLES in TARGETS;
    if Between(s, id) {
      FailedRenameSplits(s0.fs, s, id);
      more, s' := [(id, a)], WithPhase(s, id, Cleanup(Failed(Replacement)));
    } else {
      var x :| Between(s, x);
      more := SecondLoadSplits(s0.fs, s, x, id);
      s' := Crossed(s, x, id);
    }
  }
}
