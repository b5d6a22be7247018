/** What dnsmasq is told: every DHCP request that succeeds has asked for a reload after
    its own text, or a later one, had become the active file. */
module StagedReloads {
  import opened Wrappers
  import opened FileSystem
  import opened StagedConfig

  /** The file was read again after request `n.id` had replaced it: it held that request's
      text, or that of a request which replaced the file after it. */
  ghost predicate Timely(s: State, n: Notice) {
    && n.id in s.requests && s.requests[n.id].job.ApplyDhcpDns?
    && DNSMASQ in s.commits && 0 < n.commits <= |s.commits[DNSMASQ]|
    && (exists j :: 0 <= j < n.commits && s.commits[DNSMASQ][j] == Some(n.id))
    && var last := s.commits[DNSMASQ][n.commits - 1];
       last.Some? && ValidatedBy(s, DNSMASQ, n.seen, last.value)
  }

  /** Past a reload that was sent, or that failed. */
  predicate PastReload(phase: Phase, sent: bool) {
    var o := if sent then Success else Failed(Reload);
    phase == Cleanup(o) || phase == Done(o)
  }

  ghost predicate HasNotice(s: State, id: nat, sent: bool) {
    exists m :: 0 <= m < |s.notices| && s.notices[m].id == id && s.notices[m].sent == sent
  }

  ghost predicate NoticesOk(s: State) {
    && (forall id :: id in s.requests && s.requests[id].phase.HangUp? ==> s.requests[id].job.ApplyDhcpDns?)
    && (forall m :: 0 <= m < |s.notices| ==>
          Timely(s, s.notices[m]) && PastReload(s.requests[s.notices[m].id].phase, s.notices[m].sent))
    && (forall m, n :: 0 <= m < n < |s.notices| ==> s.notices[m].id != s.notices[n].id)
    && (forall id, sent ::
          id in s.requests && s.requests[id].job.ApplyDhcpDns? && PastReload(s.requests[id].phase, sent) ==>
            HasNotice(s, id, sent))
  }

  // ---- Every step keeps it -----------------------------------------------------------------------

  /** Requests keep job and text; acceptances, loads and commits only grow. */
  ghost predicate Grown(s: State, s': State) {
    && (forall id :: id in s.requests ==>
          && id in s'.requests && s'.requests[id].job == s.requests[id].job
          && s'.requests[id].contents == s.requests[id].contents)
    && s.accepted <= s'.accepted && s.loaded <= s'.loaded
    && (DNSMASQ in s.commits ==> DNSMASQ in s'.commits && s.commits[DNSMASQ] <= s'.commits[DNSMASQ])
  }

  lemma TimelyStays(s: State, s': State, n: Notice)
    requires Timely(s, n) && Grown(s, s')
    ensures Timely(s', n)
  {
    var j :| 0 <= j < n.commits && s.commits[DNSMASQ][j] == Some(n.id);
    assert s'.commits[DNSMASQ][j] == Some(n.id);
  }

  /** A step of request `id` other than the reload. */
  ghost predicate Quiet(s: State, s': State, id: nat) {
    && OnlyMoves(s, s', id) && Grown(s, s') && s'.notices == s.notices
    && (s'.requests[id].phase.HangUp? ==> s.requests[id].job.ApplyDhcpDns?)
    && forall sent :: s.requests[id].job.ApplyDhcpDns? ==>
         (PastReload(s'.requests[id].phase, sent) <==> PastReload(s.requests[id].phase, sent))
  }

  lemma QuietKeeps(s: State, s': State, id: nat)
    requires NoticesOk(s) && Quiet(s, s', id)
    ensures NoticesOk(s')
  {
    forall m | 0 <= m < |s'.notices|
      ensures Timely(s', s'.notices[m]) && PastReload(s'.requests[s'.notices[m].id].phase, s'.notices[m].sent)
    {
      TimelyStays(s, s', s.notices[m]);
    }
    forall x, sent | x in s'.requests && s'.requests[x].job.ApplyDhcpDns? && PastReload(s'.requests[x].phase, sent)
      ensures HasNotice(s', x, sent)
    {
      assert PastReload(s.requests[x].phase, sent);
      assert HasNotice(s, x, sent);
    }
  }

  lemma Stage1Shape(s: State, id: nat, a: Action)
    requires id in s.requests && Stage1(s, id, a, false).Some?
    ensures var s' := Stage1(s, id, a, false).value;
            && s'.accepted == s.accepted && s'.loaded == s.loaded && s'.commits == s.commits && s'.notices == s.notices
            && id in s'.requests && !s'.requests[id].phase.HangUp? && !Late(Ending(s'.requests[id].phase))
            && !Late(Ending(s.requests[id].phase))
  {
  }

  /** How the request will end, once that is decided. */
  function Ending(phase: Phase): Outcome {
    match phase case Cleanup(o) => o case Done(o) => o case _ => Failed(Staging)
  }

  lemma Stage1IsQuiet(s: State, id: nat, a: Action)
    requires id in s.requests && Stage1(s, id, a, false).Some?
    ensures Quiet(s, Stage1(s, id, a, false).value, id)
  {
    Stage1Moves(s, id, a, false);
    Stage1Shape(s, id, a);
  }

  lemma Stage2IsQuiet(s: State, id: nat, a: Action)
    requires id in s.requests && Stage2(s, id, a).Some?
    ensures Quiet(s, Stage2(s, id, a).value, id)
  {
    Stage2Moves(s, id, a);
  }

  lemma Stage3IsQuiet(s: State, id: nat, a: Action)
    requires id in s.requests && Stage3(s, id, a).Some? && !s.requests[id].phase.HangUp?
    ensures Quiet(s, Stage3(s, id, a).value, id)
  {
    Stage3Moves(s, id, a);
  }

  lemma BeginKeeps(s: State, id: nat, job: Job, root: bool)
    requires NoticesOk(s) && id !in s.requests
    ensures NoticesOk(Begin(s, id, job, root))
  {
    var r := Begin(s, id, job, root).requests[id];
    NewRequestKeeps(s, id, r);
  }

  lemma NewRequestKeeps(s: State, id: nat, r: Request)
    requires NoticesOk(s) && id !in s.requests && (r.phase.MakeDir? || (r.phase.Done? && !Late(r.phase.outcome)))
    ensures NoticesOk(s.(requests := s.requests[id := r]))
  {
    var s' := s.(requests := s.requests[id := r]);
    forall m | 0 <= m < |s'.notices|
      ensures Timely(s', s'.notices[m]) && PastReload(s'.requests[s'.notices[m].id].phase, s'.notices[m].sent)
    {
      TimelyStays(s, s', s.notices[m]);
    }
    forall x, sent | x in s'.requests && s'.requests[x].job.ApplyDhcpDns? && PastReload(s'.requests[x].phase, sent)
      ensures HasNotice(s', x, sent)
    {
      assert HasNotice(s, x, sent);
    }
  }

  /** At the reload the file is the last commit, and the request's own is among them. */
  lemma ReloadIsTimely(fs0: Fs, s: State, id: nat)
    requires Inv(fs0, s) && id in s.requests && s.requests[id].phase.HangUp? && s.requests[id].job.ApplyDhcpDns?
    requires Current(fs0, DNSMASQ).Some? ==> Current(fs0, DNSMASQ).value in fs0.inodes
    ensures DNSMASQ in s.commits
    ensures forall sent :: Timely(s, Notice(id, Read(s.fs, DNSMASQ), |s.commits[DNSMASQ]|, sent))
  {
    var t := DNSMASQ;
    assert t in TARGETS && CommitOk(s.commits, s.flushed, id, s.requests[id]);
    ActiveIsLastCommit(fs0, s, t);
    var commits := s.commits[t];
    assert HistoryOk(s.requests, commits, s.flushed[t], t) by {
      assert TargetOk(fs0, s.fs, s.requests, commits, s.flushed[t], t);
    }
    var j :| 0 <= j < |commits| && commits[j] == Some(id);
    assert j > 0 && commits[|commits| - 1].Some?;
  }

  lemma ReloadKeeps(fs0: Fs, s: State, id: nat, sent: bool)
    requires Inv(fs0, s) && NoticesOk(s) && id in s.requests && s.requests[id].phase.HangUp?
    requires Current(fs0, DNSMASQ).Some? ==> Current(fs0, DNSMASQ).value in fs0.inodes
    ensures NoticesOk(WithPhase(Notified(s, id, sent), id, Cleanup(if sent then Success else Failed(Reload))))
  {
    ReloadIsTimely(fs0, s, id);
    var n := Notice(id, Read(s.fs, DNSMASQ), |s.commits[DNSMASQ]|, sent);
    var s' := WithPhase(Notified(s, id, sent), id, Cleanup(if sent then Success else Failed(Reload)));
    NewNoticeIsOk(s, s', n);
    NoticeIsAdded(s, s', n);
  }

  /** Request `n.id` moves past its reload, of which `n` is the notice. */
  ghost predicate Adds(s: State, s': State, n: Notice) {
    && OnlyMoves(s, s', n.id) && Grown(s, s') && s'.notices == s.notices + [n]
    && s.requests[n.id].phase.HangUp? && s'.requests[n.id].phase == Cleanup(if n.sent then Success else Failed(Reload))
  }

  lemma NewNoticeIsOk(s: State, s': State, n: Notice)
    requires NoticesOk(s) && Adds(s, s', n) && Timely(s, n)
    ensures forall m :: 0 <= m < |s'.notices| ==>
              Timely(s', s'.notices[m]) && PastReload(s'.requests[s'.notices[m].id].phase, s'.notices[m].sent)
    ensures forall l, m :: 0 <= l < m < |s'.notices| ==> s'.notices[l].id != s'.notices[m].id
  {
    forall m | 0 <= m < |s'.notices|
      ensures Timely(s', s'.notices[m]) && PastReload(s'.requests[s'.notices[m].id].phase, s'.notices[m].sent)
    {
      TimelyStays(s, s', s'.notices[m]);
    }
  }

  lemma NoticeIsAdded(s: State, s': State, n: Notice)
    requires NoticesOk(s) && Adds(s, s', n)
    requires forall m :: 0 <= m < |s'.notices| ==>
               Timely(s', s'.notices[m]) && PastReload(s'.requests[s'.notices[m].id].phase, s'.notices[m].sent)
    requires forall l, m :: 0 <= l < m < |s'.notices| ==> s'.notices[l].id != s'.notices[m].id
    ensures NoticesOk(s')
  {
    forall x, sent | x in s'.requests && s'.requests[x].job.ApplyDhcpDns? && PastReload(s'.requests[x].phase, sent)
      ensures HasNotice(s', x, sent)
    {
      if x == n.id {
        assert s'.notices[|s.notices|] == n;
      } else {
        NoticeStays(s, s', x, sent);
      }
    }
  }

  lemma NoticeStays(s: State, s': State, id: nat, sent: bool)
    requires HasNotice(s, id, sent) && s.notices <= s'.notices
    ensures HasNotice(s', id, sent)
  {
    var m :| 0 <= m < |s.notices| && s.notices[m].id == id && s.notices[m].sent == sent;
    assert s'.notices[m] == s.notices[m];
  }

  lemma NextKeepsNotices(fs0: Fs, s: State, id: nat, a: Action)
    requires Inv(fs0, s) && NoticesOk(s) && Next(s, id, a, false).Some?
    requires Current(fs0, DNSMASQ).Some? ==> Current(fs0, DNSMASQ).value in fs0.inodes
    ensures NoticesOk(Next(s, id, a, false).value)
  {
    if a.Submit? {
      BeginKeeps(s, id, a.job, a.root);
    } else if IsStaging(s.requests[id].phase) {
      Stage1IsQuiet(s, id, a);
      QuietKeeps(s, Next(s, id, a, false).value, id);
    } else if s.requests[id].phase in {Validate, LoadLive, RenameTemp} {
      Stage2IsQuiet(s, id, a);
      QuietKeeps(s, Next(s, id, a, false).value, id);
    } else if s.requests[id].phase.HangUp? {
      ReloadKeeps(fs0, s, id, a.Succeed?);
    } else {
      Stage3IsQuiet(s, id, a);
      QuietKeeps(s, Next(s, id, a, false).value, id);
    }
  }

  lemma {:induction false} RunKeepsNotices(s0: State, trace: seq<(nat, Action)>)
    requires Initial(s0) && Run(s0, trace, false).Some?
    ensures NoticesOk(Run(s0, trace, false).value)
    decreases |trace|
  {
    if trace != [] {
      var n := |trace| - 1;
      RunKeepsNotices(s0, trace[..n]);
      RunKeepsInv(s0, trace[..n]);
      NextKeepsNotices(s0.fs, Run(s0, trace[..n], false).value, trace[n].0, trace[n].1);
    }
  }

  // ---- Over whole runs ---------------------------------------------------------------------------

  /** The reload that request `id` asked for, sent or not, when the configuration read its
      text or that of a request that replaced the file after it. */
  ghost predicate Reloaded(s: State, id: nat, sent: bool) {
    exists m :: 0 <= m < |s.notices| && s.notices[m].id == id && s.notices[m].sent == sent && Timely(s, s.notices[m])
  }

  /** In every run a DHCP request that has succeeded has had dnsmasq read its text, or a
      later one, and one whose reload failed had tried to; no other request has asked
      dnsmasq for anything, and none has asked twice. */
  lemma SuccessIsTold(s0: State, trace: seq<(nat, Action)>, id: nat)
    requires Initial(s0) && Run(s0, trace, false).Some?
    requires var s := Run(s0, trace, false).value; id in s.requests && s.requests[id].phase.Done?
    ensures var s := Run(s0, trace, false).value;
            var r := s.requests[id];
            && (Reloaded(s, id, true) <==> r.job.ApplyDhcpDns? && r.phase == Done(Success))
            && (Reloaded(s, id, false) <==> r.job.ApplyDhcpDns? && r.phase == Done(Failed(Reload)))
            && (forall m, n :: 0 <= m < n < |s.notices| ==> s.notices[m].id != s.notices[n].id)
  {
    RunKeepsNotices(s0, trace);
    DoneIsTold(Run(s0, trace, false).value, id);
  }

  lemma DoneIsTold(s: State, id: nat)
    requires NoticesOk(s) && id in s.requests && s.requests[id].phase.Done?
    ensures forall sent :: Reloaded(s, id, sent) <==>
              s.requests[id].job.ApplyDhcpDns? && s.requests[id].phase == Done(if sent then Success else Failed(Reload))
  {
    forall sent
      ensures Reloaded(s, id, sent) <==>
              s.requests[id].job.ApplyDhcpDns? && s.requests[id].phase == Done(if sent then Success else Failed(Reload))
    {
      if s.requests[id].job.ApplyDhcpDns? && s.requests[id].phase == Done(if sent then Success else Failed(Reload)) {
        assert PastReload(s.requests[id].phase, sent) && HasNotice(s, id, sent);
      }
    }
  }
}
