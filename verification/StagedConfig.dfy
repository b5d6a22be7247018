/** The staged configuration transaction as a step system: any number of
    requests, each one system call at a time, with failures at every call. */
module StagedConfig {
  import opened Wrappers
  import opened FileSystem
  import DhcpDns
  import Firewall
  import FirewallText

  // ---- Requests -------------------------------------------------------------------------

  datatype Job = ApplyDhcpDns(dhcp: DhcpDns.Params) | ApplyFirewall(rules: Firewall.Params)

  /** Directories 0 and 1 are /etc/dnsmasq.d and /etc/nftables.d. */
  const DNSMASQ := Path(0, "netrouter.conf")
  const NFTABLES := Path(1, "netrouter.nft")

  function Target(job: Job): Path {
    if job.ApplyDhcpDns? then DNSMASQ else NFTABLES
  }

  function Render(job: Job): Option<Content> {
    match job
    case ApplyDhcpDns(p) => (match DhcpDns.Rendered(p) case Ok(text) => Some(text) case Err(_) => None)
    case ApplyFirewall(p) => (match FirewallText.RenderFirewall(p) case Ok(text) => Some(text) case Err(_) => None)
  }

  datatype Stage =
    Rendering | RootCheck | Staging | Validation | LiveLoad | Replacement | OpenDirectory | DirectorySync | Reload

  datatype Outcome = Success | Failed(at: Stage)

  /** The next system call of a request, or how it ended. */
  datatype Phase =
    | MakeDir | CreateTemp | WriteTemp | ChmodTemp | SyncTemp | CloseTemp
    | Validate | LoadLive | RenameTemp | OpenDir | SyncDirectory | HangUp
    | Cleanup(then_: Outcome) | Done(outcome: Outcome)

  datatype Request = Request(job: Job, contents: Content, temp: Path, ino: nat, phase: Phase)

  /** A reload of dnsmasq that request `id` asked for: what the configuration read at
      that moment, how often it had been replaced, and whether the signal was sent. */
  datatype Notice = Notice(id: nat, seen: Option<Content>, commits: nat, sent: bool)

  /** The machine, with its history: which content was accepted by the
      validator and loaded live for which request, per target the order in
      which requests replaced the file (None is the file found at start), and
      what dnsmasq was told. */
  datatype State = State(
    fs: Fs,
    requests: map<nat, Request>,
    live: seq<Content>,
    accepted: set<(nat, Content)>,
    loaded: set<(nat, Content)>,
    commits: map<Path, seq<Option<nat>>>,
    flushed: map<Path, nat>,
    notices: seq<Notice>)

  datatype Action =
    | Submit(job: Job, root: bool)
    | Succeed
    | Fail
    | PickTemp(name: string, ino: nat)
    | WritePart(junk: Content)

  const STAGED_PREFIX := ".netrouter-"
  const STORE_PREFIX := ".config-"

  /** Names that `CreateTemp` makes, for staged files and for the store. */
  predicate IsTempName(name: string) {
    StartsWith(name, STAGED_PREFIX) || StartsWith(name, STORE_PREFIX)
  }

  predicate StartsWith(s: string, prefix: string) {
    |s| >= |prefix| && s[..|prefix|] == prefix
  }

  // ---- Steps ----------------------------------------------------------------------------

  function WithPhase(s: State, id: nat, phase: Phase): State
    requires id in s.requests
  {
    s.(requests := s.requests[id := s.requests[id].(phase := phase)])
  }

  /** `killall -HUP dnsmasq` on behalf of request `id`. */
  function Notified(s: State, id: nat, sent: bool): State {
    var commits := if DNSMASQ in s.commits then |s.commits[DNSMASQ]| else 0;
    s.(notices := s.notices + [Notice(id, Read(s.fs, DNSMASQ), commits, sent)])
  }

  /** Which temporary names creation may return: one that is free and not still
      claimed by an unfinished request, or, with `reuse`, merely one that is free
      at the moment. */
  predicate MayPick(s: State, p: Path, ino: nat, reuse: bool) {
    && IsTempName(p.name) && ino !in s.fs.inodes && Current(s.fs, p).None?
    && (reuse || !Claimed(s.requests, p))
  }

  /** An unfinished request will still remove this name. */
  predicate Claimed(requests: map<nat, Request>, p: Path) {
    exists id :: id in requests && requests[id].temp == p && !requests[id].phase.Done?
  }

  function Begin(s: State, id: nat, job: Job, root: bool): State {
    var nowhere := Path(0, "");
    var request := match Render(job)
      case None => Request(job, "", nowhere, 0, Done(Failed(Rendering)))
      case Some(text) => Request(job, text, nowhere, 0, if root then MakeDir else Done(Failed(RootCheck)));
    s.(requests := s.requests[id := request])
  }

  function Stage1(s: State, id: nat, a: Action, reuse: bool): Option<State>
    requires id in s.requests
  {
    var r := s.requests[id];
    match r.phase
    case MakeDir =>
      if a.Succeed? then Some(WithPhase(s, id, CreateTemp))
      else if a.Fail? then Some(WithPhase(s, id, Done(Failed(Staging)))) else None
    case CreateTemp =>
      if a.PickTemp? then
        var p := Path(Target(r.job).dir, a.name);
        if MayPick(s, p, a.ino, reuse) then
          Some(s.(fs := Create(s.fs, p, a.ino),
                  requests := s.requests[id := r.(temp := p, ino := a.ino, phase := WriteTemp)]))
        else None
      else if a.Fail? then Some(WithPhase(s, id, Done(Failed(Staging)))) else None
    case WriteTemp =>
      if a.Succeed? then Some(WithPhase(s.(fs := Write(s.fs, r.ino, r.contents)), id, ChmodTemp))
      else if a.WritePart? then Some(WithPhase(s.(fs := Write(s.fs, r.ino, a.junk)), id, Cleanup(Failed(Staging))))
          else None
    case ChmodTemp =>
      if a.Succeed? then Some(WithPhase(s, id, SyncTemp))
      else if a.Fail? then Some(WithPhase(s, id, Cleanup(Failed(Staging)))) else None
    case SyncTemp =>
      if a.Succeed? && r.ino in s.fs.inodes then Some(WithPhase(s.(fs := SyncFile(s.fs, r.ino)), id, CloseTemp))
      else if a.Fail? then Some(WithPhase(s, id, Cleanup(Failed(Staging)))) else None
    case CloseTemp =>
      if a.Succeed? then Some(WithPhase(s, id, Validate))
      else if a.Fail? then Some(WithPhase(s, id, Cleanup(Failed(Staging)))) else None
    case _ => None
  }

  function Stage2(s: State, id: nat, a: Action): Option<State>
    requires id in s.requests
  {
    var r := s.requests[id];
    var seen := Read(s.fs, r.temp);
    match r.phase
    case Validate =>
      if a.Succeed? && seen.Some? then
        Some(WithPhase(s.(accepted := s.accepted + {(id, seen.value)}), id,
            if r.job.ApplyFirewall? then LoadLive else RenameTemp))
      else if a.Fail? then Some(WithPhase(s, id, Cleanup(Failed(Validation)))) else None
    case LoadLive =>
      if a.Succeed? && seen.Some? then
        Some(WithPhase(s.(loaded := s.loaded + {(id, seen.value)}, live := s.live + [seen.value]), id, RenameTemp))
      else if a.Fail? then Some(WithPhase(s, id, Cleanup(Failed(LiveLoad)))) else None
    case RenameTemp =>
      var t := Target(r.job);
      if a.Succeed? && seen.Some? && t in s.commits then
        Some(WithPhase(s.(fs := Rename(s.fs, r.temp, t), commits := s.commits[t := s.commits[t] + [Some(id)]]), id,
            OpenDir))
      else if a.Fail? then Some(WithPhase(s, id, Cleanup(Failed(Replacement)))) else None
    case _ => None
  }

  function Stage3(s: State, id: nat, a: Action): Option<State>
    requires id in s.requests
  {
    var r := s.requests[id];
    match r.phase
    case OpenDir =>
      if a.Succeed? then Some(WithPhase(s, id, SyncDirectory))
      else if a.Fail? then Some(WithPhase(s, id, Cleanup(Failed(OpenDirectory)))) else None
    case SyncDirectory =>
      var t := Target(r.job);
      if a.Succeed? && t in s.commits && s.commits[t] != [] then
        Some(WithPhase(s.(fs := SyncDir(s.fs, t.dir), flushed := s.flushed[t := |s.commits[t]| - 1]),
                       id, if r.job.ApplyDhcpDns? then HangUp else Cleanup(Success)))
      else if a.Fail? then Some(WithPhase(s, id, Cleanup(Failed(DirectorySync)))) else None
    case HangUp =>
      if a.Succeed? then Some(WithPhase(Notified(s, id, true), id, Cleanup(Success)))
      else if a.Fail? then Some(WithPhase(Notified(s, id, false), id, Cleanup(Failed(Reload)))) else None
    case Cleanup(then_) =>
      if a.Succeed? then Some(WithPhase(s.(fs := Remove(s.fs, r.temp)), id, Done(then_)))
      else if a.Fail? then Some(WithPhase(s, id, Done(then_))) else None
    case _ => None
  }

  predicate IsStaging(phase: Phase) {
    phase in {MakeDir, CreateTemp, WriteTemp, ChmodTemp, SyncTemp, CloseTemp}
  }

  /** One step of request `id`; None when the action is not possible there. */
  function Next(s: State, id: nat, a: Action, reuse: bool): Option<State> {
    if a.Submit? then (if id in s.requests then None else Some(Begin(s, id, a.job, a.root)))
    else if id !in s.requests then None
    else if IsStaging(s.requests[id].phase) then Stage1(s, id, a, reuse)
    else if s.requests[id].phase in {Validate, LoadLive, RenameTemp} then Stage2(s, id, a)
    else Stage3(s, id, a)
  }

  function Run(s: State, trace: seq<(nat, Action)>, reuse: bool): Option<State>
    decreases |trace|
  {
    if trace == [] then Some(s)
    else
      match Run(s, trace[..|trace| - 1], reuse)
      case None => None
      case Some(t) => Next(t, trace[|trace| - 1].0, trace[|trace| - 1].1, reuse)
  }

  /** No request yet; each active file is absent or whole and durable. */
  ghost predicate Initial(s: State) {
    && s.requests == map[] && s.live == [] && s.accepted == {} && s.loaded == {} && s.notices == []
    && s.commits == map[DNSMASQ := [None], NFTABLES := [None]]
    && s.flushed == map[DNSMASQ := 0, NFTABLES := 0]
    && BoundInodesExist(s.fs)
    && forall t :: t in TARGETS ==>
         && Bindings(s.fs, t) == [Current(s.fs, t)]
         && (Current(s.fs, t).Some? ==> s.fs.inodes[Current(s.fs, t).value].synced)
  }

  const TARGETS := {DNSMASQ, NFTABLES}

  ghost predicate BoundInodesExist(fs: Fs) {
    forall p, i :: Some(i) in Bindings(fs, p) ==> i in fs.inodes
  }

  // ---- The invariant ----------------------------------------------------------------------

  predicate Allocated(r: Request) {
    r.temp.name != ""
  }

  /** The request's staged file exists and nobody else can reach it. */
  predicate Owns(phase: Phase) {
    phase.WriteTemp? || phase.ChmodTemp? || phase.SyncTemp? || phase.CloseTemp? || phase.Validate? || phase.LoadLive?
        || phase.RenameTemp?
  }

  /** Outcomes decided after the file was replaced. */
  predicate Late(o: Outcome) {
    o.Success? || o.at.OpenDirectory? || o.at.DirectorySync? || o.at.Reload?
  }

  predicate Replaced(phase: Phase) {
    phase.OpenDir? || phase.SyncDirectory? || phase.HangUp? || (phase.Cleanup? && Late(phase.then_))
        || (phase.Done? && Late(phase.outcome))
  }

  /** The directory was synchronised for this request. */
  predicate DirSynced(phase: Phase) {
    || phase.HangUp?
    || (phase.Cleanup? && (phase.then_ == Success || phase.then_ == Failed(Reload)))
    || (phase.Done? && (phase.outcome == Success || phase.outcome == Failed(Reload)))
  }

  predicate Sealed(phase: Phase) {
    phase.CloseTemp? || phase.Validate? || phase.LoadLive? || phase.RenameTemp? || Replaced(phase)
  }

  predicate FileIs(fs: Fs, ino: nat, contents: Content, synced: bool) {
    ino in fs.inodes && fs.inodes[ino] == Inode(contents, synced)
  }

  ghost predicate Private(fs: Fs, r: Request) {
    Current(fs, r.temp) == Some(r.ino) && forall p :: p != r.temp ==> Some(r.ino) !in Bindings(fs, p)
  }

  /** What is known of one request's file. */
  ghost predicate FileOk(fs0: Fs, fs: Fs, r: Request) {
    && (Owns(r.phase) || Replaced(r.phase) || r.phase.Cleanup? ==> Allocated(r))
    && (r.phase.MakeDir? || r.phase.CreateTemp? ==> !Allocated(r))
    && (Allocated(r) ==>
          && IsTempName(r.temp.name) && r.temp.dir == Target(r.job).dir
          && r.ino in fs.inodes && r.ino !in fs0.inodes)
    && (Owns(r.phase) ==> Private(fs, r))
    && (r.phase.ChmodTemp? || r.phase.SyncTemp? ==> fs.inodes[r.ino].content == r.contents)
    && (Sealed(r.phase) ==> FileIs(fs, r.ino, r.contents, true))
  }

  /** A request's file facts survive when its inode and bindings do. */
  lemma FileOkFrame(fs0: Fs, fs: Fs, fs': Fs, r: Request)
    requires FileOk(fs0, fs, r)
    requires Allocated(r) ==> r.ino in fs'.inodes && fs'.inodes[r.ino] == fs.inodes[r.ino]
    requires Owns(r.phase) ==> Private(fs', r)
    ensures FileOk(fs0, fs', r)
  {
  }

  /** What the validator and the kernel have seen of one request. */
  predicate SeenOk(accepted: set<(nat, Content)>, loaded: set<(nat, Content)>, id: nat, r: Request) {
    && (r.phase.LoadLive? || r.phase.RenameTemp? || Replaced(r.phase) ==> (id, r.contents) in accepted)
    && (r.job.ApplyFirewall? && (r.phase.RenameTemp? || Replaced(r.phase)) ==> (id, r.contents) in loaded)
  }

  ghost predicate CommitOk(commits: map<Path, seq<Option<nat>>>, flushed: map<Path, nat>, id: nat, r: Request) {
    var t := Target(r.job);
    && t in commits && t in flushed
    && (Replaced(r.phase) <==> Some(id) in commits[t])
    && (DirSynced(r.phase) ==> exists k :: 0 <= k <= flushed[t] && k < |commits[t]| && commits[t][k] == Some(id))
  }

  ghost predicate RequestsOk(fs0: Fs, s: State) {
    && (forall id :: id in s.requests ==> FileOk(fs0, s.fs, s.requests[id]))
    && (forall id :: id in s.requests ==> SeenOk(s.accepted, s.loaded, id, s.requests[id]))
    && (forall id :: id in s.requests ==> CommitOk(s.commits, s.flushed, id, s.requests[id]))
  }

  ghost predicate Distinct(requests: map<nat, Request>) {
    forall a, b :: a in requests && b in requests && a != b && Allocated(requests[a]) && Allocated(requests[b]) ==>
      && requests[a].ino != requests[b].ino
      && (!requests[a].phase.Done? && !requests[b].phase.Done? ==> requests[a].temp != requests[b].temp)
  }

  /** The inode a commit bound the target to. */
  function CommitInode(fs0: Fs, requests: map<nat, Request>, t: Path, c: Option<nat>): Option<nat> {
    match c
    case None => Current(fs0, t)
    case Some(id) => if id in requests then Some(requests[id].ino) else None
  }

  /** The commits of a target name its own requests, the initial file first. */
  ghost predicate HistoryOk(requests: map<nat, Request>, commits: seq<Option<nat>>, flushed: nat, t: Path) {
    && flushed < |commits| && commits[0] == None
    && forall k :: 0 < k < |commits| ==>
         commits[k].Some? && commits[k].value in requests && Target(requests[commits[k].value].job) == t
  }

  /** The bindings of a target are its commits since the last directory sync. */
  ghost predicate TargetOk(fs0: Fs, fs: Fs, requests: map<nat, Request>, commits: seq<Option<nat>>, flushed: nat,
      t: Path)
  {
    && HistoryOk(requests, commits, flushed, t)
    && |Bindings(fs, t)| == |commits| - flushed
    && forall k :: flushed <= k < |commits| ==>
         Bindings(fs, t)[k - flushed] == CommitInode(fs0, requests, t, commits[k])
  }

  ghost predicate TargetsOk(fs0: Fs, s: State) {
    forall t :: t in TARGETS ==>
      && t in s.commits && t in s.flushed
      && TargetOk(fs0, s.fs, s.requests, s.commits[t], s.flushed[t], t)
  }

  ghost predicate Stable(fs0: Fs, fs: Fs) {
    && (forall i :: i in fs0.inodes ==> i in fs.inodes && fs.inodes[i] == fs0.inodes[i])
    && BoundInodesExist(fs)
  }

  ghost predicate Inv(fs0: Fs, s: State) {
    RequestsOk(fs0, s) && Distinct(s.requests) && Stable(fs0, s.fs) && TargetsOk(fs0, s)
  }

  /** The active files are not temporary files. */
  lemma TempNameIsHidden(name: string)
    requires IsTempName(name)
    ensures name != "" && name[0] == '.'
  {
    assert STAGED_PREFIX[0] == '.' && STORE_PREFIX[0] == '.';
    assert StartsWith(name, STAGED_PREFIX) ==> name[..11][0] == '.';
    assert StartsWith(name, STORE_PREFIX) ==> name[..8][0] == '.';
  }

  lemma TempIsNoTarget(p: Path)
    requires IsTempName(p.name)
    ensures p !in TARGETS && p.name != ""
  {
    TempNameIsHidden(p.name);
    assert DNSMASQ.name[0] == 'n' && NFTABLES.name[0] == 'n';
  }

  lemma InitialInv(s: State)
    requires Initial(s)
    ensures Inv(s.fs, s)
  {
  }

  // ---- Every step keeps the invariant -------------------------------------------------------

  /** Replacing a request by one with the same job and inode. */
  lemma HistoryKeeps(fs0: Fs, s: State, id: nat, r: Request)
    requires TargetsOk(fs0, s)
    requires id in s.requests ==>
               r.job == s.requests[id].job && (r.ino == s.requests[id].ino || Some(id) !in s.commits[Target(r.job)])
    ensures forall t :: t in TARGETS ==> TargetOk(fs0, s.fs, s.requests[id := r], s.commits[t], s.flushed[t], t)
  {
    var requests := s.requests[id := r];
    forall t | t in TARGETS ensures TargetOk(fs0, s.fs, requests, s.commits[t], s.flushed[t], t) {
      var commits, flushed := s.commits[t], s.flushed[t];
      forall k | 0 < k < |commits|
        ensures commits[k].Some? && commits[k].value in requests && Target(requests[commits[k].value].job) == t
        ensures CommitInode(fs0, requests, t, commits[k]) == CommitInode(fs0, s.requests, t, commits[k])
      {
      }
    }
  }

  /** Putting the invariant together after a step of request `id`. */
  lemma Assembled(fs0: Fs, s: State, s': State, id: nat)
    requires Inv(fs0, s) && id in s'.requests && s'.requests == s.requests[id := s'.requests[id]]
    requires forall other :: other in s.requests && other != id ==>
      && FileOk(fs0, s'.fs, s.requests[other])
      && CommitOk(s'.commits, s'.flushed, other, s.requests[other])
    requires s.accepted <= s'.accepted && s.loaded <= s'.loaded
    requires var r := s'.requests[id];
      FileOk(fs0, s'.fs, r) && SeenOk(s'.accepted, s'.loaded, id, r) && CommitOk(s'.commits, s'.flushed, id, r)
    requires Distinct(s'.requests) && Stable(fs0, s'.fs) && TargetsOk(fs0, s')
    ensures Inv(fs0, s')
  {
    forall other | other in s'.requests
      ensures SeenOk(s'.accepted, s'.loaded, other, s'.requests[other])
    {
      if other != id {
        assert SeenOk(s.accepted, s.loaded, other, s.requests[other]);
      }
    }
  }

  /** The same when the request only changes phase. */
  lemma Moved(fs0: Fs, s: State, s': State, id: nat, phase: Phase)
    requires Inv(fs0, s) && id in s.requests && s'.requests == s.requests[id := s.requests[id].(phase := phase)]
    requires !s.requests[id].phase.Done?
    requires forall other :: other in s.requests && other != id ==>
      && FileOk(fs0, s'.fs, s.requests[other])
      && CommitOk(s'.commits, s'.flushed, other, s.requests[other])
    requires s.accepted <= s'.accepted && s.loaded <= s'.loaded
    requires var r := s.requests[id].(phase := phase);
      FileOk(fs0, s'.fs, r) && SeenOk(s'.accepted, s'.loaded, id, r) && CommitOk(s'.commits, s'.flushed, id, r)
    requires Stable(fs0, s'.fs) && TargetsOk(fs0, s')
    ensures Inv(fs0, s')
  {
    assert Distinct(s'.requests);
    Assembled(fs0, s, s', id);
  }

  /** A step that only moves one request on. */
  lemma PhaseStep(fs0: Fs, s: State, id: nat, phase: Phase)
    requires Inv(fs0, s) && id in s.requests && !s.requests[id].phase.Done?
    requires var r := s.requests[id].(phase := phase);
             FileOk(fs0, s.fs, r) && SeenOk(s.accepted, s.loaded, id, r) && CommitOk(s.commits, s.flushed, id, r)
    ensures Inv(fs0, WithPhase(s, id, phase))
  {
    HistoryKeeps(fs0, s, id, s.requests[id].(phase := phase));
    Moved(fs0, s, WithPhase(s, id, phase), id, phase);
  }

  /** A step that changes the data of the moving request's own inode. */
  lemma DataStep(fs0: Fs, s: State, id: nat, ino: Inode, phase: Phase)
    requires Inv(fs0, s) && id in s.requests && Owns(s.requests[id].phase)
    requires !Replaced(phase) && !DirSynced(phase) && !phase.LoadLive? && !phase.RenameTemp? && !phase.MakeDir?
        && !phase.CreateTemp?
    requires phase.ChmodTemp? || phase.SyncTemp? ==> ino.content == s.requests[id].contents
    requires Sealed(phase) ==> ino == Inode(s.requests[id].contents, true)
    ensures Inv(fs0, WithPhase(s.(fs := s.fs.(inodes := s.fs.inodes[s.requests[id].ino := ino])), id, phase))
  {
    var r := s.requests[id];
    var fs := s.fs.(inodes := s.fs.inodes[r.ino := ino]);
    assert FileOk(fs0, s.fs, r) && SeenOk(s.accepted, s.loaded, id, r) && CommitOk(s.commits, s.flushed, id, r);
    HistoryKeeps(fs0, s, id, r.(phase := phase));
    assert forall p :: Bindings(fs, p) == Bindings(s.fs, p);
    forall other | other in s.requests && other != id ensures FileOk(fs0, fs, s.requests[other]) {
      FileOkFrame(fs0, s.fs, fs, s.requests[other]);
    }
    Moved(fs0, s, WithPhase(s.(fs := fs), id, phase), id, phase);
  }

  lemma WriteStep(fs0: Fs, s: State, id: nat, c: Content, phase: Phase)
    requires Inv(fs0, s) && id in s.requests && s.requests[id].phase == WriteTemp
    requires (phase == ChmodTemp && c == s.requests[id].contents) || phase == Cleanup(Failed(Staging))
    ensures Inv(fs0, WithPhase(s.(fs := Write(s.fs, s.requests[id].ino, c)), id, phase))
  {
    DataStep(fs0, s, id, Inode(c, false), phase);
  }

  lemma SyncStep(fs0: Fs, s: State, id: nat)
    requires Inv(fs0, s) && id in s.requests && s.requests[id].phase == SyncTemp
    ensures s.requests[id].ino in s.fs.inodes
    ensures Inv(fs0, WithPhase(s.(fs := SyncFile(s.fs, s.requests[id].ino)), id, CloseTemp))
  {
    var r := s.requests[id];
    assert FileOk(fs0, s.fs, r);
    DataStep(fs0, s, id, Inode(r.contents, true), CloseTemp);
  }

  lemma OthersAfterCreate(fs0: Fs, s: State, id: nat, p: Path, ino: nat)
    requires Inv(fs0, s) && MayPick(s, p, ino, false)
    ensures forall other :: other in s.requests && other != id ==> FileOk(fs0, Create(s.fs, p, ino), s.requests[other])
    ensures forall other :: other in s.requests && Allocated(s.requests[other]) ==>
              s.requests[other].ino != ino && (!s.requests[other].phase.Done? ==> s.requests[other].temp != p)
    ensures Stable(fs0, Create(s.fs, p, ino))
    ensures forall t :: t in TARGETS ==> Bindings(Create(s.fs, p, ino), t) == Bindings(s.fs, t)
  {
    var fs := Create(s.fs, p, ino);
    CreateBindings(s.fs, p, ino);
    TempIsNoTarget(p);
    forall other | other in s.requests && other != id
      ensures FileOk(fs0, fs, s.requests[other])
    {
      var o := s.requests[other];
      assert FileOk(fs0, s.fs, o);
      FileOkFrame(fs0, s.fs, fs, o);
    }
    forall other | other in s.requests && Allocated(s.requests[other])
      ensures s.requests[other].ino != ino && (!s.requests[other].phase.Done? ==> s.requests[other].temp != p)
    {
      assert FileOk(fs0, s.fs, s.requests[other]);
    }
  }

  lemma CreateStep(fs0: Fs, s: State, id: nat, p: Path, ino: nat)
    requires Inv(fs0, s) && id in s.requests && s.requests[id].phase == CreateTemp
    requires p.dir == Target(s.requests[id].job).dir && MayPick(s, p, ino, false)
    ensures var r := s.requests[id].(temp := p, ino := ino, phase := WriteTemp);
            Inv(fs0, s.(fs := Create(s.fs, p, ino), requests := s.requests[id := r]))
  {
    var r := s.requests[id].(temp := p, ino := ino, phase := WriteTemp);
    var fs := Create(s.fs, p, ino);
    assert CommitOk(s.commits, s.flushed, id, s.requests[id]);
    OthersAfterCreate(fs0, s, id, p, ino);
    NewFileOk(fs0, s.fs, p, ino, r);
    TargetsKeep(fs0, s, id, r, fs);
    Assembled(fs0, s, s.(fs := fs, requests := s.requests[id := r]), id);
  }

  lemma NewFileOk(fs0: Fs, fs: Fs, p: Path, ino: nat, r: Request)
    requires BoundInodesExist(fs) && ino !in fs.inodes && ino !in fs0.inodes && IsTempName(p.name)
    requires r.temp == p && r.ino == ino && r.phase == WriteTemp && p.dir == Target(r.job).dir
    ensures FileOk(fs0, Create(fs, p, ino), r)
  {
    TempIsNoTarget(p);
    CreateBindings(fs, p, ino);
  }

  lemma CreateBindings(fs: Fs, p: Path, ino: nat)
    requires BoundInodesExist(fs) && ino !in fs.inodes
    ensures var fs' := Create(fs, p, ino);
            && BoundInodesExist(fs') && Current(fs', p) == Some(ino)
            && (forall q :: q != p ==> Bindings(fs', q) == Bindings(fs, q) && Some(ino) !in Bindings(fs', q))
            && (forall q, i :: i != ino && Some(i) in Bindings(fs', q) ==> Some(i) in Bindings(fs, q))
  {
    var fs' := Create(fs, p, ino);
    assert forall q :: Bindings(fs', q) == if q == p then Bindings(fs, p) + [Some(ino)] else Bindings(fs, q);
    forall q | q != p ensures Some(ino) !in Bindings(fs', q) {
      assert Some(ino) in Bindings(fs, q) ==> ino in fs.inodes;
    }
    forall q, i | Some(i) in Bindings(fs', q) ensures i in fs'.inodes && (i != ino ==> Some(i) in Bindings(fs, q)) {
    }
  }

  /** Targets are untouched by a step that leaves their bindings alone. */
  lemma TargetsKeep(fs0: Fs, s: State, id: nat, r: Request, fs: Fs)
    requires TargetsOk(fs0, s)
    requires id in s.requests ==>
               r.job == s.requests[id].job && (r.ino == s.requests[id].ino || Some(id) !in s.commits[Target(r.job)])
    requires forall t :: t in TARGETS ==> Bindings(fs, t) == Bindings(s.fs, t)
    ensures forall t :: t in TARGETS ==> TargetOk(fs0, fs, s.requests[id := r], s.commits[t], s.flushed[t], t)
  {
    HistoryKeeps(fs0, s, id, r);
  }

  lemma RemoveStep(fs0: Fs, s: State, id: nat, o: Outcome)
    requires Inv(fs0, s) && id in s.requests && s.requests[id].phase == Cleanup(o)
    ensures Inv(fs0, WithPhase(s.(fs := Remove(s.fs, s.requests[id].temp)), id, Done(o)))
  {
    var r := s.requests[id];
    var fs := Remove(s.fs, r.temp);
    assert FileOk(fs0, s.fs, r) && SeenOk(s.accepted, s.loaded, id, r) && CommitOk(s.commits, s.flushed, id, r);
    RemoveBindings(s.fs, r.temp);
    TempIsNoTarget(r.temp);
    forall other | other in s.requests && other != id ensures FileOk(fs0, fs, s.requests[other]) {
      FileOkFrame(fs0, s.fs, fs, s.requests[other]);
    }
    TargetsKeep(fs0, s, id, r.(phase := Done(o)), fs);
    Moved(fs0, s, WithPhase(s.(fs := fs), id, Done(o)), id, Done(o));
  }

  lemma RemoveBindings(fs: Fs, p: Path)
    ensures var fs' := Remove(fs, p);
            && fs'.inodes == fs.inodes
            && (forall q :: q != p ==> Bindings(fs', q) == Bindings(fs, q)) && Current(fs', p).None?
            && (forall q, i :: Some(i) in Bindings(fs', q) ==> Some(i) in Bindings(fs, q))
  {
    var fs' := Remove(fs, p);
    assert Bindings(fs', p) == if Current(fs, p).None? then Bindings(fs, p) else Bindings(fs, p) + [None];
  }

  lemma RenameBindings(fs: Fs, from: Path, to: Path, ino: nat)
    requires from != to && Current(fs, from) == Some(ino)
    ensures var fs' := Rename(fs, from, to);
            && fs'.inodes == fs.inodes
            && Bindings(fs', to) == Bindings(fs, to) + [Some(ino)]
            && (forall q :: q != to && q != from ==> Bindings(fs', q) == Bindings(fs, q))
            && (forall q, i :: i != ino && Some(i) in Bindings(fs', q) ==> Some(i) in Bindings(fs, q))
            && (forall q, i :: Some(i) in Bindings(fs', q) ==> Some(i) in Bindings(fs, q) || i == ino)
  {
    var fs' := Rename(fs, from, to);
    assert Bindings(fs', from) == Bindings(fs, from) + [None];
  }

  lemma OthersAfterRename(fs0: Fs, s: State, id: nat)
    requires Inv(fs0, s) && id in s.requests && s.requests[id].phase.RenameTemp?
    ensures var r := s.requests[id];
            var t := Target(r.job);
            var fs := Rename(s.fs, r.temp, t);
            && FileOk(fs0, fs, r.(phase := OpenDir)) && Stable(fs0, fs)
            && Bindings(fs, t) == Bindings(s.fs, t) + [Some(r.ino)]
            && (forall u :: u in TARGETS && u != t ==> Bindings(fs, u) == Bindings(s.fs, u))
            && forall other :: other in s.requests && other != id ==> FileOk(fs0, fs, s.requests[other])
  {
    var r := s.requests[id];
    var t := Target(r.job);
    var fs := Rename(s.fs, r.temp, t);
    assert FileOk(fs0, s.fs, r);
    TempIsNoTarget(r.temp);
    assert t in TARGETS;
    RenameBindings(s.fs, r.temp, t, r.ino);
    forall other | other in s.requests && other != id
      ensures FileOk(fs0, fs, s.requests[other])
    {
      var o := s.requests[other];
      assert FileOk(fs0, s.fs, o);
      if Owns(o.phase) {
        TempIsNoTarget(o.temp);
        assert o.temp != r.temp && o.ino != r.ino;
      }
      FileOkFrame(fs0, s.fs, fs, o);
    }
  }

  lemma RenameStep(fs0: Fs, s: State, id: nat)
    requires Inv(fs0, s) && id in s.requests && s.requests[id].phase == RenameTemp
    ensures var r := s.requests[id];
            var t := Target(r.job);
            t in s.commits &&
            Inv(fs0, WithPhase(s.(fs := Rename(s.fs, r.temp, t), commits := s.commits[t := s.commits[t] + [Some(id)]]),
                id, OpenDir))
  {
    var r := s.requests[id];
    var t := Target(r.job);
    var commits := s.commits[t := s.commits[t] + [Some(id)]];
    OthersAfterRename(fs0, s, id);
    forall other | other in s.requests && other != id
      ensures CommitOk(commits, s.flushed, other, s.requests[other])
    {
      CommitExtends(s.commits, s.flushed, other, s.requests[other], t, id);
    }
    RenameTargets(fs0, s, id, Rename(s.fs, r.temp, t), commits);
    assert SeenOk(s.accepted, s.loaded, id, r);
    assert commits[t][|s.commits[t]|] == Some(id);
    assert CommitOk(commits, s.flushed, id, r.(phase := OpenDir));
    Moved(fs0, s, WithPhase(s.(fs := Rename(s.fs, r.temp, t), commits := commits), id, OpenDir), id, OpenDir);
  }

  lemma CommitExtends(commits: map<Path, seq<Option<nat>>>, flushed: map<Path, nat>, other: nat, o: Request, t: Path,
      id: nat)
    requires t in commits && other != id && CommitOk(commits, flushed, other, o)
    ensures CommitOk(commits[t := commits[t] + [Some(id)]], flushed, other, o)
  {
    var c := commits[t := commits[t] + [Some(id)]];
    var u := Target(o.job);
    if DirSynced(o.phase) {
      var k :| 0 <= k <= flushed[u] && k < |commits[u]| && commits[u][k] == Some(other);
      assert c[u][k] == Some(other);
    }
  }

  lemma RenameTargets(fs0: Fs, s: State, id: nat, fs: Fs, commits: map<Path, seq<Option<nat>>>)
    requires TargetsOk(fs0, s) && id in s.requests
    requires var r := s.requests[id];
             var t := Target(r.job);
             && commits == s.commits[t := s.commits[t] + [Some(id)]]
             && Bindings(fs, t) == Bindings(s.fs, t) + [Some(r.ino)]
             && forall u :: u in TARGETS && u != t ==> Bindings(fs, u) == Bindings(s.fs, u)
    ensures forall t :: t in TARGETS ==>
              TargetOk(fs0, fs, s.requests[id := s.requests[id].(phase := OpenDir)], commits[t], s.flushed[t], t)
  {
    HistoryKeeps(fs0, s, id, s.requests[id].(phase := OpenDir));
  }

  lemma SyncDirBindings(fs: Fs, dir: nat)
    ensures var fs' := SyncDir(fs, dir);
            && fs'.inodes == fs.inodes
            && (forall q :: Bindings(fs', q) == if q.dir == dir then [Current(fs, q)] else Bindings(fs, q))
            && (forall q :: Current(fs', q) == Current(fs, q))
            && (forall q, i :: Some(i) in Bindings(fs', q) ==> Some(i) in Bindings(fs, q))
  {
  }

  lemma OthersAfterSync(fs0: Fs, s: State, t: Path)
    requires Inv(fs0, s) && t in TARGETS
    ensures forall id :: id in s.requests ==> FileOk(fs0, SyncDir(s.fs, t.dir), s.requests[id])
    ensures forall id :: id in s.requests ==>
        CommitOk(s.commits, s.flushed[t := |s.commits[t]| - 1], id, s.requests[id])
  {
    SyncDirBindings(s.fs, t.dir);
    assert TargetOk(fs0, s.fs, s.requests, s.commits[t], s.flushed[t], t);
    forall id | id in s.requests
      ensures FileOk(fs0, SyncDir(s.fs, t.dir), s.requests[id])
      ensures CommitOk(s.commits, s.flushed[t := |s.commits[t]| - 1], id, s.requests[id])
    {
      var r := s.requests[id];
      assert FileOk(fs0, s.fs, r);
      assert CommitOk(s.commits, s.flushed, id, r);
      FileOkFrame(fs0, s.fs, SyncDir(s.fs, t.dir), r);
      FlushKeeps(s.commits, s.flushed, id, r, t);
    }
  }

  lemma SyncStable(fs0: Fs, fs: Fs, dir: nat)
    requires Stable(fs0, fs)
    ensures Stable(fs0, SyncDir(fs, dir))
  {
    SyncDirBindings(fs, dir);
  }

  lemma SyncDirStep(fs0: Fs, s: State, id: nat, phase: Phase)
    requires Inv(fs0, s) && id in s.requests && s.requests[id].phase == SyncDirectory
    requires phase == if s.requests[id].job.ApplyDhcpDns? then HangUp else Cleanup(Success)
    ensures var t := Target(s.requests[id].job);
            t in s.commits && s.commits[t] != [] &&
            Inv(fs0, WithPhase(s.(fs := SyncDir(s.fs, t.dir), flushed := s.flushed[t := |s.commits[t]| - 1]), id,
                phase))
  {
    var r := s.requests[id];
    var t := Target(r.job);
    assert t in TARGETS;
    OthersAfterSync(fs0, s, t);
    SyncTargets(fs0, s, id, r.(phase := phase), SyncDir(s.fs, t.dir));
    SyncStable(fs0, s.fs, t.dir);
    FlushCommits(s.commits, s.flushed, id, r, t, phase);
    LaterFileOk(fs0, SyncDir(s.fs, t.dir), s.accepted, s.loaded, id, r, phase);
    Moved(fs0, s, WithPhase(s.(fs := SyncDir(s.fs, t.dir), flushed := s.flushed[t := |s.commits[t]| - 1]), id, phase),
        id, phase);
  }

  /** After the replacement the remaining phases need nothing new. */
  lemma LaterFileOk(fs0: Fs, fs: Fs, accepted: set<(nat, Content)>, loaded: set<(nat, Content)>, id: nat, r: Request,
      phase: Phase)
    requires FileOk(fs0, fs, r) && SeenOk(accepted, loaded, id, r) && Replaced(r.phase) && Replaced(phase)
    ensures FileOk(fs0, fs, r.(phase := phase)) && SeenOk(accepted, loaded, id, r.(phase := phase))
  {
  }

  /** A directory sync makes the request's own commit durable. */
  lemma FlushCommits(commits: map<Path, seq<Option<nat>>>, flushed: map<Path, nat>, id: nat, r: Request, t: Path,
      phase: Phase)
    requires t == Target(r.job) && t in commits && t in flushed && commits[t] != []
    requires CommitOk(commits, flushed, id, r) && Replaced(r.phase) && Replaced(phase)
    ensures CommitOk(commits, flushed[t := |commits[t]| - 1], id, r.(phase := phase))
  {
    var k :| 0 <= k < |commits[t]| && commits[t][k] == Some(id);
    assert k <= flushed[t := |commits[t]| - 1][t];
  }

  lemma FlushKeeps(commits: map<Path, seq<Option<nat>>>, flushed: map<Path, nat>, other: nat, o: Request, t: Path)
    requires t in commits && t in flushed && commits[t] != [] && flushed[t] < |commits[t]|
        && CommitOk(commits, flushed, other, o)
    ensures CommitOk(commits, flushed[t := |commits[t]| - 1], other, o)
  {
    var u := Target(o.job);
    if DirSynced(o.phase) {
      var k :| 0 <= k <= flushed[u] && k < |commits[u]| && commits[u][k] == Some(other);
      assert k <= flushed[t := |commits[t]| - 1][u];
    }
  }

  lemma SyncTargets(fs0: Fs, s: State, id: nat, r: Request, fs: Fs)
    requires TargetsOk(fs0, s) && id in s.requests && r.job == s.requests[id].job && r.ino == s.requests[id].ino
    requires fs == SyncDir(s.fs, Target(r.job).dir)
    ensures var t := Target(r.job);
            var flushed := s.flushed[t := |s.commits[t]| - 1];
            forall u :: u in TARGETS ==> TargetOk(fs0, fs, s.requests[id := r], s.commits[u], flushed[u], u)
  {
    var t, requests := Target(r.job), s.requests[id := r];
    HistoryKeeps(fs0, s, id, r);
    SyncDirBindings(s.fs, t.dir);
    assert t in TARGETS;
    SyncTarget(fs0, s.fs, fs, requests, s.commits[t], s.flushed[t], t);
    forall u | u in TARGETS && u != t ensures TargetOk(fs0, fs, requests, s.commits[u], s.flushed[u], u) {
      SameTarget(fs0, s.fs, fs, requests, s.commits[u], s.flushed[u], u);
    }
  }

  lemma SameTarget(fs0: Fs, fs: Fs, fs': Fs, requests: map<nat, Request>, commits: seq<Option<nat>>, flushed: nat,
      t: Path)
    requires TargetOk(fs0, fs, requests, commits, flushed, t) && Bindings(fs', t) == Bindings(fs, t)
    ensures TargetOk(fs0, fs', requests, commits, flushed, t)
  {
  }

  lemma SyncTarget(fs0: Fs, fs: Fs, fs': Fs, requests: map<nat, Request>, commits: seq<Option<nat>>, flushed: nat,
      t: Path)
    requires TargetOk(fs0, fs, requests, commits, flushed, t) && Bindings(fs', t) == [Current(fs, t)]
    ensures TargetOk(fs0, fs', requests, commits, |commits| - 1, t)
  {
    var last := |commits| - 1;
    assert Bindings(fs, t)[last - flushed] == CommitInode(fs0, requests, t, commits[last]);
  }

  lemma SeenStep(fs0: Fs, s: State, id: nat, accepted: set<(nat, Content)>, loaded: set<(nat, Content)>,
      live: seq<Content>, phase: Phase)
    requires Inv(fs0, s) && id in s.requests && (s.requests[id].phase.Validate? || s.requests[id].phase.LoadLive?)
        && (phase.LoadLive? || phase.RenameTemp?)
    requires s.accepted <= accepted && s.loaded <= loaded
    requires SeenOk(accepted, loaded, id, s.requests[id].(phase := phase))
    ensures Inv(fs0, WithPhase(s.(accepted := accepted, loaded := loaded, live := live), id, phase))
  {
    var r := s.requests[id];
    assert FileOk(fs0, s.fs, r) && CommitOk(s.commits, s.flushed, id, r);
    HistoryKeeps(fs0, s, id, r.(phase := phase));
    Moved(fs0, s, WithPhase(s.(accepted := accepted, loaded := loaded, live := live), id, phase), id, phase);
  }

  lemma NewRequestStep(fs0: Fs, s: State, id: nat, r: Request)
    requires Inv(fs0, s) && id !in s.requests && !Allocated(r)
    requires r.phase in {MakeDir, Done(Failed(Rendering)), Done(Failed(RootCheck))}
    ensures Inv(fs0, s.(requests := s.requests[id := r]))
  {
    HistoryKeeps(fs0, s, id, r);
    var t := Target(r.job);
    assert t in TARGETS && TargetOk(fs0, s.fs, s.requests, s.commits[t], s.flushed[t], t);
    Assembled(fs0, s, s.(requests := s.requests[id := r]), id);
  }

  /** Giving up before the replacement. */
  lemma AbandonStep(fs0: Fs, s: State, id: nat, o: Outcome)
    requires Inv(fs0, s) && id in s.requests && Owns(s.requests[id].phase) && !Late(o)
    ensures Inv(fs0, WithPhase(s, id, Cleanup(o)))
  {
    var r := s.requests[id];
    assert FileOk(fs0, s.fs, r);
    assert CommitOk(s.commits, s.flushed, id, r);
    PhaseStep(fs0, s, id, Cleanup(o));
  }

  /** Moving on where the file itself is not touched. */
  lemma AdvanceStep(fs0: Fs, s: State, id: nat, phase: Phase)
    requires Inv(fs0, s) && id in s.requests
    requires match s.requests[id].phase
             case MakeDir => phase.CreateTemp? || phase == Done(Failed(Staging))
             case CreateTemp => phase == Done(Failed(Staging))
             case ChmodTemp => phase.SyncTemp?
             case CloseTemp => phase.Validate?
             case _ => false
    ensures Inv(fs0, WithPhase(s, id, phase))
  {
    var r := s.requests[id];
    assert FileOk(fs0, s.fs, r);
    assert CommitOk(s.commits, s.flushed, id, r);
    PhaseStep(fs0, s, id, phase);
  }

  /** Moving on after the replacement, with no further directory sync. */
  lemma LaterStep(fs0: Fs, s: State, id: nat, phase: Phase)
    requires Inv(fs0, s) && id in s.requests && Replaced(s.requests[id].phase) && Replaced(phase)
        && !s.requests[id].phase.Done?
    requires DirSynced(phase) ==> DirSynced(s.requests[id].phase)
    ensures Inv(fs0, WithPhase(s, id, phase))
  {
    var r := s.requests[id];
    LaterFileOk(fs0, s.fs, s.accepted, s.loaded, id, r, phase);
    assert CommitOk(s.commits, s.flushed, id, r);
    PhaseStep(fs0, s, id, phase);
  }

  /** Ending without removing the temporary file. */
  lemma EndStep(fs0: Fs, s: State, id: nat, o: Outcome)
    requires Inv(fs0, s) && id in s.requests && s.requests[id].phase == Cleanup(o)
    ensures Inv(fs0, WithPhase(s, id, Done(o)))
  {
    var r := s.requests[id];
    assert FileOk(fs0, s.fs, r) && SeenOk(s.accepted, s.loaded, id, r);
    assert CommitOk(s.commits, s.flushed, id, r);
    PhaseStep(fs0, s, id, Done(o));
  }

  lemma StagingKeepsInv(fs0: Fs, s: State, id: nat, a: Action)
    requires Inv(fs0, s) && id in s.requests && IsStaging(s.requests[id].phase) && Stage1(s, id, a, false).Some?
    ensures Inv(fs0, Stage1(s, id, a, false).value)
  {
    var r := s.requests[id];
    match r.phase
    case MakeDir => AdvanceStep(fs0, s, id, if a.Succeed? then CreateTemp else Done(Failed(Staging)));
    case CreateTemp => if a.PickTemp? { CreateStep(fs0, s, id, Path(Target(r.job).dir, a.name), a.ino); }
        else { AdvanceStep(fs0, s, id, Done(Failed(Staging))); }
    case WriteTemp => WriteStep(fs0, s, id, if a.Succeed? then r.contents else a.junk,
        if a.Succeed? then ChmodTemp else Cleanup(Failed(Staging)));
    case ChmodTemp => if a.Succeed? { AdvanceStep(fs0, s, id, SyncTemp); }
        else { AbandonStep(fs0, s, id, Failed(Staging)); }
    case SyncTemp => if a.Succeed? { SyncStep(fs0, s, id); } else { AbandonStep(fs0, s, id, Failed(Staging)); }
    case CloseTemp => if a.Succeed? { AdvanceStep(fs0, s, id, Validate); }
        else { AbandonStep(fs0, s, id, Failed(Staging)); }
  }

  /** While a request owns its file, the name reads what it rendered. */
  lemma StagedFileIsOwn(fs0: Fs, s: State, id: nat)
    requires Inv(fs0, s) && id in s.requests
    requires var p := s.requests[id].phase; p.Validate? || p.LoadLive? || p.RenameTemp?
    ensures Read(s.fs, s.requests[id].temp) == Some(s.requests[id].contents)
  {
    assert FileOk(fs0, s.fs, s.requests[id]);
  }

  lemma ValidateStep(fs0: Fs, s: State, id: nat)
    requires Inv(fs0, s) && id in s.requests && s.requests[id].phase.Validate?
    ensures var r := s.requests[id];
            Inv(fs0, WithPhase(s.(accepted := s.accepted + {(id, r.contents)}), id,
                if r.job.ApplyFirewall? then LoadLive else RenameTemp))
  {
    var r := s.requests[id];
    SeenStep(fs0, s, id, s.accepted + {(id, r.contents)}, s.loaded, s.live,
        if r.job.ApplyFirewall? then LoadLive else RenameTemp);
  }

  lemma LoadStep(fs0: Fs, s: State, id: nat)
    requires Inv(fs0, s) && id in s.requests && s.requests[id].phase.LoadLive?
    ensures var c := s.requests[id].contents;
            Inv(fs0, WithPhase(s.(loaded := s.loaded + {(id, c)}, live := s.live + [c]), id, RenameTemp))
  {
    var c := s.requests[id].contents;
    assert SeenOk(s.accepted, s.loaded, id, s.requests[id]);
    SeenStep(fs0, s, id, s.accepted, s.loaded + {(id, c)}, s.live + [c], RenameTemp);
  }

  lemma CommitKeepsInv(fs0: Fs, s: State, id: nat, a: Action)
    requires Inv(fs0, s) && id in s.requests && Stage2(s, id, a).Some?
    ensures Inv(fs0, Stage2(s, id, a).value)
  {
    StagedFileIsOwn(fs0, s, id);
    match s.requests[id].phase
    case Validate => if a.Succeed? { ValidateStep(fs0, s, id); } else { AbandonStep(fs0, s, id, Failed(Validation)); }
    case LoadLive => if a.Succeed? { LoadStep(fs0, s, id); } else { AbandonStep(fs0, s, id, Failed(LiveLoad)); }
    case RenameTemp => if a.Succeed? { RenameStep(fs0, s, id); } else { AbandonStep(fs0, s, id, Failed(Replacement)); }
  }

  lemma NoticeKeepsInv(fs0: Fs, s: State, id: nat, sent: bool)
    requires Inv(fs0, s)
    ensures Inv(fs0, Notified(s, id, sent))
  {
  }

  lemma DirSyncKeepsInv(fs0: Fs, s: State, id: nat, a: Action)
    requires Inv(fs0, s) && id in s.requests && s.requests[id].phase.SyncDirectory? && Stage3(s, id, a).Some?
    ensures Inv(fs0, Stage3(s, id, a).value)
  {
    if a.Succeed? {
      SyncDirStep(fs0, s, id, if s.requests[id].job.ApplyDhcpDns? then HangUp else Cleanup(Success));
    } else {
      LaterStep(fs0, s, id, Cleanup(Failed(DirectorySync)));
    }
  }

  lemma FinishKeepsInv(fs0: Fs, s: State, id: nat, a: Action)
    requires Inv(fs0, s) && id in s.requests && Stage3(s, id, a).Some?
    ensures Inv(fs0, Stage3(s, id, a).value)
  {
    var r := s.requests[id];
    match r.phase
    case OpenDir => LaterStep(fs0, s, id, if a.Succeed? then SyncDirectory else Cleanup(Failed(OpenDirectory)));
    case SyncDirectory => DirSyncKeepsInv(fs0, s, id, a);
    case HangUp =>
      NoticeKeepsInv(fs0, s, id, a.Succeed?);
      LaterStep(fs0, Notified(s, id, a.Succeed?), id, Cleanup(if a.Succeed? then Success else Failed(Reload)));
    case Cleanup(o) => if a.Succeed? { RemoveStep(fs0, s, id, o); } else { EndStep(fs0, s, id, o); }
  }

  /** Every step of every request, succeeding or failing, keeps the invariant. */
  lemma NextKeepsInv(fs0: Fs, s: State, id: nat, a: Action)
    requires Inv(fs0, s) && Next(s, id, a, false).Some?
    ensures Inv(fs0, Next(s, id, a, false).value)
  {
    if a.Submit? {
      NewRequestStep(fs0, s, id, Begin(s, id, a.job, a.root).requests[id]);
    } else if IsStaging(s.requests[id].phase) {
      StagingKeepsInv(fs0, s, id, a);
    } else if s.requests[id].phase in {Validate, LoadLive, RenameTemp} {
      CommitKeepsInv(fs0, s, id, a);
    } else {
      FinishKeepsInv(fs0, s, id, a);
    }
  }

  lemma {:induction false} RunKeepsInv(s0: State, trace: seq<(nat, Action)>)
    requires Initial(s0) && Run(s0, trace, false).Some?
    ensures Inv(s0.fs, Run(s0, trace, false).value)
    decreases |trace|
  {
    if trace == [] {
      InitialInv(s0);
    } else {
      var n := |trace| - 1;
      RunKeepsInv(s0, trace[..n]);
      NextKeepsInv(s0.fs, Run(s0, trace[..n], false).value, trace[n].0, trace[n].1);
    }
  }

  /** A request that got past its checks carries what its job renders to. */
  predicate ContentsRendered(s: State) {
    forall id :: id in s.requests ==>
      var r := s.requests[id];
      Render(r.job) == Some(r.contents) || r.phase == Done(Failed(Rendering))
  }

  /** A step past the submission changes neither job nor contents. */
  ghost predicate OnlyMoves(s: State, s': State, id: nat) {
    && id in s.requests && id in s'.requests && s'.requests == s.requests[id := s'.requests[id]]
    && s'.requests[id].job == s.requests[id].job && s'.requests[id].contents == s.requests[id].contents
    && !s.requests[id].phase.Done?
  }

  lemma Stage1Moves(s: State, id: nat, a: Action, reuse: bool)
    requires id in s.requests && Stage1(s, id, a, reuse).Some?
    ensures OnlyMoves(s, Stage1(s, id, a, reuse).value, id)
  {
  }

  lemma Stage2Moves(s: State, id: nat, a: Action)
    requires id in s.requests && Stage2(s, id, a).Some?
    ensures OnlyMoves(s, Stage2(s, id, a).value, id)
  {
  }

  lemma Stage3Moves(s: State, id: nat, a: Action)
    requires id in s.requests && Stage3(s, id, a).Some?
    ensures OnlyMoves(s, Stage3(s, id, a).value, id)
  {
  }

  lemma NextMoves(s: State, id: nat, a: Action, reuse: bool)
    requires !a.Submit? && Next(s, id, a, reuse).Some?
    ensures OnlyMoves(s, Next(s, id, a, reuse).value, id)
  {
    if IsStaging(s.requests[id].phase) {
      Stage1Moves(s, id, a, reuse);
    } else if s.requests[id].phase in {Validate, LoadLive, RenameTemp} {
      Stage2Moves(s, id, a);
    } else {
      Stage3Moves(s, id, a);
    }
  }

  lemma MovingKeepsRendered(s: State, s': State, id: nat)
    requires ContentsRendered(s) && OnlyMoves(s, s', id)
    ensures ContentsRendered(s')
  {
  }

  lemma NextKeepsRendered(s: State, id: nat, a: Action, reuse: bool)
    requires ContentsRendered(s) && Next(s, id, a, reuse).Some?
    ensures ContentsRendered(Next(s, id, a, reuse).value)
  {
    if !a.Submit? {
      NextMoves(s, id, a, reuse);
      MovingKeepsRendered(s, Next(s, id, a, reuse).value, id);
    }
  }

  lemma {:induction false} RunKeepsRendered(s0: State, trace: seq<(nat, Action)>)
    requires Initial(s0) && Run(s0, trace, false).Some?
    ensures ContentsRendered(Run(s0, trace, false).value)
    decreases |trace|
  {
    if trace != [] {
      var n := |trace| - 1;
      RunKeepsRendered(s0, trace[..n]);
      NextKeepsRendered(Run(s0, trace[..n], false).value, trace[n].0, trace[n].1, false);
    }
  }

  // ---- What holds in every run ---------------------------------------------------------------

  /** `c` is what request `id` staged for `t`, the validator accepted it byte
      for byte from that request's staged file, and for the firewall the kernel
      loaded it. */
  predicate ValidatedBy(s: State, t: Path, c: Option<Content>, id: nat) {
    && id in s.requests
    && (var r := s.requests[id];
        && Target(r.job) == t && c == Some(r.contents)
        && (id, r.contents) in s.accepted
        && (r.job.ApplyFirewall? ==> (id, r.contents) in s.loaded))
  }

  /** A crash exposes one of the commits since the last directory sync. */
  lemma CrashExposesCommit(fs0: Fs, s: State, t: Path, r: Option<Content>)
    requires Inv(fs0, s) && t in TARGETS && AfterCrash(s.fs, t, r)
    requires Current(fs0, t).Some? ==> Current(fs0, t).value in fs0.inodes && fs0.inodes[Current(fs0, t).value].synced
    ensures t in s.commits && t in s.flushed
    ensures exists k :: s.flushed[t] <= k < |s.commits[t]| && IsCommitted(fs0, s, t, r, s.commits[t][k])
  {
    var commits, flushed := s.commits[t], s.flushed[t];
    var b :| b in Bindings(s.fs, t) &&
      match b
      case None => r == None
      case Some(i) => r.Some? && (i in s.fs.inodes && s.fs.inodes[i].synced ==> r.value == s.fs.inodes[i].content);
    var m :| 0 <= m < |Bindings(s.fs, t)| && Bindings(s.fs, t)[m] == b;
    var k := m + flushed;
    assert TargetOk(fs0, s.fs, s.requests, commits, flushed, t);
    assert b == CommitInode(fs0, s.requests, t, commits[k]);
    if commits[k].Some? {
      CommittedRequest(fs0, s, t, k);
    }
    IsCommittedIntro(fs0, s, t, r, commits[k], b);
  }

  /** Reading commit `c` through the inode it bound. */
  lemma IsCommittedIntro(fs0: Fs, s: State, t: Path, r: Option<Content>, c: Option<nat>, b: Option<nat>)
    requires Stable(fs0, s.fs) && b == CommitInode(fs0, s.requests, t, c)
    requires match b
             case None => r == None
             case Some(i) => r.Some? && (i in s.fs.inodes && s.fs.inodes[i].synced ==>
                 r.value == s.fs.inodes[i].content)
    requires Current(fs0, t).Some? ==> Current(fs0, t).value in fs0.inodes && fs0.inodes[Current(fs0, t).value].synced
    requires c.Some? ==>
               && c.value in s.requests && Replaced(s.requests[c.value].phase)
               && ValidatedBy(s, t, Some(s.requests[c.value].contents), c.value)
               && FileIs(s.fs, s.requests[c.value].ino, s.requests[c.value].contents, true)
    ensures IsCommitted(fs0, s, t, r, c)
  {
  }

  /** `r` is what commit `c` put there: the initial file, or a request's. */
  predicate IsCommitted(fs0: Fs, s: State, t: Path, r: Option<Content>, c: Option<nat>) {
    match c
    case None => r == Read(fs0, t)
    case Some(id) => ValidatedBy(s, t, r, id) && Replaced(s.requests[id].phase)
  }

  lemma CommittedRequest(fs0: Fs, s: State, t: Path, k: nat)
    requires Inv(fs0, s) && t in TARGETS && t in s.commits && k < |s.commits[t]| && s.commits[t][k].Some?
    ensures var id := s.commits[t][k].value;
            && id in s.requests && ValidatedBy(s, t, Some(s.requests[id].contents), id)
            && FileIs(s.fs, s.requests[id].ino, s.requests[id].contents, true)
            && Replaced(s.requests[id].phase)
  {
    var id := s.commits[t][k].value;
    assert HistoryOk(s.requests, s.commits[t], s.flushed[t], t);
    var r := s.requests[id];
    assert CommitOk(s.commits, s.flushed, id, r) && Some(id) in s.commits[t];
    assert FileOk(fs0, s.fs, r) && SeenOk(s.accepted, s.loaded, id, r);
  }

  /** What is read now is the last commit. */
  lemma ActiveIsLastCommit(fs0: Fs, s: State, t: Path)
    requires Inv(fs0, s) && t in TARGETS
    requires Current(fs0, t).Some? ==> Current(fs0, t).value in fs0.inodes
    ensures t in s.commits
    ensures var c := s.commits[t];
            c != [] && IsCommitted(fs0, s, t, Read(s.fs, t), c[|c| - 1])
  {
    var commits, flushed := s.commits[t], s.flushed[t];
    assert TargetOk(fs0, s.fs, s.requests, commits, flushed, t);
    var last := |commits| - 1;
    assert Bindings(s.fs, t)[last - flushed] == CommitInode(fs0, s.requests, t, commits[last]);
    if commits[last].Some? {
      CommittedRequest(fs0, s, t, last);
    } else {
      SameRead(fs0, s, t);
    }
  }

  lemma SameRead(fs0: Fs, s: State, t: Path)
    requires Stable(fs0, s.fs) && Current(s.fs, t) == Current(fs0, t)
    requires Current(fs0, t).Some? ==> Current(fs0, t).value in fs0.inodes
    ensures Read(s.fs, t) == Read(fs0, t)
  {
  }

  ghost predicate InitialOrValidated(s0: State, s: State, t: Path, c: Option<Content>) {
    c == Read(s0.fs, t) || exists id :: ValidatedBy(s, t, c, id) && Render(s.requests[id].job) == c
  }

  /** A validated request rendered what it staged. */
  lemma ValidatedWasRendered(s0: State, trace: seq<(nat, Action)>, t: Path, c: Option<Content>, id: nat)
    requires Initial(s0) && Run(s0, trace, false).Some?
    requires var s := Run(s0, trace, false).value; ValidatedBy(s, t, c, id) && Replaced(s.requests[id].phase)
    ensures InitialOrValidated(s0, Run(s0, trace, false).value, t, c)
  {
    RunKeepsRendered(s0, trace);
    var s := Run(s0, trace, false).value;
    var r := s.requests[id];
    assert r.phase != Done(Failed(Rendering));
    assert Render(r.job) == Some(r.contents);
  }

  /** For any number of requests, any interleaving and any failures: the active
      file always holds the initial content or content that the validator
      accepted for the request that rendered it; and a crash at any moment
      leaves one of those, whole. No request is given a temporary name that an
      unfinished one still claims. */
  lemma OnlyValidatedBecomesActive(s0: State, trace: seq<(nat, Action)>, t: Path, afterCrash: Option<Content>)
    requires Initial(s0) && Run(s0, trace, false).Some? && t in TARGETS
    ensures var s := Run(s0, trace, false).value;
            && InitialOrValidated(s0, s, t, Read(s.fs, t))
            && (AfterCrash(s.fs, t, afterCrash) ==> InitialOrValidated(s0, s, t, afterCrash))
  {
    var s := Run(s0, trace, false).value;
    RunKeepsInv(s0, trace);
    ActiveIsLastCommit(s0.fs, s, t);
    var c := s.commits[t][|s.commits[t]| - 1];
    if c.Some? {
      ValidatedWasRendered(s0, trace, t, Read(s.fs, t), c.value);
    }
    if AfterCrash(s.fs, t, afterCrash) {
      CrashExposesCommit(s0.fs, s, t, afterCrash);
      var k :| s.flushed[t] <= k < |s.commits[t]| && IsCommitted(s0.fs, s, t, afterCrash, s.commits[t][k]);
      if s.commits[t][k].Some? {
        ValidatedWasRendered(s0, trace, t, afterCrash, s.commits[t][k].value);
      }
    }
  }

  /** A request that succeeded survives every later crash: what is found is its
      own content or that of a request which replaced the file after it. */
  lemma SuccessIsDurable(s0: State, trace: seq<(nat, Action)>, id: nat, afterCrash: Option<Content>)
    requires Initial(s0) && Run(s0, trace, false).Some?
    requires var s := Run(s0, trace, false).value;
             && id in s.requests && s.requests[id].phase == Done(Success)
             && AfterCrash(s.fs, Target(s.requests[id].job), afterCrash)
    ensures var s := Run(s0, trace, false).value;
            var t := Target(s.requests[id].job);
            t in s.commits &&
            exists j, k :: 0 <= j <= k < |s.commits[t]| && s.commits[t][j] == Some(id) &&
              s.commits[t][k].Some? && ValidatedBy(s, t, afterCrash, s.commits[t][k].value)
  {
    var s := Run(s0, trace, false).value;
    var t := Target(s.requests[id].job);
    assert t in TARGETS;
    RunKeepsInv(s0, trace);
    CrashExposesCommit(s0.fs, s, t, afterCrash);
    var k :| s.flushed[t] <= k < |s.commits[t]| && IsCommitted(s0.fs, s, t, afterCrash, s.commits[t][k]);
    assert CommitOk(s.commits, s.flushed, id, s.requests[id]);
    var j :| 0 <= j <= s.flushed[t] && j < |s.commits[t]| && s.commits[t][j] == Some(id);
    assert HistoryOk(s.requests, s.commits[t], s.flushed[t], t);
    assert j > 0;
  }

  /** Whether a finished request replaced the active file is told by its
      outcome: on success and on the failures raised after the rename, and in
      no other case. */
  lemma OutcomeTellsReplacement(s0: State, trace: seq<(nat, Action)>, id: nat)
    requires Initial(s0) && Run(s0, trace, false).Some?
    requires var s := Run(s0, trace, false).value; id in s.requests && s.requests[id].phase.Done?
    ensures var s := Run(s0, trace, false).value;
            var t := Target(s.requests[id].job);
            t in s.commits &&
            (Some(id) in s.commits[t] <==>
             s.requests[id].phase.outcome in {Success, Failed(OpenDirectory), Failed(DirectorySync), Failed(Reload)})
  {
    RunKeepsInv(s0, trace);
    var s := Run(s0, trace, false).value;
    assert CommitOk(s.commits, s.flushed, id, s.requests[id]);
  }

  /** There is always a fresh number. */
  lemma {:induction false} Above(s: set<nat>) returns (n: nat)
    ensures forall x :: x in s ==> x < n
    decreases s
  {
    n := 0;
    if s != {} {
      var x :| x in s;
      var m := Above(s - {x});
      n := if x < m then m else x + 1;
      assert forall y :: y in s ==> y == x || y in s - {x};
    }
  }
}
