/**
 What an orderly interleaving keeps besides the handled lists: the structure of the
 running Xray is the file's, and no other inbound has a list. Quiescence alone is
 not enough to admit the active accounts.
 */
module InterleavingFacts {
  import opened Prelude
  import opened Json
  import opened Accounts
  import opened Rendering
  import opened LiveXray
  import opened LiveSync
  import opened Pipeline
  import opened PipelineFacts
  import opened Reconciliation
  import opened Interleaving
  import opened InterleavingLists

  // ----- the host in each phase ------------------------------------------------------

  ghost predicate JobOk(job: Job, d: Deployment) {
    && Rendered(d, job.snap.users) == Success(job.config)
    && Proper(job.config) && Covers(Tags(d), job.config)
    && (job.previous.Some? ==> Proper(job.previous.value))
  }

  /** A running Xray came from the new configuration or from the previous one. */
  ghost predicate FromEither(h: Host, job: Job) {
    h.live.Some? ==>
      && Sound(h.live.value)
      && (|| h.live.value.skeleton == Skeleton(job.config)
          || (job.previous.Some? && h.live.value.skeleton == Skeleton(job.previous.value)))
  }

  ghost predicate JobHost(h: Host, job: Job, d: Deployment) {
    JobOk(job, d) && h.disk == Holds(job.config) && FromEither(h, job)
  }

  /** File and process both are the configuration rendered from this snapshot. */
  ghost predicate Published(h: Host, snap: Snapshot, d: Deployment) {
    && h.disk.Holds? && Rendered(d, snap.users) == Success(h.disk.config)
    && Proper(h.disk.config) && Covers(Tags(d), h.disk.config)
    && (h.live.Some? ==> h.live.value == Load(h.disk.config))
  }

  ghost predicate PhaseHost(h: Host, ph: Phase, d: Deployment) {
    match ph
    case Idle => true
    case HasRead(_) => true
    case Locked(_) => Consistent(h)
    case Wrote(job) => JobHost(h, job, d)
    case Syncing(job, _) => JobHost(h, job, d) && !Structural(job.previous, job.config)
    case Removing(job, _, _, _) => JobHost(h, job, d) && !Structural(job.previous, job.config)
    case Adding(job, _, _) => JobHost(h, job, d) && !Structural(job.previous, job.config)
    case NeedsRestart(job) => JobHost(h, job, d)
    case NeedsUndo(job) => JobHost(h, job, d) && job.previous.Some?
    case NeedsSecondRestart(job) =>
      && JobOk(job, d) && job.previous.Some? && h.disk == Holds(job.previous.value)
      && FromEither(h, job)
    case Finished(snap, outcome) => Consistent(h) && (Succeeded(outcome) ==> Published(h, snap, d))
  }

  ghost predicate Hosted(s: State, d: Deployment) {
    && Exclusive(s)
    && (s.lock.None? ==> Consistent(s.host))
    && (s.lock.Some? ==> s.lock.value in s.procs)
    && (forall p | p in s.procs :: PhaseHost(s.host, s.procs[p], d))
    && (s.standing.Some? ==> Published(s.host, s.standing.value, d))
    && (s.standing.Some? ==> forall p | p in s.procs :: !s.procs[p].Busy())
  }

  lemma PublishedConsistent(h: Host, snap: Snapshot, d: Deployment)
    requires Published(h, snap, d)
    ensures Consistent(h)
  {
    LoadSound(h.disk.config);
    hide Proper, Covers, Sound, Skeleton, DesiredAccounts, Rendered;
  }

  lemma InstallKeeps(h: Host, snap: Snapshot, d: Deployment, accepts: Json -> bool, io: WriteIo)
    requires Consistent(h) && ChecksShape(accepts)
    ensures var n := InstallPhase(h, snap, d, accepts, io);
            && n.1.Critical() && PhaseHost(n.0, n.1, d)
            && (!n.1.Busy() ==> n.0.disk == h.disk && n.0.live == h.live)
  {
    hide Rendered, Proper, Covers, Sound, Skeleton, Signable;
    var r := Rendered(d, snap.users);
    if r.Success? && accepts(r.value) {
      RenderedIsProper(d, snap.users);
      if h.disk.Holds? { ProperIsSignable(h.disk.config); }
    }
  }

  /** Breaking off while the structures agree leaves a consistent host. */
  lemma NotStrandedIsConsistent(h: Host)
    requires h.disk.Holds? && Proper(h.disk.config) && (h.live.Some? ==> Sound(h.live.value)) && !Stranded(h)
    ensures Consistent(h)
  {
    hide Proper, Sound, Skeleton;
  }

  lemma RecordKeeps(h: Host, job: Job, d: Deployment)
    requires JobHost(h, job, d) && !Stranded(h)
    ensures PhaseHost(h, Finished(job.snap, Raised), d)
  {
    hide Proper, Covers, Sound, Skeleton, Rendered, Stranded, Consistent;
    NotStrandedIsConsistent(h);
  }

  lemma ReachKeeps(h: Host, job: Job, d: Deployment)
    requires JobHost(h, job, d)
    ensures PhaseHost(h, ReachPhase(h, job, d).1, d)
  {
    hide Sound, Proper, Covers, Rendered, Skeleton, Load, Structural;
    if h.live.None? { PublishedConsistent(h, job.snap, d); }
  }

  /** All lists served and the structure unchanged: the process is what the file would load. */
  lemma ServedIsPublished(h: Host, job: Job, d: Deployment)
    requires JobHost(h, job, d) && !Structural(job.previous, job.config) && Serves(h, job.snap.users, Tags(d))
    ensures Published(h, job.snap, d)
  {
    hide Sound, Proper, Covers, Rendered, Skeleton, Load, DesiredAccounts, AccountsOf;
    if h.live.Some? {
      RenderedLists(d, job.snap.users);
      ListsAreLoaded(h.live.value, job.config, Tags(d));
    }
  }

  lemma ListKeeps(h: Host, job: Job, todo: seq<string>, d: Deployment, answered: bool)
    requires PhaseHost(h, Syncing(job, todo), d) && PhaseBase(h, Syncing(job, todo), d)
    ensures var n := ListPhase(h, job, todo, answered); PhaseHost(n.0, n.1, d)
  {
    hide JobHost, JobOk, Proper, Covers, Rendered, Structural, Stale, Additions, DesiredAccounts, AccountsOf,
      Consistent, Published;
    if todo == [] {
      ServedIsPublished(h, job, d);
      PublishedConsistent(h, job.snap, d);
    }
  }

  lemma WithListSound(h: Host, job: Job, tag: string, list: AccountList, d: Deployment)
    requires JobHost(h, job, d) && HasList(h, tag) && "" !in list
    ensures JobHost(WithList(h, tag, list), job, d)
  {
    hide JobOk, Skeleton, InboundFields;
    var g := WithList(h, tag, list);
    assert g.live.value.lists.Keys == h.live.value.lists.Keys;
    assert forall t :: t in g.live.value.lists <==> t in h.live.value.lists;
  }

  lemma SoundList(h: Host, job: Job, tag: string, d: Deployment)
    requires JobHost(h, job, d) && HasList(h, tag)
    ensures "" !in h.live.value.lists[tag]
  {
    hide JobOk, Skeleton, InboundFields;
  }

  lemma RemoveKeeps(h: Host, ph: Phase, d: Deployment, r: CallReply)
    requires ph.Removing? && PhaseHost(h, ph, d) && ph.todo != []
    ensures var n := RemovePhase(h, ph.job, ph.todo, ph.stale, ph.additions, r); PhaseHost(n.0, n.1, d)
  {
    hide JobHost, JobOk, Structural, WithList, RemoveFrom, Acknowledged;
    if HasList(h, ph.todo[0]) {
      var m := h.live.value.lists[ph.todo[0]];
      SoundList(h, ph.job, ph.todo[0], d);
      RemovesOnly(m, ph.stale, r);
      WithListSound(h, ph.job, ph.todo[0], RemoveFrom(m, ph.stale, r), d);
    }
  }

  lemma AddKeeps(h: Host, ph: Phase, d: Deployment, r: CallReply)
    requires ph.Adding? && PhaseHost(h, ph, d) && PhaseBase(h, ph, d)
    ensures var n := AddPhase(h, ph.job, ph.todo, ph.additions, r); PhaseHost(n.0, n.1, d)
  {
    hide JobHost, JobOk, Rendered, Structural, WithList, Accepted, AddTo, Acknowledged, DesiredAccounts, AccountsOf,
      NoBlankConfig;
    if HasList(h, ph.todo[0]) {
      var m := h.live.value.lists[ph.todo[0]];
      SoundList(h, ph.job, ph.todo[0], d);
      assert ph.todo[0] in ph.todo;
      RenderedLists(d, ph.job.snap.users);
      var desired := AccountsOf(ph.job.snap.users, ph.todo[0]);
      EmailsNonempty(ph.job.snap.users, ph.todo[0]);
      AddsNoBlank(m, desired, Accepted(m, ph.additions, r));
      WithListSound(h, ph.job, ph.todo[0], AddTo(m, desired, Accepted(m, ph.additions, r)), d);
    }
  }

  lemma RestartKeeps(h: Host, job: Job, d: Deployment, reply: RestartReply)
    requires JobHost(h, job, d)
    ensures var n := RestartPhase(h, job, reply); PhaseHost(n.0, n.1, d)
  {
    hide Sound, Proper, Covers, Rendered, Skeleton, Load;
    LoadSound(job.config);
    LoadSkeleton(job.config);
    var n := RestartPhase(h, job, reply);
    if n.1.Finished? && n.1.outcome.ok { PublishedConsistent(n.0, job.snap, d); }
  }

  lemma WriteBackKeeps(h: Host, job: Job, d: Deployment, io: WriteIo)
    requires JobHost(h, job, d) && job.previous.Some? && (io.replaced || !Stranded(h))
    ensures var n := WriteBackPhase(h, job, io); PhaseHost(n.0, n.1, d)
  {
    hide Sound, Proper, Covers, Rendered, Skeleton, Consistent;
    if !io.replaced {
      var g := WriteConfig(h, job.previous.value, io).host;
      assert g.disk == h.disk && g.live == h.live;
      NotStrandedIsConsistent(g);
    }
  }

  lemma RestartAgainKeeps(h: Host, job: Job, d: Deployment, reply: RestartReply)
    requires PhaseHost(h, NeedsSecondRestart(job), d) && (!reply.Refused? || !Stranded(h))
    ensures var n := RestartAgainPhase(h, job, reply); PhaseHost(n.0, n.1, d)
  {
    hide Sound, Proper, Covers, Rendered, Skeleton, Load, Boot, Consistent;
    BootConsistent(h);
    NoXrayConsistent(h);
    if reply.Refused? { NotStrandedIsConsistent(h); }
  }

  lemma NoXrayConsistent(h: Host)
    requires h.disk.Holds? ==> Proper(h.disk.config)
    ensures Consistent(h.(live := None))
  {
  }

  /** Xray exiting or being started by the supervisor disturbs no phase. */
  lemma XrayEventKeeps(h: Host, ph: Phase, d: Deployment)
    requires PhaseHost(h, ph, d)
    ensures PhaseHost(h.(live := None), ph, d)
    ensures h.live.None? ==> PhaseHost(Boot(h), ph, d)
  {
    hide Sound, Proper, Covers, Rendered, Skeleton, Structural;
    if ph.Locked? || ph.Finished? { BootConsistent(h); }
    if ph.Busy() && !ph.NeedsSecondRestart? { LoadSound(ph.job.config); }
    if ph.NeedsSecondRestart? { LoadSound(ph.job.previous.value); }
  }

  lemma PublishedUnderXrayEvents(h: Host, snap: Snapshot, d: Deployment)
    requires Published(h, snap, d)
    ensures Published(h.(live := None), snap, d) && (h.live.None? ==> Published(Boot(h), snap, d))
  {
    hide Proper, Covers, Rendered, Load;
  }

  lemma NextPhaseKeeps(h: Host, ph: Phase, a: Action, d: Deployment, accepts: Json -> bool)
    requires Enabled(ph, a) && PhaseHost(h, ph, d) && PhaseBase(h, ph, d) && ChecksShape(accepts)
    requires a.RecordFails? || (a.WriteBack? && !a.io.replaced) || (a.RestartsAgain? && a.reply.Refused?) ==>
               !Stranded(h)
    ensures var n := NextPhase(h, ph, a, d, accepts);
            && PhaseHost(n.0, n.1, d)
            && (!ph.Busy() && !n.1.Busy() ==> n.0.disk == h.disk && n.0.live == h.live)
  {
    hide InstallPhase, ListPhase, RemovePhase, AddPhase, RestartPhase, WriteBackPhase, RestartAgainPhase, ReachPhase,
      Consistent, Published, JobHost, JobOk, ChecksShape, FromEither, OnDisk, ServesBut, Stranded, Structural;
    match a
    case Install(io) => InstallKeeps(h, ph.snap, d, accepts, io);
    case RecordFails => RecordKeeps(h, ph.job, d);
    case Reach => ReachIsQuiet(h, ph.job, d); ReachKeeps(h, ph.job, d);
    case Lists(answered) => ListKeeps(h, ph.job, ph.todo, d, answered);
    case Removes(call) => RemoveKeeps(h, ph, d, call);
    case Adds(call) => AddKeeps(h, ph, d, call);
    case Restarts(reply) => RestartKeeps(h, ph.job, d, reply);
    case WriteBack(io) => WriteBackKeeps(h, ph.job, d, io);
    case RestartsAgain(reply) => RestartAgainKeeps(h, ph.job, d, reply);
  }

  lemma ReachIsQuiet(h: Host, job: Job, d: Deployment)
    ensures ReachPhase(h, job, d).0 == h
  {
    hide Structural;
  }

  /** The holder moves on; nobody else's phase changes. */
  lemma PutKeeps(s: State, p: Pid, next: (Host, Phase), d: Deployment)
    requires Hosted(s, d) && p in s.procs && s.procs[p].Critical()
    requires PhaseHost(next.0, next.1, d) && Exclusive(Put(s, p, next))
    requires !s.procs[p].Busy() && !next.1.Busy() ==> next.0.disk == s.host.disk && next.0.live == s.host.live
    ensures Hosted(Put(s, p, next), d)
  {
    hide Consistent, Published, JobHost, JobOk;
    var t := Put(s, p, next);
    assert s.lock == Some(p);
    forall q | q in t.procs ensures PhaseHost(t.host, t.procs[q], d) && (t.standing.Some? ==> !t.procs[q].Busy()) {
      if q != p { OthersIdle(s, p, q); }
    }
    hide Exclusive, PhaseHost;
    if t.standing.Some? { SamePublished(s.host, t.host, t.standing.value, d); }
  }

  lemma HolderActKeeps(s: State, p: Pid, a: Action, d: Deployment, accepts: Json -> bool)
    requires Hosted(s, d) && Based(s, d) && ChecksShape(accepts) && Orderly(s, p, a)
    requires p in s.procs && Enabled(s.procs[p], a)
    ensures Hosted(Act(s, p, a, d, accepts), d)
  {
    hide PhaseHost, PhaseBase, ChecksShape, Put, NextPhase, Published, Blankless, Shows, Enabled, Stranded;
    ActExclusive(s, p, a, d, accepts);
    NextIsCritical(s.host, s.procs[p], a, d, accepts);
    NextPhaseKeeps(s.host, s.procs[p], a, d, accepts);
    var next := NextPhase(s.host, s.procs[p], a, d, accepts);
    assert Act(s, p, a, d, accepts) == Put(s, p, next);
    hide Act, Exclusive;
    PutKeeps(s, p, next, d);
  }

  /** A change of the host that disturbs no phase. */
  lemma HostChangeKeeps(s: State, h: Host, d: Deployment)
    requires Hosted(s, d)
    requires forall q | q in s.procs :: PhaseHost(h, s.procs[q], d)
    requires s.lock.None? ==> Consistent(h)
    requires s.standing.Some? ==> Published(h, s.standing.value, d)
    ensures Hosted(s.(host := h), d)
  {
    hide PhaseHost, Published, Consistent;
    var t := s.(host := h);
    assert t.procs == s.procs && t.lock == s.lock && t.standing == s.standing;
    assert Exclusive(t);
    hide Exclusive;
  }

  lemma ExitKeeps(s: State, d: Deployment)
    requires Hosted(s, d)
    ensures Hosted(s.(host := s.host.(live := None)), d)
  {
    hide Consistent, Published, JobHost, JobOk, Exclusive;
    var h := s.host.(live := None);
    forall q | q in s.procs ensures PhaseHost(h, s.procs[q], d) {
      XrayEventKeeps(s.host, s.procs[q], d);
    }
    if s.lock.None? { XrayEventKeeps(s.host, Locked(Snapshot([], 0, 0)), d); }
    if s.standing.Some? { PublishedUnderXrayEvents(s.host, s.standing.value, d); }
    HostChangeKeeps(s, h, d);
  }

  lemma StartKeeps(s: State, d: Deployment)
    requires Hosted(s, d) && s.host.live.None?
    ensures Hosted(s.(host := Boot(s.host)), d)
  {
    hide Consistent, Published, JobHost, JobOk, Exclusive, Boot;
    var h := Boot(s.host);
    forall q | q in s.procs ensures PhaseHost(h, s.procs[q], d) {
      XrayEventKeeps(s.host, s.procs[q], d);
    }
    if s.lock.None? { XrayEventKeeps(s.host, Locked(Snapshot([], 0, 0)), d); }
    if s.standing.Some? { PublishedUnderXrayEvents(s.host, s.standing.value, d); }
    HostChangeKeeps(s, h, d);
  }

  lemma XrayActKeeps(s: State, p: Pid, a: Action, d: Deployment, accepts: Json -> bool)
    requires Hosted(s, d) && p in s.procs && (a.XrayExit? || a.XrayStart?)
    ensures Hosted(Act(s, p, a, d, accepts), d)
  {
    hide Hosted, Act, Boot;
    ActOnXray(s, p, a, d, accepts);
    if a.XrayExit? {
      ExitKeeps(s, d);
    } else if s.host.live.None? {
      StartKeeps(s, d);
    }
  }

  lemma SamePublished(h: Host, g: Host, snap: Snapshot, d: Deployment)
    requires g.disk == h.disk && g.live == h.live
    ensures Published(h, snap, d) ==> Published(g, snap, d)
  {
    hide Proper, Covers, Rendered, Load;
  }

  lemma OutsideKeeps(s: State, p: Pid, a: Action, d: Deployment, accepts: Json -> bool)
    requires Hosted(s, d) && p in s.procs && Outside(a)
    ensures Hosted(Act(s, p, a, d, accepts), d)
  {
    hide Act, Consistent, Published, JobHost, JobOk, Structural;
    ActExclusive(s, p, a, d, accepts);
    ActOutside(s, p, a, d, accepts);
    var t := Act(s, p, a, d, accepts);
    forall q | q in t.procs ensures PhaseHost(t.host, t.procs[q], d) && (t.standing.Some? ==> !t.procs[q].Busy()) {
    }
    LockOwner(s, p, a, d, accepts);
    hide Exclusive, PhaseHost;
  }

  lemma LockOwner(s: State, p: Pid, a: Action, d: Deployment, accepts: Json -> bool)
    requires p in s.procs && Outside(a)
    ensures var t := Act(s, p, a, d, accepts); t.lock == s.lock || t.lock == Some(p)
  {
    hide NextPhase, Mutate, ActiveUsers, DisableExpired;
  }

  lemma BusyIsHosted(h: Host, ph: Phase, d: Deployment)
    requires PhaseHost(h, ph, d) && ph.Busy() && !Stranded(h)
    ensures Consistent(h)
  {
    hide Proper, Covers, Sound, Skeleton, Rendered, Structural, Stranded;
    NotStrandedIsConsistent(h);
  }

  /** Releasing the lock, and dying while the structures agree. */
  lemma EndKeeps(s: State, p: Pid, a: Action, d: Deployment, accepts: Json -> bool)
    requires Hosted(s, d) && p in s.procs && (a.Release? || a.Die?) && Orderly(s, p, a)
    ensures Hosted(Act(s, p, a, d, accepts), d)
  {
    hide Act, Consistent, Published, JobHost, JobOk, Succeeded, Structural, Stranded, FromEither;
    ActExclusive(s, p, a, d, accepts);
    ActRelease(s, p, d, accepts);
    ActDies(s, p, d, accepts);
    var t := Act(s, p, a, d, accepts);
    assert PhaseHost(s.host, s.procs[p], d);
    forall q | q in t.procs ensures PhaseHost(t.host, t.procs[q], d) && (t.standing.Some? ==> !t.procs[q].Busy()) {
      if q != p && s.procs[p].Critical() { OthersIdle(s, p, q); }
    }
    if s.procs[p].Busy() && a.Die? { BusyIsHosted(s.host, s.procs[p], d); }
    assert s.lock == Some(p) <==> s.procs[p].Critical();
    hide Exclusive;
  }

  lemma ActKeepsHosted(s: State, p: Pid, a: Action, d: Deployment, accepts: Json -> bool)
    requires Hosted(s, d) && Based(s, d) && ChecksShape(accepts) && Orderly(s, p, a)
    ensures Hosted(Act(s, p, a, d, accepts), d)
  {
    hide Hosted, Based, ChecksShape, Enabled, Orderly;
    if p in s.procs {
      if a.XrayExit? || a.XrayStart? {
        XrayActKeeps(s, p, a, d, accepts);
      } else if a.Release? || a.Die? {
        EndKeeps(s, p, a, d, accepts);
      } else if Outside(a) {
        OutsideKeeps(s, p, a, d, accepts);
      } else {
        WorkIsPut(s, p, a, d, accepts);
        hide Act;
        if Enabled(s.procs[p], a) { HolderActKeeps(s, p, a, d, accepts); }
      }
    }
  }

  // ----- over orderly interleavings -------------------------------------------------------

  ghost predicate Good(s: State, d: Deployment) {
    Hosted(s, d) && Sane(s, d)
  }

  lemma {:induction false} EveryScheduleGood(
      s: State, run: seq<(Pid, Action)>, d: Deployment, accepts: Json -> bool)
    requires Good(s, d) && ChecksShape(accepts) && AllOrderly(s, run, d, accepts)
    ensures Good(Schedule(s, run, d, accepts), d)
  {
    hide ChecksShape, Orderly, Hosted, AllFresh, Act, AllOrderly, Based;
    if run != [] {
      var n := |run| - 1;
      PrefixOrderly(s, run, d, accepts);
      EveryScheduleGood(s, run[..n], d, accepts);
      var before := Schedule(s, run[..n], d, accepts);
      ActKeepsHosted(before, run[n].0, run[n].1, d, accepts);
      ActKeepsBased(before, run[n].0, run[n].1, d, accepts);
      ActKeepsFresh(before, run[n].0, run[n].1, d, accepts);
    }
  }

  /** The lists of a running Xray are those of one snapshot, and there are no others. */
  ghost predicate Admits(h: Host, snap: Snapshot, d: Deployment) {
    h.live.Some? ==>
      h.live.value.lists == map tag | tag in MANAGED && tag in Tags(d) :: AccountsOf(snap.users, tag)
  }

  lemma PublishedAdmits(h: Host, snap: Snapshot, d: Deployment)
    requires Published(h, snap, d)
    ensures Admits(h, snap, d)
  {
    LoadRendered(d.settings, snap.users, d.keys, d.template);
    hide Render, Load, Proper, Covers, AccountsOf;
  }

  /**
   In every interleaving in which no apply breaks off while Xray's structure is not
   that of the file: after a successful apply, and while it stands, no inbound other
   than the handled ones has a list, and with no apply under way structure and file agree.
   */
  lemma NothingElseIsServed(s: State, run: seq<(Pid, Action)>, d: Deployment, accepts: Json -> bool)
    requires Good(s, d) && ChecksShape(accepts) && AllOrderly(s, run, d, accepts)
    ensures var t := Schedule(s, run, d, accepts);
            && (forall p | p in t.procs && t.procs[p].Finished? && Succeeded(t.procs[p].outcome) ::
                  Admits(t.host, t.procs[p].snap, d))
            && (t.standing.Some? ==> Admits(t.host, t.standing.value, d))
            && (t.lock.None? ==> !Stranded(t.host))
  {
    hide Schedule, Sane, Published, Admits, JobHost, JobOk, Exclusive, Structural, AllOrderly, ChecksShape, FromEither;
    EveryScheduleGood(s, run, d, accepts);
    var t := Schedule(s, run, d, accepts);
    forall p | p in t.procs && t.procs[p].Finished? && Succeeded(t.procs[p].outcome)
      ensures Admits(t.host, t.procs[p].snap, d)
    {
      assert PhaseHost(t.host, t.procs[p], d);
      PublishedAdmits(t.host, t.procs[p].snap, d);
    }
    if t.standing.Some? { PublishedAdmits(t.host, t.standing.value, d); }
    hide PhaseHost, Proper, Sound, Skeleton;
  }

  lemma ProperIsNoBlank(config: Json)
    requires Proper(config)
    ensures NoBlankConfig(config)
  {
    hide DesiredAccounts, InboundFields, Skeleton, Signable;
  }

  /** A consistent host, with nobody at work, is where every interleaving may start. */
  lemma QuietStartIsGood(s: State, d: Deployment)
    requires s.lock.None? && s.standing.None? && (forall p | p in s.procs :: s.procs[p].Idle?)
    requires Consistent(s.host) && Table(s.rows, s.nextId)
    ensures Good(s, d)
  {
    hide Proper, DesiredAccounts, InboundFields, Skeleton, NoBlankConfig, Table;
    if s.host.disk.Holds? { ProperIsNoBlank(s.host.disk.config); }
    QuietStartIsSane(s, d);
  }

  lemma ScheduleOne(s: State, run: seq<(Pid, Action)>, p: Pid, a: Action, d: Deployment, accepts: Json -> bool)
    ensures Schedule(s, run + [(p, a)], d, accepts) == Act(Schedule(s, run, d, accepts), p, a, d, accepts)
  {
    hide Act;
    assert (run + [(p, a)])[..|run|] == run;
  }

  /** Process 0 reads an empty table; process 1 creates an account; then process 0 applies. */
  function StaleRead(uuid: string, at: int): seq<(Pid, Action)> {
    [(0, ReadActive(at)), (1, Commit(CreateUser("ab", uuid, None, ""), at))] + ApplyOf0()
  }

  function ApplyOf0(): seq<(Pid, Action)> {
    [(0, Acquire), (0, Install(WriteIo(true, Missing, true))), (0, Reach), (0, Release), (0, Action.XrayStart)]
  }

  function TwoIdle(): State {
    State([], 0, 0, Host(Missing, Missing, None, 0), None, map[0 := Idle, 1 := Idle], None)
  }

  /**
   Quiescence alone is not enough: after this interleaving the apply has
   succeeded, nothing is pending, and the new account cannot log in.
   */
  lemma StaleReadShutsOut(d: Deployment, accepts: Json -> bool, uuid: string, at: int)
    requires ChecksShape(accepts) && Rendered(d, []).Success? && accepts(Rendered(d, []).value)
    ensures Good(TwoIdle(), d)
    ensures var t := Schedule(TwoIdle(), StaleRead(uuid, at), d, accepts);
            && t.procs == map[0 := Idle, 1 := Idle] && t.standing.Some? && t.host.live.Some?
            && REALITY in t.host.live.value.lists
            && !AdmitsExactly(t.host.live.value.lists[REALITY], t.rows, at, REALITY)
  {
    StaleReadParts(uuid, at);
    hide Rendered, ChecksShape, Good, Published, Admits, AdmitsExactly, Schedule, ApplyOf0, Act, StaleRead;
    var s0 := TwoIdle();
    var run := StaleRead(uuid, at);
    QuietStartIsGood(s0, d);
    StaleReadStarts(d, accepts, uuid, at);
    var s2 := Schedule(s0, run[..2], d, accepts);
    StaleReadEnds(s2, Rendered(d, []).value, d, accepts);
    Compose(s0, run[..2], ApplyOf0(), d, accepts);
    var t := Schedule(s0, run, d, accepts);
    assert s2.procs[0] == HasRead(Snapshot([], at, 0)) && t.procs == map[0 := Idle, 1 := Idle];
    assert t.rows[0] == User(0, "ab", uuid, None, true, VISION, "", at);
    PublishedAdmits(t.host, Snapshot([], at, 0), d);
    NobodyAdmitted(t.host, Snapshot([], at, 0), t.rows, d);
  }

  lemma StaleReadParts(uuid: string, at: int)
    ensures |StaleRead(uuid, at)| == 7 && StaleRead(uuid, at) == StaleRead(uuid, at)[..2] + ApplyOf0()
  {
  }

  lemma NobodyAdmitted(h: Host, snap: Snapshot, rows: Rows, d: Deployment)
    requires Admits(h, snap, d) && snap.users == [] && h.live.Some?
    requires rows != [] && rows[0].IsActive(snap.at)
    ensures REALITY in h.live.value.lists && !AdmitsExactly(h.live.value.lists[REALITY], rows, snap.at, REALITY)
  {
    assert rows[0] in rows;
    assert h.live.value.lists[REALITY] == map[];
  }

  lemma {:induction false} Compose(
      s: State, a: seq<(Pid, Action)>, b: seq<(Pid, Action)>, d: Deployment, accepts: Json -> bool)
    ensures Schedule(s, a + b, d, accepts) == Schedule(Schedule(s, a, d, accepts), b, d, accepts)
    decreases |b|
  {
    hide Act;
    if b == [] {
      assert a + b == a;
    } else {
      var n := |b| - 1;
      Compose(s, a, b[..n], d, accepts);
      assert (a + b)[..|a + b| - 1] == a + b[..n];
    }
  }

  lemma FirstAccount(uuid: string, at: int)
    ensures Mutate([], 0, CreateUser("ab", uuid, None, ""), at) ==
            Success([User(0, "ab", uuid, None, true, VISION, "", at)])
  {
    assert ValidUsername("ab");
    var u := User(0, "ab", uuid, None, true, VISION, "", at);
    assert [] + [u] == [u];
  }

  lemma StaleReadStarts(d: Deployment, accepts: Json -> bool, uuid: string, at: int)
    ensures Schedule(TwoIdle(), StaleRead(uuid, at)[..2], d, accepts) ==
            State([User(0, "ab", uuid, None, true, VISION, "", at)], 1, 1, TwoIdle().host, None,
                  map[0 := HasRead(Snapshot([], at, 0)), 1 := Idle], None)
  {
    hide Mutate, NextPhase, ValidUsername, DisableExpired;
    var s0 := TwoIdle();
    var run := StaleRead(uuid, at)[..2];
    var change := CreateUser("ab", uuid, None, "");
    assert run == [] + [(0, ReadActive(at))] + [(1, Commit(change, at))];
    ScheduleOne(s0, [], 0, ReadActive(at), d, accepts);
    ScheduleOne(s0, [] + [(0, ReadActive(at))], 1, Commit(change, at), d, accepts);
    FirstAccount(uuid, at);
  }

  lemma StaleReadEnds(s: State, config: Json, d: Deployment, accepts: Json -> bool)
    requires 0 in s.procs && s.procs[0].HasRead? && s.lock.None? && s.host == TwoIdle().host
    requires Rendered(d, s.procs[0].snap.users) == Success(config) && accepts(config) && ChecksShape(accepts)
    ensures var t := Schedule(s, ApplyOf0(), d, accepts);
            && t.rows == s.rows && t.procs == s.procs[0 := Idle] && t.standing == Some(s.procs[0].snap)
            && t.host.live.Some? && Published(t.host, s.procs[0].snap, d)
  {
    hide Rendered, Schedule, Proper, Covers, Load, Skeleton, DesiredAccounts;
    ApplyOf0Is();
    var snap := s.procs[0].snap;
    var io := ApplyOf0()[1].1.io;
    var installed := InstallPhase(s.host, snap, d, accepts, io);
    var job := Job(snap, config, None);
    assert installed.1 == Wrote(job) && installed.0.disk == Holds(config) && installed.0.live == None;
    var reached := ReachPhase(installed.0, job, d);
    assert reached == (installed.0, Finished(snap, Applied(true, Written, false, false, true)));
    RenderedIsProper(d, snap.users);
    BootLoads(reached.0);
    hide InstallPhase, ReachPhase, Boot, ChecksShape;
    ScheduleOf0(s, snap, installed, reached, d, accepts);
  }

  lemma BootLoads(h: Host)
    ensures h.disk.Holds? ==> Boot(h) == h.(live := Some(Load(h.disk.config)), boots := h.boots + 1)
  {
  }

  lemma ScheduleOf0(
      s: State, snap: Snapshot, installed: (Host, Phase), reached: (Host, Phase), d: Deployment, accepts: Json -> bool)
    requires 0 in s.procs && s.procs[0] == HasRead(snap) && s.lock.None?
    requires installed == InstallPhase(s.host, snap, d, accepts, ApplyOf0()[1].1.io) && installed.1.Wrote?
    requires reached == ReachPhase(installed.0, installed.1.job, d)
    requires reached.1.Finished? && reached.1.snap == snap && Succeeded(reached.1.outcome) && reached.0.live.None?
    ensures var t := Schedule(s, ApplyOf0(), d, accepts);
            && t.rows == s.rows && t.procs == s.procs[0 := Idle] && t.standing == Some(snap)
            && t.host == Boot(reached.0)
  {
    hide InstallPhase, ReachPhase, Boot, ApplyOf0, Succeeded, Act, Schedule;
    ApplyOf0Is();
    var run := ApplyOf0();
    var s1 := s.(lock := Some(0), procs := s.procs[0 := Locked(snap)]);
    var s2, s3 := Put(s1, 0, installed), Put(Put(s1, 0, installed), 0, reached);
    var s4 := s3.(lock := None, procs := s3.procs[0 := Idle], standing := Some(snap));
    ActAcquire(s, 0, snap, d, accepts);
    ActInstall(s1, 0, snap, run[1].1, d, accepts);
    ActReach(s2, 0, installed.1.job, run[2].1, d, accepts);
    ActRelease(s3, 0, d, accepts);
    ActXrayStart(s4, 0, d, accepts);
    FiveActs(s, run, s1, s2, s3, s4, d, accepts);
    assert s3.procs[0 := Idle] == s.procs[0 := Idle];
  }

  /** A schedule of five actions, one after another. */
  lemma FiveActs(
      s: State, run: seq<(Pid, Action)>, s1: State, s2: State, s3: State, s4: State, d: Deployment,
      accepts: Json -> bool)
    requires |run| == 5
    requires Act(s, run[0].0, run[0].1, d, accepts) == s1 && Act(s1, run[1].0, run[1].1, d, accepts) == s2
    requires Act(s2, run[2].0, run[2].1, d, accepts) == s3 && Act(s3, run[3].0, run[3].1, d, accepts) == s4
    ensures Schedule(s, run, d, accepts) == Act(s4, run[4].0, run[4].1, d, accepts)
  {
    hide Act;
    assert run[..5] == run;
    assert run[..5][..4] == run[..4] && run[..4][..3] == run[..3];
    assert run[..3][..2] == run[..2] && run[..2][..1] == run[..1];
    assert run[..1][..0] == [];
    assert Schedule(s, run[..1], d, accepts) == s1;
    assert Schedule(s, run[..2], d, accepts) == s2;
    assert Schedule(s, run[..3], d, accepts) == s3;
    assert Schedule(s, run[..4], d, accepts) == s4;
  }

  lemma ActAcquire(s: State, p: Pid, snap: Snapshot, d: Deployment, accepts: Json -> bool)
    requires p in s.procs && s.procs[p] == HasRead(snap) && s.lock.None?
    ensures Act(s, p, Acquire, d, accepts) == s.(lock := Some(p), procs := s.procs[p := Locked(snap)])
  {
  }

  lemma ActInstall(s: State, p: Pid, snap: Snapshot, a: Action, d: Deployment, accepts: Json -> bool)
    requires p in s.procs && s.procs[p] == Locked(snap) && a.Install?
    ensures Act(s, p, a, d, accepts) == Put(s, p, InstallPhase(s.host, snap, d, accepts, a.io))
  {
    hide InstallPhase;
  }

  lemma ActReach(s: State, p: Pid, job: Job, a: Action, d: Deployment, accepts: Json -> bool)
    requires p in s.procs && s.procs[p] == Wrote(job) && a.Reach?
    ensures Act(s, p, a, d, accepts) == Put(s, p, ReachPhase(s.host, job, d))
  {
    hide ReachPhase;
  }

  lemma ActXrayStart(s: State, p: Pid, d: Deployment, accepts: Json -> bool)
    requires p in s.procs && s.procs[p].Idle?
    ensures Act(s, p, Action.XrayStart, d, accepts) == if s.host.live.None? then s.(host := Boot(s.host)) else s
  {
    hide Boot;
  }

  lemma ApplyOf0Is()
    ensures |ApplyOf0()| == 5 && ApplyOf0()[0] == (0, Acquire) && ApplyOf0()[3] == (0, Release)
    ensures ApplyOf0()[4] == (0, Action.XrayStart)
    ensures ApplyOf0()[1].0 == ApplyOf0()[2].0 == 0 && ApplyOf0()[1].1.Install? && ApplyOf0()[2].1.Reach?
  {
  }
}
