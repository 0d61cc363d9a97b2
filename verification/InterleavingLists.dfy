/**
 What every interleaving keeps about the accounts that Xray admits: with any
 failures, any deaths, and whatever structure Xray is running.
 */
module InterleavingLists {
  import opened Prelude
  import opened Json
  import opened Accounts
  import opened Rendering
  import opened LiveXray
  import opened LiveSync
  import opened Pipeline
  import opened Reconciliation
  import opened Interleaving

  // ----- the invariant ------------------------------------------------------------------

  ghost predicate NoBlankConfig(config: Json) {
    forall tag | tag in MANAGED && DesiredAccounts(config, tag).Some? :: "" !in DesiredAccounts(config, tag).value
  }

  /** Neither the file nor the process has an account without an e-mail. */
  ghost predicate Blankless(h: Host) {
    && (h.disk.Holds? ==> NoBlankConfig(h.disk.config))
    && (h.live.Some? ==> NoBlank(h.live.value.lists))
  }

  ghost predicate JobBase(job: Job, d: Deployment) {
    && Rendered(d, job.snap.users) == Success(job.config)
    && (job.previous.Some? ==> NoBlankConfig(job.previous.value))
  }

  ghost predicate OnDisk(h: Host, job: Job, d: Deployment) {
    JobBase(job, d) && h.disk == Holds(job.config)
  }

  /** A running Xray has exactly these users' accounts on these inbounds. */
  ghost predicate Serves(h: Host, users: Rows, tags: seq<string>) {
    h.live.Some? ==>
      forall tag | tag in tags :: tag in h.live.value.lists && h.live.value.lists[tag] == AccountsOf(users, tag)
  }

  /** The same, for the inbounds that are not in `todo`. */
  ghost predicate ServesBut(h: Host, users: Rows, tags: seq<string>, todo: seq<string>) {
    h.live.Some? ==>
      forall tag | tag in tags && tag !in todo ::
        tag in h.live.value.lists && h.live.value.lists[tag] == AccountsOf(users, tag)
  }

  /** Outside `stale` the list agrees with `desired`, and without it only `additions` are missing. */
  ghost predicate Removable(m: AccountList, desired: AccountList, stale: set<string>, additions: set<string>) {
    && (forall e | e in m && e !in stale :: e in desired && m[e] == desired[e])
    && desired.Keys - (m.Keys - stale) <= additions <= desired.Keys
  }

  /** What is removed though desired will be added again. */
  ghost predicate Planned(desired: AccountList, stale: set<string>, additions: set<string>) {
    desired.Keys * stale <= additions <= desired.Keys
  }

  ghost predicate Addable(m: AccountList, desired: AccountList, additions: set<string>) {
    Removable(m, desired, {}, additions)
  }

  ghost predicate PhaseBase(h: Host, ph: Phase, d: Deployment) {
    match ph
    case Idle => true
    case HasRead(_) => true
    case Locked(_) => true
    case Wrote(job) => OnDisk(h, job, d)
    case Syncing(job, todo) =>
      OnDisk(h, job, d) && (forall tag | tag in todo :: tag in Tags(d)) && ServesBut(h, job.snap.users, Tags(d), todo)
    case Removing(job, todo, stale, additions) =>
      && OnDisk(h, job, d) && todo != [] && (forall tag | tag in todo :: tag in Tags(d))
      && ServesBut(h, job.snap.users, Tags(d), todo)
      && Planned(AccountsOf(job.snap.users, todo[0]), stale, additions)
      && (h.live.Some? ==>
            && HasList(h, todo[0])
            && Removable(h.live.value.lists[todo[0]], AccountsOf(job.snap.users, todo[0]), stale, additions))
    case Adding(job, todo, additions) =>
      && OnDisk(h, job, d) && todo != [] && (forall tag | tag in todo :: tag in Tags(d))
      && ServesBut(h, job.snap.users, Tags(d), todo)
      && Planned(AccountsOf(job.snap.users, todo[0]), {}, additions)
      && (h.live.Some? ==>
            && HasList(h, todo[0])
            && Addable(h.live.value.lists[todo[0]], AccountsOf(job.snap.users, todo[0]), additions))
    case NeedsRestart(job) => OnDisk(h, job, d)
    case NeedsUndo(job) => OnDisk(h, job, d)
    case NeedsSecondRestart(job) => JobBase(job, d)
    case Finished(snap, outcome) => Succeeded(outcome) ==> Shows(h, snap, d)
  }

  /** File and running Xray give exactly this snapshot's accounts, on every handled inbound. */
  ghost predicate Shows(h: Host, snap: Snapshot, d: Deployment) {
    && h.disk.Holds? && Rendered(d, snap.users) == Success(h.disk.config)
    && Serves(h, snap.users, Tags(d))
  }

  ghost predicate Based(s: State, d: Deployment) {
    && Exclusive(s) && Blankless(s.host)
    && (forall p | p in s.procs :: PhaseBase(s.host, s.procs[p], d))
    && (s.standing.Some? ==> Shows(s.host, s.standing.value, d) && forall p | p in s.procs :: !s.procs[p].Busy())
  }

  // ----- what a rendered configuration gives -----------------------------------------------

  lemma RenderedLists(d: Deployment, users: Rows)
    requires Rendered(d, users).Success?
    ensures NoBlankConfig(Rendered(d, users).value)
    ensures forall tag | tag in Tags(d) ::
              tag in MANAGED && DesiredAccounts(Rendered(d, users).value, tag) == Some(AccountsOf(users, tag))
  {
    hide Render, RenderedReality, RenderedWs, DesiredAccounts, AccountsOf, InboundFields;
    RenderedInbounds(d.settings, users, d.keys, d.template);
    EmailsNonempty(users, REALITY);
    EmailsNonempty(users, WS_BACKEND);
  }

  /** An Xray that starts from the rendered file serves it all. */
  lemma BootServes(h: Host, users: Rows, d: Deployment)
    requires h.disk.Holds? && Rendered(d, users) == Success(h.disk.config)
    ensures Serves(Boot(h), users, Tags(d)) && Boot(h).live.Some? && Boot(h).disk == h.disk
    ensures NoBlank(Boot(h).live.value.lists)
  {
    hide Rendered, DesiredAccounts, AccountsOf, Skeleton;
    RenderedLists(d, users);
  }

  lemma BootBlankless(h: Host)
    requires Blankless(h)
    ensures Blankless(Boot(h))
  {
    hide DesiredAccounts, Skeleton;
  }

  // ----- the steps of the holder -------------------------------------------------------------

  lemma WriteBase(h: Host, config: Json, io: WriteIo)
    requires Blankless(h) && NoBlankConfig(config)
    ensures var w := WriteConfig(h, config, io);
            Blankless(w.host) && w.host.live == h.live && w.host.disk == if w.ok then Holds(config) else h.disk
  {
    hide NoBlankConfig, NoBlank;
  }

  lemma RestartBase(h: Host, reply: RestartReply)
    requires Blankless(h)
    ensures var r := RestartXray(h, reply);
            && Blankless(r.host) && r.host.disk == h.disk
            && (r.ok ==> r.host == Boot(h))
  {
    BootBlankless(h);
    hide NoBlankConfig, NoBlank, Load;
  }

  lemma InstallBase(h: Host, snap: Snapshot, d: Deployment, accepts: Json -> bool, io: WriteIo)
    requires Blankless(h)
    ensures var n := InstallPhase(h, snap, d, accepts, io);
            && Blankless(n.0) && PhaseBase(n.0, n.1, d)
            && (!n.1.Busy() ==> n.0.disk == h.disk && n.0.live == h.live)
  {
    hide Rendered, WriteConfig, NoBlankConfig, NoBlank, Signable, Structural, ServesBut, Serves, Removable, Planned,
      Shows;
    if Rendered(d, snap.users).Success? {
      RenderedLists(d, snap.users);
      WriteBase(h, Rendered(d, snap.users).value, io);
    }
  }

  lemma ListBase(h: Host, job: Job, todo: seq<string>, d: Deployment, answered: bool)
    requires Blankless(h) && PhaseBase(h, Syncing(job, todo), d)
    ensures var n := ListPhase(h, job, todo, answered); Blankless(n.0) && PhaseBase(n.0, n.1, d)
  {
    hide Rendered, NoBlankConfig, DesiredAccounts, AccountsOf, Stale, Additions, Removable;
    if todo != [] {
      RenderedLists(d, job.snap.users);
      assert todo[0] in todo && todo[0] in Tags(d);
      if HasList(h, todo[0]) {
        ListedIsRemovable(h.live.value.lists[todo[0]], AccountsOf(job.snap.users, todo[0]));
      }
    }
  }

  lemma ListedIsRemovable(m: AccountList, desired: AccountList)
    requires "" !in m
    ensures Removable(m, desired, Stale(m, desired), Additions(m, desired))
    ensures Planned(desired, Stale(m, desired), Additions(m, desired))
  {
  }

  /** The list of one inbound is replaced by one without a blank e-mail. */
  lemma WithListBase(h: Host, tag: string, list: AccountList, users: Rows, tags: seq<string>, todo: seq<string>)
    requires HasList(h, tag) && Blankless(h) && "" !in list && ServesBut(h, users, tags, todo) && tag in todo
    ensures var g := WithList(h, tag, list);
            && Blankless(g) && g.disk == h.disk && ServesBut(g, users, tags, todo)
            && HasList(g, tag) && g.live.value.lists[tag] == list
  {
    hide NoBlankConfig, AccountsOf;
  }

  lemma RemovalKeeps(m: AccountList, desired: AccountList, stale: set<string>, additions: set<string>, r: CallReply)
    requires Removable(m, desired, stale, additions)
    requires stale == {} || Acknowledged(stale, stale * r.acted * m.Keys, r.counted)
    ensures Addable(if stale == {} then m else RemoveFrom(m, stale, r), desired, additions)
  {
    if stale != {} {
      var done := stale * r.acted * m.Keys;
      assert stale == done + (stale - done);
      assert |stale| == |done| + |stale - done|;
      assert stale - done == {};
      assert stale * r.acted == stale;
    }
  }

  lemma RemoveBase(h: Host, ph: Phase, d: Deployment, r: CallReply)
    requires ph.Removing? && Blankless(h) && PhaseBase(h, ph, d)
    ensures var n := RemovePhase(h, ph.job, ph.todo, ph.stale, ph.additions, r);
            Blankless(n.0) && PhaseBase(n.0, n.1, d)
  {
    hide Rendered, NoBlankConfig, AccountsOf, Removable, Acknowledged, RemoveFrom, ServesBut, WithList;
    var tag, users := ph.todo[0], ph.job.snap.users;
    if h.live.Some? {
      var m, desired := h.live.value.lists[tag], AccountsOf(users, tag);
      if ph.stale == {} || Acknowledged(ph.stale, ph.stale * r.acted * m.Keys, r.counted) {
        RemovalKeeps(m, desired, ph.stale, ph.additions, r);
      }
      RemovesOnly(m, ph.stale, r);
      WithListBase(h, tag, RemoveFrom(m, ph.stale, r), users, Tags(d), ph.todo);
    } else {
      NobodyServed(h, users, Tags(d), ph.todo);
    }
  }

  lemma RemovesOnly(m: AccountList, stale: set<string>, r: CallReply)
    ensures "" !in m ==> "" !in RemoveFrom(m, stale, r)
  {
  }

  lemma NobodyServed(h: Host, users: Rows, tags: seq<string>, todo: seq<string>)
    requires h.live.None?
    ensures ServesBut(h, users, tags, todo)
  {
  }

  lemma AllAdded(m: AccountList, desired: AccountList, additions: set<string>)
    requires Addable(m, desired, additions)
    ensures AddTo(m, desired, additions) == desired
  {
    var after := AddTo(m, desired, additions);
    assert m.Keys - {} == m.Keys;
    assert after.Keys == desired.Keys;
    forall e | e in desired ensures after[e] == desired[e] {
    }
  }

  lemma NothingToAdd(m: AccountList, desired: AccountList)
    requires Addable(m, desired, {})
    ensures m == desired
  {
    assert m.Keys - {} == m.Keys;
    forall e | e in desired ensures e in m {
      assert e !in desired.Keys - m.Keys;
    }
    assert m.Keys == desired.Keys;
  }

  /** With nothing left to add, or everything added, the list is the desired one. */
  lemma AdditionCompletes(m: AccountList, desired: AccountList, additions: set<string>, r: CallReply)
    requires Addable(m, desired, additions)
    requires additions == {} || Acknowledged(additions, Accepted(m, additions, r), r.counted)
    ensures (if additions == {} then m else AddTo(m, desired, Accepted(m, additions, r))) == desired
  {
    hide Addable, Acknowledged, AddTo;
    if additions == {} {
      NothingToAdd(m, desired);
    } else {
      CountForcesAll(additions, r.acted, m.Keys, r.counted);
      AllAccepted(additions, r.acted, m.Keys);
      AllAdded(m, desired, additions);
    }
  }

  lemma AddsNoBlank(m: AccountList, desired: AccountList, accepted: set<string>)
    requires "" !in m && "" !in desired
    ensures "" !in AddTo(m, desired, accepted)
  {
  }

  lemma InboundDone(h: Host, users: Rows, tags: seq<string>, todo: seq<string>)
    requires todo != [] && ServesBut(h, users, tags, todo)
    requires h.live.Some? ==> HasList(h, todo[0]) && h.live.value.lists[todo[0]] == AccountsOf(users, todo[0])
    ensures ServesBut(h, users, tags, todo[1..])
  {
    hide AccountsOf;
    assert forall tag | tag !in todo[1..] && tag != todo[0] :: tag !in todo;
  }

  lemma AddBase(h: Host, ph: Phase, d: Deployment, r: CallReply)
    requires ph.Adding? && Blankless(h) && PhaseBase(h, ph, d)
    ensures var n := AddPhase(h, ph.job, ph.todo, ph.additions, r); Blankless(n.0) && PhaseBase(n.0, n.1, d)
  {
    hide Rendered, NoBlankConfig, DesiredAccounts, AccountsOf, Removable, Acknowledged, Accepted, AddTo, ServesBut,
      WithList;
    var tag, users := ph.todo[0], ph.job.snap.users;
    assert tag in ph.todo && tag in Tags(d);
    assert forall t | t in ph.todo[1..] :: t in ph.todo;
    RenderedLists(d, users);
    if h.live.Some? {
      var m, desired := h.live.value.lists[tag], AccountsOf(users, tag);
      EmailsNonempty(users, tag);
      var list := AddTo(m, desired, Accepted(m, ph.additions, r));
      AddsNoBlank(m, desired, Accepted(m, ph.additions, r));
      WithListBase(h, tag, list, users, Tags(d), ph.todo);
      if ph.additions == {} || Acknowledged(ph.additions, Accepted(m, ph.additions, r), r.counted) {
        AdditionCompletes(m, desired, ph.additions, r);
        InboundDone(if ph.additions == {} then h else WithList(h, tag, list), users, Tags(d), ph.todo);
      }
    } else {
      NobodyServed(h, users, Tags(d), ph.todo[1..]);
    }
  }

  lemma RestartPhaseBase(h: Host, job: Job, d: Deployment, reply: RestartReply)
    requires Blankless(h) && OnDisk(h, job, d)
    ensures var n := RestartPhase(h, job, reply); Blankless(n.0) && PhaseBase(n.0, n.1, d)
  {
    hide Rendered, NoBlankConfig, RestartXray, Structural, Boot;
    RestartBase(h, reply);
    BootServes(h, job.snap.users, d);
  }

  lemma RestartAgainBase(h: Host, job: Job, d: Deployment, reply: RestartReply)
    requires Blankless(h)
    ensures var n := RestartAgainPhase(h, job, reply); Blankless(n.0) && PhaseBase(n.0, n.1, d)
  {
    hide Blankless, RestartXray, Structural;
    RestartBase(h, reply);
  }

  lemma NextPhaseBase(h: Host, ph: Phase, a: Action, d: Deployment, accepts: Json -> bool)
    requires Enabled(ph, a) && Blankless(h) && PhaseBase(h, ph, d)
    ensures var n := NextPhase(h, ph, a, d, accepts);
            && Blankless(n.0) && PhaseBase(n.0, n.1, d)
            && (!ph.Busy() && !n.1.Busy() ==> n.0.disk == h.disk && n.0.live == h.live)
  {
    hide InstallPhase, ReachPhase, ListPhase, RemovePhase, AddPhase, RestartPhase, WriteBackPhase, RestartAgainPhase,
      Blankless, OnDisk, JobBase, Shows, ServesBut, Serves, Removable, Planned;
    match a
    case Install(io) => InstallBase(h, ph.snap, d, accepts, io);
    case RecordFails =>
    case Reach => ReachBase(h, ph.job, d);
    case Lists(answered) => ListBase(h, ph.job, ph.todo, d, answered);
    case Removes(call) => RemoveBase(h, ph, d, call);
    case Adds(call) => AddBase(h, ph, d, call);
    case Restarts(reply) => RestartPhaseBase(h, ph.job, d, reply);
    case WriteBack(io) => UndoBase(h, ph.job, d, io);
    case RestartsAgain(reply) => RestartAgainBase(h, ph.job, d, reply);
  }

  lemma ReachBase(h: Host, job: Job, d: Deployment)
    requires OnDisk(h, job, d)
    ensures ReachPhase(h, job, d).0 == h && PhaseBase(h, ReachPhase(h, job, d).1, d)
  {
    hide Rendered, NoBlankConfig, Structural, AccountsOf;
  }

  lemma UndoBase(h: Host, job: Job, d: Deployment, io: WriteIo)
    requires Blankless(h) && OnDisk(h, job, d) && job.previous.Some?
    ensures var n := WriteBackPhase(h, job, io); Blankless(n.0) && PhaseBase(n.0, n.1, d)
  {
    hide Rendered, NoBlankConfig, WriteConfig;
    WriteBase(h, job.previous.value, io);
  }

  // ----- exits and starts of Xray ------------------------------------------------------------

  lemma ExitBase(h: Host, ph: Phase, d: Deployment)
    requires PhaseBase(h, ph, d)
    ensures PhaseBase(h.(live := None), ph, d)
  {
    hide Rendered, NoBlankConfig, AccountsOf, Removable, Planned;
  }

  lemma DesiredIsRemovable(desired: AccountList, stale: set<string>, additions: set<string>)
    requires Planned(desired, stale, additions)
    ensures Removable(desired, desired, stale, additions)
  {
  }

  lemma ServesAll(h: Host, users: Rows, tags: seq<string>, todo: seq<string>)
    requires Serves(h, users, tags)
    ensures ServesBut(h, users, tags, todo)
  {
    hide AccountsOf;
  }

  lemma ServedList(h: Host, users: Rows, tags: seq<string>, tag: string)
    requires Serves(h, users, tags) && tag in tags && h.live.Some?
    ensures HasList(h, tag) && h.live.value.lists[tag] == AccountsOf(users, tag)
  {
    hide AccountsOf;
  }

  /** A start in the middle of a sync loads the new file, and what is still to do stays harmless. */
  lemma StartBase(h: Host, ph: Phase, d: Deployment)
    requires h.live.None? && PhaseBase(h, ph, d)
    ensures PhaseBase(Boot(h), ph, d)
  {
    hide Rendered, NoBlankConfig, AccountsOf, Removable, Planned, Boot, Serves, ServesBut, Load;
    BootKeepsDisk(h);
    match ph
    case Syncing(job, todo) =>
      BootServes(h, job.snap.users, d);
      ServesAll(Boot(h), job.snap.users, Tags(d), todo);
    case Removing(job, todo, stale, additions) =>
      BootServes(h, job.snap.users, d);
      ServesAll(Boot(h), job.snap.users, Tags(d), todo);
      assert todo[0] in todo;
      ServedList(Boot(h), job.snap.users, Tags(d), todo[0]);
      DesiredIsRemovable(AccountsOf(job.snap.users, todo[0]), stale, additions);
    case Adding(job, todo, additions) =>
      BootServes(h, job.snap.users, d);
      ServesAll(Boot(h), job.snap.users, Tags(d), todo);
      assert todo[0] in todo;
      ServedList(Boot(h), job.snap.users, Tags(d), todo[0]);
      DesiredIsRemovable(AccountsOf(job.snap.users, todo[0]), {}, additions);
    case Finished(snap, outcome) =>
      if Succeeded(outcome) { BootServes(h, snap.users, d); }
    case _ =>
  }

  lemma BootKeepsDisk(h: Host)
    ensures Boot(h).disk == h.disk
  {
    hide Load;
  }

  lemma ShowsUnderXrayEvents(h: Host, snap: Snapshot, d: Deployment)
    requires Shows(h, snap, d)
    ensures Shows(h.(live := None), snap, d) && (h.live.None? ==> Shows(Boot(h), snap, d))
  {
    hide Rendered, AccountsOf, Boot;
    BootServes(h, snap.users, d);
  }

  // ----- every step ----------------------------------------------------------------------------

  lemma HostChangeBased(s: State, h: Host, d: Deployment)
    requires Based(s, d) && Blankless(h)
    requires forall q | q in s.procs :: PhaseBase(h, s.procs[q], d)
    requires s.standing.Some? ==> Shows(h, s.standing.value, d)
    ensures Based(s.(host := h), d)
  {
    hide PhaseBase, Shows, Blankless;
    var t := s.(host := h);
    assert t.procs == s.procs && t.lock == s.lock && t.standing == s.standing;
    assert Exclusive(t);
    hide Exclusive;
  }

  lemma XrayActBased(s: State, p: Pid, a: Action, d: Deployment, accepts: Json -> bool)
    requires Based(s, d) && p in s.procs && (a.XrayExit? || a.XrayStart?)
    ensures Based(Act(s, p, a, d, accepts), d)
  {
    hide Act, Boot, PhaseBase, Shows, Exclusive;
    ActOnXray(s, p, a, d, accepts);
    var off, on := s.host.(live := None), Boot(s.host);
    if s.standing.Some? { ShowsUnderXrayEvents(s.host, s.standing.value, d); }
    if a.XrayExit? {
      forall q | q in s.procs ensures PhaseBase(off, s.procs[q], d) { ExitBase(s.host, s.procs[q], d); }
      HostChangeBased(s, off, d);
    } else if s.host.live.None? {
      BootBlankless(s.host);
      forall q | q in s.procs ensures PhaseBase(on, s.procs[q], d) { StartBase(s.host, s.procs[q], d); }
      hide Blankless;
      HostChangeBased(s, on, d);
    }
  }

  /** Who is not inside an apply does not depend on the host. */
  lemma OutsiderBase(h: Host, ph: Phase, d: Deployment)
    requires !ph.Critical() || ph.Locked?
    ensures PhaseBase(h, ph, d)
  {
  }

  lemma SameShows(h: Host, g: Host, snap: Snapshot, d: Deployment)
    requires g.disk == h.disk && g.live == h.live
    ensures Shows(h, snap, d) ==> Shows(g, snap, d)
  {
    hide Rendered, AccountsOf;
  }

  lemma PutBased(s: State, p: Pid, next: (Host, Phase), d: Deployment)
    requires Based(s, d) && p in s.procs && s.procs[p].Critical() && Exclusive(Put(s, p, next))
    requires Blankless(next.0) && PhaseBase(next.0, next.1, d)
    requires !s.procs[p].Busy() && !next.1.Busy() ==> next.0.disk == s.host.disk && next.0.live == s.host.live
    ensures Based(Put(s, p, next), d)
  {
    hide Blankless, Shows, PhaseBase;
    var t := Put(s, p, next);
    forall q | q in t.procs ensures PhaseBase(t.host, t.procs[q], d) && (t.standing.Some? ==> !t.procs[q].Busy()) {
      if q != p {
        OthersIdle(s, p, q);
        OutsiderBase(t.host, t.procs[q], d);
      }
    }
    hide Exclusive;
    if t.standing.Some? { SameShows(s.host, t.host, t.standing.value, d); }
  }

  lemma HolderActBased(s: State, p: Pid, a: Action, d: Deployment, accepts: Json -> bool)
    requires Based(s, d) && p in s.procs && Enabled(s.procs[p], a)
    ensures Based(Act(s, p, a, d, accepts), d)
  {
    hide Enabled, NextPhase, PhaseBase, Blankless, Put, Shows;
    var next := NextPhase(s.host, s.procs[p], a, d, accepts);
    ActExclusive(s, p, a, d, accepts);
    NextIsCritical(s.host, s.procs[p], a, d, accepts);
    NextPhaseBase(s.host, s.procs[p], a, d, accepts);
    assert Act(s, p, a, d, accepts) == Put(s, p, next);
    hide Act, Exclusive;
    PutBased(s, p, next, d);
  }

  lemma OutsideBased(s: State, p: Pid, a: Action, d: Deployment, accepts: Json -> bool)
    requires Based(s, d) && p in s.procs && Outside(a)
    ensures Based(Act(s, p, a, d, accepts), d)
  {
    hide Act, PhaseBase, Blankless, Shows;
    ActExclusive(s, p, a, d, accepts);
    ActOutside(s, p, a, d, accepts);
    var t := Act(s, p, a, d, accepts);
    forall q | q in t.procs ensures PhaseBase(t.host, t.procs[q], d) && (t.standing.Some? ==> !t.procs[q].Busy()) {
      if t.procs[q] != s.procs[q] { OutsiderBase(t.host, t.procs[q], d); }
    }
    hide Exclusive;
  }

  /** Releasing the lock, and dying anywhere. */
  lemma EndBased(s: State, p: Pid, a: Action, d: Deployment, accepts: Json -> bool)
    requires Based(s, d) && p in s.procs && (a.Release? || a.Die?)
    ensures Based(Act(s, p, a, d, accepts), d)
  {
    hide Act, Blankless, Shows, OnDisk, JobBase, Succeeded;
    ActExclusive(s, p, a, d, accepts);
    ActRelease(s, p, d, accepts);
    ActDies(s, p, d, accepts);
    var t := Act(s, p, a, d, accepts);
    assert PhaseBase(s.host, s.procs[p], d);
    forall q | q in t.procs ensures PhaseBase(t.host, t.procs[q], d) && (t.standing.Some? ==> !t.procs[q].Busy()) {
      if q != p && s.procs[p].Critical() { OthersIdle(s, p, q); }
    }
    hide Exclusive, PhaseBase;
  }

  lemma ActKeepsBased(s: State, p: Pid, a: Action, d: Deployment, accepts: Json -> bool)
    requires Based(s, d)
    ensures Based(Act(s, p, a, d, accepts), d)
  {
    hide Based, Enabled;
    if p in s.procs {
      if a.XrayExit? || a.XrayStart? {
        XrayActBased(s, p, a, d, accepts);
      } else if a.Release? || a.Die? {
        EndBased(s, p, a, d, accepts);
      } else if Outside(a) {
        OutsideBased(s, p, a, d, accepts);
      } else {
        WorkIsPut(s, p, a, d, accepts);
        hide Act;
        if Enabled(s.procs[p], a) { HolderActBased(s, p, a, d, accepts); }
      }
    }
  }

  // ----- over all interleavings -----------------------------------------------------------------

  /** What any start with no apply under way satisfies, and every interleaving keeps. */
  ghost predicate Sane(s: State, d: Deployment) {
    Based(s, d) && AllFresh(s)
  }

  /** Where an interleaving may start: nobody at work, and no blank e-mail in file or process. */
  lemma QuietStartIsSane(s: State, d: Deployment)
    requires s.lock.None? && s.standing.None? && (forall p | p in s.procs :: s.procs[p].Idle?)
    requires Blankless(s.host) && Table(s.rows, s.nextId)
    ensures Sane(s, d)
  {
    hide Table, Blankless;
  }

  lemma {:induction false} EveryScheduleSane(s: State, run: seq<(Pid, Action)>, d: Deployment, accepts: Json -> bool)
    requires Sane(s, d)
    ensures Sane(Schedule(s, run, d, accepts), d)
  {
    hide Based, AllFresh, Act;
    if run != [] {
      var n := |run| - 1;
      EveryScheduleSane(s, run[..n], d, accepts);
      ActKeepsBased(Schedule(s, run[..n], d, accepts), run[n].0, run[n].1, d, accepts);
      ActKeepsFresh(Schedule(s, run[..n], d, accepts), run[n].0, run[n].1, d, accepts);
    }
  }

  /**
   In every interleaving, whatever fails and whoever dies: when an apply has just
   succeeded, and from then on until another one touches the host, the file is
   rendered from the one list that apply read, and a running Xray has exactly that
   list on every handled inbound.
   */
  lemma SuccessIsOneSnapshot(s: State, run: seq<(Pid, Action)>, d: Deployment, accepts: Json -> bool)
    requires Sane(s, d)
    ensures var t := Schedule(s, run, d, accepts);
            && (forall p | p in t.procs && t.procs[p].Finished? && Succeeded(t.procs[p].outcome) ::
                  Shows(t.host, t.procs[p].snap, d))
            && (t.standing.Some? ==> Shows(t.host, t.standing.value, d))
  {
    hide Schedule, AllFresh, Shows, Exclusive, Blankless, OnDisk, JobBase, ServesBut;
    EveryScheduleSane(s, run, d, accepts);
    var t := Schedule(s, run, d, accepts);
    forall p | p in t.procs && t.procs[p].Finished? && Succeeded(t.procs[p].outcome)
      ensures Shows(t.host, t.procs[p].snap, d)
    {
      assert PhaseBase(t.host, t.procs[p], d);
    }
  }

  /**
   In every interleaving: if the apply that stands read after the last commit,
   a running Xray admits exactly the accounts active at that read's clock time.
   */
  lemma QuiescentIsActive(s: State, run: seq<(Pid, Action)>, d: Deployment, accepts: Json -> bool)
    requires Sane(s, d)
    ensures var t := Schedule(s, run, d, accepts);
            t.standing.Some? && t.standing.value.version == t.version && t.host.live.Some? ==>
              forall tag | tag in Tags(d) ::
                && tag in t.host.live.value.lists
                && AdmitsExactly(t.host.live.value.lists[tag], t.rows, t.standing.value.at, tag)
  {
    hide Schedule, Based, AdmitsExactly, AccountsOf, ActiveUsers, Serves, Rendered;
    EveryScheduleSane(s, run, d, accepts);
    SuccessIsOneSnapshot(s, run, d, accepts);
    var t := Schedule(s, run, d, accepts);
    if t.standing.Some? && t.host.live.Some? {
      forall tag | tag in Tags(d) && t.standing.value.version == t.version
        ensures tag in t.host.live.value.lists
        ensures AdmitsExactly(t.host.live.value.lists[tag], t.rows, t.standing.value.at, tag)
      {
        ServedList(t.host, t.standing.value.users, Tags(d), tag);
        AdmitsDetermines(t.host.live.value.lists[tag], t.rows, t.standing.value.at, tag);
      }
    }
  }

  /** The list that admits exactly the active rows is unique. */
  lemma AdmitsDetermines(list: AccountList, rows: Rows, now: int, tag: string)
    requires Distinct(rows)
    ensures AdmitsExactly(list, rows, now, tag) <==> list == AccountsOf(ActiveUsers(rows, now), tag)
  {
    hide AccountsOf, ActiveUsers, Distinct;
    ActiveListAdmits(rows, now, tag);
    var active := AccountsOf(ActiveUsers(rows, now), tag);
    if AdmitsExactly(list, rows, now, tag) {
      forall e: string ensures e in list <==> e in active {
      }
      forall e | e in list ensures list[e] == active[e] {
        var u :| u in rows && u.IsActive(now) && u.username + "@railgate" == e;
        AccountBelongs(list[e], u, tag);
        AccountBelongs(active[e], u, tag);
      }
    }
  }

  /**
   In every interleaving: while an apply stands and Xray runs, Xray admits exactly
   the accounts active in the table at the clock time of that apply's read, if and
   only if the list that was read gives the same e-mails, UUIDs and flows as the
   accounts active in the table. Later commits that change none of these, like
   notes, do no harm.
   */
  lemma StandingAdmitsIff(s: State, run: seq<(Pid, Action)>, d: Deployment, accepts: Json -> bool, tag: string)
    requires Sane(s, d) && tag in Tags(d)
    ensures var t := Schedule(s, run, d, accepts);
            t.standing.Some? && t.host.live.Some? ==>
              var at := t.standing.value.at;
              && tag in t.host.live.value.lists
              && (AdmitsExactly(t.host.live.value.lists[tag], t.rows, at, tag) <==>
                  AccountsOf(t.standing.value.users, tag) == AccountsOf(ActiveUsers(t.rows, at), tag))
  {
    hide Schedule, Based, AdmitsExactly, AccountsOf, ActiveUsers, Serves, Rendered;
    EveryScheduleSane(s, run, d, accepts);
    SuccessIsOneSnapshot(s, run, d, accepts);
    var t := Schedule(s, run, d, accepts);
    if t.standing.Some? && t.host.live.Some? {
      ServedList(t.host, t.standing.value.users, Tags(d), tag);
      AdmitsDetermines(t.host.live.value.lists[tag], t.rows, t.standing.value.at, tag);
    }
  }

  /** In every interleaving, whatever fails and whoever dies, at most one process is inside an apply. */
  lemma AppliesNeverOverlap(
      s: State, run: seq<(Pid, Action)>, d: Deployment, accepts: Json -> bool, p: Pid, q: Pid)
    requires Exclusive(s)
    requires var t := Schedule(s, run, d, accepts);
             p in t.procs && q in t.procs && t.procs[p].Critical() && t.procs[q].Critical()
    ensures p == q
  {
    hide Schedule;
    ScheduleExclusive(s, run, d, accepts);
    var t := Schedule(s, run, d, accepts);
    assert t.lock == Some(p) && t.lock == Some(q);
  }
}
