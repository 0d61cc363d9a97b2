/**
 Several processes (the web app, the sweeper, `vpnctl`) committing to the table,
 reading the active list, and then applying it under the configuration lock.
 An apply is broken between any two of its effects on the file, on Xray's life
 and on its account lists, one step per API call. Xray may exit or be started by
 the supervisor, and the process may die, at any of these points.
 */
module Interleaving {
  import opened Prelude
  import opened Json
  import opened Accounts
  import opened Rendering
  import opened LiveXray
  import opened LiveSync
  import opened Pipeline
  import opened PipelineFacts
  import opened Reconciliation

  type Pid = nat

  /** What a process read before it asked for the lock, and after how many commits. */
  datatype Snapshot = Snapshot(users: Rows, at: int, version: nat)

  datatype Job = Job(snap: Snapshot, config: Json, previous: Option<Json>)

  datatype Phase =
    | Idle
    | HasRead(snap: Snapshot)
    | Locked(snap: Snapshot)
    | Wrote(job: Job)
    /** The inbounds still to reconcile; the first one is to be listed. */
    | Syncing(job: Job, todo: seq<string>)
    /** It was listed; these accounts are to be removed, and then those added. */
    | Removing(job: Job, todo: seq<string>, stale: set<string>, additions: set<string>)
    | Adding(job: Job, todo: seq<string>, additions: set<string>)
    | NeedsRestart(job: Job)
    | NeedsUndo(job: Job)
    | NeedsSecondRestart(job: Job)
    | Finished(snap: Snapshot, outcome: Outcome)
  {
    predicate Critical() {
      !Idle? && !HasRead?
    }

    predicate Busy() {
      Wrote? || Syncing? || Removing? || Adding? || NeedsRestart? || NeedsUndo? || NeedsSecondRestart?
    }
  }

  /**
   `version` counts commits. `standing` is the last successful apply, until
   another one touches the host.
   */
  datatype State = State(
    rows: Rows, nextId: nat, version: nat, host: Host, lock: Option<Pid>,
    procs: map<Pid, Phase>, standing: Option<Snapshot>)

  datatype Action =
    | Commit(change: Change, at: int)
    | CommitSweep(at: int)
    | ReadActive(at: int)
    | Acquire
    | TimeOut
    | Install(io: WriteIo)
    /** The settings row about the new file cannot be written. */
    | RecordFails
    | Reach
    | Lists(answered: bool)
    | Removes(call: CallReply)
    | Adds(call: CallReply)
    | Restarts(reply: RestartReply)
    | WriteBack(io: WriteIo)
    | RestartsAgain(reply: RestartReply)
    | Release
    | XrayExit
    | XrayStart
    /** The process dies; the kernel releases its lock. */
    | Die

  function Tags(d: Deployment): seq<string> {
    ManagedTags(d.settings)
  }

  predicate Succeeded(o: Outcome) {
    o.Applied? && o.ok
  }

  /** Render, validate, compare with the file and replace it. */
  function InstallPhase(h: Host, snap: Snapshot, d: Deployment, accepts: Json -> bool, io: WriteIo): (Host, Phase) {
    match Rendered(d, snap.users)
    case Failure(_) => (h, Finished(snap, Raised))
    case Success(config) =>
      if !accepts(config) then (h, Finished(snap, Applied(false, Validate, false, false, false)))
      else
        var previous := Previous(h.disk);
        if previous.Some? && !(Signable(previous.value) && Signable(config)) then (h, Finished(snap, Raised))
        else
          var w := WriteConfig(h, config, io);
          if w.ok then (w.host, Wrote(Job(snap, config, previous))) else (w.host, Finished(snap, Raised))
  }

  /** Probe the process; reach it through the API when the structure is unchanged. */
  function ReachPhase(h: Host, job: Job, d: Deployment): (Host, Phase) {
    var structural := Structural(job.previous, job.config);
    if h.live.None? then (h, Finished(job.snap, Applied(true, Written, false, false, structural)))
    else if structural then (h, NeedsRestart(job))
    else (h, Syncing(job, Tags(d)))
  }

  /** The account list of one inbound replaced. */
  function WithList(h: Host, tag: string, list: AccountList): Host
    requires h.live.Some?
  {
    h.(live := Some(h.live.value.(lists := h.live.value.lists[tag := list])))
  }

  predicate HasList(h: Host, tag: string) {
    h.live.Some? && tag in h.live.value.lists
  }

  /** List the first inbound and work out what to change; with none left the sync is over. */
  function ListPhase(h: Host, job: Job, todo: seq<string>, answered: bool): (Host, Phase) {
    if todo == [] then (h, Finished(job.snap, Applied(true, Api, false, false, false)))
    else
      match DesiredAccounts(job.config, todo[0])
      case None => (h, Syncing(job, todo[1..]))
      case Some(desired) =>
        if !HasList(h, todo[0]) || !answered then (h, NeedsRestart(job))
        else
          var m := h.live.value.lists[todo[0]];
          (h, Removing(job, todo, Stale(m, desired), Additions(m, desired)))
  }

  /** No call is made for nothing; one that is not answered for in full falls back to a restart. */
  function RemovePhase(
      h: Host, job: Job, todo: seq<string>, stale: set<string>, additions: set<string>, r: CallReply): (Host, Phase)
    requires todo != []
  {
    if stale == {} then (h, Adding(job, todo, additions))
    else if !HasList(h, todo[0]) then (h, NeedsRestart(job))
    else
      var m := h.live.value.lists[todo[0]];
      var g := WithList(h, todo[0], RemoveFrom(m, stale, r));
      if Acknowledged(stale, stale * r.acted * m.Keys, r.counted) then (g, Adding(job, todo, additions))
      else (g, NeedsRestart(job))
  }

  function AddPhase(h: Host, job: Job, todo: seq<string>, additions: set<string>, r: CallReply): (Host, Phase)
    requires todo != []
  {
    if additions == {} then (h, Syncing(job, todo[1..]))
    else if !HasList(h, todo[0]) || DesiredAccounts(job.config, todo[0]).None? then (h, NeedsRestart(job))
    else
      var m, desired := h.live.value.lists[todo[0]], DesiredAccounts(job.config, todo[0]).value;
      var g := WithList(h, todo[0], AddTo(m, desired, Accepted(m, additions, r)));
      if Acknowledged(additions, Accepted(m, additions, r), r.counted) then (g, Syncing(job, todo[1..]))
      else (g, NeedsRestart(job))
  }

  function RestartPhase(h: Host, job: Job, reply: RestartReply): (Host, Phase) {
    var structural := Structural(job.previous, job.config);
    var r := RestartXray(h, reply);
    if r.ok then (r.host, Finished(job.snap, Applied(true, Method.Restart, true, false, structural)))
    else if job.previous.None? then
      (r.host, Finished(job.snap, Applied(false, Method.Restart, true, false, structural)))
    else (r.host, NeedsUndo(job))
  }

  function WriteBackPhase(h: Host, job: Job, io: WriteIo): (Host, Phase)
    requires job.previous.Some?
  {
    var w := WriteConfig(h, job.previous.value, io);
    if w.ok then (w.host, NeedsSecondRestart(job)) else (w.host, Finished(job.snap, Raised))
  }

  function RestartAgainPhase(h: Host, job: Job, reply: RestartReply): (Host, Phase) {
    (RestartXray(h, reply).host,
     Finished(job.snap, Applied(false, Rollback, true, true, Structural(job.previous, job.config))))
  }

  function Put(s: State, p: Pid, next: (Host, Phase)): State {
    s.(host := next.0, procs := s.procs[p := next.1],
       standing := if next.1.Busy() then None else s.standing)
  }

  // ----- steps of the holder ----------------------------------------------------

  /** The action is the one its phase waits for. */
  predicate Enabled(ph: Phase, a: Action) {
    match (a, ph)
    case (Install(_), Locked(_)) => true
    case (RecordFails, Wrote(_)) => true
    case (Reach, Wrote(_)) => true
    case (Lists(_), Syncing(_, _)) => true
    case (Removes(_), Removing(_, todo, _, _)) => todo != []
    case (Adds(_), Adding(_, todo, _)) => todo != []
    case (Restarts(_), NeedsRestart(_)) => true
    case (WriteBack(_), NeedsUndo(job)) => job.previous.Some?
    case (RestartsAgain(_), NeedsSecondRestart(_)) => true
    case _ => false
  }

  /** The host and the phase it leads to. */
  function NextPhase(h: Host, ph: Phase, a: Action, d: Deployment, accepts: Json -> bool): (Host, Phase)
    requires Enabled(ph, a)
  {
    match a
    case Install(io) => InstallPhase(h, ph.snap, d, accepts, io)
    case RecordFails => (h, Finished(ph.job.snap, Raised))
    case Reach => ReachPhase(h, ph.job, d)
    case Lists(answered) => ListPhase(h, ph.job, ph.todo, answered)
    case Removes(call) => RemovePhase(h, ph.job, ph.todo, ph.stale, ph.additions, call)
    case Adds(call) => AddPhase(h, ph.job, ph.todo, ph.additions, call)
    case Restarts(reply) => RestartPhase(h, ph.job, reply)
    case WriteBack(io) => WriteBackPhase(h, ph.job, io)
    case RestartsAgain(reply) => RestartAgainPhase(h, ph.job, reply)
  }

  // ----- steps of everybody -------------------------------------------------------

  /** A step that is not enabled changes nothing. */
  function Act(s: State, p: Pid, a: Action, d: Deployment, accepts: Json -> bool): State {
    if p !in s.procs then s
    else if Enabled(s.procs[p], a) then Put(s, p, NextPhase(s.host, s.procs[p], a, d, accepts))
    else
      match (a, s.procs[p])
      case (Commit(change, at), Idle) =>
        var m := Mutate(s.rows, s.nextId, change, at);
        if m.Success? then s.(rows := m.value, nextId := NextId(s.nextId, change, m), version := s.version + 1) else s
      case (CommitSweep(at), Idle) =>
        s.(rows := DisableExpired(s.rows, at), version := s.version + 1)
      case (ReadActive(at), Idle) =>
        s.(procs := s.procs[p := HasRead(Snapshot(ActiveUsers(s.rows, at), at, s.version))])
      case (Acquire, HasRead(snap)) =>
        if s.lock.None? then s.(lock := Some(p), procs := s.procs[p := Locked(snap)]) else s
      case (TimeOut, HasRead(_)) =>
        s.(procs := s.procs[p := Idle])
      case (Release, Finished(snap, outcome)) =>
        s.(lock := None, procs := s.procs[p := Idle],
           standing := if Succeeded(outcome) then Some(snap) else s.standing)
      case (Die, _) =>
        s.(lock := if s.lock == Some(p) then None else s.lock, procs := s.procs[p := Idle])
      case (XrayExit, _) => s.(host := s.host.(live := None))
      case (XrayStart, _) => if s.host.live.None? then s.(host := Boot(s.host)) else s
      case _ => s
  }

  /** A running Xray whose structure is not that of the file. */
  predicate Stranded(h: Host) {
    h.live.Some? && h.disk.Holds? && h.live.value.skeleton != Skeleton(h.disk.config)
  }

  /**
   The apply does not break off, by failing to record or to undo, by a refused
   second restart or by dying, while Xray's structure is not that of the file.
   */
  predicate Orderly(s: State, p: Pid, a: Action) {
    match a
    case RecordFails => !Stranded(s.host)
    case WriteBack(io) => io.replaced || !Stranded(s.host)
    case RestartsAgain(reply) => !reply.Refused? || !Stranded(s.host)
    case Die => p in s.procs && s.procs[p].Busy() ==> !Stranded(s.host)
    case _ => true
  }

  function Schedule(s: State, run: seq<(Pid, Action)>, d: Deployment, accepts: Json -> bool): State {
    if run == [] then s
    else Act(Schedule(s, run[..|run| - 1], d, accepts), run[|run| - 1].0, run[|run| - 1].1, d, accepts)
  }

  ghost predicate AllOrderly(s: State, run: seq<(Pid, Action)>, d: Deployment, accepts: Json -> bool) {
    forall k | 0 <= k < |run| :: Orderly(Schedule(s, run[..k], d, accepts), run[k].0, run[k].1)
  }

  lemma PrefixOrderly(s: State, run: seq<(Pid, Action)>, d: Deployment, accepts: Json -> bool)
    requires run != [] && AllOrderly(s, run, d, accepts)
    ensures AllOrderly(s, run[..|run| - 1], d, accepts)
    ensures var n := |run| - 1; Orderly(Schedule(s, run[..n], d, accepts), run[n].0, run[n].1)
  {
    hide Orderly, Schedule;
    var n := |run| - 1;
    forall k | 0 <= k < n ensures Orderly(Schedule(s, run[..n][..k], d, accepts), run[..n][k].0, run[..n][k].1) {
      assert run[..n][..k] == run[..k] && run[..n][k] == run[k];
    }
  }

  // ----- mutual exclusion -------------------------------------------------------

  ghost predicate Exclusive(s: State) {
    forall p | p in s.procs :: s.procs[p].Critical() <==> s.lock == Some(p)
  }

  lemma NextIsCritical(h: Host, ph: Phase, a: Action, d: Deployment, accepts: Json -> bool)
    requires Enabled(ph, a)
    ensures ph.Critical() && NextPhase(h, ph, a, d, accepts).1.Critical()
  {
    hide Rendered, WriteConfig, RestartXray, Structural, Signable, DesiredAccounts, Stale, Additions, Acknowledged;
  }

  lemma ActExclusive(s: State, p: Pid, a: Action, d: Deployment, accepts: Json -> bool)
    requires Exclusive(s)
    ensures Exclusive(Act(s, p, a, d, accepts))
    ensures Act(s, p, a, d, accepts).procs.Keys == s.procs.Keys
  {
    hide NextPhase, Enabled, Boot, Mutate, ActiveUsers, DisableExpired;
    if p in s.procs && Enabled(s.procs[p], a) {
      NextIsCritical(s.host, s.procs[p], a, d, accepts);
    }
  }

  lemma {:induction false} ScheduleExclusive(s: State, run: seq<(Pid, Action)>, d: Deployment, accepts: Json -> bool)
    requires Exclusive(s)
    ensures Exclusive(Schedule(s, run, d, accepts))
  {
    hide Act, Exclusive;
    if run != [] {
      var n := |run| - 1;
      ScheduleExclusive(s, run[..n], d, accepts);
      ActExclusive(Schedule(s, run[..n], d, accepts), run[n].0, run[n].1, d, accepts);
    }
  }

  lemma OthersIdle(s: State, p: Pid, q: Pid)
    requires Exclusive(s) && p in s.procs && q in s.procs && p != q && s.procs[p].Critical()
    ensures !s.procs[q].Critical() && !s.procs[q].Busy() && s.lock == Some(p)
  {
  }

  // ----- what the other steps do -----------------------------------------------------

  /** Neither a step of the holder nor its end, and nothing that happens to Xray. */
  predicate Outside(a: Action) {
    a.Commit? || a.CommitSweep? || a.ReadActive? || a.Acquire? || a.TimeOut?
  }

  lemma WorkIsPut(s: State, p: Pid, a: Action, d: Deployment, accepts: Json -> bool)
    requires p in s.procs && !Outside(a) && !a.Release? && !a.Die? && !a.XrayExit? && !a.XrayStart?
    ensures Act(s, p, a, d, accepts) ==
            if Enabled(s.procs[p], a) then Put(s, p, NextPhase(s.host, s.procs[p], a, d, accepts)) else s
  {
    hide NextPhase, Put;
  }

  lemma ActOutside(s: State, p: Pid, a: Action, d: Deployment, accepts: Json -> bool)
    requires p in s.procs && Outside(a)
    ensures var t := Act(s, p, a, d, accepts);
            && t.host == s.host && t.standing == s.standing
            && p in t.procs && t.procs == s.procs[p := t.procs[p]]
            && (t.procs[p] == s.procs[p] || t.procs[p].Idle? || t.procs[p].HasRead? ||
                (t.procs[p].Locked? && s.lock.None?))
            && (t.lock == s.lock || t.procs[p].Locked?)
  {
    hide NextPhase, Mutate, ActiveUsers, DisableExpired;
  }

  lemma ActRelease(s: State, p: Pid, d: Deployment, accepts: Json -> bool)
    requires p in s.procs
    ensures Act(s, p, Release, d, accepts) ==
            if s.procs[p].Finished? then
              s.(lock := None, procs := s.procs[p := Idle],
                 standing := if Succeeded(s.procs[p].outcome) then Some(s.procs[p].snap) else s.standing)
            else s
  {
    hide NextPhase, Succeeded;
  }

  lemma ActDies(s: State, p: Pid, d: Deployment, accepts: Json -> bool)
    requires p in s.procs
    ensures Act(s, p, Die, d, accepts) ==
            s.(lock := if s.lock == Some(p) then None else s.lock, procs := s.procs[p := Idle])
  {
    hide NextPhase;
  }

  lemma ActOnXray(s: State, p: Pid, a: Action, d: Deployment, accepts: Json -> bool)
    requires p in s.procs && (a.XrayExit? || a.XrayStart?)
    ensures Act(s, p, a, d, accepts) ==
            if a.XrayExit? then s.(host := s.host.(live := None))
            else if s.host.live.None? then s.(host := Boot(s.host)) else s
  {
    hide NextPhase, Boot;
  }

  /** A commit is the account operation or the sweep on the table, and touches nothing else. */
  lemma CommitIsTheOperation(s: State, p: Pid, a: Action, d: Deployment, accepts: Json -> bool)
    requires p in s.procs && s.procs[p].Idle? && (a.Commit? || a.CommitSweep?)
    ensures var t := Act(s, p, a, d, accepts);
            && t.host == s.host && t.lock == s.lock && t.procs == s.procs && t.standing == s.standing
            && (a.CommitSweep? ==> t.rows == DisableExpired(s.rows, a.at) && t.version > s.version)
            && (a.Commit? ==>
                  match Mutate(s.rows, s.nextId, a.change, a.at)
                  case Success(rows) => t.rows == rows && t.version > s.version
                  case Failure(_) => t == s)
  {
    hide Mutate, DisableExpired, NextPhase;
  }

  // ----- what each process read -------------------------------------------------------

  /** A snapshot taken after the last commit is the active list of its reading. */
  ghost predicate Fresh(snap: Snapshot, rows: Rows, version: nat) {
    snap.version <= version && (snap.version == version ==> snap.users == ActiveUsers(rows, snap.at))
  }

  function SnapOf(ph: Phase): Option<Snapshot> {
    match ph
    case Idle => None
    case HasRead(s) => Some(s)
    case Locked(s) => Some(s)
    case Finished(s, _) => Some(s)
    case _ => Some(ph.job.snap)
  }

  ghost predicate AllFresh(s: State) {
    && Table(s.rows, s.nextId)
    && (forall p | p in s.procs && SnapOf(s.procs[p]).Some? :: Fresh(SnapOf(s.procs[p]).value, s.rows, s.version))
    && (s.standing.Some? ==> Fresh(s.standing.value, s.rows, s.version))
  }

  lemma NextKeepsSnap(h: Host, ph: Phase, a: Action, d: Deployment, accepts: Json -> bool)
    requires Enabled(ph, a)
    ensures SnapOf(NextPhase(h, ph, a, d, accepts).1) == SnapOf(ph)
  {
    hide Rendered, WriteConfig, RestartXray, Structural, Signable, DesiredAccounts, Stale, Additions, Acknowledged;
  }

  lemma ActKeepsFresh(s: State, p: Pid, a: Action, d: Deployment, accepts: Json -> bool)
    requires AllFresh(s)
    ensures AllFresh(Act(s, p, a, d, accepts))
  {
    hide Table, Mutate, NextPhase, Boot, Succeeded, DisableExpired, Enabled;
    if p in s.procs {
      if Enabled(s.procs[p], a) {
        NextKeepsSnap(s.host, s.procs[p], a, d, accepts);
      } else {
        match a
        case Commit(change, at) => MutateKeepsTable(s.rows, s.nextId, change, at);
        case CommitSweep(at) => DisableKeepsTable(s.rows, s.nextId, at);
        case _ =>
      }
    }
  }
}
