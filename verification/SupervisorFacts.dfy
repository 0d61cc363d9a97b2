/**
 One supervised program under every interleaving of the tick loop, its own
 deaths, and start/stop/restart commands from any number of client threads.
 `restart` is cut between its locked parts and the loop between its statements,
 except that the condition of each branch is read in one step.
 */
module SupervisorFacts {
  import opened Prelude
  import opened SlidingWindow
  import opened Supervisor

  /** Where the loop is inside its tick for this program. */
  datatype Phase =
    | Resting
    | Noting(now: real) | Scheduling(now: real) | Doubling(now: real) | Counting(now: real)
    | Looking(now: real) | Clearing(now: real) | Launching(now: real)

  /**
   `living` is the operating system's view: the pids of this program's live
   processes. `pending` counts restarts between their reset and their start;
   `crashes` is every crash the loop has noted; `quit` is the loop giving up.
   */
  datatype System = System(
    p: Program, living: set<nat>, nextPid: nat, pending: nat, phase: Phase, clock: real,
    crashes: seq<real>, quit: bool)

  datatype Action =
    | Dies(code: int)
    | StartCommand(ok: bool)
    | StopCommand
    | RestartResets
    | RestartStarts(ok: bool)
    | TickBegins(now: real)
    | TickNotes
    | TickSchedules
    | TickDoubles
    | TickCounts
    | TickLooks
    | TickClears
    | TickLaunches(ok: bool)

  /** `Program.start` as the operating system sees it. */
  function Launch(s: System, ok: bool): System {
    var p := Started(s.p, if ok then Some(s.nextPid) else None);
    if s.p.Running() || !ok then s.(p := p)
    else s.(p := p, living := s.living + {s.nextPid}, nextPid := s.nextPid + 1)
  }

  /** An action that is not enabled changes nothing; after giving up, nothing is. */
  function Act(s: System, a: Action): System {
    if s.quit then s
    else
      match a
      case Dies(code) =>
        if s.p.Running() then
          s.(p := s.p.(process := Some(s.p.process.value.(exited := Some(code)))),
             living := s.living - {s.p.process.value.pid})
        else s
      case StartCommand(ok) => Launch(s, ok)
      case StopCommand => s.(p := StopRequested(s.p))
      case RestartResets => s.(p := ResetForRestart(s.p), pending := s.pending + 1)
      case RestartStarts(ok) => if s.pending > 0 then Launch(s.(pending := s.pending - 1), ok) else s
      case TickBegins(now) =>
        if !s.phase.Resting? || now <= s.clock then s
        else if Reapable(s.p) then s.(p := Reaped(s.p), phase := Noting(now), clock := now)
        else s.(phase := Looking(now), clock := now)
      case TickNotes =>
        if !s.phase.Noting? then s
        else if !s.p.desired then s.(phase := Resting)
        else
          s.(p := s.p.(recentCrashes := Window(s.p, s.phase.now)), crashes := s.crashes + [s.phase.now],
             quit := GivesUp(s.p, s.phase.now),
             phase := if GivesUp(s.p, s.phase.now) then Resting else Scheduling(s.phase.now))
      case TickSchedules =>
        if !s.phase.Scheduling? then s
        else s.(p := s.p.(nextStartAt := s.phase.now + s.p.backoff), phase := Doubling(s.phase.now))
      case TickDoubles =>
        if !s.phase.Doubling? then s
        else s.(p := s.p.(backoff := Doubled(s.p.backoff)), phase := Counting(s.phase.now))
      case TickCounts =>
        if !s.phase.Counting? then s
        else s.(p := s.p.(restarts := s.p.restarts + 1), phase := Resting)
      case TickLooks =>
        if !s.phase.Looking? then s
        else if Due(s.p, s.phase.now) then s.(phase := Clearing(s.phase.now))
        else s.(p := Settled(s.p), phase := Resting)
      case TickClears =>
        if !s.phase.Clearing? then s
        else s.(p := s.p.(nextStartAt := 0.0), phase := Launching(s.phase.now))
      case TickLaunches(ok) => if s.phase.Launching? then Launch(s, ok).(phase := Resting) else s
  }

  function Run(s: System, run: seq<Action>): System {
    if run == [] then s else Act(Run(s, run[..|run| - 1]), run[|run| - 1])
  }

  /** Right after `run` has started the program; it does not look at whether the spawn worked. */
  function Booted(critical: bool, ok: bool): System {
    Launch(System(Program(critical, None, true, 0, None, 1.0, 0.0, []), {}, 0, 0, Resting, 0.0, [], false), ok)
  }

  predicate SpawnsWork(a: Action) {
    match a
    case StartCommand(ok) => ok
    case RestartStarts(ok) => ok
    case TickLaunches(ok) => ok
    case _ => true
  }

  // ----- an uninterrupted tick ----------------------------------------------------

  /** The cut-up tick, with nobody in between, is the loop body. */
  lemma TickUninterrupted(s: System, now: real, ok: bool)
    requires !s.quit && s.phase.Resting? && now > s.clock
    ensures var t := Ticked(s.p, now, if ok then Some(s.nextPid) else None);
            var noted := Act(Act(Act(Act(Act(s, TickBegins(now)), TickNotes), TickSchedules), TickDoubles), TickCounts);
            var end := Act(Act(Act(noted, TickLooks), TickClears), TickLaunches(ok));
            end.p == t.0 && end.quit == t.1 && end.phase.Resting?
  {
    hide Recent;
    var s1 := Act(s, TickBegins(now));
    var s2 := Act(s1, TickNotes);
    var s3 := Act(s2, TickSchedules);
    var s4 := Act(s3, TickDoubles);
    var s5 := Act(s4, TickCounts);
    if Reapable(s.p) {
      ReapedPart(s, now);
      RestingStays(s5, ok);
    } else {
      assert s1.phase.Looking? && s2 == s3 == s4 == s5 == s1;
      LookingPart(s1, ok);
    }
    hide Act, Ticked;
  }

  lemma RestingStays(s: System, ok: bool)
    requires s.phase.Resting?
    ensures Act(Act(Act(s, TickLooks), TickClears), TickLaunches(ok)) == s
  {
  }

  lemma ReapedPart(s: System, now: real)
    requires !s.quit && s.phase.Resting? && now > s.clock && Reapable(s.p)
    ensures var noted := Act(Act(Act(Act(Act(s, TickBegins(now)), TickNotes), TickSchedules), TickDoubles), TickCounts);
            (noted.p, noted.quit) == Ticked(s.p, now, None) && noted.phase.Resting?
  {
    hide Recent;
    var s1 := Act(s, TickBegins(now));
    var s2 := Act(s1, TickNotes);
    assert s1.p == Reaped(s.p) && s1.phase == Noting(now) && !s1.quit;
    if s1.p.desired {
      assert s2.quit == GivesUp(s1.p, now);
      if !s2.quit {
        var s3 := Act(s2, TickSchedules);
        var s4 := Act(s3, TickDoubles);
        assert s4.p.backoff == Doubled(s1.p.backoff) && s4.p.nextStartAt == now + s1.p.backoff;
      }
    }
  }

  lemma LookingPart(s: System, ok: bool)
    requires !s.quit && s.phase.Looking? && !Reapable(s.p)
    ensures var end := Act(Act(Act(s, TickLooks), TickClears), TickLaunches(ok));
            (end.p, end.quit) == Ticked(s.p, s.phase.now, if ok then Some(s.nextPid) else None) && end.phase.Resting?
  {
    hide Recent;
    var s1 := Act(s, TickLooks);
    var s2 := Act(s1, TickClears);
    if Due(s.p, s.phase.now) {
      assert s2.phase.Launching? && s2.p == s.p.(nextStartAt := 0.0);
    } else {
      assert s2 == s1 && s1.phase.Resting?;
    }
  }

  // ----- never two processes --------------------------------------------------------

  ghost predicate OneProcess(s: System) {
    && s.living == (if s.p.Running() then {s.p.process.value.pid} else {})
    && (s.p.process.Some? ==> s.p.process.value.pid < s.nextPid)
  }

  // ----- a wanted, reaped program is scheduled --------------------------------------

  /** Every scheduled moment is within reach of the clock. */
  ghost predicate Clocked(s: System) {
    && 0.0 <= s.clock && 1.0 <= s.p.backoff <= MAX_BACKOFF
    && (!s.phase.Resting? ==> s.phase.now == s.clock && s.clock > 0.0)
    && 0.0 <= s.p.nextStartAt <= s.clock + MAX_BACKOFF
  }

  /** A wanted program without a process is about to be started or has a restart scheduled. */
  ghost predicate Scheduled(s: System) {
    && Clocked(s)
    && (s.p.desired && s.p.process.None? && !s.quit ==>
          || s.pending > 0 || s.phase.Noting? || s.phase.Scheduling? || s.phase.Clearing? || s.phase.Launching?
          || 0.0 < s.p.nextStartAt)
  }

  /** This action writes down a restart. */
  predicate Schedules(s: System, a: Action) {
    a.TickSchedules? && s.phase.Scheduling? && !s.quit
  }

  /** This action takes a scheduled restart back: the loop is about to start it, or a command restarts. */
  predicate Unschedules(s: System, a: Action) {
    !s.quit && ((a.TickClears? && s.phase.Clearing?) || a.RestartResets?)
  }

  /** Action `i` of the run wrote down a restart, and no later one took it back. */
  ghost predicate Outstanding(s: System, run: seq<Action>, i: nat) {
    && i < |run| && Schedules(Run(s, run[..i]), run[i])
    && forall j | i < j < |run| :: !Unschedules(Run(s, run[..j]), run[j])
  }

  // ----- the crash window ------------------------------------------------------------

  /** Any five consecutive crashes span at least the window. */
  ghost predicate Apart(crashes: seq<real>) {
    forall i, j | 0 <= i && j == i + 4 && j < |crashes| :: crashes[j] - crashes[i] >= 120.0
  }

  ghost predicate Windowed(recent: seq<real>, crashes: seq<real>, clock: real) {
    && |recent| <= |crashes| && crashes[|crashes| - |recent|..] == recent
    && Sorted(crashes) && (forall i | 0 <= i < |crashes| :: crashes[i] <= clock)
    && forall i | 0 <= i < |crashes| - |recent| :: clock - crashes[i] >= CRASH_WINDOW
  }

  ghost predicate Counted(s: System) {
    && Windowed(s.p.recentCrashes, s.crashes, s.clock)
    && (s.phase.Noting? ==> s.phase.now == s.clock)
    && (s.p.critical ==> (s.quit <==> !Apart(s.crashes)))
    && (!s.p.critical ==> !s.quit)
    && (s.p.critical && !s.quit ==> |s.p.recentCrashes| < CRASH_LIMIT)
    && (s.quit ==> s.crashes != [] && Apart(s.crashes[..|s.crashes| - 1]))
  }

  /** What the loop keeps of its crash list is the tail inside the window. */
  lemma KeptWindow(recent: seq<real>, crashes: seq<real>, now: real)
    requires Windowed(recent, crashes, now)
    ensures var kept := Recent(recent, now, CRASH_WINDOW);
            && |kept| <= |crashes| && crashes[|crashes| - |kept|..] == kept
            && forall i | 0 <= i < |crashes| :: now - crashes[i] < CRASH_WINDOW <==> i >= |crashes| - |kept|
  {
    var n := |crashes|;
    assert forall i | n - |recent| <= i < n :: crashes[i] == recent[i - (n - |recent|)];
    RecentIsTail(recent, now, CRASH_WINDOW);
    RecentAreRecent(recent, now, CRASH_WINDOW);
    var kept := Recent(recent, now, CRASH_WINDOW);
    hide Recent;
    TailOfTail(crashes, recent, kept);
    assert forall i | n - |kept| <= i < n :: crashes[i] == kept[i - (n - |kept|)];
  }

  lemma NotedWindow(recent: seq<real>, crashes: seq<real>, now: real)
    requires Windowed(recent, crashes, now)
    ensures var window := Recent(recent, now, CRASH_WINDOW) + [now];
            && Windowed(window, crashes + [now], now)
            && forall i | |crashes| + 1 - |window| <= i < |crashes| :: now - crashes[i] < CRASH_WINDOW
  {
    hide Recent;
    KeptWindow(recent, crashes, now);
    var kept := Recent(recent, now, CRASH_WINDOW);
    var all := crashes + [now];
    assert all[|crashes| - |kept|..] == kept + [now];
    assert forall i | 0 <= i < |crashes| :: all[i] == crashes[i];
  }

  /** The loop gives up exactly when five crashes would fit in the window. */
  lemma GivesUpExactly(crashes: seq<real>, window: seq<real>, now: real)
    requires Apart(crashes) && Windowed(window, crashes + [now], now)
    requires forall i | |crashes| + 1 - |window| <= i < |crashes| :: now - crashes[i] < CRASH_WINDOW
    ensures |window| >= CRASH_LIMIT <==> !Apart(crashes + [now])
  {
    var all, n := crashes + [now], |crashes|;
    if |window| >= CRASH_LIMIT {
      assert now - crashes[n - 4] < CRASH_WINDOW;
      assert all[n] - all[n - 4] < CRASH_WINDOW;
    } else {
      forall i, j | 0 <= i && j == i + 4 && j < |all| ensures all[j] - all[i] >= 120.0 {
        if j == n { assert i < |all| - |window|; }
      }
    }
  }

  // ----- every interleaving ------------------------------------------------------------

  lemma ActKeepsOneProcess(s: System, a: Action)
    requires OneProcess(s)
    ensures OneProcess(Act(s, a))
  {
    hide Recent;
  }

  lemma ActKeepsScheduled(s: System, a: Action)
    requires Scheduled(s) && SpawnsWork(a)
    ensures Scheduled(Act(s, a))
  {
    hide Recent;
  }

  lemma ActKeepsCounted(s: System, a: Action)
    requires Counted(s)
    ensures Counted(Act(s, a))
  {
    if a.TickNotes? && s.phase.Noting? && s.p.desired && !s.quit {
      var now := s.clock;
      NotedWindow(s.p.recentCrashes, s.crashes, now);
      var window := Window(s.p, now);
      if s.p.critical { GivesUpExactly(s.crashes, window, now); }
      var t := Act(s, a);
      assert t.crashes[..|t.crashes| - 1] == s.crashes;
      assert t.p.recentCrashes == window && t.p.critical == s.p.critical && t.clock == now;
      hide Recent, Windowed, Apart;
    } else {
      QuietCounted(s, a);
    }
  }

  lemma QuietCounted(s: System, a: Action)
    requires Counted(s) && !(a.TickNotes? && s.phase.Noting? && s.p.desired && !s.quit)
    ensures Counted(Act(s, a))
  {
    hide Apart, Recent;
    var t := Act(s, a);
    assert t.crashes == s.crashes && t.p.recentCrashes == s.p.recentCrashes && t.clock >= s.clock;
    assert t.quit == s.quit && t.p.critical == s.p.critical;
  }

  /** In every interleaving the program has at most one live process. */
  lemma {:induction false} NeverTwoProcesses(critical: bool, ok: bool, run: seq<Action>)
    ensures |Run(Booted(critical, ok), run).living| <= 1
    ensures OneProcess(Run(Booted(critical, ok), run))
  {
    if run != [] {
      hide Act, Booted;
      NeverTwoProcesses(critical, ok, run[..|run| - 1]);
      ActKeepsOneProcess(Run(Booted(critical, ok), run[..|run| - 1]), run[|run| - 1]);
    }
  }

  lemma ActKeepsClocked(s: System, a: Action)
    requires Clocked(s)
    ensures Clocked(Act(s, a))
    ensures s.clock <= Act(s, a).clock
  {
    hide Recent, GivesUp, Window;
  }

  lemma {:induction false} RunClocked(critical: bool, ok: bool, run: seq<Action>)
    ensures Clocked(Run(Booted(critical, ok), run))
  {
    if run != [] {
      hide Act, Booted, Clocked;
      RunClocked(critical, ok, run[..|run| - 1]);
      ActKeepsClocked(Run(Booted(critical, ok), run[..|run| - 1]), run[|run| - 1]);
    }
  }

  lemma {:induction false} RunScheduled(critical: bool, run: seq<Action>)
    requires forall k | 0 <= k < |run| :: SpawnsWork(run[k])
    ensures Scheduled(Run(Booted(critical, true), run))
  {
    if run != [] {
      hide Act, Booted, Scheduled;
      RunScheduled(critical, run[..|run| - 1]);
      ActKeepsScheduled(Run(Booted(critical, true), run[..|run| - 1]), run[|run| - 1]);
    }
  }

  /**
   In every interleaving in which spawns succeed, at the end of each tick a
   wanted program that has been reaped has a restart at most 30 s ahead, unless
   a restart command is about to start it.
   */
  lemma ReapedIsScheduled(critical: bool, run: seq<Action>)
    requires forall k | 0 <= k < |run| :: SpawnsWork(run[k])
    ensures var s := Run(Booted(critical, true), run);
            s.phase.Resting? && !s.quit && s.pending == 0 && s.p.desired && s.p.process.None? ==>
              0.0 < s.p.nextStartAt <= s.clock + 30.0
  {
    RunScheduled(critical, run);
    hide Run, Booted;
  }

  // ----- failing spawns ------------------------------------------------------------------

  lemma ActSchedules(s: System, a: Action)
    requires Clocked(s)
    ensures Act(s, a).p.nextStartAt > 0.0 <==> Schedules(s, a) || (s.p.nextStartAt > 0.0 && !Unschedules(s, a))
  {
    hide Recent, GivesUp, Window;
  }

  lemma OutstandingSnoc(s: System, run: seq<Action>, i: nat)
    requires run != []
    ensures var n := |run| - 1; var now := Run(s, run[..n]);
            Outstanding(s, run, i) <==>
              if i < n then Outstanding(s, run[..n], i) && !Unschedules(now, run[n])
              else i == n && Schedules(now, run[n])
  {
    hide Run, Schedules, Unschedules;
    var n := |run| - 1;
    assert forall j | 0 <= j < n :: run[..n][..j] == run[..j] && run[..n][j] == run[j];
  }

  lemma {:induction false} NextStartTells(critical: bool, ok: bool, run: seq<Action>)
    ensures Run(Booted(critical, ok), run).p.nextStartAt > 0.0
      <==> exists i: nat :: Outstanding(Booted(critical, ok), run, i)
  {
    var b := Booted(critical, ok);
    if run != [] {
      hide Act, Booted, Clocked, Schedules, Unschedules, Outstanding;
      var n := |run| - 1;
      var now := Run(b, run[..n]);
      NextStartTells(critical, ok, run[..n]);
      RunClocked(critical, ok, run[..n]);
      ActSchedules(now, run[n]);
      forall i: nat ensures Outstanding(b, run, i) <==>
        if i < n then Outstanding(b, run[..n], i) && !Unschedules(now, run[n]) else i == n && Schedules(now, run[n])
      {
        OutstandingSnoc(b, run, i);
      }
      forall i: nat | Outstanding(b, run[..n], i) ensures i < n {
        OutstandingBound(b, run[..n], i);
      }
      if Schedules(now, run[n]) {
        assert Outstanding(b, run, n);
      }
    }
  }

  lemma OutstandingBound(s: System, run: seq<Action>, i: nat)
    requires Outstanding(s, run, i)
    ensures i < |run|
  {
  }

  /**
   In every interleaving, failing spawns included, a restart is scheduled, and
   then at most 30 s ahead, exactly when the last one the loop wrote down has
   neither been taken up by the loop nor replaced by a restart command. Without
   one, a wanted program that has no process waits for a command.
   */
  lemma ScheduledIff(critical: bool, ok: bool, run: seq<Action>)
    ensures var s := Run(Booted(critical, ok), run);
            0.0 < s.p.nextStartAt <= s.clock + 30.0 <==> exists i: nat :: Outstanding(Booted(critical, ok), run, i)
  {
    RunClocked(critical, ok, run);
    NextStartTells(critical, ok, run);
    hide Run, Booted, Outstanding;
  }

  /** A failed spawn is never tried again. */
  lemma FailedSpawnIsForgotten(now: real, later: real)
    requires 1.0 <= now && now + 2.0 <= later
    ensures var run := Forgetting(now, later);
            var s := Run(Booted(false, true), run);
            && s.phase.Resting? && !s.quit && s.p.desired && s.p.process.None? && s.p.nextStartAt == 0.0
            && !exists i: nat :: Outstanding(Booted(false, true), run, i)
  {
    hide Act, Booted, Outstanding, Run, Forgetting;
    var b, run := Booted(false, true), Forgetting(now, later);
    NextStartTells(false, true, run);
    ForgettingSteps(now, later);
    TenActs(b, run);
  }

  lemma ForgettingSteps(now: real, later: real)
    requires 1.0 <= now && now + 2.0 <= later
    ensures var s3 := Act(Act(Act(Booted(false, true), Dies(1)), TickBegins(now)), TickNotes);
            var s6 := Act(Act(Act(s3, TickSchedules), TickDoubles), TickCounts);
            var s := Act(Act(Act(Act(s6, TickBegins(later)), TickLooks), TickClears), TickLaunches(false));
            s.phase.Resting? && !s.quit && s.p.desired && s.p.process.None? && s.p.nextStartAt == 0.0
    ensures var run := Forgetting(now, later);
            && |run| == 10 && run[0] == Dies(1) && run[1] == TickBegins(now) && run[2] == TickNotes
            && run[3] == TickSchedules && run[4] == TickDoubles && run[5] == TickCounts && run[6] == TickBegins(later)
            && run[7] == TickLooks && run[8] == TickClears && run[9] == TickLaunches(false)
  {
    var s3 := Act(Act(Act(Booted(false, true), Dies(1)), TickBegins(now)), TickNotes);
    var s6 := Act(Act(Act(s3, TickSchedules), TickDoubles), TickCounts);
    assert s6.p.nextStartAt == now + 1.0 && s6.p.desired && s6.p.process.None? && s6.phase.Resting?;
  }

  lemma TenActs(s: System, run: seq<Action>)
    requires |run| == 10
    ensures Run(s, run) == Act(Act(Act(Act(AfterSix(s, run), run[6]), run[7]), run[8]), run[9])
  {
    hide Act;
    assert forall k | 0 <= k < 10 :: run[..k] + [run[k]] == run[..k + 1];
    RunSnoc(s, run[..0], run[0]);
    RunSnoc(s, run[..1], run[1]);
    RunSnoc(s, run[..2], run[2]);
    RunSnoc(s, run[..3], run[3]);
    RunSnoc(s, run[..4], run[4]);
    RunSnoc(s, run[..5], run[5]);
    RunSnoc(s, run[..6], run[6]);
    RunSnoc(s, run[..7], run[7]);
    RunSnoc(s, run[..8], run[8]);
    RunSnoc(s, run[..9], run[9]);
    assert Run(s, run[..0]) == s;
    hide Run;
    assert run[..10] == run;
  }

  function AfterSix(s: System, run: seq<Action>): System
    requires |run| > 5
  {
    Act(Act(Act(Act(Act(Act(s, run[0]), run[1]), run[2]), run[3]), run[4]), run[5])
  }

  /** A crash, a tick that schedules the restart, and a later tick whose spawn fails. */
  function Forgetting(now: real, later: real): seq<Action> {
    [Dies(1), TickBegins(now), TickNotes, TickSchedules, TickDoubles, TickCounts,
     TickBegins(later), TickLooks, TickClears, TickLaunches(false)]
  }

  lemma RunSnoc(s: System, run: seq<Action>, a: Action)
    ensures Run(s, run + [a]) == Act(Run(s, run), a)
  {
    hide Act;
    assert (run + [a])[..|run|] == run;
  }

  lemma BootedCounted(critical: bool, ok: bool)
    ensures Counted(Booted(critical, ok)) && Booted(critical, ok).p.critical == critical
  {
  }

  lemma {:induction false} RunCounted(critical: bool, ok: bool, run: seq<Action>)
    ensures Counted(Run(Booted(critical, ok), run))
    ensures Run(Booted(critical, ok), run).p.critical == critical
  {
    hide Act, Booted, Counted;
    BootedCounted(critical, ok);
    if run != [] {
      RunCounted(critical, ok, run[..|run| - 1]);
      ActKeepsCounted(Run(Booted(critical, ok), run[..|run| - 1]), run[|run| - 1]);
      KeepsCritical(Run(Booted(critical, ok), run[..|run| - 1]), run[|run| - 1]);
    }
  }

  lemma KeepsCritical(s: System, a: Action)
    ensures Act(s, a).p.critical == s.p.critical
  {
    hide Recent;
  }

  /**
   A critical program: while the loop runs, any five consecutive noted crashes
   span at least 120 s, and it gives up exactly at the crash where that first
   would fail. A program that is not critical never makes it give up.
   */
  lemma GivesUpIffFiveInWindow(critical: bool, ok: bool, run: seq<Action>)
    ensures var s := Run(Booted(critical, ok), run);
            && (critical ==> (s.quit <==> !Apart(s.crashes)))
            && (s.quit ==> critical && s.crashes != [] && Apart(s.crashes[..|s.crashes| - 1]))
  {
    RunCounted(critical, ok, run);
    hide Run, Windowed, Apart, Booted;
  }

  // ----- the backoff -------------------------------------------------------------------

  function Pow2(n: nat): nat {
    if n == 0 then 1 else 2 * Pow2(n - 1)
  }

  /** The loop found the program running and resets its backoff. */
  predicate Settles(s: System, a: Action) {
    a.TickLooks? && s.phase.Looking? && s.p.Running() && !s.quit
  }

  /** Doublings since the last restart command or settled tick. */
  function Doublings(s: System, run: seq<Action>): nat {
    if run == [] then 0
    else
      var n := |run| - 1;
      var now, k := Run(s, run[..n]), Doublings(s, run[..n]);
      if (run[n].RestartResets? && !now.quit) || Settles(now, run[n]) then 0
      else if run[n].TickDoubles? && now.phase.Doubling? && !now.quit then k + 1
      else k
  }

  function Backoff(k: nat): real {
    if Pow2(k) <= 30 then Pow2(k) as real else 30.0
  }

  lemma ActBacksOff(s: System, a: Action, k: nat)
    requires Clocked(s) && s.p.backoff == Backoff(k)
    ensures Act(s, a).p.backoff ==
            if (a.RestartResets? && !s.quit) || Settles(s, a) then 1.0
            else if a.TickDoubles? && s.phase.Doubling? && !s.quit then Backoff(k + 1)
            else Backoff(k)
    ensures Schedules(s, a) ==> Act(s, a).p.nextStartAt == s.phase.now + Backoff(k)
  {
    hide Recent, GivesUp, Window;
    assert Doubled(Backoff(k)) == Backoff(k + 1);
    hide Backoff;
  }

  /**
   In every interleaving the backoff after k doublings since it was last reset
   is min(2^k, 30), for critical and other programs alike; and a crash is
   answered by a restart that much ahead.
   */
  lemma {:induction false} BackoffIsExponential(critical: bool, ok: bool, run: seq<Action>)
    ensures var s := Run(Booted(critical, ok), run);
            s.p.backoff == Backoff(Doublings(Booted(critical, ok), run))
    ensures var b := Booted(critical, ok);
            run != [] ==>
              var before := Run(b, run[..|run| - 1]);
              Schedules(before, run[|run| - 1]) ==>
                Run(b, run).p.nextStartAt == before.phase.now + Backoff(Doublings(b, run[..|run| - 1]))
  {
    assert Backoff(0) == 1.0;
    if run != [] {
      hide Act, Booted, Backoff, Clocked, Settles, Schedules;
      var n := |run| - 1;
      var b := Booted(critical, ok);
      BackoffIsExponential(critical, ok, run[..n]);
      RunClocked(critical, ok, run[..n]);
      ActBacksOff(Run(b, run[..n]), run[n], Doublings(b, run[..n]));
    }
  }
}
