/** When the loop starts a program, and when it leaves one alone. */
module SupervisorStarts {
  import opened Prelude
  import opened SlidingWindow
  import opened Supervisor
  import opened SupervisorFacts

  /** A pass starts a program that is not running exactly when it is wanted and its restart is due. */
  lemma LoopStartsIff(p: Program, now: real, pid: nat)
    requires !p.Running()
    ensures Ticked(p, now, Some(pid)).0.Running() <==>
            !Reapable(p) && p.desired && p.nextStartAt != 0.0 && now >= p.nextStartAt
  {
    hide Recent;
  }

  /**
   A wanted program that died is reaped by the next pass, and started again by the
   first pass that comes its backoff later, however long that has become.
   */
  lemma CrashIsRestarted(p: Program, now: real, later: real, pid: nat)
    requires Reapable(p) && p.desired && p.backoff >= 1.0 && 0.0 <= now < later
    requires !Ticked(p, now, None).1
    ensures var down := Ticked(p, now, None).0;
            var up := Ticked(down, later, Some(pid));
            && down.process.None? && down.desired && down.lastExitCode == p.process.value.exited && !up.1
            && down.backoff == (if p.backoff * 2.0 <= 30.0 then p.backoff * 2.0 else 30.0)
            && (up.0.Running() <==> later >= now + p.backoff)
            && (up.0.Running() ==> up.0.process == Some(Process(pid, None)) && up.0.nextStartAt == 0.0)
  {
    hide Recent;
    var down := Ticked(p, now, None).0;
    assert down.nextStartAt == now + p.backoff && down.process.None? && down.desired;
    hide CrashNoted;
    LoopStartsIff(down, later, pid);
  }

  /** A start command makes the program wanted and, unless it runs already, a new process or none. */
  lemma StartMeans(s: System, ok: bool)
    requires !s.quit && !s.p.Running()
    ensures var t := Act(s, StartCommand(ok));
            && t.p.desired
            && t.p.process == (if ok then Some(Process(s.nextPid, None)) else None)
            && t.living == (if ok then s.living + {s.nextPid} else s.living)
            && (ok ==> t.nextPid > s.nextPid)
  {
  }

  /** A restart command, with nobody in between, ends with a new process and a fresh start. */
  lemma RestartMeans(s: System, code: int)
    requires !s.quit
    ensures var down := Act(Act(s, StopCommand), Dies(code));
            var t := Act(Act(down, RestartResets), RestartStarts(true));
            && t.p.Running() && t.p.process.value.pid == s.nextPid && t.p.desired
            && t.p.backoff == 1.0 && t.p.nextStartAt == 0.0 && t.p.restarts == s.p.restarts + 1
            && t.pending == s.pending
  {
  }

  /** The exit of a program that is not wanted is noted, and is no crash. */
  lemma UnwantedExitIsNoCrash(p: Program, now: real, spawned: Option<nat>)
    requires Reapable(p) && !p.desired
    ensures Ticked(p, now, spawned) == (p.(process := None, lastExitCode := p.process.value.exited), false)
  {
  }

  /** Crashes the loop has answered and restart commands. */
  function Restarts(s: System, run: seq<Action>): nat {
    if run == [] then 0
    else
      var n := |run| - 1;
      var now := Run(s, run[..n]);
      Restarts(s, run[..n])
      + if !now.quit && (run[n].RestartResets? || (run[n].TickCounts? && now.phase.Counting?)) then 1 else 0
  }

  /** In every interleaving each of them is counted once. */
  lemma {:induction false} RestartsAreCounted(s: System, run: seq<Action>)
    ensures Run(s, run).p.restarts == s.p.restarts + Restarts(s, run)
  {
    hide Act;
    if run != [] {
      var n := |run| - 1;
      RestartsAreCounted(s, run[..n]);
      ActCounts(Run(s, run[..n]), run[n]);
    }
  }

  lemma ActCounts(s: System, a: Action)
    ensures Act(s, a).p.restarts ==
            s.p.restarts + if !s.quit && (a.RestartResets? || (a.TickCounts? && s.phase.Counting?)) then 1 else 0
  {
    hide Recent, GivesUp, Window;
  }

  /** Nobody asks for a start, and the loop is not already about to make one. */
  predicate Unasked(a: Action) {
    !a.StartCommand? && !a.RestartResets?
  }

  ghost predicate Down(s: System) {
    !s.p.desired && s.pending == 0 && !s.phase.Clearing? && !s.phase.Launching?
  }

  lemma ActKeepsDown(s: System, a: Action)
    requires Down(s) && Unasked(a)
    ensures var t := Act(s, a); Down(t) && t.nextPid == s.nextPid && t.living <= s.living
    ensures !s.p.Running() ==> !Act(s, a).p.Running()
  {
    hide Recent, GivesUp, Window;
  }

  /**
   A stopped program stays stopped: whatever the loop and the program's own death
   do in whatever order, it is not started again until somebody asks for it.
   */
  lemma {:induction false} StoppedStaysDown(s: System, run: seq<Action>)
    requires Down(s) && forall k | 0 <= k < |run| :: Unasked(run[k])
    ensures var t := Run(s, run); Down(t) && t.nextPid == s.nextPid && t.living <= s.living
    ensures !s.p.Running() ==> !Run(s, run).p.Running()
  {
    hide Act, Down;
    if run != [] {
      var n := |run| - 1;
      StoppedStaysDown(s, run[..n]);
      ActKeepsDown(Run(s, run[..n]), run[n]);
    }
  }

  /** A stop that comes between the loop's look and its start is undone: the program runs and is wanted again. */
  lemma LateStopIsUndone(s: System)
    requires !s.quit && (s.phase.Clearing? || s.phase.Launching?) && s.p.process.None?
    ensures var t := Run(StopOf(s), LoopGoesOn());
            t.p.Running() && t.p.desired && t.living == s.living + {s.nextPid}
  {
    StopOfIs(s);
    LateStart(StopOf(s));
    hide Act, StopOf;
    var run := LoopGoesOn();
    assert run[..1][..0] == [] && run[..1] == [TickClears] && run == run[..1] + [TickLaunches(true)];
    RunSnoc(StopOf(s), run[..1], TickLaunches(true));
    RunSnoc(StopOf(s), [], TickClears);
    assert [] + [TickClears] == run[..1];
  }

  function StopOf(s: System): System {
    Act(s, StopCommand)
  }

  lemma StopOfIs(s: System)
    requires !s.quit
    ensures StopOf(s) == s.(p := s.p.(desired := false))
  {
  }

  function LoopGoesOn(): seq<Action> {
    [TickClears, TickLaunches(true)]
  }

  lemma LateStart(s: System)
    requires !s.quit && (s.phase.Clearing? || s.phase.Launching?) && s.p.process.None?
    ensures var t := Act(Act(s, TickClears), TickLaunches(true));
            t.p.Running() && t.p.desired && t.living == s.living + {s.nextPid}
  {
  }

  /** A stop holds, until somebody asks for a start, exactly when the loop is not on its way to one. */
  lemma StopHoldsIff(s: System)
    requires !s.quit && s.p.process.None? && s.pending == 0
    ensures (forall run: seq<Action> | (forall k | 0 <= k < |run| :: Unasked(run[k])) ::
               !Run(StopOf(s), run).p.Running())
            <==> !s.phase.Clearing? && !s.phase.Launching?
  {
    if s.phase.Clearing? || s.phase.Launching? {
      LateStopIsUndone(s);
      assert forall k | 0 <= k < |LoopGoesOn()| :: Unasked(LoopGoesOn()[k]);
    } else {
      forall run: seq<Action> | (forall k | 0 <= k < |run| :: Unasked(run[k]))
        ensures !Run(StopOf(s), run).p.Running()
      {
        StoppedStaysDown(StopOf(s), run);
      }
    }
  }
}
