/**
 The process supervisor (scripts/supervisor.py): a program's lifecycle, the tick
 loop with its backoff and crash window, and the control commands.
 */
module Supervisor {
  import opened Prelude
  import opened SlidingWindow

  const CRASH_LIMIT := 5
  const CRASH_WINDOW := 120.0
  const MAX_BACKOFF := 30.0

  /** A `Popen` handle: its pid, and its exit code once the process has died. */
  datatype Process = Process(pid: nat, exited: Option<int>)

  datatype Program = Program(
    critical: bool, process: Option<Process>, desired: bool, restarts: nat, lastExitCode: Option<int>,
    backoff: real, nextStartAt: real, recentCrashes: seq<real>)
  {
    predicate Running() {
      process.Some? && process.value.exited.None?
    }
  }

  /** `spawned` is the new pid, or `None` when `Popen` raises. */
  function Started(p: Program, spawned: Option<nat>): Program {
    if p.Running() then p
    else p.(desired := true, process := if spawned.Some? then Some(Process(spawned.value, None)) else None)
  }

  function StopRequested(p: Program): Program {
    p.(desired := false)
  }

  /** The part of `restart` between stopping and starting. */
  function ResetForRestart(p: Program): Program {
    p.(backoff := 1.0, nextStartAt := 0.0, restarts := p.restarts + 1)
  }

  predicate Reapable(p: Program) {
    p.process.Some? && p.process.value.exited.Some?
  }

  function Reaped(p: Program): Program
    requires Reapable(p)
  {
    p.(lastExitCode := p.process.value.exited, process := None)
  }

  function Doubled(backoff: real): real {
    if backoff * 2.0 <= MAX_BACKOFF then backoff * 2.0 else MAX_BACKOFF
  }

  function Window(p: Program, now: real): seq<real> {
    Recent(p.recentCrashes, now, CRASH_WINDOW) + [now]
  }

  predicate GivesUp(p: Program, now: real) {
    p.critical && |Window(p, now)| >= CRASH_LIMIT
  }

  /** What the loop does about a wanted program it has just reaped. */
  function CrashNoted(p: Program, now: real): Program {
    var noted := p.(recentCrashes := Window(p, now));
    if GivesUp(p, now) then noted
    else noted.(nextStartAt := now + p.backoff, backoff := Doubled(p.backoff), restarts := p.restarts + 1)
  }

  predicate Due(p: Program, now: real) {
    p.desired && !p.Running() && p.nextStartAt != 0.0 && now >= p.nextStartAt
  }

  function Settled(p: Program): Program {
    if p.Running() && p.backoff > 1.0 then p.(backoff := 1.0) else p
  }

  /** One program's share of a tick; the flag says the loop gives up. */
  function Ticked(p: Program, now: real, spawned: Option<nat>): (Program, bool) {
    if Reapable(p) then
      var r := Reaped(p);
      if !r.desired then (r, false) else (CrashNoted(r, now), GivesUp(r, now))
    else if Due(p, now) then (Started(p.(nextStartAt := 0.0), spawned), false)
    else (Settled(p), false)
  }

  // ----- the objects --------------------------------------------------------------

  class ProgramObject {
    const critical: bool
    var process: Option<Process>
    var desired: bool
    var restarts: nat
    var lastExitCode: Option<int>
    var backoff: real
    var nextStartAt: real
    var recentCrashes: seq<real>

    ghost function State(): Program
      reads this
    {
      Program(critical, process, desired, restarts, lastExitCode, backoff, nextStartAt, recentCrashes)
    }

    constructor (critical: bool)
      ensures State() == Program(critical, None, true, 0, None, 1.0, 0.0, [])
    {
      this.critical := critical;
      process, desired, restarts, lastExitCode := None, true, 0, None;
      backoff, nextStartAt, recentCrashes := 1.0, 0.0, [];
    }

    method Start(spawned: Option<nat>) returns (ok: bool)
      modifies this
      ensures State() == Started(old(State()), spawned)
      ensures ok <==> State().Running()
    {
      if process.Some? && process.value.exited.None? { return true; }
      desired := true;
      match spawned
      case Some(pid) =>
        process := Some(Process(pid, None));
        return true;
      case None =>
        process := None;
        return false;
    }

    method Stop()
      modifies this
      ensures State() == StopRequested(old(State()))
    {
      desired := false;
    }

    method Reset()
      modifies this
      ensures State() == ResetForRestart(old(State()))
    {
      backoff, nextStartAt := 1.0, 0.0;
      restarts := restarts + 1;
    }

    method Reap() returns (died: bool)
      modifies this
      ensures died <==> Reapable(old(State()))
      ensures State() == if died then Reaped(old(State())) else old(State())
    {
      if process.None? || process.value.exited.None? { return false; }
      lastExitCode := process.value.exited;
      process := None;
      return true;
    }

    method Tick(now: real, spawned: Option<nat>) returns (giveUp: bool)
      modifies this
      ensures (State(), giveUp) == Ticked(old(State()), now, spawned)
    {
      hide Recent;
      var died := Reap();
      if died {
        if !desired { return false; }
        recentCrashes := Recent(recentCrashes, now, CRASH_WINDOW) + [now];
        if critical && |recentCrashes| >= CRASH_LIMIT { return true; }
        nextStartAt := now + backoff;
        backoff := if backoff * 2.0 <= MAX_BACKOFF then backoff * 2.0 else MAX_BACKOFF;
        restarts := restarts + 1;
      } else if desired && !(process.Some? && process.value.exited.None?) && nextStartAt != 0.0 && now >= nextStartAt {
        nextStartAt := 0.0;
        var _ := Start(spawned);
      } else if process.Some? && process.value.exited.None? && backoff > 1.0 {
        backoff := 1.0;
      }
      return false;
    }
  }

  /** The programs up to the one that makes the loop give up, each ticked once. */
  function TickedAll(ps: seq<Program>, now: real, spawned: seq<Option<nat>>): (seq<Program>, bool)
    requires |spawned| == |ps|
  {
    if ps == [] then ([], false)
    else
      var first := Ticked(ps[0], now, spawned[0]);
      if first.1 then ([first.0] + ps[1..], true)
      else
        var rest := TickedAll(ps[1..], now, spawned[1..]);
        ([first.0] + rest.0, rest.1)
  }

  class SupervisorObject {
    const programs: seq<ProgramObject>
    var shuttingDown: bool
    var exitCode: int

    ghost predicate Valid() {
      forall i, j | 0 <= i < j < |programs| :: programs[i] != programs[j]
    }

    /** The programs' states are these, in order. */
    ghost predicate Are(states: seq<Program>)
      reads programs
    {
      |states| == |programs| && forall i | 0 <= i < |programs| :: programs[i].State() == states[i]
    }

    constructor (programs: seq<ProgramObject>)
      ensures this.programs == programs && !shuttingDown && exitCode == 0
    {
      this.programs, shuttingDown, exitCode := programs, false, 0;
    }

    /** The loop body for one program leaves the others alone. */
    method TickOne(k: nat, now: real, spawned: Option<nat>, ghost states: seq<Program>) returns (giveUp: bool)
      requires Valid() && k < |programs| && Are(states)
      modifies programs[k]
      ensures giveUp == Ticked(states[k], now, spawned).1
      ensures Are(states[k := Ticked(states[k], now, spawned).0])
    {
      hide Ticked;
      giveUp := programs[k].Tick(now, spawned);
    }

    /** One pass of the loop in `run`. */
    method Tick(now: real, spawned: seq<Option<nat>>, ghost before: seq<Program>)
      requires Valid() && !shuttingDown && |spawned| == |programs| && Are(before)
      modifies this, programs
      ensures Are(TickedAll(before, now, spawned).0)
      ensures shuttingDown == TickedAll(before, now, spawned).1
      ensures exitCode == if shuttingDown then 1 else old(exitCode)
    {
      var giveUp := TickPrograms(now, spawned, before);
      if giveUp {
        GiveUp(TickedAll(before, now, spawned).0);
      }
    }

    method TickPrograms(now: real, spawned: seq<Option<nat>>, ghost before: seq<Program>) returns (giveUp: bool)
      requires Valid() && |spawned| == |programs| && Are(before)
      modifies programs
      ensures Are(TickedAll(before, now, spawned).0)
      ensures giveUp == TickedAll(before, now, spawned).1
    {
      SameCount(before);
      hide Ticked, TickedAll, Partly, Are;
      ghost var states := before;
      PartlyStarts(before, now, spawned);
      giveUp := false;
      var k := 0;
      while k < |programs| && !giveUp
        invariant 0 <= k <= |programs| && Are(states)
        invariant if giveUp then TickedAll(before, now, spawned) == (states, true)
                  else Partly(before, now, spawned, k, states)
        decreases |programs| - k
      {
        PartlyNext(before, now, spawned, k, states);
        giveUp := TickOne(k, now, spawned[k], states);
        states := states[k := Ticked(states[k], now, spawned[k]).0];
        k := k + 1;
      }
      if !giveUp {
        PartlyEnds(before, now, spawned, states);
      }
    }

    lemma SameCount(states: seq<Program>)
      requires Are(states)
      ensures |states| == |programs|
    {
    }

    method GiveUp(ghost states: seq<Program>)
      requires Are(states)
      modifies this
      ensures Are(states) && shuttingDown && exitCode == 1
    {
      exitCode, shuttingDown := 1, true;
    }
  }

  /** The first `k` programs have been ticked and did not make the loop give up. */
  ghost predicate Partly(before: seq<Program>, now: real, spawned: seq<Option<nat>>, k: nat, states: seq<Program>)
    requires |spawned| == |before| && k <= |before|
  {
    && |states| == |before| && states[k..] == before[k..]
    && TickedAll(before, now, spawned).0 == states[..k] + TickedAll(before[k..], now, spawned[k..]).0
    && TickedAll(before, now, spawned).1 == TickedAll(before[k..], now, spawned[k..]).1
  }

  lemma PartlyStarts(before: seq<Program>, now: real, spawned: seq<Option<nat>>)
    requires |spawned| == |before|
    ensures Partly(before, now, spawned, 0, before)
  {
    assert before[0..] == before && spawned[0..] == spawned;
    assert before[..0] + TickedAll(before, now, spawned).0 == TickedAll(before, now, spawned).0;
  }

  lemma PartlyNext(before: seq<Program>, now: real, spawned: seq<Option<nat>>, k: nat, states: seq<Program>)
    requires |spawned| == |before| && k < |before| && Partly(before, now, spawned, k, states)
    ensures |states| == |before| && states[k] == before[k]
    ensures var first := Ticked(before[k], now, spawned[k]);
            var after := states[k := first.0];
            if first.1 then TickedAll(before, now, spawned) == (after, true)
            else Partly(before, now, spawned, k + 1, after)
  {
    hide Ticked;
    assert states[k] == states[k..][0] == before[k..][0];
    TickedStep(before, now, spawned, k);
    var first := Ticked(before[k], now, spawned[k]);
    var after := states[k := first.0];
    assert after[..k + 1] == states[..k] + [first.0];
    assert after[k + 1..] == states[k..][1..] == before[k..][1..] == before[k + 1..];
    hide TickedAll;
    if first.1 {
      assert after == states[..k] + ([first.0] + before[k + 1..]);
    } else {
      Snoc(states[..k], first.0, TickedAll(before[k + 1..], now, spawned[k + 1..]).0);
    }
  }

  lemma PartlyEnds(before: seq<Program>, now: real, spawned: seq<Option<nat>>, states: seq<Program>)
    requires |spawned| == |before| && Partly(before, now, spawned, |before|, states)
    ensures TickedAll(before, now, spawned) == (states, false)
  {
    NoneLeft(before[|before|..], now, spawned[|before|..]);
    hide TickedAll;
    assert states[..|before|] == states && states + [] == states;
  }

  lemma Snoc<T>(done: seq<T>, first: T, rest: seq<T>)
    ensures done + ([first] + rest) == done + [first] + rest
  {
  }

  lemma NoneLeft(ps: seq<Program>, now: real, spawned: seq<Option<nat>>)
    requires |ps| == |spawned| == 0
    ensures TickedAll(ps, now, spawned) == ([], false)
  {
  }

  lemma TickedStep(ps: seq<Program>, now: real, spawned: seq<Option<nat>>, k: nat)
    requires |spawned| == |ps| && k < |ps|
    ensures var first, all := Ticked(ps[k], now, spawned[k]), TickedAll(ps[k..], now, spawned[k..]);
            var rest := TickedAll(ps[k + 1..], now, spawned[k + 1..]);
            all.0 == [first.0] + (if first.1 then ps[k + 1..] else rest.0) && all.1 == (first.1 || rest.1)
  {
    hide Ticked;
    assert ps[k..][1..] == ps[k + 1..] && spawned[k..][1..] == spawned[k + 1..];
  }
}
