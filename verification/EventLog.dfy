/** The application event log: every fiftieth write of a process trims the table. */
module EventLog {
  import opened Text

  const MAX_EVENTS := 2000
  const TRIM_EVERY := 50

  /** An event as it is stored: already scrubbed, shortened and lower-cased. */
  datatype Entry = Entry(ts: int, level: string, category: string, message: string)

  datatype Row = Row(id: int, entry: Entry)

  /** The events table, oldest first, and the last id AUTOINCREMENT has given out. */
  datatype Table = Table(rows: seq<Row>, issued: int)

  /** How the database behaves during one write. */
  datatype WriteIo = InsertFails | TrimFails | Fine

  function MaxId(rows: seq<Row>): int
    requires rows != []
  {
    if |rows| == 1 then rows[0].id
    else var m := MaxId(rows[1..]); if rows[0].id > m then rows[0].id else m
  }

  function Above(rows: seq<Row>, id: int): seq<Row> {
    if rows == [] then []
    else if rows[0].id <= id then Above(rows[1..], id)
    else [rows[0]] + Above(rows[1..], id)
  }

  function Trimmed(rows: seq<Row>): seq<Row>
    requires rows != []
  {
    Above(rows, MaxId(rows) - MAX_EVENTS)
  }

  function Stored(t: Table, e: Entry): (s: Table)
    ensures s.rows != []
  {
    Table(t.rows + [Row(t.issued + 1, e)], t.issued + 1)
  }

  /** Writes since the last one that had to trim. */
  function SinceTrim(counter: nat): (n: nat)
    ensures n < TRIM_EVERY
  {
    counter % 50
  }

  lemma SinceTrimNext(counter: nat)
    ensures SinceTrim(counter + 1) == 0 || SinceTrim(counter + 1) == SinceTrim(counter) + 1
  {
  }

  datatype Write = Write(table: Table, counter: nat)

  /** The table and the process's write counter after `log_event`. */
  function Logged(t: Table, counter: nat, e: Entry, io: WriteIo): Write {
    if io.InsertFails? then Write(t, counter)
    else
      var s := Stored(t, e);
      if SinceTrim(counter + 1) == 0 && io.Fine?
      then Write(s.(rows := Trimmed(s.rows)), counter + 1)
      else Write(s, counter + 1)
  }

  // ---------------------------------------------------------------- reading

  /** Empty filters match everything. */
  predicate Matches(e: Entry, category: string, level: string) {
    (category == "" || e.category == category) && (level == "" || e.level == level)
  }

  function Matching(rows: seq<Row>, category: string, level: string): seq<Row> {
    if rows == [] then []
    else if Matches(rows[0].entry, category, level) then [rows[0]] + Matching(rows[1..], category, level)
    else Matching(rows[1..], category, level)
  }

  function Reversed(rows: seq<Row>): seq<Row> {
    if rows == [] then [] else Reversed(rows[1..]) + [rows[0]]
  }

  /** Between one and a thousand. */
  function Clamped(limit: int): (n: nat)
  {
    var m := if limit < 1000 then limit else 1000;
    if m > 1 then m else 1
  }

  function Tail(rows: seq<Row>, n: nat): (t: seq<Row>)
    ensures |t| == if n < |rows| then n else |rows|
  {
    if n < |rows| then rows[|rows| - n..] else rows
  }

  /** The last `n` rows, newest first. */
  function Newest(rows: seq<Row>, n: nat): seq<Row> {
    Reversed(Tail(rows, n))
  }

  /** The level asked for is lower-cased, as the stored ones are. */
  function RecentEvents(t: Table, limit: int, category: string, level: string): seq<Row> {
    Newest(Matching(t.rows, category, Lower(level)), Clamped(limit))
  }

  // ---------------------------------------------------------------- trimming keeps a suffix

  /** Ids follow each other and end at the last one given out. */
  predicate Consecutive(rows: seq<Row>, issued: int) {
    forall i | 0 <= i < |rows| :: rows[i].id == issued - |rows| + 1 + i
  }

  lemma {:induction false} MaxIdIsLast(rows: seq<Row>, issued: int)
    requires rows != [] && Consecutive(rows, issued)
    ensures MaxId(rows) == issued
  {
    if |rows| > 1 {
      assert forall i | 0 <= i < |rows| - 1 :: rows[1..][i] == rows[i + 1];
      MaxIdIsLast(rows[1..], issued);
    } else {
      assert rows[0].id == issued;
    }
  }

  lemma {:induction false} AboveIsSuffix(rows: seq<Row>, issued: int, n: nat)
    requires Consecutive(rows, issued)
    ensures Above(rows, issued - n) == if n < |rows| then rows[|rows| - n..] else rows
  {
    if rows != [] {
      assert rows[0].id == issued - |rows| + 1;
      assert forall i | 0 <= i < |rows| - 1 :: rows[1..][i] == rows[i + 1];
      AboveIsSuffix(rows[1..], issued, n);
      if n < |rows| {
        assert rows[1..][|rows| - 1 - n..] == rows[|rows| - n..];
      }
    }
  }

  lemma TrimKeepsNewest(rows: seq<Row>, issued: int)
    requires rows != [] && Consecutive(rows, issued)
    ensures Trimmed(rows) == if 2000 < |rows| then rows[|rows| - 2000..] else rows
  {
    MaxIdIsLast(rows, issued);
    AboveIsSuffix(rows, issued, MAX_EVENTS);
  }

  /** What is left of the full history: nothing lost but events older than the newest two thousand. */
  predicate Remains(t: Table, history: seq<Row>) {
    && |t.rows| <= |history|
    && t.rows == history[|history| - |t.rows|..]
    && (|t.rows| < |history| ==> |t.rows| >= 2000)
    && Consecutive(history, t.issued)
  }

  lemma RemainsConsecutive(t: Table, history: seq<Row>)
    requires Remains(t, history)
    ensures Consecutive(t.rows, t.issued)
  {
    var k := |history| - |t.rows|;
    assert forall i | 0 <= i < |t.rows| :: t.rows[i] == history[k + i];
  }

  function Extended(history: seq<Row>, t: Table, e: Entry, io: WriteIo): seq<Row> {
    if io.InsertFails? then history else history + [Row(t.issued + 1, e)]
  }

  lemma LoggedRemains(t: Table, counter: nat, e: Entry, io: WriteIo, history: seq<Row>)
    requires Remains(t, history)
    ensures Remains(Logged(t, counter, e, io).table, Extended(history, t, e, io))
    ensures |Logged(t, counter, e, io).table.rows| <= |t.rows| + 1
    ensures var w := Logged(t, counter, e, io);
      w.counter != counter && SinceTrim(w.counter) == 0 && io.Fine? ==> |w.table.rows| <= MAX_EVENTS
  {
    if !io.InsertFails? {
      RemainsConsecutive(t, history);
      var s, h := Stored(t, e), Extended(history, t, e, io);
      assert Consecutive(s.rows, s.issued);
      assert s.rows == h[|h| - |s.rows|..];
      assert Remains(s, h);
      TrimKeepsNewest(s.rows, s.issued);
    }
  }

  // ---------------------------------------------------------------- what a reader is given

  ghost predicate Increasing(rows: seq<Row>) {
    forall i, j | 0 <= i < j < |rows| :: rows[i].id < rows[j].id
  }

  /** What the filters ask for; an empty one asks for nothing in particular. */
  ghost predicate AskedFor(x: Row, category: string, level: string) {
    && (category != "" ==> x.entry.category == category)
    && (level != "" ==> x.entry.level == Lower(level))
  }

  lemma {:induction false} MatchingMeans(rows: seq<Row>, category: string, level: string)
    requires Increasing(rows)
    ensures var m := Matching(rows, category, Lower(level));
      && Increasing(m)
      && forall x :: x in m <==> x in rows && AskedFor(x, category, level)
  {
    assert Lower(level) == "" <==> level == "";
    if rows != [] {
      var rest := rows[1..];
      MatchingMeans(rest, category, level);
      assert forall x :: x in rows <==> x == rows[0] || x in rest;
      assert forall x | x in rest :: rows[0].id < x.id;
    }
  }

  lemma {:induction false} ReversedLength(rows: seq<Row>)
    ensures |Reversed(rows)| == |rows|
  {
    if rows != [] {
      ReversedLength(rows[1..]);
    }
  }

  lemma {:induction false} ReversedAt(rows: seq<Row>, i: nat)
    requires i < |rows|
    ensures |Reversed(rows)| == |rows| && Reversed(rows)[i] == rows[|rows| - 1 - i]
  {
    ReversedLength(rows);
    if i < |rows| - 1 { ReversedAt(rows[1..], i); }
    ReversedLength(rows[1..]);
  }

  /**
   * A reader gets, newest first, the events that match its filters: no more than it may ask
   * for, and an older one is left out only when that many newer ones were given.
   */
  lemma RecentMeans(t: Table, limit: int, category: string, level: string)
    requires Consecutive(t.rows, t.issued)
    ensures var r, most := RecentEvents(t, limit, category, level),
                           if limit < 1 then 1 else if limit > 1000 then 1000 else limit;
      && |r| <= most
      && (forall i, j | 0 <= i < j < |r| :: r[i].id > r[j].id)
      && (forall x | x in r :: x in t.rows && AskedFor(x, category, level))
      && forall x | x in t.rows && AskedFor(x, category, level) && x !in r ::
           |r| == most && forall y | y in r :: y.id > x.id
  {
    MatchingMeans(t.rows, category, level);
    var m := Matching(t.rows, category, Lower(level));
    NewestMeans(m, Clamped(limit));
    hide Matching, Newest, AskedFor, Lower;
  }

  lemma NewestAt(m: seq<Row>, n: nat)
    ensures var r := Newest(m, n);
      |r| == (if n < |m| then n else |m|) && forall i | 0 <= i < |r| :: r[i] == m[|m| - 1 - i]
  {
    var kept := Tail(m, n);
    ReversedLength(kept);
    forall i | 0 <= i < |kept| ensures Reversed(kept)[i] == m[|m| - 1 - i] { ReversedAt(kept, i); }
    hide Reversed;
  }

  lemma NewestMeans(m: seq<Row>, n: nat)
    requires Increasing(m)
    ensures var r := Newest(m, n);
      && |r| <= n
      && (forall i, j | 0 <= i < j < |r| :: r[i].id > r[j].id)
      && (forall x | x in r :: x in m)
      && forall x | x in m && x !in r :: |r| == n && forall y | y in r :: y.id > x.id
  {
    hide Newest;
    NewestAt(m, n);
    var r := Newest(m, n);
    forall k | 0 <= k < |m| && |m| - 1 - k < |r| ensures m[k] in r {
      assert r[|m| - 1 - k] == m[k];
    }
    forall x | x in m && x !in r ensures |r| == n && forall y | y in r :: y.id > x.id {
      var k :| 0 <= k < |m| && m[k] == x;
      assert |m| - 1 - k >= |r|;
    }
  }

  // ---------------------------------------------------------------- trimming is invisible

  lemma {:induction false} MatchingSplits(a: seq<Row>, b: seq<Row>, category: string, level: string)
    ensures Matching(a + b, category, level) == Matching(a, category, level) + Matching(b, category, level)
  {
    if a == [] {
      assert a + b == b;
    } else {
      assert (a + b)[1..] == a[1..] + b;
      MatchingSplits(a[1..], b, category, level);
    }
  }

  lemma {:induction false} MatchingAll(rows: seq<Row>)
    ensures Matching(rows, "", "") == rows
  {
    if rows != [] {
      MatchingAll(rows[1..]);
    }
  }

  lemma TailOfBoth(lost: seq<Row>, kept: seq<Row>, n: nat)
    requires |kept| >= n
    ensures Tail(lost + kept, n) == Tail(kept, n)
  {
  }

  lemma NewestOfBoth(lost: seq<Row>, kept: seq<Row>, n: nat)
    ensures Newest(kept, n) == Newest(lost + kept, n) <==> |kept| >= n || lost == []
  {
    ReversedLength(Tail(lost + kept, n));
    ReversedLength(Tail(kept, n));
    hide Tail, Reversed;
    if |kept| >= n {
      TailOfBoth(lost, kept, n);
    } else if lost == [] {
      assert lost + kept == kept;
    }
  }

  /**
   * Readers cannot tell a trimmed table from the full history exactly when enough
   * matching rows are left or no matching row was lost.
   */
  lemma TrimmingShowsIff(t: Table, history: seq<Row>, limit: int, category: string, level: string)
    requires Remains(t, history)
    ensures RecentEvents(t, limit, category, level)
        == Newest(Matching(history, category, Lower(level)), Clamped(limit))
      <==> || |Matching(t.rows, category, Lower(level))| >= Clamped(limit)
           || Matching(history[..|history| - |t.rows|], category, Lower(level)) == []
  {
    var lost, lower := history[..|history| - |t.rows|], Lower(level);
    assert history == lost + t.rows;
    MatchingSplits(lost, t.rows, category, lower);
    NewestOfBoth(Matching(lost, category, lower), Matching(t.rows, category, lower), Clamped(limit));
  }

  /** Without a filter it never shows. */
  lemma TrimmingIsInvisible(t: Table, history: seq<Row>, limit: int)
    requires Remains(t, history)
    ensures RecentEvents(t, limit, "", "") == Newest(history, Clamped(limit))
  {
    assert Lower("") == "";
    TrimmingShowsIff(t, history, limit, "", "");
    MatchingAll(t.rows);
    MatchingAll(history);
    MatchingAll(history[..|history| - |t.rows|]);
  }

  // ---------------------------------------------------------------- several processes

  /** One table shared by processes that each count their own writes. */
  datatype System = System(table: Table, counters: seq<nat>)

  datatype Step =
    | Log(process: nat, entry: Entry, io: WriteIo)
    | Restart(process: nat)

  predicate Allowed(s: System, step: Step) {
    step.process < |s.counters|
  }

  function After(s: System, step: Step): (r: System)
    requires Allowed(s, step)
    ensures |r.counters| == |s.counters|
  {
    match step
    case Log(p, e, io) =>
      var w := Logged(s.table, s.counters[p], e, io);
      System(w.table, s.counters[p := w.counter])
    case Restart(p) => s.(counters := s.counters[p := 0])
  }

  function HistoryAfter(s: System, step: Step, history: seq<Row>): seq<Row> {
    match step
    case Log(_, e, io) => Extended(history, s.table, e, io)
    case Restart(_) => history
  }

  predicate Runs(processes: nat, steps: seq<Step>) {
    forall i | 0 <= i < |steps| :: steps[i].process < processes
  }

  function AfterAll(s: System, steps: seq<Step>): (r: System)
    requires Runs(|s.counters|, steps)
    ensures |r.counters| == |s.counters|
    decreases |steps|
  {
    if steps == [] then s else AfterAll(After(s, steps[0]), steps[1..])
  }

  function HistoryAfterAll(s: System, steps: seq<Step>, history: seq<Row>): seq<Row>
    requires Runs(|s.counters|, steps)
    decreases |steps|
  {
    if steps == [] then history
    else HistoryAfterAll(After(s, steps[0]), steps[1..], HistoryAfter(s, steps[0], history))
  }

  /** Whatever the processes do, in any order and with any failures, an unfiltered reader sees the full history. */
  lemma {:induction false} NeverVisible(s: System, steps: seq<Step>, history: seq<Row>, limit: int)
    requires Runs(|s.counters|, steps) && Remains(s.table, history)
    ensures RecentEvents(AfterAll(s, steps).table, limit, "", "")
      == Newest(HistoryAfterAll(s, steps, history), Clamped(limit))
    decreases |steps|
  {
    if steps == [] {
      TrimmingIsInvisible(s.table, history, limit);
    } else {
      var step := steps[0];
      if step.Log? {
        LoggedRemains(s.table, s.counters[step.process], step.entry, step.io, history);
      }
      hide Remains, RecentEvents, Logged, Extended, Newest;
      NeverVisible(After(s, step), steps[1..], HistoryAfter(s, step, history), limit);
    }
  }

  // ---------------------------------------------------------------- how large the table gets

  /** Writes each process has made since it last had to trim. */
  function Untrimmed(counters: seq<nat>): nat {
    if counters == [] then 0 else SinceTrim(counters[0]) + Untrimmed(counters[1..])
  }

  lemma {:induction false} UntrimmedUpdate(counters: seq<nat>, p: nat, n: nat)
    requires p < |counters|
    ensures Untrimmed(counters[p := n]) == Untrimmed(counters) - SinceTrim(counters[p]) + SinceTrim(n)
    ensures Untrimmed(counters) >= SinceTrim(counters[p])
  {
    var after := counters[p := n];
    if p == 0 {
      assert after[1..] == counters[1..];
    } else {
      assert after[1..] == counters[1..][p - 1 := n];
      UntrimmedUpdate(counters[1..], p - 1, n);
    }
  }

  lemma {:induction false} UntrimmedBound(counters: seq<nat>)
    ensures Untrimmed(counters) <= 49 * |counters|
  {
    if counters != [] {
      UntrimmedBound(counters[1..]);
    }
  }

  predicate Small(s: System) {
    |s.table.rows| <= 2000 + Untrimmed(s.counters)
  }

  /** No process restarts and no trim fails. */
  predicate Undisturbed(steps: seq<Step>) {
    forall i | 0 <= i < |steps| :: steps[i].Log? && !steps[i].io.TrimFails?
  }

  /** A write adds a row and a count, unless it trims; then both start over. */
  lemma WriteCounts(t: Table, counter: nat, e: Entry, io: WriteIo, history: seq<Row>)
    requires Remains(t, history) && !io.TrimFails?
    ensures var w := Logged(t, counter, e, io);
      || w == Write(t, counter)
      || (SinceTrim(w.counter) == SinceTrim(counter) + 1 && |w.table.rows| <= |t.rows| + 1)
      || (SinceTrim(w.counter) == 0 && |w.table.rows| <= 2000)
  {
    hide Remains, Trimmed, SinceTrim;
    LoggedRemains(t, counter, e, io, history);
    SinceTrimNext(counter);
  }

  lemma WriteKeepsSmall(s: System, step: Step, history: seq<Row>)
    requires Allowed(s, step) && step.Log? && !step.io.TrimFails?
    requires Remains(s.table, history) && Small(s)
    ensures Remains(After(s, step).table, HistoryAfter(s, step, history)) && Small(After(s, step))
  {
    var p := step.process;
    var n := Logged(s.table, s.counters[p], step.entry, step.io).counter;
    LoggedRemains(s.table, s.counters[p], step.entry, step.io, history);
    WriteCounts(s.table, s.counters[p], step.entry, step.io, history);
    UntrimmedUpdate(s.counters, p, n);
    hide Remains, Untrimmed, Logged, Extended, SinceTrim;
  }

  /**
   * Processes sharing a table of at most two thousand rows never leave more than
   * forty-nine rows each above that; a single process stays at or below 2049.
   */
  lemma {:induction false} TableStaysSmall(s: System, steps: seq<Step>, history: seq<Row>)
    requires Runs(|s.counters|, steps) && Undisturbed(steps)
    requires Remains(s.table, history) && Small(s)
    ensures |AfterAll(s, steps).table.rows| <= 2000 + 49 * |s.counters|
    decreases |steps|
  {
    if steps == [] {
      UntrimmedBound(s.counters);
    } else {
      WriteKeepsSmall(s, steps[0], history);
      hide Remains, After;
      TableStaysSmall(After(s, steps[0]), steps[1..], HistoryAfter(s, steps[0], history));
    }
  }

  // ---------------------------------------------------------------- the exact size, restarts and failures included

  predicate Inserts(step: Step) {
    step.Log? && !step.io.InsertFails?
  }

  /** The write is its process's fiftieth and its trim works. */
  predicate Trims(s: System, step: Step)
    requires Allowed(s, step)
  {
    step.Log? && step.io.Fine? && SinceTrim(s.counters[step.process] + 1) == 0
  }

  function Inserted(steps: seq<Step>): nat {
    if steps == [] then 0 else (if Inserts(steps[0]) then 1 else 0) + Inserted(steps[1..])
  }

  /** Rows inserted after the last trim that worked; `since` counts those before the run. */
  function Untouched(s: System, steps: seq<Step>, since: nat): nat
    requires Runs(|s.counters|, steps)
    decreases |steps|
  {
    if steps == [] then since
    else
      var now := if Trims(s, steps[0]) then 0 else if Inserts(steps[0]) then since + 1 else since;
      Untouched(After(s, steps[0]), steps[1..], now)
  }

  function Min(a: nat, b: nat): nat {
    if a < b then a else b
  }

  lemma StepSize(s: System, step: Step, history: seq<Row>, total: nat, since: nat)
    requires Allowed(s, step) && Remains(s.table, history)
    requires |s.table.rows| == Min(total, 2000 + since)
    ensures Remains(After(s, step).table, HistoryAfter(s, step, history))
    ensures var more, now := if Inserts(step) then total + 1 else total,
                             if Trims(s, step) then 0 else if Inserts(step) then since + 1 else since;
      |After(s, step).table.rows| == Min(more, 2000 + now)
  {
    hide SinceTrim, Trimmed;
    if Inserts(step) {
      LoggedRemains(s.table, s.counters[step.process], step.entry, step.io, history);
      StoredTrims(s.table, step.entry, history);
    }
    hide Remains;
  }

  lemma StoredTrims(t: Table, e: Entry, history: seq<Row>)
    requires Remains(t, history)
    ensures |Stored(t, e).rows| == |t.rows| + 1
    ensures |Trimmed(Stored(t, e).rows)| == Min(|t.rows| + 1, 2000)
  {
    RemainsConsecutive(t, history);
    assert Consecutive(Stored(t, e).rows, t.issued + 1);
    TrimKeepsNewest(Stored(t, e).rows, t.issued + 1);
  }

  /**
   * The size of the table after any run, with restarts, failing inserts and failing
   * trims: everything ever in it, or two thousand rows and what was inserted since the
   * last trim that worked, whichever is less.
   */
  lemma {:induction false} TableSizeExactly(s: System, steps: seq<Step>, history: seq<Row>, total: nat, since: nat)
    requires Runs(|s.counters|, steps) && Remains(s.table, history)
    requires |s.table.rows| == Min(total, 2000 + since)
    ensures |AfterAll(s, steps).table.rows| == Min(total + Inserted(steps), 2000 + Untouched(s, steps, since))
    decreases |steps|
  {
    hide Remains, After, Trims, Inserts;
    if steps != [] {
      var step := steps[0];
      StepSize(s, step, history, total, since);
      TableSizeExactly(After(s, step), steps[1..], HistoryAfter(s, step, history),
        if Inserts(step) then total + 1 else total,
        if Trims(s, step) then 0 else if Inserts(step) then since + 1 else since);
    }
  }

  /**
   * From a table of at most two thousand rows, the promised bound of 2049 holds after a
   * run exactly when no more rows than that ever existed, or at most forty-nine were
   * inserted since the last trim that worked.
   */
  lemma BoundHoldsIff(s: System, steps: seq<Step>, history: seq<Row>)
    requires Runs(|s.counters|, steps) && Remains(s.table, history) && |s.table.rows| <= 2000
    ensures |AfterAll(s, steps).table.rows| <= 2049
      <==> |s.table.rows| + Inserted(steps) <= 2049 || Untouched(s, steps, 0) <= 49
  {
    hide AfterAll, Untouched, Remains;
    TableSizeExactly(s, steps, history, |s.table.rows|, 0);
  }

  // ---------------------------------------------------------------- a process that never reaches its fiftieth write

  function Writes(e: Entry, n: nat): seq<Step> {
    seq(n, _ => Log(0, e, Fine))
  }

  lemma {:induction false} FewWritesNeverTrim(s: System, e: Entry, n: nat)
    requires |s.counters| == 1 && s.counters[0] + n < TRIM_EVERY
    ensures |AfterAll(s, Writes(e, n)).table.rows| == |s.table.rows| + n
    decreases n
  {
    if n > 0 {
      assert Writes(e, n)[1..] == Writes(e, n - 1);
      FewWritesNeverTrim(After(s, Log(0, e, Fine)), e, n - 1);
    }
  }

  lemma {:induction false} AfterAllSplits(s: System, a: seq<Step>, b: seq<Step>)
    requires Runs(|s.counters|, a + b)
    ensures Runs(|s.counters|, a) && Runs(|s.counters|, b)
    ensures AfterAll(s, a + b) == AfterAll(AfterAll(s, a), b)
    decreases |a|
  {
    assert forall i | 0 <= i < |a| :: (a + b)[i] == a[i];
    assert forall i | 0 <= i < |b| :: (a + b)[|a| + i] == b[i];
    if a == [] {
      assert a + b == b;
    } else {
      assert (a + b)[1..] == a[1..] + b;
      AfterAllSplits(After(s, a[0]), a[1..], b);
    }
  }

  /** Forty-nine writes and a restart, `k` times over. */
  function ShortLives(e: Entry, k: nat): seq<Step> {
    if k == 0 then [] else Writes(e, 49) + ([Step.Restart(0)] + ShortLives(e, k - 1))
  }

  /** The counter lives in the process, so one that restarts early never trims and the table has no bound. */
  lemma {:induction false} RestartsDefeatTrimming(s: System, e: Entry, k: nat)
    requires s.counters == [0]
    ensures Runs(1, ShortLives(e, k))
    ensures |AfterAll(s, ShortLives(e, k)).table.rows| == |s.table.rows| + 49 * k
    decreases k
  {
    if k > 0 {
      var rest := ShortLives(e, k - 1);
      var more := [Step.Restart(0)] + rest;
      RestartsDefeatTrimming(System(s.table, [0]), e, k - 1);
      AfterAllSplits(s, Writes(e, 49), more);
      FewWritesNeverTrim(s, e, 49);
      var mid := AfterAll(s, Writes(e, 49));
      assert more[1..] == rest;
      var restarted := After(mid, Step.Restart(0));
      assert restarted.counters == [0];
      RestartsDefeatTrimming(restarted, e, k - 1);
    }
  }

  lemma LoggedIs(t: Table, counter: nat, e: Entry, io: WriteIo, history: seq<Row>)
    ensures io.InsertFails? ==> Logged(t, counter, e, io) == Write(t, counter) && Extended(history, t, e, io) == history
    ensures var s := Stored(t, e);
      var rows := if SinceTrim(counter + 1) == 0 && io.Fine? then Trimmed(s.rows) else s.rows;
      !io.InsertFails? ==> Logged(t, counter, e, io) == Write(s.(rows := rows), counter + 1)
    ensures !io.InsertFails? ==> Extended(history, t, e, io) == history + [Row(t.issued + 1, e)]
  {
  }

  // ---------------------------------------------------------------- one process at work

  /** The database table together with the write counter of one process. */
  class EventStore {
    var rows: seq<Row>
    var issued: int
    var counter: nat
    /** Every event ever stored. */
    ghost var history: seq<Row>

    ghost predicate Valid()
      reads this
    {
      Remains(Table(rows, issued), history)
    }

    /** A process starting on a table that already holds `history`'s remains. */
    constructor (t: Table, ghost all: seq<Row>)
      requires Remains(t, all)
      ensures Valid() && Table(rows, issued) == t && counter == 0 && history == all
    {
      rows, issued, counter, history := t.rows, t.issued, 0, all;
    }

    /** The insert, which also counts the write. */
    method Insert(e: Entry)
      modifies this
      ensures Table(rows, issued) == Stored(old(Table(rows, issued)), e)
      ensures counter == old(counter) + 1
      ensures history == old(history) + [Row(old(issued) + 1, e)]
    {
      issued := issued + 1;
      rows := rows + [Row(issued, e)];
      counter := counter + 1;
      history := history + [Row(issued, e)];
    }

    method LogEvent(e: Entry, io: WriteIo)
      requires Valid()
      modifies this
      ensures Valid()
      ensures Write(Table(rows, issued), counter) == old(Logged(Table(rows, issued), counter, e, io))
      ensures history == old(Extended(history, Table(rows, issued), e, io))
    {
      hide Remains, Trimmed, Stored, SinceTrim, Logged, Extended;
      LoggedRemains(Table(rows, issued), counter, e, io, history);
      LoggedIs(Table(rows, issued), counter, e, io, history);
      if !io.InsertFails? {
        Insert(e);
        if SinceTrim(counter) == 0 && io.Fine? {
          rows := Trimmed(rows);
        }
      }
    }

    /** An unfiltered reader gets the newest events of the whole history. */
    method Recent(limit: int, category: string, level: string) returns (events: seq<Row>)
      requires Valid()
      ensures events == RecentEvents(Table(rows, issued), limit, category, level)
      ensures category == "" && level == "" ==> events == Newest(history, Clamped(limit))
    {
      events := Newest(Matching(rows, category, Lower(level)), Clamped(limit));
      if category == "" && level == "" {
        TrimmingIsInvisible(Table(rows, issued), history, limit);
      }
    }
  }
}
