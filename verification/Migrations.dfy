/** Schema migrations that survive being interrupted at any point. */
module Migrations {
  import opened Prelude

  datatype Migration<St> = Migration(version: int, name: string, statements: seq<St>)

  /** The schema, and the rows of schema_migrations in the order they were inserted. */
  datatype Db<S> = Db(schema: S, log: seq<int>)

  datatype Outcome = Done | Died | Failed(version: int)

  /** How a call of `init_db` leaves the database, and how many migrations it committed. */
  datatype Progress<S> = Progress(db: Db<S>, count: nat, outcome: Outcome)

  /** What one statement does to the schema, None when it raises. */
  type Effect<!St, !S> = (St, S) -> Option<S>

  // ---------------------------------------------------------------- the order of migrations

  function Inserted<St>(m: Migration<St>, sorted: seq<Migration<St>>): seq<Migration<St>> {
    if sorted == [] || m.version < sorted[0].version then [m] + sorted
    else [sorted[0]] + Inserted(m, sorted[1..])
  }

  /** `sorted(MIGRATIONS, key=version)`: equal versions keep their order. */
  function Sorted<St>(ms: seq<Migration<St>>): seq<Migration<St>> {
    if ms == [] then [] else Inserted(ms[|ms| - 1], Sorted(ms[..|ms| - 1]))
  }

  predicate Distinct<St>(ms: seq<Migration<St>>) {
    forall i, j | 0 <= i < j < |ms| :: ms[i].version != ms[j].version
  }

  predicate Ascending<St>(ms: seq<Migration<St>>) {
    forall i, j | 0 <= i < j < |ms| :: ms[i].version < ms[j].version
  }

  lemma {:induction false} InsertedHolds<St>(m: Migration<St>, sorted: seq<Migration<St>>, x: Migration<St>)
    ensures |Inserted(m, sorted)| == |sorted| + 1
    ensures x in Inserted(m, sorted) <==> x == m || x in sorted
  {
    if !(sorted == [] || m.version < sorted[0].version) {
      InsertedHolds(m, sorted[1..], x);
      assert sorted == [sorted[0]] + sorted[1..];
    }
  }

  lemma AscendingCons<St>(m: Migration<St>, rest: seq<Migration<St>>)
    requires Ascending(rest) && forall x | x in rest :: m.version < x.version
    ensures Ascending([m] + rest)
  {
    var all := [m] + rest;
    forall i, j | 0 <= i < j < |all| ensures all[i].version < all[j].version {
      assert all[j] == rest[j - 1];
    }
  }

  lemma {:induction false} InsertedAscends<St>(m: Migration<St>, sorted: seq<Migration<St>>)
    requires Ascending(sorted) && forall x | x in sorted :: x.version != m.version
    ensures Ascending(Inserted(m, sorted))
  {
    if sorted == [] || m.version < sorted[0].version {
      AscendingCons(m, sorted);
    } else {
      var first, rest := sorted[0], sorted[1..];
      assert forall i | 0 <= i < |rest| :: rest[i] == sorted[i + 1];
      InsertedAscends(m, rest);
      forall x | x in Inserted(m, rest) ensures first.version < x.version {
        InsertedHolds(m, rest, x);
        if x in rest {
          var i :| 0 <= i < |rest| && rest[i] == x;
          assert sorted[i + 1] == x;
        }
      }
      AscendingCons(first, Inserted(m, rest));
    }
  }

  lemma {:induction false} SortedHolds<St>(ms: seq<Migration<St>>, x: Migration<St>)
    ensures |Sorted(ms)| == |ms|
    ensures x in Sorted(ms) <==> x in ms
  {
    if ms != [] {
      var last, rest := ms[|ms| - 1], ms[..|ms| - 1];
      assert ms == rest + [last];
      SortedHolds(rest, x);
      InsertedHolds(last, Sorted(rest), x);
    }
  }

  /** Whatever order the migrations are listed in, they run in ascending order. */
  lemma {:induction false} SortedAscends<St>(ms: seq<Migration<St>>)
    requires Distinct(ms)
    ensures Ascending(Sorted(ms)) && |Sorted(ms)| == |ms|
  {
    if ms != [] {
      var last, rest := ms[|ms| - 1], ms[..|ms| - 1];
      SortedAscends(rest);
      forall x | x in Sorted(rest) ensures x.version != last.version {
        SortedHolds(rest, x);
        var i :| 0 <= i < |rest| && rest[i] == x;
        assert ms[i] == x;
      }
      InsertedHolds(last, Sorted(rest), last);
      InsertedAscends(last, Sorted(rest));
    }
  }

  // ---------------------------------------------------------------- one call

  function Executed<St, S>(effect: Effect<St, S>, statements: seq<St>, schema: S): Option<S> {
    if statements == [] then Some(schema)
    else match effect(statements[0], schema)
      case None => None
      case Some(next) => Executed(effect, statements[1..], next)
  }

  /** One transaction: all statements and the new row, or nothing. */
  function Migrated<St, S>(effect: Effect<St, S>, m: Migration<St>, db: Db<S>): Option<Db<S>> {
    match Executed(effect, m.statements, db.schema)
    case None => None
    case Some(schema) => if m.version in db.log then None else Some(Db(schema, db.log + [m.version]))
  }

  /**
   * The loop of `init_db` over the sorted migrations `todo`, with the versions `applied`
   * read once before it, in a process that dies after `stop` commits.
   */
  function Run<St, S>(effect: Effect<St, S>, db: Db<S>, todo: seq<Migration<St>>, applied: set<int>, stop: nat)
    : Progress<S>
    decreases |todo|
  {
    if todo == [] then Progress(db, 0, Done)
    else if todo[0].version in applied then Run(effect, db, todo[1..], applied, stop)
    else if stop == 0 then Progress(db, 0, Died)
    else match Migrated(effect, todo[0], db)
      case None => Progress(db, 0, Failed(todo[0].version))
      case Some(next) =>
        var r := Run(effect, next, todo[1..], applied, stop - 1);
        r.(count := r.count + 1)
  }

  function Versions(log: seq<int>): set<int> {
    set v | v in log
  }

  /** A boot that dies after `stop` commits; with `stop` at least `|ms|` it does not die. */
  function Boot<St, S>(effect: Effect<St, S>, ms: seq<Migration<St>>, db: Db<S>, stop: nat): Progress<S> {
    Run(effect, db, Sorted(ms), Versions(db.log), stop)
  }

  function Boots<St, S>(effect: Effect<St, S>, ms: seq<Migration<St>>, db: Db<S>, stops: seq<nat>): Db<S>
    decreases |stops|
  {
    if stops == [] then db else Boots(effect, ms, Boot(effect, ms, db, stops[0]).db, stops[1..])
  }

  // ---------------------------------------------------------------- resuming

  /** On the versions still to come, the set read at the start agrees with the log. */
  predicate Agrees<St>(todo: seq<Migration<St>>, applied: set<int>, log: seq<int>) {
    forall i | 0 <= i < |todo| :: todo[i].version in applied <==> todo[i].version in log
  }

  lemma {:induction false} RunExtendsLog<St, S>(
      effect: Effect<St, S>, db: Db<S>, todo: seq<Migration<St>>, applied: set<int>, stop: nat)
    ensures db.log <= Run(effect, db, todo, applied, stop).db.log
    ensures |Run(effect, db, todo, applied, stop).db.log| == |db.log| + Run(effect, db, todo, applied, stop).count
    decreases |todo|
  {
    if todo != [] {
      if todo[0].version in applied {
        RunExtendsLog(effect, db, todo[1..], applied, stop);
      } else if stop > 0 && Migrated(effect, todo[0], db).Some? {
        RunExtendsLog(effect, Migrated(effect, todo[0], db).value, todo[1..], applied, stop - 1);
      }
    }
  }

  lemma {:induction false} SameOnAgreement<St, S>(
      effect: Effect<St, S>, db: Db<S>, todo: seq<Migration<St>>, a: set<int>, b: set<int>, stop: nat)
    requires forall i | 0 <= i < |todo| :: todo[i].version in a <==> todo[i].version in b
    ensures Run(effect, db, todo, a, stop) == Run(effect, db, todo, b, stop)
    decreases |todo|
  {
    if todo != [] {
      assert forall i | 0 <= i < |todo[1..]| :: todo[1..][i] == todo[i + 1];
      if todo[0].version in a {
        SameOnAgreement(effect, db, todo[1..], a, b, stop);
      } else if stop > 0 && Migrated(effect, todo[0], db).Some? {
        SameOnAgreement(effect, Migrated(effect, todo[0], db).value, todo[1..], a, b, stop - 1);
      }
    }
  }

  lemma AgreesAfter<St>(todo: seq<Migration<St>>, applied: set<int>, log: seq<int>)
    requires todo != [] && Distinct(todo) && Agrees(todo, applied, log)
    ensures Distinct(todo[1..]) && Agrees(todo[1..], applied, log)
    ensures Agrees(todo[1..], applied, log + [todo[0].version])
  {
    var rest := todo[1..];
    assert forall i | 0 <= i < |rest| :: rest[i] == todo[i + 1];
  }

  /** Running again from where a run died ends as if it had not died. */
  lemma {:induction false} RunResumes<St, S>(
      effect: Effect<St, S>, db: Db<S>, todo: seq<Migration<St>>, applied: set<int>, stop: nat, enough: nat)
    requires Distinct(todo) && Agrees(todo, applied, db.log) && enough >= |todo|
    ensures var died := Run(effect, db, todo, applied, stop).db;
      var resumed, whole := Run(effect, died, todo, Versions(died.log), enough), Run(effect, db, todo, applied, enough);
      resumed.db == whole.db && resumed.outcome == whole.outcome
    decreases |todo|
  {
    var died := Run(effect, db, todo, applied, stop).db;
    if todo != [] {
      var m, rest := todo[0], todo[1..];
      AgreesAfter(todo, applied, db.log);
      if m.version in applied {
        RunResumes(effect, db, rest, applied, stop, enough);
        RunExtendsLog(effect, db, rest, applied, stop);
      } else if stop == 0 || Migrated(effect, m, db).None? {
        SameOnAgreement(effect, db, todo, applied, Versions(db.log), enough);
      } else {
        var next := Migrated(effect, m, db).value;
        RunResumes(effect, next, rest, applied, stop - 1, enough - 1);
        RunExtendsLog(effect, next, rest, applied, stop - 1);
        assert m.version in died.log by {
          assert next.log[|db.log|] == m.version;
        }
        EnoughIsEnough(effect, died, rest, Versions(died.log), enough - 1, enough);
      }
    }
  }

  lemma {:induction false} EnoughIsEnough<St, S>(
      effect: Effect<St, S>, db: Db<S>, todo: seq<Migration<St>>, applied: set<int>, a: nat, b: nat)
    requires a >= |todo| && b >= |todo|
    ensures Run(effect, db, todo, applied, a) == Run(effect, db, todo, applied, b)
    ensures Run(effect, db, todo, applied, a).outcome != Died
    decreases |todo|
  {
    if todo != [] {
      if todo[0].version in applied {
        EnoughIsEnough(effect, db, todo[1..], applied, a, b);
      } else if Migrated(effect, todo[0], db).Some? {
        EnoughIsEnough(effect, Migrated(effect, todo[0], db).value, todo[1..], applied, a - 1, b - 1);
      }
    }
  }

  /**
   * Any number of boots, each dying wherever it likes, followed by one that is left
   * alone, end in the schema and log of a single undisturbed boot.
   */
  lemma {:induction false} InterruptedBootsAgree<St, S>(
      effect: Effect<St, S>, ms: seq<Migration<St>>, db: Db<S>, stops: seq<nat>)
    requires Distinct(ms)
    ensures var last, whole := Boot(effect, ms, Boots(effect, ms, db, stops), |ms|), Boot(effect, ms, db, |ms|);
      last.db == whole.db && last.outcome == whole.outcome
    decreases |stops|
  {
    if stops != [] {
      SortedAscends(ms);
      RunResumes(effect, db, Sorted(ms), Versions(db.log), stops[0], |ms|);
      InterruptedBootsAgree(effect, ms, Boot(effect, ms, db, stops[0]).db, stops[1..]);
    }
  }

  // ---------------------------------------------------------------- once and only once

  predicate NoRepeats(log: seq<int>) {
    forall i, j | 0 <= i < j < |log| :: log[i] != log[j]
  }

  predicate Fails<St, S>(effect: Effect<St, S>, m: Migration<St>, version: int, schema: S) {
    m.version == version && Executed(effect, m.statements, schema).None?
  }

  lemma {:induction false} RunNeverRepeats<St, S>(
      effect: Effect<St, S>, db: Db<S>, todo: seq<Migration<St>>, applied: set<int>, stop: nat)
    requires NoRepeats(db.log) && Distinct(todo) && Agrees(todo, applied, db.log)
    ensures var r := Run(effect, db, todo, applied, stop);
      && NoRepeats(r.db.log)
      // the row never collides: a migration fails only because one of its statements does
      && (r.outcome.Failed? ==> exists m | m in todo :: Fails(effect, m, r.outcome.version, r.db.schema))
      && (r.outcome.Done? ==> forall i | 0 <= i < |todo| :: todo[i].version in r.db.log)
    decreases |todo|
  {
    if todo != [] {
      var m, rest := todo[0], todo[1..];
      AgreesAfter(todo, applied, db.log);
      assert todo[0].version in applied <==> todo[0].version in db.log;
      assert forall i | 0 <= i < |rest| :: rest[i] == todo[i + 1];
      var r := Run(effect, db, todo, applied, stop);
      if m.version in applied {
        RunNeverRepeats(effect, db, rest, applied, stop);
        RunExtendsLog(effect, db, rest, applied, stop);
        assert m.version in r.db.log;
        assert forall i | 0 < i < |todo| :: todo[i] == rest[i - 1];
      } else if stop > 0 && Migrated(effect, m, db).Some? {
        var next := Migrated(effect, m, db).value;
        RunNeverRepeats(effect, next, rest, applied, stop - 1);
        RunExtendsLog(effect, next, rest, applied, stop - 1);
        assert next.log[|db.log|] == m.version;
        assert m.version in r.db.log;
        assert forall i | 0 < i < |todo| :: todo[i] == rest[i - 1];
      } else if stop > 0 {
        assert m.version !in db.log;
        assert m in todo && Fails(effect, m, m.version, db.schema);
      }
    }
  }

  lemma {:induction false} RunSkipsAll<St, S>(
      effect: Effect<St, S>, db: Db<S>, todo: seq<Migration<St>>, applied: set<int>, stop: nat)
    requires forall i | 0 <= i < |todo| :: todo[i].version in applied
    ensures Run(effect, db, todo, applied, stop) == Progress(db, 0, Done)
    decreases |todo|
  {
    if todo != [] {
      assert forall i | 0 <= i < |todo[1..]| :: todo[1..][i] == todo[i + 1];
      RunSkipsAll(effect, db, todo[1..], applied, stop);
    }
  }

  /** After a boot that finished, a forced re-run changes nothing and counts zero. */
  lemma RerunAppliesNothing<St, S>(effect: Effect<St, S>, ms: seq<Migration<St>>, db: Db<S>, stop: nat, again: nat)
    requires Distinct(ms) && NoRepeats(db.log)
    requires Boot(effect, ms, db, stop).outcome == Done
    ensures Boot(effect, ms, Boot(effect, ms, db, stop).db, again) == Progress(Boot(effect, ms, db, stop).db, 0, Done)
    ensures NoRepeats(Boot(effect, ms, db, stop).db.log)
  {
    SortedAscends(ms);
    RunNeverRepeats(effect, db, Sorted(ms), Versions(db.log), stop);
    var after := Boot(effect, ms, db, stop).db;
    RunSkipsAll(effect, after, Sorted(ms), Versions(after.log), again);
  }

  // ---------------------------------------------------------------- what a boot has executed

  /** Schema after schema, each statement leads from one to the next. */
  ghost predicate Chain<St, S>(effect: Effect<St, S>, statements: seq<St>, schemas: seq<S>) {
    && |schemas| == |statements| + 1
    && forall i | 0 <= i < |statements| :: effect(statements[i], schemas[i]) == Some(schemas[i + 1])
  }

  /** Executing the statements leads from `from` to `to`, none of them raising. */
  ghost predicate Leads<St, S(!new)>(effect: Effect<St, S>, statements: seq<St>, from: S, to: S) {
    exists schemas: seq<S> :: Chain(effect, statements, schemas) && schemas[0] == from && schemas[|statements|] == to
  }

  lemma ChainTail<St, S>(effect: Effect<St, S>, statements: seq<St>, schemas: seq<S>)
    requires statements != [] && Chain(effect, statements, schemas)
    ensures Chain(effect, statements[1..], schemas[1..]) && effect(statements[0], schemas[0]) == Some(schemas[1])
  {
    forall i | 0 <= i < |statements| - 1
      ensures effect(statements[1..][i], schemas[1..][i]) == Some(schemas[1..][i + 1])
    {
      assert statements[1..][i] == statements[i + 1] && schemas[1..][i] == schemas[i + 1];
      assert schemas[1..][i + 1] == schemas[i + 2];
    }
  }

  lemma ChainCons<St, S>(effect: Effect<St, S>, statements: seq<St>, schemas: seq<S>, from: S)
    requires statements != [] && Chain(effect, statements[1..], schemas)
    requires effect(statements[0], from) == Some(schemas[0])
    ensures Chain(effect, statements, [from] + schemas)
  {
    var all := [from] + schemas;
    forall i | 1 <= i < |statements| ensures effect(statements[i], all[i]) == Some(all[i + 1]) {
      assert statements[i] == statements[1..][i - 1];
    }
  }

  /** A transaction executes all its statements, one after another. */
  lemma {:induction false} ExecutedLeads<St, S(!new)>(effect: Effect<St, S>, statements: seq<St>, from: S, to: S)
    ensures Executed(effect, statements, from) == Some(to) <==> Leads(effect, statements, from, to)
    decreases |statements|
  {
    if statements == [] {
      if from == to {
        assert Chain(effect, statements, [from]) && [from][0] == from && [from][|statements|] == to;
      }
    } else {
      if Leads(effect, statements, from, to) {
        var schemas: seq<S> :|
          Chain(effect, statements, schemas) && schemas[0] == from && schemas[|statements|] == to;
        ChainTail(effect, statements, schemas);
        assert Leads(effect, statements[1..], schemas[1], to) by {
          assert schemas[1..][0] == schemas[1] && schemas[1..][|statements[1..]|] == to;
        }
        ExecutedLeads(effect, statements[1..], schemas[1], to);
      }
      if Executed(effect, statements, from) == Some(to) {
        var mid := effect(statements[0], from).value;
        ExecutedLeads(effect, statements[1..], mid, to);
        var schemas: seq<S> :|
          Chain(effect, statements[1..], schemas) && schemas[0] == mid && schemas[|statements[1..]|] == to;
        ChainCons(effect, statements, schemas, from);
        assert ([from] + schemas)[0] == from && ([from] + schemas)[|statements|] == to;
      }
    }
  }

  lemma LeadsOn<St, S(!new)>(effect: Effect<St, S>, a: seq<St>, b: seq<St>, from: S, mid: S, to: S)
    requires Leads(effect, a, from, mid) && Leads(effect, b, mid, to)
    ensures Leads(effect, a + b, from, to)
  {
    var s: seq<S> :| Chain(effect, a, s) && s[0] == from && s[|a|] == mid;
    var t: seq<S> :| Chain(effect, b, t) && t[0] == mid && t[|b|] == to;
    var all := s + t[1..];
    forall i | 0 <= i < |a + b| ensures effect((a + b)[i], all[i]) == Some(all[i + 1]) {
      if i < |a| {
        assert (a + b)[i] == a[i];
      } else {
        assert (a + b)[i] == b[i - |a|] && all[i] == t[i - |a|] && all[i + 1] == t[i - |a| + 1];
      }
    }
    assert Chain(effect, a + b, all) && all[0] == from && all[|a + b|] == to;
  }

  lemma LeadsNowhere<St, S(!new)>(effect: Effect<St, S>, from: S)
    ensures Leads(effect, [], from, from)
  {
    assert Chain(effect, [], [from]) && [from][0] == from;
  }

  /** The migrations of `todo` that are not applied yet. */
  function Pending<St>(todo: seq<Migration<St>>, applied: set<int>): seq<Migration<St>> {
    if todo == [] then []
    else (if todo[0].version in applied then [] else [todo[0]]) + Pending(todo[1..], applied)
  }

  function AllStatements<St>(ms: seq<Migration<St>>): seq<St> {
    if ms == [] then [] else ms[0].statements + AllStatements(ms[1..])
  }

  function AllVersions<St>(ms: seq<Migration<St>>): seq<int> {
    if ms == [] then [] else [ms[0].version] + AllVersions(ms[1..])
  }

  lemma EmptyLists<St>()
    ensures AllStatements<St>([]) == [] && AllVersions<St>([]) == []
  {
  }

  lemma FirstThenRest<St>(m: Migration<St>, rest: seq<Migration<St>>, n: nat)
    requires n <= |rest|
    ensures AllStatements(([m] + rest)[..n + 1]) == m.statements + AllStatements(rest[..n])
    ensures AllVersions(([m] + rest)[..n + 1]) == [m.version] + AllVersions(rest[..n])
  {
    assert ([m] + rest)[..n + 1] == [m] + rest[..n];
    assert ([m] + rest[..n])[1..] == rest[..n];
  }

  lemma MigratedLeads<St, S(!new)>(effect: Effect<St, S>, m: Migration<St>, db: Db<S>)
    requires Migrated(effect, m, db).Some?
    ensures var next := Migrated(effect, m, db).value;
      Leads(effect, m.statements, db.schema, next.schema) && next.log == db.log + [m.version]
  {
    ExecutedLeads(effect, m.statements, db.schema, Migrated(effect, m, db).value.schema);
    hide Leads, Executed;
  }

  /**
   * What a run has done: the statements of the first `count` pending migrations, all of
   * them and in order, and those migrations recorded. It is done when none is left.
   */
  lemma {:induction false} RunExecutes<St, S(!new)>(
      effect: Effect<St, S>, db: Db<S>, todo: seq<Migration<St>>, applied: set<int>, stop: nat)
    ensures var r, pending := Run(effect, db, todo, applied, stop), Pending(todo, applied);
      && r.count <= |pending|
      && Leads(effect, AllStatements(pending[..r.count]), db.schema, r.db.schema)
      && r.db.log == db.log + AllVersions(pending[..r.count])
      && (r.outcome.Done? <==> r.count == |pending|)
      && (r.outcome.Died? ==> r.count == stop)
      && (r.outcome.Failed? ==> r.outcome.version == pending[r.count].version)
    decreases |todo|
  {
    hide Leads, Migrated, AllStatements, AllVersions;
    EmptyLists<St>();
    LeadsNowhere(effect, db.schema);
    var pending := Pending(todo, applied);
    if todo != [] {
      var rest := Pending(todo[1..], applied);
      if todo[0].version in applied {
        RunExecutes(effect, db, todo[1..], applied, stop);
        assert pending == rest;
      } else if stop > 0 && Migrated(effect, todo[0], db).Some? {
        var next := Migrated(effect, todo[0], db).value;
        RunExecutes(effect, next, todo[1..], applied, stop - 1);
        var r := Run(effect, next, todo[1..], applied, stop - 1);
        FirstThenRest(todo[0], rest, r.count);
        MigratedLeads(effect, todo[0], db);
        LeadsOn(effect, todo[0].statements, AllStatements(rest[..r.count]), db.schema, next.schema, r.db.schema);
      }
    }
  }

  lemma {:induction false} AllPending<St>(todo: seq<Migration<St>>)
    ensures Pending(todo, {}) == todo
  {
    if todo != [] { AllPending(todo[1..]); }
  }

  /**
   * A boot that finishes on an empty database has executed every statement of every
   * migration, one after another in ascending order of version, and recorded each.
   */
  lemma FirstBootExecutesAll<St, S(!new)>(effect: Effect<St, S>, ms: seq<Migration<St>>, db: Db<S>, stop: nat)
    requires Distinct(ms) && db.log == [] && Boot(effect, ms, db, stop).outcome.Done?
    ensures Ascending(Sorted(ms)) && (forall m :: m in Sorted(ms) <==> m in ms)
    ensures var r := Boot(effect, ms, db, stop);
      && Leads(effect, AllStatements(Sorted(ms)), db.schema, r.db.schema)
      && r.db.log == AllVersions(Sorted(ms)) && r.count == |ms|
  {
    hide Leads, Run, Sorted, Inserted;
    SortedAscends(ms);
    forall m ensures m in Sorted(ms) <==> m in ms { SortedHolds(ms, m); }
    RunExecutes(effect, db, Sorted(ms), Versions(db.log), stop);
    assert Versions(db.log) == {};
    AllPending(Sorted(ms));
    assert Sorted(ms)[..|ms|] == Sorted(ms);
  }

  // ---------------------------------------------------------------- the operation itself

  class Database<St, S> {
    const effect: Effect<St, S>
    const migrations: seq<Migration<St>>
    var db: Db<S>
    /** Whether this process has already brought the schema up to date. */
    var initialised: bool

    constructor (effect: Effect<St, S>, migrations: seq<Migration<St>>, db: Db<S>)
      ensures this.effect == effect && this.migrations == migrations && this.db == db && !initialised
    {
      this.effect, this.migrations, this.db, initialised := effect, migrations, db, false;
    }

    /** `init_db`: the result is None when it raises or the process dies. */
    method InitDb(force: bool, stop: nat) returns (count: Option<nat>)
      modifies this
      ensures old(initialised) && !force ==> db == old(db) && count == Some(0) && initialised
      ensures !old(initialised) || force ==>
        var r := Boot(effect, migrations, old(db), stop);
        && db == r.db
        && count == (if r.outcome.Done? then Some(r.count) else None)
        && initialised == (old(initialised) || r.outcome.Done?)
    {
      if initialised && !force {
        return Some(0);
      }
      var applied := set v | v in db.log;
      var todo := Sorted(migrations);
      ghost var whole := Run(effect, db, todo, applied, stop);
      var n: nat := 0;
      for i := 0 to |todo|
        invariant n <= stop && initialised == old(initialised)
        invariant var rest := Run(effect, db, todo[i..], applied, stop - n);
          whole == rest.(count := rest.count + n)
      {
        assert todo[i..][0] == todo[i] && todo[i..][1..] == todo[i + 1..];
        if todo[i].version !in applied {
          if n == stop {
            return None;
          }
          var next := Migrated(effect, todo[i], db);
          if next.None? {
            return None;
          }
          db := next.value;
          n := n + 1;
        }
      }
      initialised := true;
      count := Some(n);
    }
  }
}
