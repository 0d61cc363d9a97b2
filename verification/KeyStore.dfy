/** First-boot REALITY key generation, interrupted anywhere. */
module KeyStore {
  import opened Prelude

  /** Text that is not blank after stripping, as the key parser and the random id guarantee. */
  type Secret = s: string | s != "" witness "x"

  datatype Keys = Keys(private: Secret, public: Secret, shortId: Secret)

  /** The three key files; each is replaced in one step and read back stripped. */
  datatype Files = Files(private: Option<Secret>, public: Option<Secret>, shortId: Option<Secret>)

  const NO_FILES := Files(None, None, None)

  function Loaded(f: Files): Option<Keys> {
    match f
    case Files(Some(a), Some(b), Some(c)) => Some(Keys(a, b, c))
    case _ => None
  }

  /** The file that write number `n` replaces: the short id comes last. */
  function Written(f: Files, k: Keys, n: nat): Files
    requires n < 3
  {
    if n == 0 then f.(private := Some(k.private))
    else if n == 1 then f.(public := Some(k.public))
    else f.(shortId := Some(k.shortId))
  }

  // ---------------------------------------------------------------- boots that can die between writes

  /** A boot that has generated `keys` and done `done` of its three writes. */
  datatype Boot = Boot(keys: Keys, done: nat)

  datatype State = State(files: Files, booting: Option<Boot>)

  datatype Step =
    /** A new boot; it generates keys only when none can be loaded, and generating may fail. */
    | Begin(generated: Option<Keys>)
    | WriteNext
    | Crash

  function After(s: State, step: Step): State {
    match step
    case Begin(generated) =>
      if Loaded(s.files).Some? || generated.None? then State(s.files, None)
      else State(s.files, Some(Boot(generated.value, 0)))
    case WriteNext =>
      if s.booting.None? || s.booting.value.done >= 3 then s
      else
        var b := s.booting.value;
        State(Written(s.files, b.keys, b.done), Some(b.(done := b.done + 1)))
    case Crash => State(s.files, None)
  }

  function AfterAll(s: State, steps: seq<Step>): State
    decreases |steps|
  {
    if steps == [] then s else AfterAll(After(s, steps[0]), steps[1..])
  }

  function Fresh(step: Step): set<Keys> {
    match step
    case Begin(Some(k)) => {k}
    case _ => {}
  }

  /** The key sets that were generated along the way. */
  function Generated(steps: seq<Step>): set<Keys> {
    if steps == [] then {}
    else Fresh(steps[0]) + Generated(steps[1..])
  }

  /**
   * The short id is the commit marker: as long as it is missing nothing can be loaded,
   * and once it is there all three files come from one generation.
   */
  predicate Committed(s: State, born: set<Keys>) {
    && (s.files.shortId.Some? ==> Loaded(s.files).Some? && Loaded(s.files).value in born)
    && (s.booting.Some? ==>
        var b := s.booting.value;
        && b.keys in born && b.done <= 3
        && (b.done >= 1 ==> s.files.private == Some(b.keys.private))
        && (b.done >= 2 ==> s.files.public == Some(b.keys.public))
        && (if b.done == 3 then s.files.shortId == Some(b.keys.shortId) else s.files.shortId == None))
  }

  lemma StepKeepsCommitted(s: State, step: Step, born: set<Keys>)
    requires Committed(s, born)
    ensures Committed(After(s, step), born + Fresh(step))
    ensures Loaded(s.files).Some? ==> Loaded(After(s, step).files) == Loaded(s.files)
  {
  }

  lemma {:induction false} RunKeepsCommitted(s: State, steps: seq<Step>, born: set<Keys>)
    requires Committed(s, born)
    ensures Committed(AfterAll(s, steps), born + Generated(steps))
    ensures Loaded(s.files).Some? ==> Loaded(AfterAll(s, steps).files) == Loaded(s.files)
    decreases |steps|
  {
    if steps == [] {
      assert born + Generated(steps) == born;
    } else {
      StepKeepsCommitted(s, steps[0], born);
      hide Committed, After;
      RunKeepsCommitted(After(s, steps[0]), steps[1..], born + Fresh(steps[0]));
      assert born + Fresh(steps[0]) + Generated(steps[1..]) == born + Generated(steps);
    }
  }

  /**
   * From an empty directory, through any boots and crashes: whatever is ever loaded was
   * generated whole by one boot, and every later boot loads the same.
   */
  lemma KeysAreOneGeneration(steps: seq<Step>, later: seq<Step>)
    ensures var s := AfterAll(State(NO_FILES, None), steps);
      Loaded(s.files).Some? ==>
        && Loaded(s.files).value in Generated(steps)
        && Loaded(AfterAll(s, later).files) == Loaded(s.files)
  {
    RunKeepsCommitted(State(NO_FILES, None), steps, {});
    RunKeepsCommitted(AfterAll(State(NO_FILES, None), steps), later, {} + Generated(steps));
    assert {} + Generated(steps) == Generated(steps);
  }

  /** A boot that is not interrupted leaves keys to load, whatever earlier boots left behind. */
  lemma FullBootLoads(s: State, k: Keys)
    requires s.files.shortId.Some? ==> Loaded(s.files).Some?
    ensures var r := AfterAll(s, [Begin(Some(k)), WriteNext, WriteNext, WriteNext]);
      Loaded(r.files) == if Loaded(s.files).Some? then Loaded(s.files) else Some(k)
  {
    var s1 := After(s, Begin(Some(k)));
    var s2 := After(s1, WriteNext);
    var s3 := After(s2, WriteNext);
    var s4 := After(s3, WriteNext);
    var steps := [Begin(Some(k)), WriteNext, WriteNext, WriteNext];
    assert steps[1..] == [WriteNext, WriteNext, WriteNext];
    assert steps[1..][1..] == [WriteNext, WriteNext];
    assert steps[1..][1..][1..] == [WriteNext];
    assert AfterAll(s4, []) == s4;
    assert AfterAll(s3, [WriteNext]) == s4;
    assert AfterAll(s2, [WriteNext, WriteNext]) == s4;
  }

  // ---------------------------------------------------------------- several generators at once

  /** Boots under way at the same time; one that dies takes no more steps. */
  datatype Crowd = Crowd(files: Files, boots: map<nat, Boot>)

  datatype Move =
    /** Boot `id` looks for keys and, finding none, generates its own. */
    | Begins(id: nat, generated: Option<Keys>)
    | Writes(id: nat)

  function Moved(c: Crowd, m: Move): Crowd {
    match m
    case Begins(id, generated) =>
      if id in c.boots || Loaded(c.files).Some? || generated.None? then c
      else c.(boots := c.boots[id := Boot(generated.value, 0)])
    case Writes(id) =>
      if id !in c.boots || c.boots[id].done >= 3 then c
      else
        var b := c.boots[id];
        Crowd(Written(c.files, b.keys, b.done), c.boots[id := b.(done := b.done + 1)])
  }

  const NOBODY := Crowd(NO_FILES, map[])

  function MovedAll(moves: seq<Move>): Crowd {
    if moves == [] then NOBODY else Moved(MovedAll(moves[..|moves| - 1]), moves[|moves| - 1])
  }

  /** The boot that wrote file `n` last. */
  function LastBy(moves: seq<Move>, n: nat): Option<nat> {
    if moves == [] then None
    else
      var c, m := MovedAll(moves[..|moves| - 1]), moves[|moves| - 1];
      if m.Writes? && m.id in c.boots && c.boots[m.id].done == n && n < 3 then Some(m.id)
      else LastBy(moves[..|moves| - 1], n)
  }

  /** The part of a key set that file `n` holds. */
  function Part(k: Keys, n: nat): Secret {
    if n == 0 then k.private else if n == 1 then k.public else k.shortId
  }

  function FilePart(f: Files, n: nat): Option<Secret> {
    if n == 0 then f.private else if n == 1 then f.public else f.shortId
  }

  /** Once keys can be loaded and nobody is still writing, no number of generators changes anything. */
  lemma {:induction false} SettledKeysStay(moves: seq<Move>, later: seq<Move>)
    requires Loaded(MovedAll(moves).files).Some?
    requires forall id | id in MovedAll(moves).boots :: MovedAll(moves).boots[id].done >= 3
    ensures MovedAll(moves + later) == MovedAll(moves)
    decreases |later|
  {
    if later == [] {
      assert moves + later == moves;
    } else {
      var n := |later| - 1;
      SettledKeysStay(moves, later[..n]);
      assert (moves + later)[..|moves + later| - 1] == moves + later[..n];
    }
  }

  /** File `n` is what its last writer generated. */
  ghost predicate Attributed(c: Crowd, writer: Option<nat>, n: nat) {
    match writer
    case None => FilePart(c.files, n) == None
    case Some(id) => id in c.boots && FilePart(c.files, n) == Some(Part(c.boots[id].keys, n))
  }

  lemma {:induction false} FilesAreAttributed(moves: seq<Move>, n: nat)
    requires n < 3
    ensures Attributed(MovedAll(moves), LastBy(moves, n), n)
  {
    if moves != [] {
      FilesAreAttributed(moves[..|moves| - 1], n);
    }
  }

  /** Every generation is fresh: no two boots share a part. */
  ghost predicate FreshParts(boots: map<nat, Boot>) {
    forall i, j, n | i in boots && j in boots && i != j && 0 <= n < 3 ::
      Part(boots[i].keys, n) != Part(boots[j].keys, n)
  }

  /** Both halves loaded are those of one boot's pair. */
  ghost predicate OnePair(c: Crowd) {
    exists id :: id in c.boots && c.files.private == Some(c.boots[id].keys.private)
      && c.files.public == Some(c.boots[id].keys.public)
  }

  /**
   * In every interleaving of any number of generators: the pair that is loaded is one
   * boot's pair exactly when the same boot wrote last on both files, and the whole triple
   * is one generation exactly when it also wrote the short id last.
   */
  lemma OneGenerationIff(moves: seq<Move>)
    requires Loaded(MovedAll(moves).files).Some? && FreshParts(MovedAll(moves).boots)
    ensures OnePair(MovedAll(moves)) <==> LastBy(moves, 0) == LastBy(moves, 1)
    ensures (exists id :: && id in MovedAll(moves).boots
                          && Loaded(MovedAll(moves).files) == Some(MovedAll(moves).boots[id].keys))
      <==> LastBy(moves, 0) == LastBy(moves, 1) == LastBy(moves, 2)
  {
    hide MovedAll, LastBy;
    var c := MovedAll(moves);
    FilesAreAttributed(moves, 0);
    FilesAreAttributed(moves, 1);
    FilesAreAttributed(moves, 2);
    var a, b, d := LastBy(moves, 0).value, LastBy(moves, 1).value, LastBy(moves, 2).value;
    assert Part(c.boots[a].keys, 0) == c.files.private.value;
    assert Part(c.boots[b].keys, 1) == c.files.public.value;
    assert Part(c.boots[d].keys, 2) == c.files.shortId.value;
    forall id | id in c.boots
      ensures Part(c.boots[id].keys, 0) == c.files.private.value <==> id == a
      ensures Part(c.boots[id].keys, 1) == c.files.public.value <==> id == b
      ensures Part(c.boots[id].keys, 2) == c.files.shortId.value <==> id == d
    {
    }
  }

  /** Two boots that both found no keys, and their writes in an unlucky order. */
  function Race(j: Keys, k: Keys): seq<Move> {
    [Begins(0, Some(j)), Begins(1, Some(k)), Writes(0), Writes(1), Writes(1), Writes(0), Writes(0)]
  }

  /**
   * The order of the writes protects against crashes, not against a second generator:
   * this run leaves the private half of one pair with the public half of the other.
   */
  lemma ConcurrentBootsMix(j: Keys, k: Keys)
    ensures Loaded(MovedAll(Race(j, k)).files) == Some(Keys(k.private, j.public, j.shortId))
    ensures LastBy(Race(j, k), 0) == Some(1) && LastBy(Race(j, k), 1) == Some(0) && LastBy(Race(j, k), 2) == Some(0)
  {
    var r := Race(j, k);
    assert r[..7] == r && r[..7][..6] == r[..6] && r[..6][..5] == r[..5] && r[..5][..4] == r[..4];
    assert r[..4][..3] == r[..3] && r[..3][..2] == r[..2] && r[..2][..1] == r[..1] && r[..1][..0] == [];
    var c2 := Crowd(NO_FILES, map[0 := Boot(j, 0), 1 := Boot(k, 0)]);
    assert MovedAll(r[..1]) == Crowd(NO_FILES, map[0 := Boot(j, 0)]);
    assert MovedAll(r[..2]) == c2;
    var c3 := MovedAll(r[..3]);
    assert c3.boots[0].done == 1 && c3.boots[1].done == 0;
    var c4 := MovedAll(r[..4]);
    assert c4.boots[0].done == 1 && c4.boots[1].done == 1 && LastBy(r[..4], 0) == Some(1);
    var c5 := MovedAll(r[..5]);
    assert c5.boots[0].done == 1 && c5.boots[1].done == 2 && LastBy(r[..5], 0) == Some(1);
    var c6 := MovedAll(r[..6]);
    assert c6.boots[0].done == 2 && LastBy(r[..6], 0) == Some(1) && LastBy(r[..6], 1) == Some(0);
  }

  // ---------------------------------------------------------------- the operation itself

  /** The first `n` writes of a boot. */
  function WrittenUpTo(f: Files, k: Keys, n: nat): Files
    requires n <= 3
  {
    if n == 0 then f else Written(WrittenUpTo(f, k, n - 1), k, n - 1)
  }

  function WriteSteps(n: nat): seq<Step> {
    seq(n, _ => WriteNext)
  }

  lemma {:induction false} AfterAllSplits(s: State, a: seq<Step>, b: seq<Step>)
    ensures AfterAll(s, a + b) == AfterAll(AfterAll(s, a), b)
    decreases |a|
  {
    if a == [] {
      assert a + b == b;
    } else {
      assert (a + b)[1..] == a[1..] + b;
      AfterAllSplits(After(s, a[0]), a[1..], b);
    }
  }

  lemma {:induction false} WritesAreSteps(f: Files, k: Keys, n: nat)
    requires n <= 3
    ensures AfterAll(State(f, Some(Boot(k, 0))), WriteSteps(n)) == State(WrittenUpTo(f, k, n), Some(Boot(k, n)))
  {
    if n > 0 {
      WritesAreSteps(f, k, n - 1);
      assert WriteSteps(n) == WriteSteps(n - 1) + [WriteNext];
      AfterAllSplits(State(f, Some(Boot(k, 0))), WriteSteps(n - 1), [WriteNext]);
      var s := State(WrittenUpTo(f, k, n - 1), Some(Boot(k, n - 1)));
      assert AfterAll(s, [WriteNext]) == AfterAll(After(s, WriteNext), []);
    }
  }

  /** A boot that has nothing to write leaves the files alone. */
  lemma {:induction false} IdleWrites(f: Files, n: nat)
    ensures AfterAll(State(f, None), WriteSteps(n)) == State(f, None)
  {
    if n > 0 {
      assert WriteSteps(n)[1..] == WriteSteps(n - 1);
      IdleWrites(f, n - 1);
    }
  }

  /** A boot that dies after `n` writes, as steps of the crash model. */
  function BootSteps(generated: Option<Keys>, n: nat): seq<Step> {
    [Begin(generated)] + WriteSteps(n)
  }

  lemma BootIsSteps(f: Files, generated: Option<Keys>, n: nat)
    requires n <= 3
    ensures AfterAll(State(f, None), BootSteps(generated, n)).files ==
      if Loaded(f).Some? || generated.None? then f else WrittenUpTo(f, generated.value, n)
  {
    assert BootSteps(generated, n)[1..] == WriteSteps(n);
    if Loaded(f).Some? || generated.None? {
      IdleWrites(f, n);
    } else {
      WritesAreSteps(f, generated.value, n);
    }
  }

  class KeyDirectory {
    var private: Option<Secret>
    var public: Option<Secret>
    var shortId: Option<Secret>

    ghost function Contents(): Files
      reads this
    {
      Files(private, public, shortId)
    }

    constructor ()
      ensures Contents() == NO_FILES
    {
      private, public, shortId := None, None, None;
    }

    method LoadRealityKeys() returns (keys: Option<Keys>)
      ensures keys == Loaded(Contents())
    {
      if private.Some? && public.Some? && shortId.Some? {
        return Some(Keys(private.value, public.value, shortId.value));
      }
      return None;
    }

    /**
     * `generated` is what `xray x25519` and the random source would give, None when they
     * fail; the process dies after `survives` writes. The result is None if it raised or died.
     */
    method EnsureRealityKeys(generated: Option<Keys>, survives: nat) returns (keys: Option<Keys>)
      modifies this
      ensures old(Loaded(Contents())).Some? || generated.None? ==> Contents() == old(Contents())
      ensures old(Loaded(Contents())).None? && generated.Some? ==>
        Contents() == WrittenUpTo(old(Contents()), generated.value, if survives < 3 then survives else 3)
      // what the crash model says of a boot that dies after that many writes
      ensures Contents() ==
              AfterAll(State(old(Contents()), None), BootSteps(generated, if survives < 3 then survives else 3)).files
      ensures keys.Some? ==> keys == Loaded(Contents())
      ensures keys.None? <==> old(Loaded(Contents())).None? && (generated.None? || survives < 3)
    {
      BootIsSteps(Contents(), generated, if survives < 3 then survives else 3);
      hide AfterAll, BootSteps;
      keys := LoadRealityKeys();
      if keys.Some? || generated.None? {
        return;
      }
      var k := generated.value;
      assert WrittenUpTo(Contents(), k, 0) == Contents();
      ghost var before := Contents();
      if survives == 0 { return; }
      private := Some(k.private);
      assert Contents() == WrittenUpTo(before, k, 1);
      if survives == 1 { return; }
      public := Some(k.public);
      assert Contents() == WrittenUpTo(before, k, 2);
      if survives == 2 { return; }
      shortId := Some(k.shortId);
      keys := Some(k);
    }
  }
}
