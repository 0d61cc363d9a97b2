/** The login rate limiter (app/auth.py): a sliding window with lockout. */
module RateLimiter {
  import opened Prelude
  import opened SlidingWindow

  /** The bounds app/config.py enforces on the three settings. */
  datatype Limits = Limits(maxAttempts: nat, window: real, lockout: real) {
    ghost predicate Valid() {
      maxAttempts >= 1 && window >= 10.0 && lockout >= 10.0
    }

    function Span(): real {
      if window <= lockout then window else lockout
    }
  }

  const MEMORY_GUARD := 4096

  datatype Book = Book(attempts: map<string, seq<real>>, lockedUntil: map<string, real>)

  function Attempts(b: Book, key: string): seq<real> {
    if key in b.attempts then b.attempts[key] else []
  }

  function Until(b: Book, key: string): real {
    if key in b.lockedUntil then b.lockedUntil[key] else 0.0
  }

  datatype Verdict = Verdict(book: Book, allowed: bool, retryAfter: int)

  function Checked(b: Book, key: string, now: real): Verdict {
    var until := Until(b, key);
    if until > now then Verdict(b, false, (until - now).Floor + 1)
    else if until != 0.0 then Verdict(Book(b.attempts - {key}, b.lockedUntil - {key}), true, 0)
    else Verdict(b, true, 0)
  }

  function Failed(b: Book, key: string, now: real, limits: Limits): Book {
    var window := Recent(Attempts(b, key), now, limits.window) + [now];
    var attempts := b.attempts[key := window];
    Book(if |attempts| > MEMORY_GUARD then map[] else attempts,
         if |window| >= limits.maxAttempts then b.lockedUntil[key := now + limits.lockout] else b.lockedUntil)
  }

  function Succeeded(b: Book, key: string): Book {
    Book(b.attempts - {key}, b.lockedUntil - {key})
  }

  class Limiter {
    const limits: Limits
    var attempts: map<string, seq<real>>
    var lockedUntil: map<string, real>

    ghost function State(): Book
      reads this
    {
      Book(attempts, lockedUntil)
    }

    constructor (limits: Limits)
      ensures this.limits == limits && State() == Book(map[], map[])
    {
      this.limits, attempts, lockedUntil := limits, map[], map[];
    }

    method Check(key: string, now: real) returns (allowed: bool, retryAfter: int)
      modifies this
      ensures Verdict(State(), allowed, retryAfter) == Checked(old(State()), key, now)
    {
      var until := if key in lockedUntil then lockedUntil[key] else 0.0;
      if until > now { return false, (until - now).Floor + 1; }
      if until != 0.0 {
        lockedUntil := lockedUntil - {key};
        attempts := attempts - {key};
      }
      return true, 0;
    }

    method RegisterFailure(key: string, now: real)
      modifies this
      ensures State() == Failed(old(State()), key, now, limits)
    {
      var window := Recent(if key in attempts then attempts[key] else [], now, limits.window) + [now];
      attempts := attempts[key := window];
      if |window| >= limits.maxAttempts { lockedUntil := lockedUntil[key := now + limits.lockout]; }
      if |attempts| > MEMORY_GUARD { attempts := map[]; }
    }

    method RegisterSuccess(key: string)
      modifies this
      ensures State() == Succeeded(old(State()), key)
    {
      attempts := attempts - {key};
      lockedUntil := lockedUntil - {key};
    }

    /** `authenticate`: `now` is the check's reading, `later` the failure's. */
    method Authenticate(key: string, correct: bool, now: real, later: real) returns (ok: bool, retryAfter: int)
      modifies this
      ensures State() == Attempted(old(State()), Attempt(key, now, later, correct), limits)
      ensures ok <==> Checked(old(State()), key, now).allowed && correct
      ensures retryAfter == Checked(old(State()), key, now).retryAfter
    {
      var allowed, wait := Check(key, now);
      if !allowed { return false, wait; }
      if correct {
        RegisterSuccess(key);
        return true, 0;
      }
      RegisterFailure(key, later);
      return false, 0;
    }
  }

  // ----- sequences of login attempts ---------------------------------------------

  datatype Attempt = Attempt(key: string, checkedAt: real, failedAt: real, correct: bool)

  function Attempted(b: Book, a: Attempt, limits: Limits): Book {
    var v := Checked(b, a.key, a.checkedAt);
    if !v.allowed then v.book
    else if a.correct then Succeeded(v.book, a.key)
    else Failed(v.book, a.key, a.failedAt, limits)
  }

  function After(run: seq<Attempt>, limits: Limits): Book {
    if run == [] then Book(map[], map[]) else Attempted(After(run[..|run| - 1], limits), run[|run| - 1], limits)
  }

  /** When passwords for `key` were tested and found wrong, since one was last found right. */
  function FailureTimes(run: seq<Attempt>, key: string, limits: Limits): seq<real> {
    if run == [] then []
    else
      var a, before := run[|run| - 1], FailureTimes(run[..|run| - 1], key, limits);
      if a.key != key || !Checked(After(run[..|run| - 1], limits), key, a.checkedAt).allowed then before
      else if a.correct then []
      else before + [a.failedAt]
  }

  /** One attempt of the client after another, by a clock that does not run backwards; others may come in between. */
  ghost predicate Sequential(run: seq<Attempt>, key: string) {
    && (forall i | 0 <= i < |run| && run[i].key == key :: 0.0 <= run[i].checkedAt <= run[i].failedAt)
    && forall i, j | 0 <= i < j < |run| && run[i].key == key && run[j].key == key :: run[i].failedAt <= run[j].checkedAt
  }

  /** The attempt makes the memory guard throw the recorded failures away. */
  predicate FiresGuard(b: Book, a: Attempt) {
    var v := Checked(b, a.key, a.checkedAt);
    v.allowed && !a.correct && |v.book.attempts.Keys + {a.key}| > MEMORY_GUARD
  }

  ghost predicate GuardSleeps(run: seq<Attempt>, limits: Limits) {
    forall k | 0 <= k < |run| :: !FiresGuard(After(run[..k], limits), run[k])
  }

  function KeysOf(run: seq<Attempt>): set<string> {
    set i | 0 <= i < |run| :: run[i].key
  }

  /** When the client's last attempt ended. */
  function EndOf(run: seq<Attempt>, key: string): real {
    if run == [] then 0.0
    else if run[|run| - 1].key == key then run[|run| - 1].failedAt
    else EndOf(run[..|run| - 1], key)
  }

  lemma KeysInBook(run: seq<Attempt>, limits: Limits)
    ensures After(run, limits).attempts.Keys <= KeysOf(run)
  {
    if run != [] {
      var n := |run| - 1;
      KeysInBook(run[..n], limits);
      assert KeysOf(run[..n]) <= KeysOf(run) by {
        forall k | k in KeysOf(run[..n]) ensures k in KeysOf(run) {
          var i :| 0 <= i < n && run[..n][i].key == k;
          assert run[i].key == k;
        }
      }
      assert run[n].key in KeysOf(run);
      hide Recent, KeysOf;
    }
  }

  lemma Subset(a: set<string>, b: set<string>)
    requires a <= b
    ensures |a| <= |b|
  {
    assert b == a + (b - a);
  }

  // ----- one key's share of the book ------------------------------------------------

  /** Failures `max` places apart are at least one span apart. */
  ghost predicate Spaced(times: seq<real>, limits: Limits) {
    forall i, j | 0 <= i && j == i + limits.maxAttempts && j < |times| :: times[j] - times[i] >= limits.Span()
  }

  /**
   The stored list is the tail of the key's whole failure history; whatever is
   no longer stored lies a full span in the past; there is a lock exactly when the
   list has reached the limit, set by the last failure with all others in its window.
   */
  ghost predicate Refines(stored: seq<real>, lock: Option<real>, history: seq<real>, end: real, limits: Limits) {
    && |stored| <= |history| && history[|history| - |stored|..] == stored
    && Sorted(history) && (forall i | 0 <= i < |history| :: 0.0 <= history[i] <= end)
    && (forall i | 0 <= i < |history| - |stored| :: end >= history[i] + limits.Span())
    && (lock.Some? ==> history != [] && lock.value == history[|history| - 1] + limits.lockout)
    && (lock.Some? <==> |stored| >= limits.maxAttempts)
    && (lock.Some? ==> forall i | 0 <= i < |stored| :: history[|history| - 1] - stored[i] < limits.window)
  }

  function Lock(b: Book, key: string): Option<real> {
    if key in b.lockedUntil then Some(b.lockedUntil[key]) else None
  }

  lemma SpacedSnoc(stored: seq<real>, history: seq<real>, end: real, now: real, limits: Limits)
    requires limits.Valid() && Refines(stored, None, history, end, limits) && Spaced(history, limits) && end <= now
    ensures Spaced(history + [now], limits)
  {
    var h, n := history + [now], |history|;
    forall i, j | 0 <= i && j == i + limits.maxAttempts && j < |h| ensures h[j] - h[i] >= limits.Span() {
      if j == n { assert i < n - |stored|; }
    }
  }

  /** What a failure at `now` leaves out of the list lies a full span back. */
  lemma DroppedAreOld(stored: seq<real>, kept: seq<real>, history: seq<real>, end: real, now: real, limits: Limits)
    requires limits.Valid() && Refines(stored, None, history, end, limits) && end <= now
    requires kept == Recent(stored, now, limits.window)
    ensures |kept| <= |history| && history[|history| - |kept|..] == kept
    ensures forall i | 0 <= i < |history| - |kept| :: now >= history[i] + limits.Span()
  {
    var n := |history|;
    var rest := history[n - |stored|..];
    RecentIsTail(stored, now, limits.window);
    TailOfTail(history, stored, kept);
    hide Recent;
    forall i | 0 <= i < n - |kept| ensures now >= history[i] + limits.Span() {
      if i >= n - |stored| { assert history[i] == rest[i - (n - |stored|)]; }
    }
  }

  lemma FailureRefines(stored: seq<real>, history: seq<real>, end: real, now: real, limits: Limits)
    requires limits.Valid() && Refines(stored, None, history, end, limits) && Spaced(history, limits)
    requires 0.0 <= end <= now
    ensures var window := Recent(stored, now, limits.window) + [now];
            var lock := if |window| >= limits.maxAttempts then Some(now + limits.lockout) else None;
            Refines(window, lock, history + [now], now, limits)
    ensures Spaced(history + [now], limits)
  {
    hide Recent, Spaced;
    RecentAreRecent(stored, now, limits.window);
    SpacedSnoc(stored, history, end, now, limits);
    var kept := Recent(stored, now, limits.window);
    DroppedAreOld(stored, kept, history, end, now, limits);
    Appended(kept, history, now);
    SortedSnoc(history, now);
    assert forall i | 0 <= i < |history| :: (history + [now])[i] == history[i];
    hide Sorted;
  }

  lemma SortedSnoc(history: seq<real>, now: real)
    requires Sorted(history) && forall i | 0 <= i < |history| :: history[i] <= now
    ensures Sorted(history + [now])
  {
  }

  lemma Appended(kept: seq<real>, history: seq<real>, now: real)
    requires |kept| <= |history| && history[|history| - |kept|..] == kept
    ensures (history + [now])[|history + [now]| - |kept + [now]|..] == kept + [now]
  {
  }

  lemma UnlockRefines(stored: seq<real>, lock: real, history: seq<real>, end: real, now: real, limits: Limits)
    requires limits.Valid() && Refines(stored, Some(lock), history, end, limits) && lock <= now && end <= now
    ensures Refines([], None, history, now, limits)
  {
  }

  lemma OtherKeyKeeps(b: Book, a: Attempt, limits: Limits, key: string)
    requires key != a.key
    requires !FiresGuard(b, a)
    ensures Attempts(Attempted(b, a, limits), key) == Attempts(b, key)
    ensures Lock(Attempted(b, a, limits), key) == Lock(b, key)
  {
    hide Checked, Failed, Succeeded, Attempts, Lock;
    var checked := Checked(b, a.key, a.checkedAt).book;
    CheckedKeepsOther(b, a.key, a.checkedAt, key);
    if Checked(b, a.key, a.checkedAt).allowed && !a.correct {
      FailedKeepsOther(checked, a.key, a.failedAt, limits, key);
    }
    SucceededKeepsOther(checked, a.key, key);
  }

  lemma CheckedKeepsOther(b: Book, own: string, now: real, key: string)
    requires key != own
    ensures Attempts(Checked(b, own, now).book, key) == Attempts(b, key)
    ensures Lock(Checked(b, own, now).book, key) == Lock(b, key)
  {
  }

  lemma FailedKeepsOther(b: Book, own: string, now: real, limits: Limits, key: string)
    requires key != own && |b.attempts.Keys + {own}| <= MEMORY_GUARD
    ensures Attempts(Failed(b, own, now, limits), key) == Attempts(b, key)
    ensures Lock(Failed(b, own, now, limits), key) == Lock(b, key)
  {
    hide Recent;
    var window := Recent(Attempts(b, own), now, limits.window) + [now];
    assert b.attempts[own := window].Keys == b.attempts.Keys + {own};
  }

  lemma SucceededKeepsOther(b: Book, own: string, key: string)
    requires key != own
    ensures Attempts(Succeeded(b, own), key) == Attempts(b, key) && Lock(Succeeded(b, own), key) == Lock(b, key)
  {
  }

  /** With at most 4096 client keys in play the memory guard never fires. */
  lemma GuardQuiet(run: seq<Attempt>, limits: Limits)
    requires run != [] && |KeysOf(run)| <= MEMORY_GUARD
    ensures var a, b := run[|run| - 1], After(run[..|run| - 1], limits);
            |Checked(b, a.key, a.checkedAt).book.attempts.Keys + {a.key}| <= MEMORY_GUARD
  {
    var n := |run| - 1;
    var a, b := run[n], After(run[..n], limits);
    KeysInBook(run[..n], limits);
    KeysOfPrefix(run, n);
    var keys := Checked(b, a.key, a.checkedAt).book.attempts.Keys + {a.key};
    assert keys <= KeysOf(run);
    Subset(keys, KeysOf(run));
  }

  lemma KeysOfPrefix(run: seq<Attempt>, k: nat)
    requires k <= |run|
    ensures KeysOf(run[..k]) <= KeysOf(run) && |KeysOf(run[..k])| <= |KeysOf(run)|
  {
    forall x | x in KeysOf(run[..k]) ensures x in KeysOf(run) {
      var i :| 0 <= i < k && run[..k][i].key == x;
      assert run[i].key == x;
    }
    Subset(KeysOf(run[..k]), KeysOf(run));
  }

  /** So few clients never wake it. */
  lemma FewKeysGuardSleeps(run: seq<Attempt>, limits: Limits)
    requires |KeysOf(run)| <= 4096
    ensures GuardSleeps(run, limits)
  {
    hide After, Checked, KeysOf;
    forall k | 0 <= k < |run| ensures !FiresGuard(After(run[..k], limits), run[k]) {
      KeysOfPrefix(run, k + 1);
      assert run[..k + 1][..k] == run[..k];
      GuardQuiet(run[..k + 1], limits);
    }
  }

  /** However many clients there are, failures of at most 4096 of them are remembered. */
  lemma {:induction false} MemoryIsBounded(run: seq<Attempt>, limits: Limits)
    ensures |After(run, limits).attempts| <= 4096
  {
    if run != [] {
      var n := |run| - 1;
      MemoryIsBounded(run[..n], limits);
      var b, a := After(run[..n], limits), run[n];
      AttemptedIs(b, a, limits);
      var v := Checked(b, a.key, a.checkedAt).book;
      Subset(v.attempts.Keys, b.attempts.Keys);
      Subset(v.attempts.Keys - {a.key}, v.attempts.Keys);
      hide Recent;
    }
  }

  lemma PrefixConditions(run: seq<Attempt>, key: string, limits: Limits)
    requires run != [] && Sequential(run, key) && GuardSleeps(run, limits)
    ensures var p := run[..|run| - 1]; Sequential(p, key) && GuardSleeps(p, limits)
  {
    hide After, Checked, FiresGuard;
    var p := run[..|run| - 1];
    forall k | 0 <= k < |p| ensures p[..k] == run[..k] && p[k] == run[k] {
    }
  }

  lemma {:induction false} EndBefore(run: seq<Attempt>, key: string, at: real)
    requires forall i | 0 <= i < |run| && run[i].key == key :: 0.0 <= run[i].failedAt <= at
    requires 0.0 <= at
    ensures 0.0 <= EndOf(run, key) <= at
  {
    if run != [] {
      EndBefore(run[..|run| - 1], key, at);
    }
  }

  lemma {:induction false} HistoryRefined(run: seq<Attempt>, key: string, limits: Limits)
    requires limits.Valid() && Sequential(run, key) && GuardSleeps(run, limits)
    ensures var b := After(run, limits);
            Refines(Attempts(b, key), Lock(b, key), FailureTimes(run, key, limits), EndOf(run, key), limits)
    ensures Spaced(FailureTimes(run, key, limits), limits)
  {
    if run != [] {
      var n := |run| - 1;
      var a, b := run[n], After(run[..n], limits);
      PrefixConditions(run, key, limits);
      HistoryRefined(run[..n], key, limits);
      assert !FiresGuard(b, a);
      hide Refines, Spaced, Checked, Attempted, FiresGuard, Attempts, Lock;
      var history := FailureTimes(run[..n], key, limits);
      if a.key == key {
        EndBefore(run[..n], key, a.checkedAt);
        OwnKeyStep(b, a, history, EndOf(run[..n], key), limits);
      } else {
        OtherKeyKeeps(b, a, limits, key);
      }
    }
  }

  lemma LaterEnd(stored: seq<real>, lock: Option<real>, history: seq<real>, end: real, later: real, limits: Limits)
    requires Refines(stored, lock, history, end, limits) && end <= later
    ensures Refines(stored, lock, history, later, limits)
  {
  }

  lemma FailedBook(b: Book, key: string, now: real, limits: Limits)
    requires |b.attempts.Keys + {key}| <= MEMORY_GUARD
    ensures var window := Recent(Attempts(b, key), now, limits.window) + [now];
            && Attempts(Failed(b, key, now, limits), key) == window
            && Lock(Failed(b, key, now, limits), key) ==
               if |window| >= limits.maxAttempts then Some(now + limits.lockout) else Lock(b, key)
  {
    hide Recent;
    var window := Recent(Attempts(b, key), now, limits.window) + [now];
    assert b.attempts[key := window].Keys == b.attempts.Keys + {key};
  }

  lemma OwnKeyStep(b: Book, a: Attempt, history: seq<real>, end: real, limits: Limits)
    requires limits.Valid() && 0.0 <= end <= a.checkedAt <= a.failedAt && !FiresGuard(b, a)
    requires Refines(Attempts(b, a.key), Lock(b, a.key), history, end, limits) && Spaced(history, limits)
    ensures var after := Attempted(b, a, limits);
            var history' := if !Checked(b, a.key, a.checkedAt).allowed then history
                            else if a.correct then [] else history + [a.failedAt];
            && Refines(Attempts(after, a.key), Lock(after, a.key), history', a.failedAt, limits)
            && Spaced(history', limits)
  {
    hide Attempted, Checked, Failed, Refines, Spaced, Recent, Attempts, Lock;
    var v := Checked(b, a.key, a.checkedAt);
    AttemptedIs(b, a, limits);
    if v.allowed && a.correct {
      FreshRefines(v.book, a.key, a.failedAt, limits);
    } else if v.allowed {
      AllowedRefines(b, a.key, a.checkedAt, history, end, limits);
      FailureRefines(Attempts(v.book, a.key), history, a.checkedAt, a.failedAt, limits);
      FailedBook(v.book, a.key, a.failedAt, limits);
    } else {
      LaterEnd(Attempts(b, a.key), Lock(b, a.key), history, end, a.failedAt, limits);
    }
  }

  lemma AttemptedIs(b: Book, a: Attempt, limits: Limits)
    ensures var v := Checked(b, a.key, a.checkedAt);
            Attempted(b, a, limits) ==
            if !v.allowed then b
            else if a.correct then Succeeded(v.book, a.key) else Failed(v.book, a.key, a.failedAt, limits)
  {
  }

  /** A right password leaves the client with a clean record. */
  lemma FreshRefines(b: Book, key: string, now: real, limits: Limits)
    requires limits.Valid()
    ensures var after := Succeeded(b, key);
            && Refines(Attempts(after, key), Lock(after, key), [], now, limits) && Spaced([], limits)
            && Attempts(after, key) == [] && Lock(after, key) == None
  {
  }

  lemma AllowedRefines(b: Book, key: string, now: real, history: seq<real>, end: real, limits: Limits)
    requires limits.Valid() && 0.0 <= end <= now && Refines(Attempts(b, key), Lock(b, key), history, end, limits)
    requires Checked(b, key, now).allowed
    ensures Refines(Attempts(Checked(b, key, now).book, key), None, history, now, limits)
    ensures Lock(Checked(b, key, now).book, key) == None
  {
    if Lock(b, key).Some? {
      UnlockRefines(Attempts(b, key), Lock(b, key).value, history, end, now, limits);
    }
  }

  // ----- the bounds ----------------------------------------------------------------------

  /**
   Any `maxAttempts` + 1 consecutive tested-and-failed passwords of one client
   span at least the shorter of the window and the lockout.
   */
  lemma FailuresAreSpaced(run: seq<Attempt>, key: string, limits: Limits, i: nat)
    requires limits.Valid() && Sequential(run, key) && GuardSleeps(run, limits)
    requires i + limits.maxAttempts < |FailureTimes(run, key, limits)|
    ensures var f := FailureTimes(run, key, limits);
            f[i + limits.maxAttempts] - f[i] >= limits.Span()
  {
    HistoryRefined(run, key, limits);
  }

  lemma OneMore(n: nat, x: real, c: nat)
    requires c > 0
    ensures n * c == n * (c - 1) + n && x * c as real == x * (c - 1) as real + x
  {
  }

  lemma {:induction false} SpacedFar(times: seq<real>, limits: Limits, i: nat, c: nat)
    requires Spaced(times, limits) && Sorted(times) && i + limits.maxAttempts * c < |times|
    ensures times[i + limits.maxAttempts * c] - times[i] >= limits.Span() * c as real
    decreases c
  {
    if c > 0 {
      var k := i + limits.maxAttempts * (c - 1);
      OneMore(limits.maxAttempts, limits.Span(), c);
      SpacedFar(times, limits, i, c - 1);
      assert times[k + limits.maxAttempts] - times[k] >= limits.Span();
    }
  }

  function Within(times: seq<real>, from: real, length: real): set<nat> {
    set i: nat | i < |times| && from <= times[i] < from + length
  }

  lemma IntervalSize(s: set<nat>, lo: nat, count: nat)
    requires forall i | i in s :: lo <= i < lo + count
    ensures |s| <= count
    decreases count
  {
    if count == 0 {
      assert s == {};
    } else {
      var last := lo + count - 1;
      IntervalSize(s - {last}, lo, count - 1);
      assert |s| <= |s - {last}| + 1 by {
        if last in s { assert s == (s - {last}) + {last}; } else { assert s - {last} == s; }
      }
    }
  }

  lemma BeyondIsOutside(f: seq<real>, lo: nat, hi: nat, from: real, length: real)
    requires Sorted(f) && lo < |f| && from <= f[lo]
    requires forall i | hi <= i < |f| :: f[i] - f[lo] >= length
    ensures forall i | i in Within(f, from, length) :: i < hi
  {
  }

  lemma SortedBeyond(f: seq<real>, lo: nat, hi: nat, length: real)
    requires Sorted(f) && lo < |f| && (hi < |f| ==> f[hi] - f[lo] >= length)
    ensures forall i | hi <= i < |f| :: f[i] - f[lo] >= length
  {
  }

  /** A half-open interval no longer than `c` spans admits at most `maxAttempts` * `c` failures. */
  lemma FailuresPerInterval(run: seq<Attempt>, key: string, limits: Limits, from: real, length: real, c: nat)
    requires limits.Valid() && Sequential(run, key) && GuardSleeps(run, limits)
    requires length <= limits.Span() * c as real
    ensures |Within(FailureTimes(run, key, limits), from, length)| <= limits.maxAttempts * c
  {
    hide FailureTimes, Spaced, Within, GuardSleeps, Sequential;
    HistoryRefined(run, key, limits);
    SpacedInterval(FailureTimes(run, key, limits), limits, from, length, c);
  }

  lemma SpacedInterval(f: seq<real>, limits: Limits, from: real, length: real, c: nat)
    requires Spaced(f, limits) && Sorted(f) && length <= limits.Span() * c as real
    ensures |Within(f, from, length)| <= limits.maxAttempts * c
  {
    var s := Within(f, from, length);
    if s != {} {
      var lo := Least(s);
      hide Spaced;
      IntervalFrom(f, limits, from, length, c, lo);
      hide Within, Sorted;
      IntervalSize(s, lo, limits.maxAttempts * c);
    }
  }

  lemma IntervalFrom(f: seq<real>, limits: Limits, from: real, length: real, c: nat, lo: nat)
    requires Spaced(f, limits) && Sorted(f) && length <= limits.Span() * c as real
    requires lo in Within(f, from, length)
    ensures forall i | i in Within(f, from, length) :: i < lo + limits.maxAttempts * c
  {
    var hi := lo + limits.maxAttempts * c;
    if hi < |f| { SpacedFar(f, limits, lo, c); }
    hide Spaced;
    SortedBeyond(f, lo, hi, limits.Span() * c as real);
    BeyondIsOutside(f, lo, hi, from, length);
  }

  lemma Least(s: set<nat>) returns (lo: nat)
    requires s != {}
    ensures lo in s && forall i | i in s :: lo <= i
  {
    var x :| x in s;
    if s == {x} {
      lo := x;
    } else {
      var rest := Least(s - {x});
      lo := if x < rest then x else rest;
      assert forall i | i in s :: i == x || i in s - {x};
    }
  }

  /**
   A client is refused only after `maxAttempts` wrong passwords since its last right
   one, all within a window of the latest, and only until the lockout after that ends.
   */
  lemma RefusedMeans(run: seq<Attempt>, key: string, limits: Limits, now: real)
    requires limits.Valid() && Sequential(run, key) && GuardSleeps(run, limits)
    requires !Checked(After(run, limits), key, now).allowed && now >= 0.0
    ensures var f, n := FailureTimes(run, key, limits), limits.maxAttempts;
            && |f| >= n && now < f[|f| - 1] + limits.lockout
            && forall i | |f| - n <= i < |f| :: f[|f| - 1] - f[i] < limits.window
  {
    hide After, FailureTimes, Spaced, Sequential, GuardSleeps, EndOf, Refines, Checked, Attempts, Lock;
    HistoryRefined(run, key, limits);
    var b := After(run, limits);
    RefusedHasLock(b, key, now);
    LockMeans(Attempts(b, key), Lock(b, key).value, FailureTimes(run, key, limits), EndOf(run, key), limits);
  }

  lemma RefusedHasLock(b: Book, key: string, now: real)
    requires !Checked(b, key, now).allowed && now >= 0.0
    ensures Lock(b, key).Some? && now < Lock(b, key).value
  {
  }

  lemma LockMeans(stored: seq<real>, lock: real, history: seq<real>, end: real, limits: Limits)
    requires Refines(stored, Some(lock), history, end, limits) && limits.Valid()
    ensures |history| >= limits.maxAttempts && lock == history[|history| - 1] + limits.lockout
    ensures forall i | |history| - limits.maxAttempts <= i < |history| ::
              history[|history| - 1] - history[i] < limits.window
  {
    forall i | |history| - limits.maxAttempts <= i < |history|
      ensures history[|history| - 1] - history[i] < limits.window
    {
      assert history[i] == stored[i - (|history| - |stored|)];
    }
  }

  /** An admitted attempt has nothing to wait for, a refused one at least a second. */
  lemma DelayMeans(b: Book, key: string, now: real)
    ensures var v := Checked(b, key, now);
            (v.allowed ==> v.retryAfter == 0) && (!v.allowed ==> v.retryAfter >= 1 && v.book == b)
  {
    var until := Until(b, key);
    assert (until - now).Floor as real <= until - now < (until - now).Floor as real + 1.0;
  }

  /** Waiting out the returned delay suffices, and it overshoots by less than a second. */
  lemma RetryAfterSuffices(b: Book, key: string, now: real, later: real)
    requires !Checked(b, key, now).allowed && later >= now + Checked(b, key, now).retryAfter as real
    ensures Checked(b, key, later).allowed
    ensures !Checked(b, key, now + (Checked(b, key, now).retryAfter - 1) as real).allowed
            || Until(b, key) == now + (Checked(b, key, now).retryAfter - 1) as real
  {
    var until := Until(b, key);
    assert (until - now).Floor as real <= until - now < (until - now).Floor as real + 1.0;
  }
}
