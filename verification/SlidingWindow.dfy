/** Lists of recent moments, pruned by age: shared by the limiter and the supervisor. */
module SlidingWindow {
  function Recent(times: seq<real>, now: real, window: real): seq<real> {
    if times == [] then []
    else (if now - times[0] < window then [times[0]] else []) + Recent(times[1..], now, window)
  }

  ghost predicate Sorted(times: seq<real>) {
    forall i, j | 0 <= i < j < |times| :: times[i] <= times[j]
  }

  lemma {:induction false} RecentAll(times: seq<real>, now: real, window: real)
    requires forall i | 0 <= i < |times| :: now - times[i] < window
    ensures Recent(times, now, window) == times
  {
    if times != [] { RecentAll(times[1..], now, window); }
  }

  lemma {:induction false} RecentIsTail(times: seq<real>, now: real, window: real)
    requires Sorted(times)
    ensures var r := Recent(times, now, window);
            && |r| <= |times| && times[|times| - |r|..] == r
            && forall i | 0 <= i < |times| - |r| :: now - times[i] >= window
  {
    if times != [] {
      if now - times[0] < window {
        RecentAll(times, now, window);
      } else {
        RecentIsTail(times[1..], now, window);
        var r := Recent(times[1..], now, window);
        assert Recent(times, now, window) == r;
        assert forall i | 1 <= i < |times| :: times[i] == times[1..][i - 1];
      }
    }
  }

  lemma {:induction false} RecentAreRecent(times: seq<real>, now: real, window: real)
    ensures forall i | 0 <= i < |Recent(times, now, window)| :: now - Recent(times, now, window)[i] < window
  {
    if times != [] { RecentAreRecent(times[1..], now, window); }
  }

  /** A tail of a tail is a tail. */
  lemma TailOfTail(history: seq<real>, stored: seq<real>, kept: seq<real>)
    requires |stored| <= |history| && history[|history| - |stored|..] == stored
    requires |kept| <= |stored| && stored[|stored| - |kept|..] == kept
    ensures history[|history| - |kept|..] == kept
  {
    assert stored[|stored| - |kept|..] == history[|history| - |stored|..][|stored| - |kept|..];
  }
}
