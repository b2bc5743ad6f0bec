/** The longest streak of consecutive active days of one conversation: the
    days are sorted and scanned once, and a run is kept as the best one only
    when it is strictly longer than the best so far, so the earliest of the
    longest runs wins. Days are whole day numbers (date arithmetic by
    `timedelta(days=1)` is adding one). */
module Streaks {
  import opened Seqs

  /** A conversation's streak: none for a conversation without active days,
      otherwise its length and its first and last day. */
  datatype Streak = NoStreak | Run(length: nat, start: int, end: int)

  function StreakLength(s: Streak): nat {
    if s.NoStreak? then 0 else s.length
  }

  /** Every day from a to b is an active day. */
  ghost predicate IsRun(days: set<int>, a: int, b: int) {
    a <= b && forall d :: a <= d <= b ==> d in days
  }

  /** s is the earliest of the longest runs of consecutive days in `days`. */
  ghost predicate IsLongestRun(days: set<int>, s: Streak) {
    && (s.NoStreak? <==> days == {})
    && (s.Run? ==>
          && IsRun(days, s.start, s.end)
          && s.length == s.end - s.start + 1
          && (forall a, b :: IsRun(days, a, b) ==> b - a + 1 <= s.length)
          && (forall a, b :: IsRun(days, a, b) && b - a + 1 == s.length ==> s.start <= a))
  }

  /** Two streaks meeting the specification are the same streak. */
  lemma LongestRunUnique(days: set<int>, s: Streak, t: Streak)
    requires IsLongestRun(days, s) && IsLongestRun(days, t)
    ensures s == t
  {
    if s.Run? {
      assert IsRun(days, t.start, t.end);
      assert IsRun(days, s.start, s.end);
    }
  }

  // ---------------------------------------------------------------------------
  // sorted(days_active)

  lemma HasElement(days: set<int>)
    ensures days == {} || exists d :: d in days
  {
    if !(exists d :: d in days) {
      assert days == {};
    }
  }

  lemma {:induction false} HasMin(days: set<int>)
    requires days != {}
    ensures exists m :: m in days && forall x :: x in days ==> m <= x
    decreases days
  {
    HasElement(days);
    var y :| y in days;
    if days - {y} != {} {
      HasMin(days - {y});
      var m :| m in days - {y} && forall x :: x in days - {y} ==> m <= x;
      var least := if y < m then y else m;
      forall x | x in days ensures least <= x {
        if x != y { assert x in days - {y}; }
      }
    } else {
      forall x | x in days ensures y <= x {
        assert x !in days - {y};
      }
    }
  }

  /** The smallest day of a non-empty set. */
  function MinDay(days: set<int>): (m: int)
    requires days != {}
    ensures m in days && forall x :: x in days ==> m <= x
  {
    HasMin(days);
    var m :| m in days && forall x :: x in days ==> m <= x;
    m
  }

  /** `sorted(days)`: the days in increasing order, each once. */
  function SortedDays(days: set<int>): (ds: seq<int>)
    ensures Increasing(ds)
    ensures forall d :: d in ds <==> d in days
    ensures |ds| == |days|
    decreases days
  {
    if days == {} then []
    else
      var m := MinDay(days);
      var rest := SortedDays(days - {m});
      assert forall x :: x in rest ==> m < x;
      [m] + rest
  }

  // ---------------------------------------------------------------------------
  // The scan, in positions of the sorted list

  /** Positions lo..hi-1 of ds hold days that follow one another. */
  ghost predicate Consecutive(ds: seq<int>, lo: int, hi: int) {
    0 <= lo < hi <= |ds| && forall k :: lo <= k < hi - 1 ==> ds[k + 1] == ds[k] + 1
  }

  /** The streak scan over the active days of one conversation: the days
      are sorted, then scanned for runs. */
  method LongestStreak(days: set<int>) returns (s: Streak)
    ensures IsLongestRun(days, s)
    ensures days != {} ==> 1 <= s.length <= |days|
  {
    if days == {} {
      return NoStreak;
    }
    var ds := SortedDays(days);
    var maxLen, bestStart, bestEnd, bl := ScanRuns(ds);
    s := Run(maxLen, bestStart, bestEnd);
    SpecFromPositions(days, ds, bl, maxLen);
  }

  /** One pass over the sorted days: the current run grows while each day
      follows the one before, and a run that ends replaces the best one only
      when it is strictly longer. The best run is the first of the longest
      stretches of consecutive days, at positions bl..bl + maxLen - 1. */
  method ScanRuns(ds: seq<int>) returns (maxLen: int, bestStart: int, bestEnd: int, ghost bl: int)
    requires ds != []
    ensures 0 <= bl && BestBefore(ds, |ds|, bl, maxLen)
    ensures bestStart == ds[bl] && bestEnd == ds[bl + maxLen - 1]
  {
    var n := |ds|;
    var current := 1;
    maxLen := 1;
    bestStart := ds[0];
    bestEnd := ds[0];
    bl := 0;
    ghost var lo := 0;
    for i := 1 to n
      invariant lo == i - current && 0 <= lo < i
      invariant Consecutive(ds, lo, i)
      invariant lo > 0 ==> ds[lo] != ds[lo - 1] + 1
      invariant 0 <= bl <= lo && BestBefore(ds, lo, bl, maxLen)
      invariant bestStart == ds[bl] && bestEnd == ds[bl + maxLen - 1]
    {
      current, maxLen, bestStart, bestEnd, bl, lo := Advance(ds, i, current, maxLen, bestStart, bestEnd, bl, lo);
    }
    maxLen, bestStart, bestEnd, bl := KeepLonger(ds, n - current, n, maxLen, bestStart, bestEnd, bl);
  }

  /** One step of the scan at position i: the day either continues the
      current run, or ends it and starts a new one. */
  method Advance(ds: seq<int>, i: int, current: int, maxLen: int, bestStart: int, bestEnd: int, ghost bl: int, ghost lo: int)
    returns (current': int, maxLen': int, bestStart': int, bestEnd': int, ghost bl': int, ghost lo': int)
    requires 0 < i < |ds|
    requires lo == i - current && 0 <= lo < i
    requires Consecutive(ds, lo, i)
    requires lo > 0 ==> ds[lo] != ds[lo - 1] + 1
    requires 0 <= bl <= lo && BestBefore(ds, lo, bl, maxLen)
    requires bestStart == ds[bl] && bestEnd == ds[bl + maxLen - 1]
    ensures lo' == i + 1 - current' && 0 <= lo' < i + 1
    ensures Consecutive(ds, lo', i + 1)
    ensures lo' > 0 ==> ds[lo'] != ds[lo' - 1] + 1
    ensures 0 <= bl' <= lo' && BestBefore(ds, lo', bl', maxLen')
    ensures bestStart' == ds[bl'] && bestEnd' == ds[bl' + maxLen' - 1]
  {
    if ds[i] == ds[i - 1] + 1 {
      ExtendRun(ds, lo, i);
      return current + 1, maxLen, bestStart, bestEnd, bl, lo;
    }
    maxLen', bestStart', bestEnd', bl' := KeepLonger(ds, i - current, i, maxLen, bestStart, bestEnd, bl);
    current' := 1;
    lo' := i;
    assert Consecutive(ds, lo', i + 1);
  }

  lemma ExtendRun(ds: seq<int>, lo: int, i: int)
    requires Consecutive(ds, lo, i) && i < |ds| && ds[i] == ds[i - 1] + 1
    ensures Consecutive(ds, lo, i + 1)
  {
  }

  /** `if current_len > max_len`: the run that just ended, at positions
      start..end - 1, becomes the best one only when it is strictly longer. */
  method KeepLonger(ds: seq<int>, start: int, end: int, maxLen: int, bestStart: int, bestEnd: int, ghost bl: int)
    returns (maxLen': int, bestStart': int, bestEnd': int, ghost bl': int)
    requires Consecutive(ds, start, end)
    requires start > 0 ==> ds[start] != ds[start - 1] + 1
    requires 0 <= bl <= start && BestBefore(ds, start, bl, maxLen)
    requires bestStart == ds[bl] && bestEnd == ds[bl + maxLen - 1]
    ensures 0 <= bl' <= start && BestBefore(ds, end, bl', maxLen')
    ensures bestStart' == ds[bl'] && bestEnd' == ds[bl' + maxLen' - 1]
  {
    CloseRun(ds, start, end, bl, maxLen);
    if end - start > maxLen {
      return end - start, ds[start], ds[end - 1], start;
    }
    return maxLen, bestStart, bestEnd, bl;
  }

  /** The stretch bl..bl + maxLen - 1 is consecutive, and no stretch ending by
      `bound` is longer, or as long and earlier. */
  ghost predicate BestBefore(ds: seq<int>, bound: int, bl: int, maxLen: int) {
    && 1 <= maxLen
    && Consecutive(ds, bl, bl + maxLen)
    && (forall lo, hi :: Consecutive(ds, lo, hi) && hi <= bound ==>
          hi - lo <= maxLen && (hi - lo == maxLen ==> bl <= lo))
  }

  /** Closing the run start..end - 1: it becomes the best one exactly when it
      is strictly longer than the best so far. */
  lemma CloseRun(ds: seq<int>, start: int, end: int, bl: int, maxLen: int)
    requires Consecutive(ds, start, end)
    requires start > 0 ==> ds[start] != ds[start - 1] + 1
    requires 0 <= bl <= start && BestBefore(ds, start, bl, maxLen)
    ensures end - start > maxLen ==> BestBefore(ds, end, start, end - start)
    ensures end - start <= maxLen ==> BestBefore(ds, end, bl, maxLen)
  {
    NoCrossing(ds, start, end);
  }

  /** A stretch of consecutive positions cannot cross the start of a run that
      is maximal on the left: it lies wholly before it or wholly from it on. */
  lemma NoCrossing(ds: seq<int>, start: int, end: int)
    requires Consecutive(ds, start, end)
    requires start > 0 ==> ds[start] != ds[start - 1] + 1
    ensures forall lo, hi :: Consecutive(ds, lo, hi) && hi <= end ==>
              hi <= start || (start <= lo && hi - lo <= end - start)
  {
    forall lo, hi | Consecutive(ds, lo, hi) && hi <= end
      ensures hi <= start || (start <= lo && hi - lo <= end - start)
    {
    }
  }

  // ---------------------------------------------------------------------------
  // From positions to days

  /** Consecutive positions hold the days ds[lo], ds[lo] + 1, ... */
  lemma {:induction false} ConsecutiveValues(ds: seq<int>, lo: int, hi: int, k: int)
    requires Consecutive(ds, lo, hi) && lo <= k < hi
    ensures ds[k] == ds[lo] + (k - lo)
    decreases k - lo
  {
    if k > lo {
      ConsecutiveValues(ds, lo, hi, k - 1);
    }
  }

  /** A stretch of consecutive positions is a run of days as long as the stretch. */
  lemma {:induction false} PositionsToRun(days: set<int>, ds: seq<int>, lo: int, hi: int)
    requires forall d :: d in ds <==> d in days
    requires Consecutive(ds, lo, hi)
    ensures IsRun(days, ds[lo], ds[hi - 1]) && ds[hi - 1] - ds[lo] + 1 == hi - lo
  {
    ConsecutiveValues(ds, lo, hi, hi - 1);
    forall d | ds[lo] <= d <= ds[hi - 1] ensures d in days {
      ConsecutiveValues(ds, lo, hi, lo + (d - ds[lo]));
      assert ds[lo + (d - ds[lo])] in ds;
    }
  }

  /** In an increasing list, day a + j sits j places after day a when every
      day from a to a + j is present. */
  lemma {:induction false} RunPositions(days: set<int>, ds: seq<int>, lo: int, a: int, b: int, j: int)
    requires Increasing(ds) && forall d :: d in ds <==> d in days
    requires IsRun(days, a, b) && 0 <= lo < |ds| && ds[lo] == a
    requires 0 <= j <= b - a
    ensures lo + j < |ds| && ds[lo + j] == a + j
    decreases j
  {
    if j > 0 {
      RunPositions(days, ds, lo, a, b, j - 1);
      assert a + j in ds;
      var k :| 0 <= k < |ds| && ds[k] == a + j;
      assert ds[lo + j - 1] < ds[k];
      assert ds[lo + j - 1] < ds[lo + j] <= ds[k];
    }
  }

  /** A run of days is a stretch of consecutive positions as long as the run. */
  lemma {:induction false} RunToPositions(days: set<int>, ds: seq<int>, a: int, b: int) returns (lo: int)
    requires Increasing(ds) && forall d :: d in ds <==> d in days
    requires IsRun(days, a, b)
    ensures Consecutive(ds, lo, lo + (b - a + 1)) && ds[lo] == a
  {
    assert a in ds;
    lo :| 0 <= lo < |ds| && ds[lo] == a;
    RunPositions(days, ds, lo, a, b, b - a);
    forall k | lo <= k < lo + (b - a + 1) - 1 ensures ds[k + 1] == ds[k] + 1 {
      RunPositions(days, ds, lo, a, b, k - lo);
      RunPositions(days, ds, lo, a, b, k + 1 - lo);
    }
  }

  /** The best stretch of positions found by the scan is the earliest of the
      longest runs of days. */
  lemma SpecFromPositions(days: set<int>, ds: seq<int>, bl: int, maxLen: int)
    requires Increasing(ds) && (forall d :: d in ds <==> d in days) && |ds| == |days| && days != {}
    requires BestBefore(ds, |ds|, bl, maxLen)
    ensures IsLongestRun(days, Run(maxLen, ds[bl], ds[bl + maxLen - 1]))
    ensures 1 <= maxLen <= |days|
  {
    PositionsToRun(days, ds, bl, bl + maxLen);
    forall a, b | IsRun(days, a, b)
      ensures b - a + 1 <= maxLen
      ensures b - a + 1 == maxLen ==> ds[bl] <= a
    {
      var lo := RunToPositions(days, ds, a, b);
      assert b - a + 1 == maxLen && bl < lo ==> ds[bl] < ds[lo];
    }
  }
}
