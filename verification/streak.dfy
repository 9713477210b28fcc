/**
 The streak count of `get_contribution_streak`: starting at yesterday, walk back one day
 at a time while the flattened calendar holds a positive count.
 */
module Streak {
  import opened Wrappers
  import opened Calendar

  /** `n` is the streak as of `today`: the `n` days before today are active and the day
      before those is not (absent or count <= 0). Today itself is never consulted. */
  ghost predicate IsStreak(m: map<int, int>, today: int, n: nat) {
    && (forall d :: today - 1 - n < d < today ==> CountOn(m, d) > 0)
    && CountOn(m, today - 1 - n) <= 0
  }

  /** Days up to `cursor` with a positive count: finitely many, since `m` is finite. */
  ghost function ActiveUpTo(m: map<int, int>, cursor: int): set<int> {
    set d | d in m && m[d] > 0 && d <= cursor
  }

  /** All days with a positive count. */
  ghost function ActiveDays(m: map<int, int>): set<int> {
    set d | d in m && m[d] > 0
  }

  /** Stepping an active cursor back leaves exactly that one active day behind. */
  lemma ActiveUpToShrinks(m: map<int, int>, cursor: int)
    requires CountOn(m, cursor) > 0
    ensures |ActiveUpTo(m, cursor - 1)| + 1 == |ActiveUpTo(m, cursor)|
  {
    assert ActiveUpTo(m, cursor) == ActiveUpTo(m, cursor - 1) + {cursor};
  }

  lemma SubsetCard(a: set<int>, b: set<int>)
    requires a <= b
    ensures |a| <= |b|
  {
    assert b == a + (b - a);
    assert a !! (b - a);
  }

  /**
   The loop of the Python code. It stops because every step leaves one more positive-count
   day behind the cursor, and the map holds only finitely many of them.
   */
  method CountStreak(m: map<int, int>, today: int) returns (streak: nat)
    ensures IsStreak(m, today, streak)
    ensures streak <= |ActiveDays(m)|
  {
    streak := 0;
    var cursor := today - 1;
    while CountOn(m, cursor) > 0
      invariant cursor == today - 1 - streak
      invariant forall d :: cursor < d < today ==> CountOn(m, d) > 0
      invariant streak + |ActiveUpTo(m, cursor)| <= |ActiveUpTo(m, today - 1)|
      decreases |ActiveUpTo(m, cursor)|
    {
      ActiveUpToShrinks(m, cursor);
      streak := streak + 1;
      cursor := cursor - 1;
    }
    SubsetCard(ActiveUpTo(m, today - 1), ActiveDays(m));
  }

  /** The streak is determined by the map and `today`: at most one `n` fits. */
  lemma StreakUnique(m: map<int, int>, today: int, a: nat, b: nat)
    requires IsStreak(m, today, a) && IsStreak(m, today, b)
    ensures a == b
  {
  }

  /** An inactive (absent or non-positive) yesterday means a streak of 0. */
  lemma InactiveYesterdayMeansZero(m: map<int, int>, today: int, n: nat)
    requires CountOn(m, today - 1) <= 0
    requires IsStreak(m, today, n)
    ensures n == 0
  {
  }

  /** Today and later days do not affect the streak. */
  lemma StreakIgnoresTodayOnward(m: map<int, int>, m': map<int, int>, today: int, n: nat)
    requires forall d :: d < today ==> CountOn(m, d) == CountOn(m', d)
    requires IsStreak(m, today, n)
    ensures IsStreak(m', today, n)
  {
  }

  /** Five active days before today, then a gap, give a streak of exactly 5, whatever
      the positive counts are and whatever today holds. */
  lemma FiveDayExample(m: map<int, int>, today: int, n: nat)
    requires forall d :: today - 6 < d < today ==> d in m && m[d] > 0
    requires today - 6 !in m || m[today - 6] == 0
    requires IsStreak(m, today, n)
    ensures n == 5
  {
    assert IsStreak(m, today, 5);
    StreakUnique(m, today, n, 5);
  }

  /**
   `get_contribution_streak` after a fetch: `None` when the request or the parse failed,
   otherwise the streak of the flattened calendar.
   */
  method ContributionStreak(calendar: Option<seq<Week>>, today: int) returns (r: Option<nat>)
    ensures r.None? <==> calendar.None?
    ensures r.Some? ==> IsStreak(Collect(AllDays(calendar.value)), today, r.value)
  {
    match calendar
    case None =>
      r := None;
    case Some(weeks) =>
      var m := FlattenCalendar(weeks);
      var n := CountStreak(m, today);
      r := Some(n);
  }
}
