/**
 The contribution calendar as the GraphQL response delivers it (a list of weeks, each a
 list of day records), its flattening into a day -> count map, and the first-match lookup
 of a single day.

 Days are day ordinals: `date.isoformat()` is injective, so keying by ordinal is the same
 as keying by the ISO string.
 */
module Calendar {
  import opened Wrappers

  /** The `date` field of one day record. */
  datatype DateField =
    | NoDate              // the key is absent (or JSON null)
    | Blank               // the empty string
    | On(day: int)        // an ISO-8601 date, as its day ordinal
    | Other(text: string) // non-empty text that is not the ISO form of any date

  /** One `contributionDays` entry; `contributionCount` may be absent. */
  datatype Day = Day(date: DateField, contributionCount: Option<int>)

  /** One `weeks` entry; `contributionDays` may be absent. */
  datatype Week = Week(contributionDays: Option<seq<Day>>)

  /** A missing count reads as 0. */
  function CountOf(d: Day): int {
    d.contributionCount.GetOr(0)
  }

  /** A missing day list reads as empty. */
  function DaysOf(w: Week): seq<Day> {
    w.contributionDays.GetOr([])
  }

  /** Every day record of the calendar, week by week, in response order. */
  function AllDays(weeks: seq<Week>): seq<Day> {
    if |weeks| == 0 then [] else AllDays(weeks[..|weeks| - 1]) + DaysOf(weeks[|weeks| - 1])
  }

  /** The count the flattened map holds for `day`; a day that is absent counts 0. */
  function CountOn(m: map<int, int>, day: int): int {
    if day in m then m[day] else 0
  }

  /** One step of the flattening loop: a dated record (over)writes its day. */
  function Record(m: map<int, int>, d: Day): map<int, int> {
    if d.date.On? then m[d.date.day := CountOf(d)] else m
  }

  /** Reference definition of the flattening: a left fold of `Record` over the records. */
  function Collect(days: seq<Day>): map<int, int> {
    if |days| == 0 then map[] else Record(Collect(days[..|days| - 1]), days[|days| - 1])
  }

  /** The first record dated `day`, searching from the front. */
  function FirstCount(days: seq<Day>, day: int): int {
    if |days| == 0 then 0
    else if days[0].date == On(day) then CountOf(days[0])
    else FirstCount(days[1..], day)
  }

  ghost predicate Dated(days: seq<Day>, i: int, day: int) {
    0 <= i < |days| && days[i].date == On(day)
  }

  /** Record `i` is the last one dated `day`. */
  ghost predicate LastDated(days: seq<Day>, i: int, day: int) {
    Dated(days, i, day) && forall j :: i < j < |days| ==> !Dated(days, j, day)
  }

  /** Record `i` is the first one dated `day`. */
  ghost predicate FirstDated(days: seq<Day>, i: int, day: int) {
    Dated(days, i, day) && forall j :: 0 <= j < i ==> !Dated(days, j, day)
  }

  /**
   What flattening promises: the keys are exactly the days some record is dated with
   (records with no, empty or non-ISO date contribute nothing), and each key holds the
   count of the LAST record carrying that date.
   */
  ghost predicate FlattenedFrom(days: seq<Day>, m: map<int, int>) {
    && (forall day :: day in m <==> exists i :: Dated(days, i, day))
    && (forall i, day :: LastDated(days, i, day) ==> day in m && m[day] == CountOf(days[i]))
  }

  lemma {:induction false} CollectFlattens(days: seq<Day>)
    ensures FlattenedFrom(days, Collect(days))
  {
    if |days| > 0 {
      var n := |days| - 1;
      var init := days[..n];
      var d := days[n];
      CollectFlattens(init);
      var m0 := Collect(init);
      var m := Collect(days);
      assert m == Record(m0, d);
      assert forall i, day :: 0 <= i < n ==> (Dated(init, i, day) <==> Dated(days, i, day));
      forall day
        ensures day in m <==> exists i :: Dated(days, i, day)
      {
        if day in m {
          if !Dated(days, n, day) {
            assert day in m0;
            var i :| Dated(init, i, day);
            assert Dated(days, i, day);
          }
        } else {
          forall i | 0 <= i < |days|
            ensures !Dated(days, i, day)
          {
            if i < n {
              assert !Dated(init, i, day);
            }
          }
        }
      }
      forall i, day | LastDated(days, i, day)
        ensures day in m && m[day] == CountOf(days[i])
      {
        if i < n {
          assert !Dated(days, n, day);
          assert LastDated(init, i, day);
        }
      }
    }
  }

  lemma {:induction false} FirstCountFinds(days: seq<Day>, day: int)
    ensures (forall i :: !Dated(days, i, day)) ==> FirstCount(days, day) == 0
    ensures forall i :: FirstDated(days, i, day) ==> FirstCount(days, day) == CountOf(days[i])
  {
    if |days| > 0 {
      var tail := days[1..];
      FirstCountFinds(tail, day);
      assert forall i :: 0 <= i < |tail| ==> (Dated(tail, i, day) <==> Dated(days, i + 1, day));
      forall i | FirstDated(days, i, day)
        ensures FirstCount(days, day) == CountOf(days[i])
      {
        if i > 0 {
          assert !Dated(days, 0, day);
          assert FirstDated(tail, i - 1, day);
        }
      }
      if forall i :: !Dated(days, i, day) {
        assert !Dated(days, 0, day);
        forall i ensures !Dated(tail, i, day) {
          if 0 <= i < |tail| {
            assert !Dated(days, i + 1, day);
          }
        }
      }
    }
  }

  /**
   The loop of the flattening, written the way the Python code writes it: over the weeks, and
   within each week over its day records.
   */
  method FlattenCalendar(weeks: seq<Week>) returns (m: map<int, int>)
    ensures m == Collect(AllDays(weeks))
    ensures FlattenedFrom(AllDays(weeks), m)
  {
    m := map[];
    var w := 0;
    while w < |weeks|
      invariant 0 <= w <= |weeks|
      invariant m == Collect(AllDays(weeks[..w]))
    {
      var days := DaysOf(weeks[w]);
      var prefix := AllDays(weeks[..w]);
      var k := 0;
      assert prefix + days[..0] == prefix;
      while k < |days|
        invariant 0 <= k <= |days|
        invariant m == Collect(prefix + days[..k])
      {
        var d := days[k];
        if d.date.On? {
          m := m[d.date.day := CountOf(d)];
        }
        assert (prefix + days[..k + 1])[..|prefix| + k] == prefix + days[..k];
        k := k + 1;
      }
      assert weeks[..w + 1][..w] == weeks[..w];
      assert days[..k] == days;
      w := w + 1;
    }
    assert weeks[..w] == weeks;
    CollectFlattens(AllDays(weeks));
  }

  /**
   `get_today_contributions` after a fetch: `None` when the request or the parse failed,
   otherwise the count of the first record dated `today`, and 0 when no record is.
   */
  function TodayContributions(calendar: Option<seq<Week>>, today: int): (r: Option<int>)
    ensures r.None? <==> calendar.None?
    ensures calendar.Some? && (forall i :: !Dated(AllDays(calendar.value), i, today)) ==> r == Some(0)
    ensures forall i :: calendar.Some? && FirstDated(AllDays(calendar.value), i, today) ==>
              r == Some(CountOf(AllDays(calendar.value)[i]))
  {
    match calendar
    case None => None
    case Some(weeks) =>
      FirstCountFinds(AllDays(weeks), today);
      Some(FirstCount(AllDays(weeks), today))
  }

  /**
   Where no two records share the date `day`, the first-match lookup and the
   last-write-wins flattening agree on it.
   */
  lemma LookupAgreesWithFlatten(days: seq<Day>, day: int)
    requires forall i, j :: Dated(days, i, day) && Dated(days, j, day) ==> i == j
    ensures FirstCount(days, day) == CountOn(Collect(days), day)
  {
    FirstCountFinds(days, day);
    CollectFlattens(days);
    if i :| Dated(days, i, day) {
      assert FirstDated(days, i, day) && LastDated(days, i, day);
    }
  }

  /**
   With a duplicated date the two can disagree: the lookup sees the first record, the
   flattening keeps the last, so they differ whenever those two counts differ.
   */
  lemma LookupIsFirstFlattenIsLast(days: seq<Day>, day: int, i: int, j: int)
    requires FirstDated(days, i, day) && LastDated(days, j, day)
    requires CountOf(days[i]) != CountOf(days[j])
    ensures FirstCount(days, day) == CountOf(days[i])
    ensures CountOn(Collect(days), day) == CountOf(days[j])
    ensures FirstCount(days, day) != CountOn(Collect(days), day)
  {
    FirstCountFinds(days, day);
    CollectFlattens(days);
  }
}
