/**
  The rainy streak: a walk over the daily totals, most recent day first,
  that counts the days with significant rain (at least 10 mm) found on their
  expected date and stops at the first gap in the dates.
*/
module RainyStreak {
  import opened Records
  import opened DailyTotals

  const MinSignificantDailyRainfall: real := 10.0

  predicate Significant(row: DayTotal)
  {
    row.total >= MinSignificantDailyRainfall
  }

  /**
    The walk from index i, where the row at index i is expected on day
    anchor - i: an on-time significant day counts, a day earlier than expected
    stops the walk, and any other row (on time but dry, or later than
    expected) is passed over.
  */
  function Walk(rows: seq<DayTotal>, anchor: int, i: nat): (n: nat)
    requires i <= |rows|
    ensures n <= |rows| - i
    decreases |rows| - i
  {
    if i == |rows| then 0
    else if rows[i].day == anchor - i && Significant(rows[i]) then 1 + Walk(rows, anchor, i + 1)
    else if rows[i].day < anchor - i then 0
    else Walk(rows, anchor, i + 1)
  }

  /** The streak of a query result: 0 without rows, else the walk anchored at the first row's day. */
  function StreakOf(rows: seq<DayTotal>): (n: nat)
    ensures n <= |rows|
    ensures rows == [] ==> n == 0
    ensures rows != [] && Significant(rows[0]) ==> n >= 1
  {
    if rows == [] then 0 else Walk(rows, rows[0].day, 0)
  }

  /**
    The streak computation of the job: 0 when the daily query fails, else the
    walk over its rows, with an early exit at the first gap.
  */
  method GetRainyStreak(query: StoreRead<seq<DayTotal>>) returns (streak: nat)
    ensures query.StoreError? ==> streak == 0
    ensures query.Read? ==> streak == StreakOf(query.value) && streak <= |query.value|
  {
    if query.StoreError? {
      return 0;
    }
    var rows := query.value;
    streak := 0;
    if rows == [] {
      return 0;
    }
    var anchor := rows[0].day;
    var i := 0;
    while i < |rows|
      invariant 0 <= i <= |rows|
      invariant streak + Walk(rows, anchor, i) == Walk(rows, anchor, 0)
    {
      var expected := anchor - i;
      if rows[i].day == expected && rows[i].total >= MinSignificantDailyRainfall {
        streak := streak + 1;
      } else if rows[i].day < expected {
        break;
      }
      i := i + 1;
    }
  }

  /** The query returns at most seven days, so the streak never exceeds seven. */
  lemma StreakBounds(groups: seq<DayTotal>)
    ensures StreakOf(Recent(groups)) <= |Recent(groups)| <= LookbackDays
    ensures groups == [] ==> StreakOf(Recent(groups)) == 0
  {
  }

  /** In descending rows, the row at index j is never later than its expected day. */
  lemma {:induction false} NeverLaterThanExpected(rows: seq<DayTotal>, j: nat)
    requires Descending(rows) && j < |rows|
    ensures rows[j].day <= rows[0].day - j
  {
    if j > 0 {
      NeverLaterThanExpected(rows, j - 1);
    }
  }

  /** The end of the gap-free run of rows starting at i: each on the day anchor - index. */
  function GapFreeEnd(rows: seq<DayTotal>, anchor: int, i: nat): (k: nat)
    requires i <= |rows|
    ensures i <= k <= |rows|
    ensures forall j | i <= j < k :: rows[j].day == anchor - j
    ensures k < |rows| ==> rows[k].day != anchor - k
    decreases |rows| - i
  {
    if i == |rows| || rows[i].day != anchor - i then i else GapFreeEnd(rows, anchor, i + 1)
  }

  /** The number of significant days among some rows. */
  function CountSignificant(rows: seq<DayTotal>): (n: nat)
    ensures n <= |rows|
  {
    if rows == [] then 0 else (if Significant(rows[0]) then 1 else 0) + CountSignificant(rows[1..])
  }

  /**
    What the walk computes on the rows the query returns (distinct days, most
    recent first): the number of significant days among the gap-free run of
    days that ends at the most recent one. The branch for a row later than
    expected is never taken on such rows.
  */
  lemma {:induction false} StreakCountsGapFreeRun(rows: seq<DayTotal>)
    requires Descending(rows) && rows != []
    ensures StreakOf(rows) == CountSignificant(rows[..GapFreeEnd(rows, rows[0].day, 0)])
  {
    WalkFrom(rows, 0);
  }

  lemma {:induction false} WalkFrom(rows: seq<DayTotal>, i: nat)
    requires Descending(rows) && rows != [] && i <= |rows|
    ensures Walk(rows, rows[0].day, i) == CountSignificant(rows[i..GapFreeEnd(rows, rows[0].day, i)])
    decreases |rows| - i
  {
    var anchor := rows[0].day;
    var k := GapFreeEnd(rows, anchor, i);
    if i < |rows| {
      NeverLaterThanExpected(rows, i);
      if rows[i].day == anchor - i {
        WalkFrom(rows, i + 1);
        assert rows[i..k][1..] == rows[i + 1..k];
      }
    }
  }

  /**
    The count the docstring of get_rainy_streak describes: consecutive
    significant days, each on its expected day, from index i on.
  */
  function ConsecutiveSignificant(rows: seq<DayTotal>, anchor: int, i: nat): (n: nat)
    requires i <= |rows|
    ensures n <= |rows| - i
    ensures forall j | i <= j < i + n :: rows[j].day == anchor - j && Significant(rows[j])
    ensures i + n < |rows| ==> !(rows[i + n].day == anchor - (i + n) && Significant(rows[i + n]))
    decreases |rows| - i
  {
    if i < |rows| && rows[i].day == anchor - i && Significant(rows[i]) then
      1 + ConsecutiveSignificant(rows, anchor, i + 1)
    else
      0
  }

  /** The walk never counts fewer days than the consecutive run. */
  lemma {:induction false} ConsecutiveAtMostStreak(rows: seq<DayTotal>, anchor: int, i: nat)
    requires i <= |rows|
    ensures ConsecutiveSignificant(rows, anchor, i) <= Walk(rows, anchor, i)
    decreases |rows| - i
  {
    if i < |rows| && rows[i].day == anchor - i && Significant(rows[i]) {
      ConsecutiveAtMostStreak(rows, anchor, i + 1);
    }
  }

  /** Every on-time significant day from index i on is counted. */
  lemma {:induction false} WalkAllSignificant(rows: seq<DayTotal>, anchor: int, i: nat)
    requires i <= |rows|
    requires forall j | i <= j < |rows| :: rows[j].day == anchor - j && Significant(rows[j])
    ensures Walk(rows, anchor, i) == |rows| - i
    decreases |rows| - i
  {
    if i < |rows| {
      WalkAllSignificant(rows, anchor, i + 1);
    }
  }

  /**
    Four contiguous days with sums 12, 11, 5 and 20 mm: the walk passes over
    the dry third day and counts three, where the consecutive run is two.
  */
  lemma DryDayDoesNotStop()
    ensures var rows := [DayTotal(100, 12.0), DayTotal(99, 11.0), DayTotal(98, 5.0), DayTotal(97, 20.0)];
      StreakOf(rows) == 3 && ConsecutiveSignificant(rows, 100, 0) == 2
  {
  }

  /** A missing day after the first stops the walk at one. */
  lemma GapStops()
    ensures StreakOf([DayTotal(100, 20.0), DayTotal(98, 20.0)]) == 1
  {
  }
}
