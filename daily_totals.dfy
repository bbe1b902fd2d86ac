/**
  The daily aggregate query of the streak computation: the rainfall of the
  weather table summed per civil day, most recent day first, limited to the
  seven most recent days.
*/
module DailyTotals {
  import opened Records

  const LookbackDays: nat := 7

  datatype DayTotal = DayTotal(day: int, total: real)

  /** Strictly decreasing days: most recent first, each day once. */
  predicate Descending(rows: seq<DayTotal>)
  {
    forall i, j | 0 <= i < j < |rows| :: rows[i].day > rows[j].day
  }

  function Days(rows: seq<DayTotal>): set<int>
  {
    set k | 0 <= k < |rows| :: rows[k].day
  }

  /** The total reported for a day, 0 when the day has no row. */
  function TotalOn(rows: seq<DayTotal>, d: int): real
  {
    if rows == [] then 0.0
    else if rows[0].day == d then rows[0].total
    else TotalOn(rows[1..], d)
  }

  /** The rows of the table that fall on day d. */
  function OnDay(log: seq<Observation>, d: int): seq<Observation>
  {
    if log == [] then []
    else
      var last := log[|log| - 1];
      OnDay(log[..|log| - 1], d) + (if DayOf(last.timestamp) == d then [last] else [])
  }

  lemma DaysCons(x: DayTotal, rows: seq<DayTotal>)
    ensures Days([x] + rows) == {x.day} + Days(rows)
  {
    var r := [x] + rows;
    assert r[0] == x;
    forall d | d in Days(r) ensures d in {x.day} + Days(rows) {
      var k :| 0 <= k < |r| && r[k].day == d;
      if k > 0 { assert rows[k - 1] == r[k]; }
    }
    forall d | d in Days(rows) ensures d in Days(r) {
      var k :| 0 <= k < |rows| && rows[k].day == d;
      assert r[k + 1] == rows[k];
    }
  }

  /** A row before a descending list stays descending when its day is later than all of theirs. */
  lemma DescendingCons(x: DayTotal, rows: seq<DayTotal>)
    requires Descending(rows)
    requires forall d | d in Days(rows) :: x.day > d
    ensures Descending([x] + rows)
  {
    var r := [x] + rows;
    forall i, j | 0 <= i < j < |r| ensures r[i].day > r[j].day {
      assert r[j] == rows[j - 1];
      if i == 0 {
        assert rows[j - 1].day in Days(rows);
      } else {
        assert r[i] == rows[i - 1];
      }
    }
  }

  /** A day without a row has total 0. */
  lemma {:induction false} TotalOnAbsent(rows: seq<DayTotal>, d: int)
    requires d !in Days(rows)
    ensures TotalOn(rows, d) == 0.0
  {
    if rows != [] {
      DaysCons(rows[0], rows[1..]);
      assert rows == [rows[0]] + rows[1..];
      TotalOnAbsent(rows[1..], d);
    }
  }

  /** Adds `amount` to the group of `day`, opening the group in its place when it is new. */
  function AddToDay(rows: seq<DayTotal>, day: int, amount: real): (r: seq<DayTotal>)
    requires Descending(rows)
    ensures Descending(r)
    ensures Days(r) == Days(rows) + {day}
  {
    if rows == [] then
      DaysCons(DayTotal(day, amount), []);
      assert [DayTotal(day, amount)] + [] == [DayTotal(day, amount)];
      [DayTotal(day, amount)]
    else if rows[0].day == day then
      assert rows == [rows[0]] + rows[1..];
      DaysCons(rows[0], rows[1..]);
      DaysCons(DayTotal(day, rows[0].total + amount), rows[1..]);
      DescendingCons(DayTotal(day, rows[0].total + amount), rows[1..]);
      [DayTotal(day, rows[0].total + amount)] + rows[1..]
    else if rows[0].day < day then
      DaysCons(DayTotal(day, amount), rows);
      DescendingCons(DayTotal(day, amount), rows);
      [DayTotal(day, amount)] + rows
    else
      var tail := AddToDay(rows[1..], day, amount);
      assert rows == [rows[0]] + rows[1..];
      DaysCons(rows[0], rows[1..]);
      DaysCons(rows[0], tail);
      DescendingCons(rows[0], tail);
      [rows[0]] + tail
  }

  /** Adding to a group changes the total of that day by the amount, and of no other day. */
  lemma {:induction false} AddToDayTotals(rows: seq<DayTotal>, day: int, amount: real, d: int)
    requires Descending(rows)
    ensures TotalOn(AddToDay(rows, day, amount), d) == TotalOn(rows, d) + (if d == day then amount else 0.0)
  {
    if rows == [] {
    } else if rows[0].day == day {
    } else if rows[0].day < day {
      if d == day {
        DescendingCons(DayTotal(day, amount), rows);
        assert day !in Days(rows);
        TotalOnAbsent(rows, day);
      }
    } else {
      AddToDayTotals(rows[1..], day, amount, d);
    }
  }

  /** `GROUP BY day ORDER BY day DESC`, by folding the table's rows into groups. */
  function GroupByDay(log: seq<Observation>): (r: seq<DayTotal>)
    ensures Descending(r)
  {
    if log == [] then []
    else
      var last := log[|log| - 1];
      AddToDay(GroupByDay(log[..|log| - 1]), DayOf(last.timestamp), last.rainfall)
  }

  /** `LIMIT 7`. */
  function Recent(rows: seq<DayTotal>): (r: seq<DayTotal>)
    ensures |r| <= LookbackDays && |r| <= |rows| && r == rows[..|r|]
    ensures |r| == LookbackDays || r == rows
  {
    if |rows| <= LookbackDays then rows else rows[..LookbackDays]
  }

  /** The days that have readings. */
  function DaysWithData(log: seq<Observation>): set<int>
  {
    set k | 0 <= k < |log| :: DayOf(log[k].timestamp)
  }

  lemma DaysWithDataSnoc(init: seq<Observation>, last: Observation)
    ensures DaysWithData(init + [last]) == DaysWithData(init) + {DayOf(last.timestamp)}
  {
    var log := init + [last];
    assert log[|init|] == last;
    forall d | d in DaysWithData(log) ensures d in DaysWithData(init) + {DayOf(last.timestamp)} {
      var k :| 0 <= k < |log| && DayOf(log[k].timestamp) == d;
      if k < |init| { assert init[k] == log[k]; }
    }
    forall d | d in DaysWithData(init) ensures d in DaysWithData(log) {
      var k :| 0 <= k < |init| && DayOf(init[k].timestamp) == d;
      assert log[k] == init[k];
    }
  }

  /** One group per day that has readings, most recent first. */
  lemma {:induction false} GroupByDayDays(log: seq<Observation>)
    ensures Days(GroupByDay(log)) == DaysWithData(log)
  {
    if log != [] {
      var init := log[..|log| - 1];
      var last := log[|log| - 1];
      GroupByDayDays(init);
      assert log == init + [last];
      DaysWithDataSnoc(init, last);
    }
  }

  /** Each group carries the sum of the rainfall of its day's readings. */
  lemma {:induction false} GroupByDayTotals(log: seq<Observation>, d: int)
    ensures TotalOn(GroupByDay(log), d) == TotalRain(OnDay(log, d))
  {
    if log != [] {
      var init := log[..|log| - 1];
      var last := log[|log| - 1];
      GroupByDayTotals(init, d);
      AddToDayTotals(GroupByDay(init), DayOf(last.timestamp), last.rainfall, d);
      var extra := if DayOf(last.timestamp) == d then [last] else [];
      TotalRainAppend(OnDay(init, d), extra);
      assert TotalRain([last]) == TotalRain([]) + last.rainfall;
    }
  }

  /** The limited rows keep the order of the groups they are taken from. */
  lemma RecentDescending(rows: seq<DayTotal>)
    requires Descending(rows)
    ensures Descending(Recent(rows))
  {
  }
}
