/**
  Trailing 24-hour rainfall: the sum of the rainfall column over the rows
  whose timestamp is strictly later than 24 hours before the current reading.
*/
module RainfallWindow {
  import opened Wrappers
  import opened Records

  const WindowSeconds: int := 24 * SecondsPerHour

  /** The rows matched by `WHERE timestamp > cutoff`, in table order. */
  function Since(log: seq<Observation>, cutoff: int): (r: seq<Observation>)
    ensures |r| <= |log|
    ensures forall k | 0 <= k < |r| :: r[k].timestamp > cutoff
  {
    if log == [] then []
    else
      var rest := Since(log[..|log| - 1], cutoff);
      var last := log[|log| - 1];
      if last.timestamp > cutoff then rest + [last] else rest
  }

  /** The window holds exactly the rows of the table later than the cutoff. */
  lemma {:induction false} SinceMembers(log: seq<Observation>, cutoff: int, o: Observation)
    ensures o in Since(log, cutoff) <==> o in log && o.timestamp > cutoff
  {
    if log != [] {
      var init := log[..|log| - 1];
      SinceMembers(init, cutoff, o);
      assert log == init + [log[|log| - 1]];
    }
  }

  /** `SELECT SUM(rainfall)`: NULL (None) when no row matches. */
  function SumColumn(rows: seq<Observation>): (r: Option<real>)
    ensures r.None? <==> rows == []
  {
    if rows == [] then None else Some(TotalRain(rows))
  }

  /**
    The 24-hour total for a reading taken at `now`: the query's sum, 0 when
    it is NULL, and 0 when the query fails.
  */
  function DailyTotalRainfall(store: StoreRead<seq<Observation>>, now: int): (r: real)
    ensures store.StoreError? ==> r == 0.0
    ensures store.Read? ==> r == TotalRain(Since(store.value, now - WindowSeconds))
  {
    match store
    case StoreError => 0.0
    case Read(log) =>
      match SumColumn(Since(log, now - WindowSeconds))
      case None => 0.0
      case Some(total) => total
  }

  /** The window total is the sum over exactly the matching rows, and 0 without them. */
  lemma WindowSum(log: seq<Observation>, now: int)
    ensures DailyTotalRainfall(Read(log), now) == TotalRain(Since(log, now - WindowSeconds))
    ensures (forall k | 0 <= k < |log| :: log[k].timestamp <= now - WindowSeconds)
              ==> DailyTotalRainfall(Read(log), now) == 0.0
  {
    var r := Since(log, now - WindowSeconds);
    if r != [] {
      SinceMembers(log, now - WindowSeconds, r[0]);
    }
  }

  /** With no rows at all, or no readable table, the total is 0. */
  lemma EmptyHistory(now: int)
    ensures DailyTotalRainfall(Read([]), now) == 0.0
    ensures DailyTotalRainfall(StoreError, now) == 0.0
  {
  }

  /** A table whose rainfall is never negative never yields a negative total. */
  lemma NonNegative(store: StoreRead<seq<Observation>>, now: int)
    requires store.Read? ==> NonNegativeRain(store.value)
    ensures DailyTotalRainfall(store, now) >= 0.0
  {
    if store.Read? {
      var r := Since(store.value, now - WindowSeconds);
      assert NonNegativeRain(r) by {
        forall k | 0 <= k < |r| ensures r[k].rainfall >= 0.0 {
          SinceMembers(store.value, now - WindowSeconds, r[k]);
        }
      }
      TotalRainNonNegative(r);
    }
  }

  /** Appending a row with non-negative rainfall never lowers the total. */
  lemma AppendNeverDecreases(log: seq<Observation>, o: Observation, now: int)
    requires o.rainfall >= 0.0
    ensures DailyTotalRainfall(Read(log + [o]), now) >= DailyTotalRainfall(Read(log), now)
  {
    var cutoff := now - WindowSeconds;
    assert (log + [o])[..|log + [o]| - 1] == log;
    WindowSum(log, now);
    WindowSum(log + [o], now);
    if o.timestamp > cutoff {
      TotalRainAppend(Since(log, cutoff), [o]);
      assert TotalRain([o]) == TotalRain([]) + o.rainfall;
    }
  }

  /** Timestamps never go down along the table. */
  predicate Chronological(log: seq<Observation>)
  {
    forall i, j | 0 <= i < j < |log| :: log[i].timestamp <= log[j].timestamp
  }

  /** The number of rows at or before the cutoff. */
  function CountUpTo(log: seq<Observation>, cutoff: int): (n: nat)
    ensures n <= |log|
  {
    if log == [] then 0
    else CountUpTo(log[..|log| - 1], cutoff) + (if log[|log| - 1].timestamp <= cutoff then 1 else 0)
  }

  /** Dropping the last row of a chronological table keeps it chronological. */
  lemma ChronologicalInit(log: seq<Observation>)
    requires Chronological(log) && log != []
    ensures Chronological(log[..|log| - 1])
  {
  }

  /** A table with no row after the cutoff has an empty window. */
  lemma {:induction false} NoneAfter(log: seq<Observation>, cutoff: int)
    requires forall k | 0 <= k < |log| :: log[k].timestamp <= cutoff
    ensures Since(log, cutoff) == []
  {
    if log != [] {
      NoneAfter(log[..|log| - 1], cutoff);
    }
  }

  /** A row after the cutoff joins the window as its last row. */
  lemma WindowGrows(init: seq<Observation>, last: Observation, cutoff: int, c: nat)
    requires c <= |init| && Since(init, cutoff) == init[c..]
    requires last.timestamp > cutoff
    ensures Since(init + [last], cutoff) == (init + [last])[c..]
  {
    assert (init + [last])[..|init|] == init;
    assert (init + [last])[c..] == init[c..] + [last];
  }

  /** A row at or before the cutoff, after rows no later than it, leaves the window empty. */
  lemma WindowStaysEmpty(init: seq<Observation>, last: Observation, cutoff: int)
    requires forall k | 0 <= k < |init| :: init[k].timestamp <= last.timestamp
    requires last.timestamp <= cutoff
    ensures Since(init + [last], cutoff) == []
  {
    assert (init + [last])[..|init|] == init;
    NoneAfter(init, cutoff);
  }

  /**
    In a table written in timestamp order, the window is a suffix: the rows
    after the first CountUpTo(log, cutoff) ones.
  */
  lemma {:induction false} WindowIsSuffix(log: seq<Observation>, cutoff: int)
    requires Chronological(log)
    ensures Since(log, cutoff) == log[CountUpTo(log, cutoff)..]
  {
    if log != [] {
      var init := log[..|log| - 1];
      var last := log[|log| - 1];
      ChronologicalInit(log);
      WindowIsSuffix(init, cutoff);
      assert log == init + [last];
      if last.timestamp > cutoff {
        WindowGrows(init, last, cutoff, CountUpTo(init, cutoff));
      } else {
        forall k | 0 <= k < |init| ensures init[k].timestamp <= last.timestamp {
          assert init[k] == log[k];
        }
        WindowStaysEmpty(init, last, cutoff);
      }
    }
  }

  /** ... and the rows before the window are all at or before the cutoff. */
  lemma {:induction false} BeforeWindow(log: seq<Observation>, cutoff: int)
    requires Chronological(log)
    ensures forall k | 0 <= k < CountUpTo(log, cutoff) :: log[k].timestamp <= cutoff
  {
    if log != [] {
      var init := log[..|log| - 1];
      var last := log[|log| - 1];
      ChronologicalInit(log);
      BeforeWindow(init, cutoff);
      var c := CountUpTo(init, cutoff);
      forall k | 0 <= k < CountUpTo(log, cutoff) ensures log[k].timestamp <= cutoff {
        if k < c {
          assert log[k] == init[k];
        } else {
          assert k == c && last.timestamp <= cutoff;
          assert log[k].timestamp <= last.timestamp;
        }
      }
    }
  }
}
