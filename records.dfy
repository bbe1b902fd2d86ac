/**
  The rows of the station's weather table and the reads the job makes from
  it. Instants are ordinal seconds of the station's naive civil time scale;
  a day is the ordinal of the civil day holding an instant.
*/
module Records {

  const SecondsPerHour: int := 3600
  const SecondsPerDay: int := 86400

  /** One persisted reading (the id column is a surrogate and is left out). */
  datatype Observation = Observation(
    city: string,
    timestamp: int,
    temperature: real,
    humidity: int,
    rainfall: real,
    floodAlert: string,
    rainStreak: nat)

  /** The result of a read query: its rows, or a database error. */
  datatype StoreRead<+T> = Read(value: T) | StoreError

  /** The civil day that holds an instant: truncation of the timestamp to its date. */
  function DayOf(timestamp: int): (d: int)
    ensures d * SecondsPerDay <= timestamp < (d + 1) * SecondsPerDay
  {
    timestamp / SecondsPerDay
  }

  /** Sum of the rainfall column over some rows, taken in order. */
  function TotalRain(rows: seq<Observation>): real
  {
    if rows == [] then 0.0 else TotalRain(rows[..|rows| - 1]) + rows[|rows| - 1].rainfall
  }

  predicate NonNegativeRain(rows: seq<Observation>)
  {
    forall k | 0 <= k < |rows| :: rows[k].rainfall >= 0.0
  }

  /** Summing over a concatenation adds the two sums. */
  lemma {:induction false} TotalRainAppend(a: seq<Observation>, b: seq<Observation>)
    ensures TotalRain(a + b) == TotalRain(a) + TotalRain(b)
    decreases |b|
  {
    if b != [] {
      var n := |b| - 1;
      assert (a + b)[..|a + b| - 1] == a + b[..n];
      TotalRainAppend(a, b[..n]);
    } else {
      assert a + b == a;
    }
  }

  /** Rows whose rainfall is never negative have a non-negative sum. */
  lemma {:induction false} TotalRainNonNegative(rows: seq<Observation>)
    requires NonNegativeRain(rows)
    ensures TotalRain(rows) >= 0.0
  {
    if rows != [] {
      TotalRainNonNegative(rows[..|rows| - 1]);
    }
  }
}
