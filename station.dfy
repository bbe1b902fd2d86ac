/**
  One cycle of the monitoring job: fetch a reading with bounded retries,
  derive the 24-hour total, the rainy streak and the flood alert from the
  table as it stands, save the new row, and hand the alert to the e-mail
  notifier when it is a level 2 or level 3 alert.
*/
module Station {
  import opened Wrappers
  import opened Records
  import opened FloodAlert
  import opened RainfallWindow
  import opened DailyTotals
  import opened RainyStreak

  const City: string := "Gaborone"
  const MaxRetries: nat := 3

  /** What the weather provider reports; `rain1h` is absent when it did not rain. */
  datatype Reading = Reading(dt: int, temperature: real, humidity: int, rain1h: Option<real>)

  /**
    The outcome of one request: a decoded reading, a connection error or
    timeout, an HTTP error status or other request failure, or a body that
    does not decode or lacks a field.
  */
  datatype Attempt = Received(reading: Reading) | Transient | Permanent | Malformed

  /** A missing rainfall field reads as 0; a negative value is replaced by 0. */
  function ClampRainfall(raw: Option<real>): (r: real)
    ensures r >= 0.0
    ensures raw.Some? && raw.value >= 0.0 ==> r == raw.value
    ensures raw.None? || raw.value < 0.0 ==> r == 0.0
  {
    match raw
    case None => 0.0
    case Some(v) => if v < 0.0 then 0.0 else v
  }

  /** The daily aggregate query over the table, or its failure. */
  function StreakQuery(log: seq<Observation>, readOk: bool): (q: StoreRead<seq<DayTotal>>)
    ensures readOk <==> q.Read?
    ensures q.Read? ==> |q.value| <= LookbackDays && Descending(q.value)
  {
    RecentDescending(GroupByDay(log));
    if readOk then Read(Recent(GroupByDay(log))) else StoreError
  }

  /** The streak the job derives, with 0 for a failed query. */
  function StreakValue(query: StoreRead<seq<DayTotal>>): (n: nat)
    ensures query.Read? ==> n <= |query.value|
    ensures query.StoreError? ==> n == 0
  {
    match query
    case StoreError => 0
    case Read(rows) => StreakOf(rows)
  }

  /**
    The alert level of a reading against the table as it stands before the
    reading is saved.
  */
  function LevelOf(r: Reading, log: seq<Observation>, sumOk: bool, streakOk: bool): (l: Level)
    ensures ClampRainfall(r.rain1h) >= HourlyWarning ==> l == Warning
    ensures !sumOk && !streakOk ==> l == FloodAlertLevel(ClampRainfall(r.rain1h), 0.0, 0)
  {
    var sumQuery := if sumOk then Read(log) else StoreError;
    FloodAlertLevel(ClampRainfall(r.rain1h), DailyTotalRainfall(sumQuery, r.dt), StreakValue(StreakQuery(log, streakOk)))
  }

  /** The row built from a successful fetch. */
  function NewObservation(r: Reading, log: seq<Observation>, sumOk: bool, streakOk: bool): (o: Observation)
    ensures o.rainfall >= 0.0 && o.rainStreak <= LookbackDays
    ensures o.floodAlert == Label(LevelOf(r, log, sumOk, streakOk))
  {
    Observation(City, r.dt, r.temperature, r.humidity, ClampRainfall(r.rain1h),
                Label(LevelOf(r, log, sumOk, streakOk)), StreakValue(StreakQuery(log, streakOk)))
  }

  /** The index of the first attempt that is not a transient failure, MaxRetries if none is. */
  function FirstAnswer(outcomes: seq<Attempt>, k: nat): (n: nat)
    requires |outcomes| >= MaxRetries && k <= MaxRetries
    ensures k <= n <= MaxRetries
    ensures forall j | k <= j < n :: outcomes[j].Transient?
    ensures n < MaxRetries ==> !outcomes[n].Transient?
    decreases MaxRetries - k
  {
    if k == MaxRetries || !outcomes[k].Transient? then k else FirstAnswer(outcomes, k + 1)
  }

  /** What one fetch yields: a row when the first non-transient outcome is a reading. */
  function FetchResult(outcomes: seq<Attempt>, log: seq<Observation>, sumOk: bool, streakOk: bool): (w: Option<Observation>)
    requires |outcomes| >= MaxRetries
    ensures outcomes[0].Received? ==> w.Some? && w.value.timestamp == outcomes[0].reading.dt
    ensures !outcomes[0].Received? && !outcomes[0].Transient? ==> w.None?
    ensures (forall k | 0 <= k < MaxRetries :: outcomes[k].Transient?) ==> w.None?
    ensures w.Some? ==> w.value.rainfall >= 0.0 && w.value.city == City
  {
    var n := FirstAnswer(outcomes, 0);
    if n < MaxRetries && outcomes[n].Received? then
      Some(NewObservation(outcomes[n].reading, log, sumOk, streakOk))
    else
      None
  }

  /** The weather table and the alerts handed to the notifier. */
  class MonitorJob {
    var log: seq<Observation>
    var alerts: seq<string>

    /** No saved row has negative rainfall or a streak beyond the lookback. */
    ghost predicate Valid()
      reads this
    {
      NonNegativeRain(log) && forall k | 0 <= k < |log| :: log[k].rainStreak <= LookbackDays
    }

    constructor ()
      ensures Valid() && log == [] && alerts == []
    {
      log := [];
      alerts := [];
    }

    /**
      The fetch with retries: at most MaxRetries requests, a new request only
      after a connection error or timeout, and a row only from a reading.
      The 24-hour total and the streak are read from the table as it is.
    */
    method FetchWeatherData(outcomes: seq<Attempt>, sumOk: bool, streakOk: bool)
      returns (weather: Option<Observation>, attempts: nat)
      requires |outcomes| >= MaxRetries
      ensures 1 <= attempts <= MaxRetries
      ensures forall k | 0 <= k < attempts - 1 :: outcomes[k].Transient?
      ensures attempts < MaxRetries ==> !outcomes[attempts - 1].Transient?
      ensures weather.Some? <==> outcomes[attempts - 1].Received?
      ensures weather == FetchResult(outcomes, log, sumOk, streakOk)
    {
      var attempt := 0;
      while attempt < MaxRetries
        invariant 0 <= attempt <= MaxRetries
        invariant forall k | 0 <= k < attempt :: outcomes[k].Transient?
        invariant FirstAnswer(outcomes, 0) == FirstAnswer(outcomes, attempt)
      {
        attempts := attempt + 1;
        match outcomes[attempt] {
        case Received(reading) =>
          var rain := ClampRainfall(reading.rain1h);
          var daily := DailyTotalRainfall(if sumOk then Read(log) else StoreError, reading.dt);
          var streak := GetRainyStreak(StreakQuery(log, streakOk));
          var level := FloodAlertLevel(rain, daily, streak);
          weather := Some(Observation(City, reading.dt, reading.temperature, reading.humidity,
                                      rain, Label(level), streak));
          return;
        case Transient =>
          if attempt == MaxRetries - 1 {
            // retries exhausted
            weather := None;
            return;
          }
          // the delay before the next request is not modelled
        case Permanent =>
          weather := None;
          return;
        case Malformed =>
          weather := None;
          return;
        }
        attempt := attempt + 1;
      }
      weather, attempts := None, MaxRetries;
    }

    /**
      Appends the row when there is one and the write succeeds; a failed write
      is only logged. Any row is accepted, so the invariant is kept only for
      rows that satisfy it, as the rows built by the fetch do.
    */
    method SaveToDb(weather: Option<Observation>, writeOk: bool)
      modifies this
      ensures log == if weather.Some? && writeOk then old(log) + [weather.value] else old(log)
      ensures alerts == old(alerts)
      ensures old(Valid()) ==>
        (weather.Some? ==> weather.value.rainfall >= 0.0 && weather.value.rainStreak <= LookbackDays) ==> Valid()
    {
      if weather.Some? && writeOk {
        log := log + [weather.value];
      }
    }

    /**
      One cycle: fetch, save, and notify when the stored alert text names
      level 2 or level 3. The notification depends on the fetch only, not on
      whether the write succeeded.
    */
    method FetchAndStore(outcomes: seq<Attempt>, sumOk: bool, streakOk: bool, writeOk: bool)
      requires Valid() && |outcomes| >= MaxRetries
      modifies this
      ensures Valid()
      ensures var w := FetchResult(outcomes, old(log), sumOk, streakOk);
        log == (if w.Some? && writeOk then old(log) + [w.value] else old(log))
      ensures var n := FirstAnswer(outcomes, 0);
        var fetched := n < MaxRetries && outcomes[n].Received?;
        var level := if fetched then LevelOf(outcomes[n].reading, old(log), sumOk, streakOk) else NoRisk;
        alerts == (if fetched && level.Rank() >= 2 then old(alerts) + [Label(level)] else old(alerts))
    {
      var weather, _ := FetchWeatherData(outcomes, sumOk, streakOk);
      if weather.Some? {
        SaveToDb(weather, writeOk);
        ghost var level := LevelOf(outcomes[FirstAnswer(outcomes, 0)].reading, old(log), sumOk, streakOk);
        assert weather.value.floodAlert == Label(level);
        LabelAlarming(level);
        if IsAlarming(weather.value.floodAlert) {
          alerts := alerts + [weather.value.floodAlert];
        }
      }
    }
  }

  /** A table kept by the job never yields a negative 24-hour total. */
  lemma KeptTableTotalNonNegative(job: MonitorJob, now: int)
    requires job.Valid()
    ensures DailyTotalRainfall(Read(job.log), now) >= 0.0
  {
    NonNegative(Read(job.log), now);
  }

  /**
    Seven consecutive days of significant rain before a reading give a streak
    of seven and a level 3 alert whatever the reading's own rainfall, and the
    alert is one the job sends.
  */
  lemma SevenWetDaysAlert(log: seq<Observation>, r: Reading, sumOk: bool)
    requires var rows := Recent(GroupByDay(log));
      |rows| == LookbackDays &&
      forall j | 0 <= j < |rows| :: rows[j].day == rows[0].day - j && Significant(rows[j])
    ensures StreakValue(StreakQuery(log, true)) == LookbackDays
    ensures LevelOf(r, log, sumOk, true) == Warning
    ensures IsAlarming(NewObservation(r, log, sumOk, true).floodAlert)
  {
    var rows := Recent(GroupByDay(log));
    WalkAllSignificant(rows, rows[0].day, 0);
    LabelAlarming(Warning);
  }
}
