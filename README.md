# AlertGaborone flood-alert core, modelled in Dafny

AlertGaborone polls a weather provider for Gaborone once an hour and appends each reading to a
SQLite table (`weather`). It then derives three things from that table and the reading: the
rainfall of the trailing 24 hours, the "rainy streak" of days with significant rain, and a
flood alert level from 0 to 3. When the alert is level 2 or 3, it sends an e-mail. This project
models that decision logic in `scripts/store_weatherdata.py` and proves what it computes.

Modules, one per component:

- `FloodAlert` (`flood_alert.dfy`): the threshold constants, the first-match cascade
  `FloodAlertLevel`, the four label texts, and the substring test the job applies to a stored
  label.
- `Records` (`records.dfy`): the table row `Observation`, the result of a read query
  (`StoreRead`: rows or a database error), the day of an instant, and the rainfall sum.
- `RainfallWindow` (`rainfall_window.dfy`): the 24-hour window query
  `SUM(rainfall) WHERE timestamp > now - 24h`, with its NULL and error fallbacks to 0.
- `DailyTotals` (`daily_totals.dfy`): the `GROUP BY day ORDER BY day DESC LIMIT 7` aggregate,
  modelled as a fold that inserts each row into its day's group.
- `RainyStreak` (`rainy_streak.dfy`): the streak loop as an imperative method proved against
  the walk function `Walk`, and lemmas on what the walk means.
- `Timestamp` (`timestamp.dfy`): the `YYYY/MM/DD,HH:MM:SS` text and a proof that the text
  comparison of the window query agrees with chronological order.
- `Station` (`station.dfy`): the retry loop of the fetch, the rainfall clamp, the row built
  from a reading, and a class `MonitorJob` over the append-only table (`log`) and the list of
  alerts handed to the notifier (`alerts`). Its methods are the fetch, the save, and one
  cycle of the job.

Modelling choices:

- Rainfall is a `real`, so the thresholds are exact.
- Instants are ordinal seconds of the naive civil time the job stores.
- A day is `timestamp / 86400`: truncation to the date.
- The provider's clock, the network, the database and the mail server are parameters. These
  are a sequence of attempt outcomes, and one flag per query or write saying whether it
  succeeded.

Where the documented intent and the code differ, the model follows the code:

- **Dry day inside the streak.** The docstring of `get_rainy_streak`
  (scripts/store_weatherdata.py:249) speaks of "consecutive days". The loop at lines 274-288
  only stops at a gap in the dates. An on-time day below 10 mm is passed over without stopping
  the walk. For daily sums 12, 11, 5, 20 mm on four contiguous days, the code gives 3, where a
  count of consecutive days gives 2. `RainyStreak.Walk` follows the code.
  `RainyStreak.ConsecutiveSignificant` is the documented count. `RainyStreak.DryDayDoesNotStop`
  and `RainyStreak.ConsecutiveAtMostStreak` relate the two.
- **Notification and save.** The e-mail is sent whenever the fetch succeeded and the label
  names level 2 or 3, even when the write failed. `save_to_db` logs and swallows its errors
  (lines 236-241), and line 310 does not check the outcome.
- **Later-than-expected days.** A daily row dated later than its expected day is passed over
  (line 288). On the rows the grouped, descending query returns, this branch is never taken
  (`RainyStreak.NeverLaterThanExpected`, `RainyStreak.StreakCountsGapFreeRun`).

## Model

| member | source | states |
|---|---|---|
| FloodAlert.FloodAlertLevel | scripts/store_weatherdata.py:46-64 | the result reaches level k (1..3) exactly when the level-k rule fires (hourly, daily or streak at or over its level-k threshold); so level 3 is checked first, the first firing rule wins, and 0 is the fall-through |
| FloodAlert.Monotone | scripts/store_weatherdata.py:51-64 | raising any of hourly rainfall, 24-hour rainfall or streak never lowers the level |
| FloodAlert.Examples | scripts/store_weatherdata.py:29-37 | (15,0,0), (0,40,0) and (0,0,4) give level 3; (8,0,0) gives level 2; (2.9,14,0) gives level 0 |
| FloodAlert.Label | scripts/store_weatherdata.py:54-64 | each level's text starts with "Level " and the level's number, and holds no other capital L |
| FloodAlert.IsAlarming | scripts/store_weatherdata.py:310 | a text that starts with "Level 2" or "Level 3" passes the notification test, and any text that passes is at least 7 characters long |
| FloodAlert.LabelAlarming | scripts/store_weatherdata.py:54-64 | the test `"Level 2" in alert or "Level 3" in alert` (line 310) holds for a level's text exactly when the level is 2 or 3 |
| FloodAlert.OnlyAtStart | scripts/store_weatherdata.py:310 | a pattern whose first letter occurs in the text only at its start is contained in it only as a prefix |
| Records.DayOf | scripts/store_weatherdata.py:258-261 | the day of an instant is the day whose 86400 seconds hold it (truncation of the timestamp to its date) |
| Records.TotalRainNonNegative | scripts/store_weatherdata.py:120 | a sum of rainfall over rows with no negative rainfall is not negative |
| RainfallWindow.Since | scripts/store_weatherdata.py:119-123 | the matched rows are no more than the table's and all lie strictly after the cutoff |
| RainfallWindow.SinceMembers | scripts/store_weatherdata.py:119-123 | a row is matched exactly when it is in the table and strictly after the cutoff |
| RainfallWindow.SumColumn | scripts/store_weatherdata.py:119-126 | `SUM` is NULL exactly when no row matches |
| RainfallWindow.DailyTotalRainfall | scripts/store_weatherdata.py:106-136 | a failing query gives 0; otherwise the total is the rainfall sum of the rows after now - 24 h (a NULL sum reads as 0) |
| RainfallWindow.WindowSum | scripts/store_weatherdata.py:116-126 | the 24-hour total is the rainfall sum of the rows after now - 24 h, and 0 when no row is that recent |
| RainfallWindow.EmptyHistory | scripts/store_weatherdata.py:126-132 | an empty table, or a failing query, gives 0 rather than an error |
| RainfallWindow.NonNegative | scripts/store_weatherdata.py:116-132 | the total is never negative when no stored rainfall is |
| RainfallWindow.AppendNeverDecreases | scripts/store_weatherdata.py:116-126 | appending a row with non-negative rainfall never lowers the total |
| RainfallWindow.WindowIsSuffix | scripts/store_weatherdata.py:122 | in a table written in timestamp order, the matched rows are the suffix after the first CountUpTo rows |
| RainfallWindow.BeforeWindow | scripts/store_weatherdata.py:122 | in such a table, all rows before that suffix are at or before the cutoff |
| RainfallWindow.NoneAfter | scripts/store_weatherdata.py:119-123 | a table with no row after the cutoff matches no row |
| RainfallWindow.WindowGrows | scripts/store_weatherdata.py:119-123 | appending a row after the cutoff extends the matched rows by that row |
| RainfallWindow.WindowStaysEmpty | scripts/store_weatherdata.py:119-123 | appending a row at or before the cutoff, after rows no later than it, matches no row |
| Timestamp.Stamp | scripts/store_weatherdata.py:153-156 | the stored text is 19 characters: a 4-digit year, then "/", "/", ",", ":", ":" at positions 4, 7, 10, 13, 16, and the 2-digit seconds at the end |
| Timestamp.StampOrder | scripts/store_weatherdata.py:116-122 | for fixed-width `%Y/%m/%d,%H:%M:%S` texts, text order is chronological order, and equal texts are equal instants |
| DailyTotals.AddToDay | scripts/store_weatherdata.py:258-261 | adding a row to the groups keeps them strictly descending by day, and the days are the old days plus the row's day |
| DailyTotals.AddToDayTotals | scripts/store_weatherdata.py:258-260 | adding a row raises its day's total by its rainfall and leaves every other day's total unchanged |
| DailyTotals.GroupByDay | scripts/store_weatherdata.py:257-261 | the grouped rows are strictly descending by day (distinct days, most recent first) |
| DailyTotals.GroupByDayDays | scripts/store_weatherdata.py:258-260 | there is one group for each day that has readings, and no other |
| DailyTotals.GroupByDayTotals | scripts/store_weatherdata.py:258-260 | each day's group carries the rainfall sum of that day's readings |
| DailyTotals.Recent | scripts/store_weatherdata.py:262 | `LIMIT 7` keeps the first min(7, n) groups, in order |
| DailyTotals.RecentDescending | scripts/store_weatherdata.py:261-262 | the limited rows are still strictly descending |
| RainyStreak.Walk | scripts/store_weatherdata.py:274-289 | the walk from index i counts at most the remaining rows |
| RainyStreak.StreakOf | scripts/store_weatherdata.py:266-289 | the streak is at most the number of daily rows, 0 without rows, and at least 1 when the most recent day is significant |
| RainyStreak.GetRainyStreak | scripts/store_weatherdata.py:247-301 | the loop, with its early exit at a gap, returns the walk anchored at the most recent day; it returns 0 for no rows or a failed query, and never more than the number of rows |
| RainyStreak.StreakBounds | scripts/store_weatherdata.py:262-268 | no daily rows give 0; otherwise the streak is at most the number of rows, which is at most 7 |
| RainyStreak.NeverLaterThanExpected | scripts/store_weatherdata.py:276-288 | on distinct, descending days, the row at index i is never later than anchor - i, so the "later than expected" branch is never taken |
| RainyStreak.StreakCountsGapFreeRun | scripts/store_weatherdata.py:274-289 | on such rows, the streak is the number of significant days in the gap-free run of days ending at the most recent one |
| RainyStreak.ConsecutiveSignificant | scripts/store_weatherdata.py:247-250 | the count covers only days that are on their expected date and significant, and stops at the first day that is not |
| RainyStreak.WalkAllSignificant | scripts/store_weatherdata.py:274-289 | when every row from i on is on its expected day and significant, the walk counts all of them |
| RainyStreak.ConsecutiveAtMostStreak | scripts/store_weatherdata.py:247-250 | the consecutive count the docstring describes never exceeds what the loop computes |
| RainyStreak.DryDayDoesNotStop | scripts/store_weatherdata.py:279-288 | contiguous days with 12, 11, 5, 20 mm give a streak of 3, where the consecutive count is 2 |
| RainyStreak.GapStops | scripts/store_weatherdata.py:284-287 | days [d: 20 mm, d-2: 20 mm] give a streak of 1: the gap stops the walk |
| Station.ClampRainfall | scripts/store_weatherdata.py:147-150 | the stored rainfall is never negative: a missing value gives 0, a negative value gives 0, other values are kept |
| Station.StreakQuery | scripts/store_weatherdata.py:257-264 | the daily query yields rows exactly when it succeeds, and then at most 7 groups in strictly descending day order |
| Station.StreakValue | scripts/store_weatherdata.py:290-298 | a failed daily query gives streak 0; otherwise the streak is at most the number of rows |
| Station.LevelOf | scripts/store_weatherdata.py:161-164 | an hourly rainfall of 15 mm or more gives level 3 whatever the table holds; with both queries failing, the level depends on the hourly rainfall alone |
| Station.NewObservation | scripts/store_weatherdata.py:153-179 | the new row has non-negative rainfall and a streak of at most 7, and its alert text is the label of the level for (clamped rainfall, 24-hour total, streak) over the table before the save |
| Station.FirstAnswer | scripts/store_weatherdata.py:139-201 | the attempt that ends the loop is the first that is not a connection error or timeout, or MaxRetries when every permitted attempt was a connection error or timeout |
| Station.FetchResult | scripts/store_weatherdata.py:139-202 | a reading on the first attempt gives a row stamped with its time; a first attempt that fails other than by connection error or timeout gives none, and so do three connection errors or timeouts; any row is for Gaborone with non-negative rainfall |
| Station.MonitorJob.FetchWeatherData | scripts/store_weatherdata.py:138-202 | at most 3 requests are made, and a new one only after a connection error or timeout; a row comes back exactly when the deciding attempt delivered a reading, and it is the row built from that reading |
| Station.MonitorJob.SaveToDb | scripts/store_weatherdata.py:205-244 | the table grows by the row exactly when there is a row and the write succeeds; nothing else changes; a row with non-negative rainfall and a streak of at most 7 keeps the table's invariant |
| Station.MonitorJob.FetchAndStore | scripts/store_weatherdata.py:304-314 | the table grows by the fetched row when the write succeeds; the notifier is called once with the label exactly when the fetch succeeded and the level is 2 or 3, whatever the write did; no stored row gets negative rainfall |
| Station.KeptTableTotalNonNegative | scripts/store_weatherdata.py:106-136 | the 24-hour total over a table the job has kept is never negative |
| Station.SevenWetDaysAlert | scripts/store_weatherdata.py:274-289 | seven contiguous significant days before a reading give a streak of 7 and a level-3 alert that the job sends, whatever the reading's own rainfall |

## Left out

- HTTP requests, JSON decoding, and the 5-second delay between retries (lines 143-145, 183).
  A request is an abstract `Attempt` outcome. Every exception other than a connection error
  or timeout (HTTP error, other request error, bad JSON, missing key, anything unexpected)
  is one non-retried outcome: `Permanent` or `Malformed`.
- SQLite connections, table creation, commit, rollback and closing (lines 205-244). The table
  is an append-only sequence. Each read query and the write take a flag that says whether
  they succeeded.
- The SQL text `DATE(REPLACE(REPLACE(timestamp, ...)))` and the date parsing in the streak
  loop (lines 258-261, 272-277). Days are ordinal integers, so the date-parsing failure
  (`ValueError`, line 293) has no counterpart.
- Calendar arithmetic: `now - 24h`, the UTC-to-naive conversion, and the step from a
  calendar date to ordinal seconds (lines 116, 153-156). The window works on ordinal
  seconds. `Timestamp.StampOrder` covers the text order on its own.
- E-mail construction and SMTP delivery (lines 67-103), including their configuration checks
  and swallowed errors. The model records only that the notifier was called, and with which
  text.
- Environment loading and the exit when the API key is missing (lines 16-26): process setup.
- Floating-point rounding of the rainfall sums.
- A `rain.1h` field present with a null value (it raises `TypeError` at line 148): `rain1h`
  is absent or a number.
- The dashboard's label-to-colour mapping, the one-off fetch script, the schema migration
  and the hourly scheduler loop: presentation, a one-off script, migration and scheduling.
- Station.MonitorJob.FetchAndStore: the order of the save and the notification (line 308 before
  line 310) is not part of the contract, because the table and the alerts are separate fields
  and the contract states only the final state of each.
- Station.MonitorJob.FetchWeatherData: assumes the environment supplies an outcome for each of the
  three permitted attempts (`|outcomes| >= 3`); unused outcomes are ignored.
