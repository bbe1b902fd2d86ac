/**
  The flood-alert classifier of the Gaborone station: a first-match cascade
  over the last hour's rainfall, the trailing 24-hour rainfall and the rainy
  streak, yielding one of four ordered levels, and the textual labels that the
  rest of the job stores and tests for substrings.
*/
module FloodAlert {

  // Gaborone-specific rainfall thresholds, in mm
  const HourlyAdvisory: real := 3.0
  const HourlyWatch: real := 8.0
  const HourlyWarning: real := 15.0

  const DailyAdvisory: real := 15.0
  const DailyWatch: real := 20.0
  const DailyWarning: real := 40.0

  // streak lengths (in days) used by the cascade
  const StreakAdvisory: int := 1
  const StreakWatch: int := 2
  const StreakWarning: int := 4

  datatype Level = NoRisk | Advisory | Watch | Warning
  {
    /** The level number that the label starts with. */
    function Rank(): (n: nat)
      ensures n <= 3
    {
      match this
      case NoRisk => 0
      case Advisory => 1
      case Watch => 2
      case Warning => 3
    }
  }

  /** Threshold table, one row per level 1..3. */
  function HourlyThreshold(k: nat): real
    requires 1 <= k <= 3
  {
    if k == 1 then HourlyAdvisory else if k == 2 then HourlyWatch else HourlyWarning
  }

  function DailyThreshold(k: nat): real
    requires 1 <= k <= 3
  {
    if k == 1 then DailyAdvisory else if k == 2 then DailyWatch else DailyWarning
  }

  function StreakThreshold(k: nat): int
    requires 1 <= k <= 3
  {
    if k == 1 then StreakAdvisory else if k == 2 then StreakWatch else StreakWarning
  }

  /** The rule of level k fires: any one of its three triggers is met. */
  predicate Fires(k: nat, hourly: real, daily: real, streak: int)
    requires 1 <= k <= 3
  {
    hourly >= HourlyThreshold(k) || daily >= DailyThreshold(k) || streak >= StreakThreshold(k)
  }

  /**
    The cascade: the level-3 rule is tried first, the first rule that fires
    wins, and level 0 is the fall-through. Because the thresholds are nested,
    the result reaches level k exactly when the level-k rule fires.
  */
  function FloodAlertLevel(hourly: real, daily: real, streak: int): (r: Level)
    ensures forall k: nat | 1 <= k <= 3 :: r.Rank() >= k <==> Fires(k, hourly, daily, streak)
  {
    if hourly >= HourlyWarning || daily >= DailyWarning || streak >= StreakWarning then
      Warning
    else if hourly >= HourlyWatch || daily >= DailyWatch || streak >= StreakWatch then
      Watch
    else if hourly >= HourlyAdvisory || daily >= DailyAdvisory || streak >= StreakAdvisory then
      Advisory
    else
      NoRisk
  }

  /** Raising any input, the others held fixed or raised too, never lowers the level. */
  lemma Monotone(h1: real, d1: real, s1: int, h2: real, d2: real, s2: int)
    requires h1 <= h2 && d1 <= d2 && s1 <= s2
    ensures FloodAlertLevel(h1, d1, s1).Rank() <= FloodAlertLevel(h2, d2, s2).Rank()
  {
  }

  /** Boundary cases at and just under the thresholds of the cascade. */
  lemma Examples()
    ensures FloodAlertLevel(15.0, 0.0, 0) == Warning
    ensures FloodAlertLevel(0.0, 40.0, 0) == Warning
    ensures FloodAlertLevel(0.0, 0.0, 4) == Warning
    ensures FloodAlertLevel(8.0, 0.0, 0) == Watch
    ensures FloodAlertLevel(2.9, 14.0, 0) == NoRisk
  {
  }

  /** The text stored in the flood_alert column and sent by e-mail: "Level ", the level number, a headline. */
  function Label(level: Level): (s: string)
    ensures |s| > 7 && s[..7] == "Level " + ["0123"[level.Rank()]]
    ensures 'L' !in s[1..]
  {
    var digit := ["0123"[level.Rank()]];
    assert ("Level " + digit + Headline(level))[1..] == "evel " + digit + Headline(level);
    "Level " + digit + Headline(level)
  }

  /**
    The headline after the level number; it holds no capital L. Each long
    headline is written as three literals because the verifier checks the
    letters of a short literal cheaply and of a long one not at all.
  */
  function Headline(level: Level): (s: string)
    ensures 'L' !in s
  {
    match level
    case Warning =>
      assert 'L' !in " - WARNING: Severe risk" && 'L' !in " of flooding - Immediate" && 'L' !in " action required.";
      " - WARNING: Severe risk" + " of flooding - Immediate" + " action required."
    case Watch =>
      assert 'L' !in " - WATCH: Moderate to" && 'L' !in " high flood risk - Prepare" && 'L' !in " for action.";
      " - WATCH: Moderate to" + " high flood risk - Prepare" + " for action."
    case Advisory =>
      assert 'L' !in " - ADVISORY: Possible" && 'L' !in " localized flooding -" && 'L' !in " Stay vigilant.";
      " - ADVISORY: Possible" + " localized flooding -" + " Stay vigilant."
    case NoRisk =>
      " - No flood risk"
  }

  /** `sub` occurs in `s` starting at position i. */
  predicate OccursAt(s: string, sub: string, i: nat)
  {
    i + |sub| <= |s| && s[i..i + |sub|] == sub
  }

  /** Python's `sub in s` on strings. */
  predicate Contains(s: string, sub: string)
  {
    exists i: nat | i <= |s| :: OccursAt(s, sub, i)
  }

  /** The alert test of the job: the stored text mentions level 2 or level 3. */
  predicate IsAlarming(alert: string)
    ensures IsAlarming(alert) ==> |alert| >= 7
    ensures OccursAt(alert, "Level 2", 0) || OccursAt(alert, "Level 3", 0) ==> IsAlarming(alert)
  {
    Contains(alert, "Level 2") || Contains(alert, "Level 3")
  }

  /** A non-empty pattern whose first letter occurs in s only at position 0 can only occur at 0. */
  lemma OnlyAtStart(s: string, sub: string)
    requires 0 < |sub| && 0 < |s| && sub[0] !in s[1..]
    ensures Contains(s, sub) <==> OccursAt(s, sub, 0)
  {
  }

  /**
    Every label starts with "Level " and its level number, no later position
    holds a capital L, and so the substring test of the job recognises exactly
    the levels 2 and 3.
  */
  lemma LabelAlarming(level: Level)
    ensures IsAlarming(Label(level)) <==> level.Rank() >= 2
  {
    var s := Label(level);
    OnlyAtStart(s, "Level 2");
    OnlyAtStart(s, "Level 3");
  }
}
