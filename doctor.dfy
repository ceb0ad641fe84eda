/**
 * The health checks of `piper doctor`: each classifies counts that a warehouse query
 * returns as pass, warn or fail. The queries themselves are inputs here.
 */
module Doctor {
  import opened Wrappers

  datatype CheckStatus = Pass | Warn | Fail

  /** A check's verdict: its name, status and the hint shown with a warning or failure. */
  datatype CheckResult = CheckResult(name: string, status: CheckStatus, hint: string)

  /** How bad a status is, for comparing verdicts. */
  function Severity(s: CheckStatus): nat
  {
    match s
    case Pass => 0
    case Warn => 1
    case Fail => 2
  }

  const MicrosPerHour := 3600 * 1000000

  /**
   * `check_freshness`, given the number of events and the age of the newest one (in
   * microseconds): at most 48 hours passes, at most 96 hours warns, and no events or an
   * older newest event fails.
   */
  function CheckFreshness(eventCount: int, ageMicros: int): (r: CheckResult)
    ensures r.name == "freshness"
    ensures r.status == Pass <==> eventCount != 0 && ageMicros <= 48 * MicrosPerHour
    ensures r.status == Warn <==> eventCount != 0 && 48 * MicrosPerHour < ageMicros <= 96 * MicrosPerHour
    ensures r.status == Fail <==> eventCount == 0 || 96 * MicrosPerHour < ageMicros
    ensures r.status != Pass ==> r.hint != ""
  {
    if eventCount == 0 then CheckResult("freshness", Fail, "run `piper ingest` to pull the latest telemetry")
    else if ageMicros <= 48 * MicrosPerHour then CheckResult("freshness", Pass, "")
    else if ageMicros <= 96 * MicrosPerHour then
      CheckResult("freshness", Warn, "run `piper ingest` — pipeline may have missed recent files")
    else CheckResult("freshness", Fail, "check raw_root and run `piper ingest`")
  }

  /**
   * `check_volume`, given the number of events in the last 7 days: at least 10 passes,
   * 1 to 9 warns, none fails.
   */
  function CheckVolume(n: int): (r: CheckResult)
    ensures r.name == "volume"
    ensures r.status == Pass <==> n >= 10
    ensures r.status == Warn <==> 0 < n < 10
    ensures r.status == Fail <==> n <= 0
    ensures r.status != Pass ==> r.hint != ""
  {
    if n >= 10 then CheckResult("volume", Pass, "")
    else if n > 0 then CheckResult("volume", Warn, "confirm the pipeline is running and raw_root is correct")
    else CheckResult("volume", Fail, "confirm the pipeline is running and run `piper ingest`")
  }

  /**
   * The row `SELECT SUM(event_count), SUM(error_count)` returns: None when there is no
   * row, and each sum None over an empty manifest.
   */
  datatype ManifestSums = ManifestSums(events: Option<nat>, errors: Option<nat>)

  /**
   * `check_invalid_rate`: the share of quarantined lines among all lines in the manifest.
   * No data, or no lines, passes; with `total = events + errors`, a rate of at most 2%
   * (`100 * errors <= 2 * total`) passes, at most 10% warns, more fails.
   */
  function CheckInvalidRate(row: Option<ManifestSums>): (r: CheckResult)
    ensures r.name == "invalid_rate"
    ensures var events := if row.Some? then row.value.events.GetOr(0) else 0;
            var errors := if row.Some? then row.value.errors.GetOr(0) else 0;
            var total := events + errors;
            (r.status == Pass <==> 100 * errors <= 2 * total)
            && (r.status == Warn <==> 2 * total < 100 * errors <= 10 * total)
            && (r.status == Fail <==> 10 * total < 100 * errors)
    ensures r.status != Pass ==> r.hint != ""
  {
    if row.None? || (row.value.events.None? && row.value.errors.None?) then
      CheckResult("invalid_rate", Pass, "")
    else
      var events := row.value.events.GetOr(0);
      var errors := row.value.errors.GetOr(0);
      var total := events + errors;
      if total == 0 then CheckResult("invalid_rate", Pass, "")
      else if 100 * errors <= 2 * total then CheckResult("invalid_rate", Pass, "")
      else if 100 * errors <= 10 * total then
        CheckResult("invalid_rate", Warn, "inspect quarantine/invalid_jsonl for malformed records")
      else CheckResult("invalid_rate", Fail, "investigate the upstream producer emitting malformed JSONL")
  }

  /**
   * `check_clock_skew`, given how many events are skewed by more than 7 days and by more
   * than 1 day: any of the first fails, otherwise any of the second warns.
   */
  function CheckClockSkew(over7Days: int, over1Day: int): (r: CheckResult)
    ensures r.name == "clock_skew"
    ensures r.status == Fail <==> over7Days > 0
    ensures r.status == Warn <==> over7Days <= 0 && over1Day > 0
    ensures r.status == Pass <==> over7Days <= 0 && over1Day <= 0
    ensures r.status != Pass ==> r.hint != ""
  {
    if over7Days > 0 then CheckResult("clock_skew", Fail, "check host clock synchronisation on field machines")
    else if over1Day > 0 then CheckResult("clock_skew", Warn, "check host clock synchronisation on field machines")
    else CheckResult("clock_skew", Pass, "")
  }

  /** What the checks' queries return. */
  datatype Observations = Observations(
    eventCount: int,
    newestAgeMicros: int,
    eventsLast7Days: int,
    manifest: Option<ManifestSums>,
    skewedOver7Days: int,
    skewedOver1Day: int)

  /** `_ALL_CHECKS`, in registry order. */
  const CheckNames: seq<string> := ["freshness", "volume", "invalid_rate", "clock_skew"]

  /** The registered check called `name`. */
  function RunCheck(name: string, obs: Observations): (r: CheckResult)
    requires name in CheckNames
    ensures r.name == name
    ensures name == "freshness" ==> r == CheckFreshness(obs.eventCount, obs.newestAgeMicros)
    ensures name == "volume" ==> r == CheckVolume(obs.eventsLast7Days)
    ensures name == "invalid_rate" ==> r == CheckInvalidRate(obs.manifest)
    ensures name == "clock_skew" ==> r == CheckClockSkew(obs.skewedOver7Days, obs.skewedOver1Day)
  {
    if name == "freshness" then CheckFreshness(obs.eventCount, obs.newestAgeMicros)
    else if name == "volume" then CheckVolume(obs.eventsLast7Days)
    else if name == "invalid_rate" then CheckInvalidRate(obs.manifest)
    else CheckClockSkew(obs.skewedOver7Days, obs.skewedOver1Day)
  }

  /** The text of the ValueError for an unknown check name. */
  function UnknownCheckMessage(only: string): string
  {
    "unknown check: '" + only + "'.  Known: ['clock_skew', 'freshness', 'invalid_rate', 'volume']"
  }

  /**
   * `run_checks`: every check in registry order, or only the one named; an unknown name
   * is a ValueError.
   */
  function RunChecks(only: string, obs: Observations): (r: Result<seq<CheckResult>, string>)
    ensures only == "" ==> r.Success? && |r.value| == 4
                           && forall k :: 0 <= k < 4 ==> r.value[k].name == CheckNames[k]
                                                         && r.value[k] == RunCheck(CheckNames[k], obs)
    ensures only != "" && only in CheckNames ==> r.Success? && |r.value| == 1 && r.value[0].name == only
                                                 && r.value[0] == RunCheck(only, obs)
    ensures r.Failure? <==> only != "" && only !in CheckNames
  {
    if only != "" then
      if only !in CheckNames then Failure(UnknownCheckMessage(only))
      else Success([RunCheck(only, obs)])
    else Success(seq(4, k requires 0 <= k < 4 => RunCheck(CheckNames[k], obs)))
  }

  /** A failing or warning check always says what to do about it. */
  lemma EveryProblemHasAHint(only: string, obs: Observations, k: nat)
    requires RunChecks(only, obs).Success? && k < |RunChecks(only, obs).value|
    ensures RunChecks(only, obs).value[k].status != Pass ==> RunChecks(only, obs).value[k].hint != ""
  {
  }

  /** An older newest event never improves freshness. */
  lemma FreshnessWorsensWithAge(eventCount: int, age1: int, age2: int)
    requires age1 <= age2
    ensures Severity(CheckFreshness(eventCount, age1).status) <= Severity(CheckFreshness(eventCount, age2).status)
  {
  }

  /** More recent events never worsen volume. */
  lemma VolumeImprovesWithEvents(n1: int, n2: int)
    requires n1 <= n2
    ensures Severity(CheckVolume(n2).status) <= Severity(CheckVolume(n1).status)
  {
  }

  /** With the same number of good lines, more quarantined lines never improve the rate. */
  lemma InvalidRateWorsensWithErrors(events: nat, errors1: nat, errors2: nat)
    requires errors1 <= errors2
    ensures Severity(CheckInvalidRate(Some(ManifestSums(Some(events), Some(errors1)))).status)
            <= Severity(CheckInvalidRate(Some(ManifestSums(Some(events), Some(errors2)))).status)
  {
  }

  /** The 2% and 10% bounds are inclusive: 2 errors in 100 lines pass, 10 in 100 warn. */
  lemma InvalidRateBoundaries()
    ensures CheckInvalidRate(Some(ManifestSums(Some(98), Some(2)))).status == Pass
    ensures CheckInvalidRate(Some(ManifestSums(Some(97), Some(3)))).status == Warn
    ensures CheckInvalidRate(Some(ManifestSums(Some(90), Some(10)))).status == Warn
    ensures CheckInvalidRate(Some(ManifestSums(Some(89), Some(11)))).status == Fail
  {
  }

  /** A manifest with no data at all passes instead of dividing by zero. */
  lemma EmptyManifestPasses()
    ensures CheckInvalidRate(None).status == Pass
    ensures CheckInvalidRate(Some(ManifestSums(None, None))).status == Pass
    ensures CheckInvalidRate(Some(ManifestSums(Some(0), Some(0)))).status == Pass
  {
  }
}
