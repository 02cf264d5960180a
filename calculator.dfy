/**
 * `calculate_office_time`: the three stages put together.  The current
 * instant `now` (already truncated to whole minutes) is a parameter.
 */
module Calculator {
  import opened Wrappers
  import opened Clock
  import opened Tokens
  import opened Anchoring
  import opened Partitioning
  import opened Totals

  /** The report for a pasted log, or the ValueError the calculator raises. */
  function OfficeTime(rawText: string, now: int): (r: Result<Report, Error>) {
    var timeStrs := FindTimes(rawText);
    if timeStrs == [] then Failure(NoTimesFound)
    else
      match ParseAll(timeStrs)
      case Failure(e) => Failure(e)
      case Success(times) => Success(ReportFor(times, now))
  }

  /** The report for punches that parsed. */
  function ReportFor(times: seq<TimeOfDay>, now: int): (r: Report)
    requires |times| > 0
  {
    var instants := Anchored(times, BaseDay(times[0], now));
    var sessions := Sessions(instants, now);
    var breaks := Breaks(instants);
    Summarize(sessions, breaks, WorkSeconds(sessions), BreakSeconds(breaks), now)
  }

  method CalculateOfficeTime(rawText: string, now: int) returns (r: Result<Report, Error>)
    ensures r == OfficeTime(rawText, now)
  {
    var timeStrs := FindTimes(rawText);
    if |timeStrs| == 0 {
      return Failure(NoTimesFound);
    }
    var parsed := ParseAll(timeStrs);
    if parsed.Failure? {
      return Failure(parsed.error);
    }
    var times := parsed.value;
    var baseDay := BaseDay(times[0], now);
    var instants := AnchorTimes(times, baseDay);
    var sessions, breaks, totalWorkSeconds, totalBreakSeconds := Partition(instants, now);
    r := Success(Summarize(sessions, breaks, totalWorkSeconds, totalBreakSeconds, now));
  }

  /**
   * The calculation fails exactly when the log holds no `HH:MM` token, or
   * when one of its tokens is not a valid clock time; then the error names
   * the first such token.
   */
  lemma OfficeTimeFailure(rawText: string, now: int)
    ensures OfficeTime(rawText, now) == Failure(NoTimesFound) <==> FindTimes(rawText) == []
    ensures OfficeTime(rawText, now).Failure? <==>
      FindTimes(rawText) == [] ||
      exists i :: 0 <= i < |FindTimes(rawText)| && ParseToken(FindTimes(rawText)[i]).Failure?
    ensures OfficeTime(rawText, now).Failure? && FindTimes(rawText) != [] ==>
      exists i :: 0 <= i < |FindTimes(rawText)| &&
        OfficeTime(rawText, now).error == InvalidTime(FindTimes(rawText)[i]) &&
        ParseToken(FindTimes(rawText)[i]).Failure? &&
        forall j :: 0 <= j < i ==> ParseToken(FindTimes(rawText)[j]).Success?
  {
  }

  /** A successful calculation is the report for the parsed tokens, one punch per token. */
  lemma OfficeTimeReport(rawText: string, now: int)
    requires OfficeTime(rawText, now).Success?
    ensures FindTimes(rawText) != [] && ParseAll(FindTimes(rawText)).Success?
    ensures |ParseAll(FindTimes(rawText)).value| == |FindTimes(rawText)|
    ensures OfficeTime(rawText, now).value == ReportFor(ParseAll(FindTimes(rawText)).value, now)
  {
  }

  /**
   * What the report for n punches says: (n+1)/2 sessions starting at the
   * first punch, which is never after `now` and less than a day before it;
   * only the last session can be ongoing, exactly when n is odd; (n-1)/2
   * breaks, each between consecutive sessions; no negative duration; work and
   * break together cover the span from the first punch to the last session's
   * end; and the remaining times are zero exactly when the targets are met.
   */
  lemma ReportFacts(times: seq<TimeOfDay>, now: int)
    requires |times| > 0
    ensures |ReportFor(times, now).sessions| == (|times| + 1) / 2
    ensures |ReportFor(times, now).breaks| == (|times| - 1) / 2
    ensures now - 1440 < ReportFor(times, now).sessions[0].start <= now
    ensures forall k :: 0 <= k < |ReportFor(times, now).sessions| ==>
      (ReportFor(times, now).sessions[k].ongoing <==>
         k == |ReportFor(times, now).sessions| - 1 && |times| % 2 == 1)
    ensures forall k :: 0 <= k < |ReportFor(times, now).sessions| ==>
      0 <= ReportFor(times, now).sessions[k].seconds
    ensures forall k :: 0 <= k < |ReportFor(times, now).breaks| ==>
      0 <= ReportFor(times, now).breaks[k].seconds
    ensures forall k :: 0 <= k < |ReportFor(times, now).breaks| ==>
      ReportFor(times, now).breaks[k].start == ReportFor(times, now).sessions[k].end &&
      ReportFor(times, now).breaks[k].end == ReportFor(times, now).sessions[k + 1].start
    ensures var r := ReportFor(times, now);
      WorkSeconds(r.sessions) + BreakSeconds(r.breaks) ==
        SecondsBetween(r.sessions[0].start, r.sessions[|r.sessions| - 1].end)
    ensures var r := ReportFor(times, now);
      r.workHours * 60 + r.workMinutes == WorkSeconds(r.sessions) / 60 &&
      r.breakHours * 60 + r.breakMinutes == BreakSeconds(r.breaks) / 60
    ensures var r := ReportFor(times, now);
      (r.remainingWork == HoursMinutes(0, 0) <==> r.workHours * 60 + r.workMinutes >= TargetWorkMinutes) &&
      (r.remainingBreak == HoursMinutes(0, 0) <==> r.breakHours * 60 + r.breakMinutes >= TargetBreakMinutes)
  {
    var baseDay := BaseDay(times[0], now);
    var instants := Anchored(times, baseDay);
    AnchoredOrder(times, baseDay);
    FirstNotAfterNow(times, now);
    PartitionShape(instants, now);
    PartitionTiles(instants, now);
    TotalsCoverTimeline(instants, now);
    DurationsNonNegative(instants, now);
    var r := ReportFor(times, now);
    assert r.sessions == Sessions(instants, now) && r.breaks == Breaks(instants);
  }
}
