/** Worked examples of the calculator on concrete logs. */
module Scenarios {
  import opened Wrappers
  import opened Clock
  import opened Tokens
  import opened Anchoring
  import opened Partitioning
  import opened Totals
  import opened Calculator

  /** A full day: two four-hour sessions around a one-hour break, `now` at 19:00. */
  lemma FullDay()
    ensures var now := At(20000, TimeOfDay(19, 0));
      var r := ReportFor([TimeOfDay(9, 0), TimeOfDay(13, 0), TimeOfDay(14, 0), TimeOfDay(18, 0)], now);
      r.sessions == [
        Session(At(20000, TimeOfDay(9, 0)), At(20000, TimeOfDay(13, 0)), 4 * 3600, false),
        Session(At(20000, TimeOfDay(14, 0)), At(20000, TimeOfDay(18, 0)), 4 * 3600, false)] &&
      r.breaks == [Break(At(20000, TimeOfDay(13, 0)), At(20000, TimeOfDay(14, 0)), 3600)] &&
      r.workHours == 8 && r.workMinutes == 0 &&
      r.breakHours == 1 && r.breakMinutes == 0 &&
      r.remainingWork == HoursMinutes(0, 0) &&
      r.remainingBreak == HoursMinutes(0, 30)
  {
    var times := [TimeOfDay(9, 0), TimeOfDay(13, 0), TimeOfDay(14, 0), TimeOfDay(18, 0)];
    var now := At(20000, TimeOfDay(19, 0));
    assert BaseDay(times[0], now) == 20000;
    AnchoredDays(times, 20000);
    assert Descents(times, 1) == 0 && Descents(times, 2) == 0 && Descents(times, 3) == 0;
    var instants := Anchored(times, 20000);
    assert instants == [At(20000, times[0]), At(20000, times[1]), At(20000, times[2]), At(20000, times[3])];
    var sessions := Sessions(instants, now);
    assert sessions == [SessionAt(instants, now, 0), SessionAt(instants, now, 1)];
    var breaks := Breaks(instants);
    assert breaks == [BreakAt(instants, 0)];
    assert sessions[0].seconds == 4 * 3600 && sessions[1].seconds == 4 * 3600;
    assert sessions[..1] == [sessions[0]] && sessions[..1][..0] == [];
    assert WorkSeconds(sessions[..1]) == 4 * 3600;
    assert WorkSeconds(sessions) == 8 * 3600;
    assert BreakSeconds(breaks) == 3600;
  }

  /** A single punch at 09:00 read at 10:00: one ongoing hour of work. */
  lemma SinglePunch()
    ensures var now := At(20000, TimeOfDay(10, 0));
      var r := OfficeTime("09:00", now);
      r.Success? &&
      r.value.sessions == [Session(At(20000, TimeOfDay(9, 0)), now, 3600, true)] &&
      r.value.breaks == [] &&
      r.value.workHours == 1 && r.value.workMinutes == 0 &&
      r.value.remainingWork == HoursMinutes(6, 30) &&
      r.value.remainingBreak == HoursMinutes(1, 30)
  {
    var now := At(20000, TimeOfDay(10, 0));
    var nine := TimeOfDay(9, 0);
    assert IsTimeToken("09:00");
    SingleTokenFound("09:00");
    ParseFormat(nine);
    assert Format(nine) == "09:00";
    assert ParseToken("09:00") == Success(nine);
    var parsed := ParseAll(["09:00"]);
    assert parsed.Success? && |parsed.value| == 1 && parsed.value[0] == nine;
    assert parsed.value == [nine];
    assert BaseDay(nine, now) == 20000;
    var instants := Anchored([nine], 20000);
    assert instants == [At(20000, nine)];
    var sessions := Sessions(instants, now);
    assert sessions == [SessionAt(instants, now, 0)];
    assert sessions[..0] == [];
    assert WorkSeconds(sessions) == 3600;
  }

  /** The two tokens of "23:30 01:00"; the space between them is skipped. */
  lemma MidnightTokens()
    ensures FindTimes("23:30 01:00") == ["23:30", "01:00"]
  {
    var text := "23:30 01:00";
    assert MatchLength(text, 0) == 5 && text[0..5] == "23:30";
    assert !BoundaryBefore(text, 5);
    assert BoundaryBefore(text, 6) && MatchLength(text, 6) == 5 && text[6..11] == "01:00";
    assert FindTimesFrom(text, 11) == [];
    assert FindTimesFrom(text, 6) == ["01:00"];
    assert FindTimesFrom(text, 5) == ["01:00"];
  }

  lemma MidnightParse()
    ensures ParseAll(["23:30", "01:00"]) == Success([TimeOfDay(23, 30), TimeOfDay(1, 0)])
  {
    var late, early := TimeOfDay(23, 30), TimeOfDay(1, 0);
    ParseFormat(late);
    ParseFormat(early);
    assert Format(late) == "23:30" && Format(early) == "01:00";
    var parsed := ParseAll(["23:30", "01:00"]);
    assert parsed.Success? && |parsed.value| == 2 && parsed.value[0] == late && parsed.value[1] == early;
    assert parsed.value == [late, early];
  }

  /**
   * A session across midnight: 23:30 and 01:00 read at 02:00.  The log starts
   * yesterday and the second punch rolls over to today, so the session lasts
   * an hour and a half rather than a negative time.
   */
  lemma AcrossMidnight()
    ensures var now := At(20001, TimeOfDay(2, 0));
      var r := OfficeTime("23:30 01:00", now);
      r.Success? &&
      r.value.sessions == [Session(At(20000, TimeOfDay(23, 30)), At(20001, TimeOfDay(1, 0)), 5400, false)] &&
      r.value.breaks == [] &&
      r.value.workHours == 1 && r.value.workMinutes == 30
  {
    var now := At(20001, TimeOfDay(2, 0));
    var late, early := TimeOfDay(23, 30), TimeOfDay(1, 0);
    MidnightTokens();
    MidnightParse();
    assert BaseDay(late, now) == 20000;
    var times := [late, early];
    AnchoredDays(times, 20000);
    assert Descents(times, 1) == 1;
    var instants := Anchored(times, 20000);
    assert instants == [At(20000, late), At(20001, early)];
    var sessions := Sessions(instants, now);
    assert sessions == [SessionAt(instants, now, 0)];
    assert sessions[..0] == [];
    assert WorkSeconds(sessions) == 5400;
  }

  /** A log without any time is rejected. */
  lemma NoTimes(now: int)
    ensures OfficeTime("Biometric.", now) == Failure(NoTimesFound)
  {
    var text := "Biometric.";
    forall i | 0 <= i < |text|
      ensures !IsDigit(text[i])
    {
    }
    NoDigitNoTimes(text);
    assert FindTimes(text) == [];
  }

  /** The regex lets 25:99 through; parsing it as a clock time fails. */
  lemma OutOfRangeTime(now: int)
    ensures OfficeTime("25:99", now) == Failure(InvalidTime("25:99"))
  {
    assert IsTimeToken("25:99");
    SingleTokenFound("25:99");
  }
}
