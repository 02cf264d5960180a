# Office time calculator — Dafny model

A model of `calculate_office_time` (calculator.py), which reads a pasted
biometric log, picks out its bare `HH:MM` punches, gives each punch a date,
pairs the punches into work sessions with breaks between them, and reports
work and break totals and the time still missing to the daily targets of
7h30m of work and 1h30m of break.

The model follows the function's three stages, one module each, plus the
arithmetic at its end:

- `Tokens` (calculator.py:23-28): an ASCII scanner for `\b\d{1,2}:\d{2}\b`
  (`FindTimes`) and `strptime(token, "%H:%M")` (`ParseToken`, `ParseAll`),
  with the two `ValueError`s as `Error` values.
- `Anchoring` (calculator.py:31-55): the base day (`BaseDay`), the anchoring
  loop as a method (`AnchorTimes`) proved equal to a specification function
  (`Anchored`), and a closed form for it (`AnchoredDays`: punch i lands on its
  own clock time, one day later for each of the punches 1..i whose clock time
  is earlier than their predecessor's).
- `Partitioning` (calculator.py:57-82): the stride-2 loop as a method
  (`Partition`) proved equal to index-wise definitions of the sessions and
  breaks (`Sessions`, `Breaks`) and their sums.
- `Totals` (calculator.py:84-107): hours and minutes, remaining time, and the
  returned dictionary as `Report`.
- `Calculator`: the whole function, as a method (`CalculateOfficeTime`) and
  as a function (`OfficeTime`) with lemmas about its failures and its report.
- `Clock` holds the time representation and the shared "add whole days until
  not before" rule (`Advance`, and the loop `RollForward` that computes it);
  `Scenarios` works through a full day given as punches, two logs to their
  reports and two logs to their errors.

Time is modelled in whole minutes. An instant is a number of minutes on the
user's local wall clock, `day * 1440 + minute of day`; every day has 1440
minutes. `now` is a parameter, already truncated to the minute, so every
duration in seconds is `60 *` a difference of minutes and `seconds // 60` is
exact. Python's `//` and `divmod` floor and Dafny's `/` and `%` are Euclidean;
they agree for the positive divisors 60 and 1440 used here.

Points where the code's behaviour is easy to misread, which the model follows
as written:

- the code, not the `HH:MM` pattern, decides the range: the pattern lets
  `25:99` through and strptime then rejects hours above 23 and minutes above
  59 with a `ValueError`;
- the code returns no total elapsed time and no expected completion time, so
  the model computes neither;
- a break is recorded before a trailing ongoing session too (calculator.py:78
  only tests that the current session is closed and a punch follows), so three
  punches give one break from punch 1 to punch 2 and `Breaks` does the same;
- an unknown timezone does not fall back cleanly in the code (see Left out).

## Model

| member | source | states |
|---|---|---|
| `Clock.Advance` | calculator.py:52-53 | the instant reached by adding whole days is not before the floor, not before the start, a whole number of days after the start, unchanged when already not before the floor, and otherwise less than a day past the floor |
| `Clock.AdvanceUnique` | calculator.py:52-53 | those properties determine the rolled instant uniquely |
| `Clock.RollForward` | calculator.py:70-71 | the day-by-day `while x < floor: x += 1 day` loop computes `Advance` |
| `Tokens.MatchLength` | calculator.py:23 | a match of the pattern at a position is absent or is a token of shape `\d{1,2}:\d{2}` inside the text |
| `Tokens.FindTimesFrom` | calculator.py:23 | every token the scanner extracts has the shape `\d{1,2}:\d{2}` |
| `Tokens.FindTimes` | calculator.py:23 | every token found in the text has the shape `\d{1,2}:\d{2}` |
| `Tokens.NoDigitNoTimesFrom` | calculator.py:23-25 | from any position of a text without digits no token is found |
| `Tokens.NoDigitNoTimes` | calculator.py:23-25 | a text without digits yields no token |
| `Tokens.SingleTokenFound` | calculator.py:23 | a text that is one token yields exactly that token |
| `Tokens.ParseToken` | calculator.py:28 | a failure names the token; a success reads hour and minute as the one- or two-digit fields on either side of the colon |
| `Tokens.ParseScannedToken` | calculator.py:28 | a scanned token parses exactly when its hour is at most 23 and its minute at most 59, and then to those values |
| `Tokens.ParseFormat` | calculator.py:28 | parsing the zero-padded `HH:MM` form of a time of day gives it back |
| `Tokens.FormatParse` | calculator.py:28 | a five-character token that parses is the zero-padded form of its value |
| `Tokens.ParseAll` | calculator.py:28 | parsing all tokens succeeds exactly when every token parses, in order and one value per token; otherwise the error is that of the first token that fails |
| `Anchoring.BaseDay` | calculator.py:31-36 | the base day is yesterday exactly when the first punch's clock time is later than `now`'s, otherwise today; the first punch on it is never after `now` and less than a day before it |
| `Anchoring.Anchored` | calculator.py:38-55 | anchoring gives one instant per punch |
| `Anchoring.AnchorTimes` | calculator.py:38-55 | the anchoring loop builds exactly the `Anchored` instants |
| `Anchoring.AdvanceStep` | calculator.py:41-53 | rolling a punch past the previous instant keeps it on that instant's day, or on the next day exactly when its clock time is earlier |
| `Anchoring.DescentsPrefix` | calculator.py:40-55 | counting backward clock steps up to a punch does not depend on the punches after it |
| `Anchoring.AnchoredDays` | calculator.py:40-55 | punch i lands on its own clock time on the base day plus the number of punches 1..i whose clock time is earlier than their predecessor's |
| `Anchoring.ClosedFormOrder` | calculator.py:40-55 | instants in that closed form show their punches' clock times, start on the base day, never decrease, move less than a day at a time, change day exactly when the clock time goes backwards, and stay put for equal consecutive times |
| `Anchoring.AnchoredOrder` | calculator.py:40-55 | one instant per punch, each showing its punch's clock time, the first on the base day; non-decreasing; each less than a day after the one before; a day is added exactly when the clock time goes backwards, so equal consecutive times keep the same instant |
| `Anchoring.NonDecreasingPairs` | calculator.py:52-55 | non-decreasing neighbours give non-decreasing pairs at any distance |
| `Anchoring.AnchoredPairs` | calculator.py:40-55 | for any two punches i <= j, punch i is anchored no later than punch j |
| `Anchoring.FirstNotAfterNow` | calculator.py:31-50 | the first anchored instant is never after `now` and is less than a day before it |
| `Partitioning.Partition` | calculator.py:57-82 | the stride-2 loop builds exactly the `Sessions` and `Breaks` sequences, and its totals are their sums of seconds |
| `Partitioning.PartitionShape` | calculator.py:63-82 | n punches give (n+1)/2 sessions and (n-1)/2 breaks; only the last session can be ongoing, exactly when n is odd; sessions start at even punches and closed ones end at the next punch |
| `Partitioning.PartitionTiles` | calculator.py:74-82 | break k runs from the end of session k to the start of session k+1, and every duration is the seconds between its ends |
| `Partitioning.TilesCover` | calculator.py:74-82 | for sessions and breaks that tile, work seconds plus break seconds equal the span from the first start to the last end |
| `Partitioning.TotalsCoverTimeline` | calculator.py:74-82 | total work plus total break seconds cover the span from the first punch to the last session's end, which is the last punch when n is even |
| `Partitioning.DurationsNonNegative` | calculator.py:69-82 | over anchored instants no session or break is negative, nor the totals; the ongoing session ends at `now` rolled forward past its start, and at `now` when `now` is not before its start |
| `Partitioning.SumsNonNegative` | calculator.py:75-81 | sums of non-negative durations are non-negative |
| `Totals.SplitMinutes` | calculator.py:86-88 | divmod by 60: hours * 60 + minutes gives back the total, with 0 <= minutes < 60 |
| `Totals.Remaining` | calculator.py:94-95 | `max(0, target - done)`: never negative, at least the shortfall, and zero exactly when the target is met |
| `Totals.Summarize` | calculator.py:84-107 | the hours and minutes fields give back `seconds // 60` for work and break; the remaining work and break are `max(0, 450 - work minutes)` and `max(0, 90 - break minutes)` as (hours, minutes), zero exactly when the target is met |
| `Calculator.CalculateOfficeTime` | calculator.py:6-107 | the imperative calculation returns exactly `OfficeTime` |
| `Calculator.OfficeTimeFailure` | calculator.py:23-28 | the calculation fails with "no times" exactly when no token is found, and fails at all exactly when some token does not parse; then the error names the first such token |
| `Calculator.OfficeTimeReport` | calculator.py:23-107 | a successful calculation found at least one token, parsed every token to one punch each, and returns the report for those punches |
| `Calculator.ReportFacts` | calculator.py:31-105 | the report for n punches has (n+1)/2 sessions and (n-1)/2 breaks, the first session starting no later than `now` and less than a day before it, only the last ongoing and exactly when n is odd, no negative duration, each break between consecutive sessions, work plus break covering the whole span, hours and minutes giving back the totals, and remaining times zero exactly when the targets are met |
| `Scenarios.FullDay` | calculator.py:57-105 | 09:00, 13:00, 14:00, 18:00 at 19:00 give two four-hour sessions, one one-hour break, remaining work 0h0m and remaining break 0h30m |
| `Scenarios.SinglePunch` | calculator.py:23-105 | the log "09:00" read at 10:00 gives one ongoing hour of work and 6h30m of work still to do |
| `Scenarios.MidnightTokens` | calculator.py:23 | "23:30 01:00" yields its two tokens |
| `Scenarios.MidnightParse` | calculator.py:28 | the tokens 23:30 and 01:00 parse to those clock times |
| `Scenarios.AcrossMidnight` | calculator.py:31-82 | 23:30 and 01:00 read at 02:00 start yesterday and give one closed session of 1h30m |
| `Scenarios.NoTimes` | calculator.py:23-25 | a log without any time fails with "no times" |
| `Scenarios.OutOfRangeTime` | calculator.py:28 | the token 25:99 is found but fails to parse |

## Left out

- Timezone resolution with pytz and `localize` (calculator.py:16, 33, 43-46): the model uses local wall-clock minutes with a fixed 1440-minute day and no daylight-saving shifts, so an instant never gains or loses an hour.
- The fallback for an unknown timezone (calculator.py:19-21): when `pytz.timezone` raises, `tz` is never bound and line 33 would raise `NameError`; the model has no timezone argument and does not model this path.
- The live clock (calculator.py:18, 21): `now` is a parameter, in whole minutes.
- The `current_time` string (calculator.py:106): `Report.currentTime` holds `now` itself, not its `strftime` rendering with a timezone abbreviation.
- Unicode in the pattern: Python's `\d`, `\w` and `\b` accept non-ASCII digits and letters; the scanner treats only ASCII digits, letters and `_` as word characters.
- app.py is not part of this model: it is the Streamlit page. It reads `total_time_hours`, `total_time_minutes` and `expected_completion_time`, which calculator.py never returns, so no total elapsed time or completion projection is computed here.
