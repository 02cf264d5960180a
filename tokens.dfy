/**
 * Stage 1: pulling the `HH:MM` punches out of the pasted log and parsing each
 * one as `strptime(token, "%H:%M")` does.
 *
 * Characters are classified as ASCII: a digit is '0'..'9' and a word
 * character is a letter, a digit or '_'.
 */
module Tokens {
  import opened Wrappers
  import opened Clock

  /** The two ValueErrors the calculator raises. */
  datatype Error =
    | NoTimesFound             // no `HH:MM` token anywhere in the text
    | InvalidTime(token: string) // a token strptime rejects

  predicate IsDigit(c: char) {
    '0' <= c <= '9'
  }

  predicate IsWordChar(c: char) {
    IsDigit(c) || 'a' <= c <= 'z' || 'A' <= c <= 'Z' || c == '_'
  }

  function DigitValue(c: char): (v: int)
    requires IsDigit(c)
    ensures 0 <= v < 10
  {
    c as int - '0' as int
  }

  /** The shape `\d{1,2}:\d{2}` of a token the scanner extracts. */
  predicate IsTimeToken(t: string) {
    (|t| == 4 && IsDigit(t[0]) && t[1] == ':' && IsDigit(t[2]) && IsDigit(t[3])) ||
    (|t| == 5 && IsDigit(t[0]) && IsDigit(t[1]) && t[2] == ':' && IsDigit(t[3]) && IsDigit(t[4]))
  }

  // ---------------------------------------------------------------------------
  // re.findall(r"\b\d{1,2}:\d{2}\b", text)
  // ---------------------------------------------------------------------------

  /** `\b` just before position p, given that s[p] is a digit. */
  predicate BoundaryBefore(s: string, p: nat)
    requires p <= |s|
  {
    p == 0 || !IsWordChar(s[p - 1])
  }

  /** `\b` at position q, given that s[q - 1] is a digit. */
  predicate BoundaryAfter(s: string, q: nat)
    requires q <= |s|
  {
    q == |s| || !IsWordChar(s[q])
  }

  /**
   * Length of the match of `\d{1,2}:\d{2}\b` starting at p, or 0 if there is
   * none.  The greedy two-digit hour is tried first; the one-digit hour is the
   * backtracking alternative.
   */
  function MatchLength(s: string, p: nat): (n: nat)
    requires p <= |s|
    ensures n == 0 || (p + n <= |s| && IsTimeToken(s[p..p + n]))
  {
    if p + 5 <= |s| && IsDigit(s[p]) && IsDigit(s[p + 1]) && s[p + 2] == ':'
       && IsDigit(s[p + 3]) && IsDigit(s[p + 4]) && BoundaryAfter(s, p + 5)
    then 5
    else if p + 4 <= |s| && IsDigit(s[p]) && s[p + 1] == ':'
       && IsDigit(s[p + 2]) && IsDigit(s[p + 3]) && BoundaryAfter(s, p + 4)
    then 4
    else 0
  }

  /** All non-overlapping matches in s[p..], left to right. */
  function FindTimesFrom(s: string, p: nat): (ts: seq<string>)
    requires p <= |s|
    ensures forall i :: 0 <= i < |ts| ==> IsTimeToken(ts[i])
    decreases |s| - p
  {
    if p == |s| then []
    else
      var n := if BoundaryBefore(s, p) then MatchLength(s, p) else 0;
      if n > 0 then [s[p..p + n]] + FindTimesFrom(s, p + n)
      else FindTimesFrom(s, p + 1)
  }

  function FindTimes(text: string): (ts: seq<string>)
    ensures forall i :: 0 <= i < |ts| ==> IsTimeToken(ts[i])
  {
    FindTimesFrom(text, 0)
  }

  /** A text without a single digit yields no token. */
  lemma {:induction false} NoDigitNoTimesFrom(s: string, p: nat)
    requires p <= |s|
    requires forall i :: p <= i < |s| ==> !IsDigit(s[i])
    ensures FindTimesFrom(s, p) == []
    decreases |s| - p
  {
    if p < |s| {
      NoDigitNoTimesFrom(s, p + 1);
    }
  }

  lemma NoDigitNoTimes(text: string)
    requires forall i :: 0 <= i < |text| ==> !IsDigit(text[i])
    ensures FindTimes(text) == []
  {
    NoDigitNoTimesFrom(text, 0);
  }

  /** A text that is one token is found as exactly that token. */
  lemma SingleTokenFound(t: string)
    requires IsTimeToken(t)
    ensures FindTimes(t) == [t]
  {
    assert BoundaryBefore(t, 0) && MatchLength(t, 0) == |t|;
    assert t[0..|t|] == t;
    assert FindTimesFrom(t, |t|) == [];
  }

  // ---------------------------------------------------------------------------
  // datetime.strptime(token, "%H:%M")
  // ---------------------------------------------------------------------------

  /** A `%H` or `%M` field: one or two digits. */
  predicate IsField(s: string) {
    1 <= |s| <= 2 && forall i :: 0 <= i < |s| ==> IsDigit(s[i])
  }

  function FieldValue(s: string): (v: int)
    requires IsField(s)
    ensures 0 <= v < 100
  {
    if |s| == 1 then DigitValue(s[0]) else 10 * DigitValue(s[0]) + DigitValue(s[1])
  }

  /**
   * The whole of `t` must read hour ':' minute, each field one or two digits,
   * the hour at most 23 and the minute at most 59.
   */
  function ParseToken(t: string): (r: Result<TimeOfDay, Error>)
    ensures r.Failure? ==> r.error == InvalidTime(t)
    ensures r.Success? ==>
      (exists c :: 1 <= c <= 2 && c < |t| && t[c] == ':' &&
         IsField(t[..c]) && IsField(t[c + 1..]) &&
         r.value.hour == FieldValue(t[..c]) && r.value.minute == FieldValue(t[c + 1..]))
  {
    if 3 <= |t| && t[1] == ':' then ParseFields(t, 1)
    else if 4 <= |t| && t[2] == ':' then ParseFields(t, 2)
    else Failure(InvalidTime(t))
  }

  function ParseFields(t: string, c: nat): (r: Result<TimeOfDay, Error>)
    requires c < |t|
  {
    var h, m := t[..c], t[c + 1..];
    if IsField(h) && IsField(m) && FieldValue(h) < 24 && FieldValue(m) < 60
    then Success(TimeOfDay(FieldValue(h), FieldValue(m)))
    else Failure(InvalidTime(t))
  }

  /** Hour and minute fields of a scanned token. */
  function HourText(t: string): (r: string)
    requires IsTimeToken(t)
  {
    if t[1] == ':' then t[..1] else t[..2]
  }

  function MinuteText(t: string): (r: string)
    requires IsTimeToken(t)
  {
    t[|t| - 2..]
  }

  /**
   * A scanned token parses exactly when its hour is at most 23 and its minute
   * at most 59, and then to those numbers: the regex lets `25:99` through and
   * strptime rejects it.
   */
  lemma ParseScannedToken(t: string)
    requires IsTimeToken(t)
    ensures IsField(HourText(t)) && IsField(MinuteText(t))
    ensures ParseToken(t).Success? <==>
      FieldValue(HourText(t)) <= 23 && FieldValue(MinuteText(t)) <= 59
    ensures ParseToken(t).Success? ==>
      ParseToken(t).value.hour == FieldValue(HourText(t)) &&
      ParseToken(t).value.minute == FieldValue(MinuteText(t))
  {
  }

  function DigitChar(d: int): (c: char)
    requires 0 <= d < 10
    ensures IsDigit(c) && DigitValue(c) == d
  {
    ('0' as int + d) as char
  }

  /** The zero-padded `HH:MM` rendering of a time of day (strftime "%H:%M"). */
  function Format(tod: TimeOfDay): (t: string)
    ensures IsTimeToken(t) && |t| == 5
  {
    [DigitChar(tod.hour / 10), DigitChar(tod.hour % 10), ':',
     DigitChar(tod.minute / 10), DigitChar(tod.minute % 10)]
  }

  /** Parsing undoes formatting. */
  lemma ParseFormat(tod: TimeOfDay)
    ensures ParseToken(Format(tod)) == Success(tod)
  {
  }

  /** Formatting undoes parsing of a token written with a two-digit hour. */
  lemma FormatParse(t: string)
    requires IsTimeToken(t) && |t| == 5
    requires ParseToken(t).Success?
    ensures Format(ParseToken(t).value) == t
  {
  }

  /**
   * The list comprehension over the tokens: the first token strptime rejects
   * raises, otherwise every token is parsed, in order.
   */
  function ParseAll(ts: seq<string>): (r: Result<seq<TimeOfDay>, Error>)
    ensures r.Success? <==> forall i :: 0 <= i < |ts| ==> ParseToken(ts[i]).Success?
    ensures r.Success? ==>
      (|r.value| == |ts| && forall i :: 0 <= i < |ts| ==> r.value[i] == ParseToken(ts[i]).value)
    ensures r.Failure? ==>
      (exists i :: 0 <= i < |ts| && ParseToken(ts[i]) == Failure(r.error) &&
         forall j :: 0 <= j < i ==> ParseToken(ts[j]).Success?)
  {
    if ts == [] then Success([])
    else
      match ParseToken(ts[0])
      case Failure(e) => Failure(e)
      case Success(tod) =>
        match ParseAll(ts[1..])
        case Failure(e) => Failure(e)
        case Success(rest) => Success([tod] + rest)
  }
}
