/** Times of day and the end-time arithmetic of `Timetable.add_lecture`.
    A time of day is a number of minutes since midnight; text is `HH:MM`. */
module Clock {
  import opened Wrappers

  const MinutesPerDay := 1440

  /** `datetime.strptime` with only `%H:%M` dates the time 1900-01-01, which is
      693595 days after 0001-01-01, the first day a `datetime` can hold. */
  const DefaultDateOffset := 693595 * MinutesPerDay

  /** A `datetime` holds the 3652059 days from 0001-01-01 to 9999-12-31. */
  const DatetimeSpan := 3652059 * MinutesPerDay

  /** `ParseError` is strptime's `ValueError`; `Overflow` is the
      `OverflowError` of a sum that leaves the range of `datetime`. */
  datatype TimeError = ParseError | Overflow

  predicate IsDigit(c: char)
  {
    '0' <= c <= '9'
  }

  function DigitValue(c: char): (n: nat)
    requires IsDigit(c)
    ensures n < 10
  {
    (c as int) - ('0' as int)
  }

  function DigitChar(n: nat): (c: char)
    requires n < 10
    ensures IsDigit(c) && DigitValue(c) == n
  {
    (('0' as int) + n) as char
  }

  /** strptime's `%H`: one of `2[0-3]`, `[0-1]\d`, `\d`. */
  function ParseHour(s: string): (r: Option<nat>)
    ensures r.Some? ==> r.value < 24
  {
    if |s| == 1 && IsDigit(s[0]) then Some(DigitValue(s[0]))
    else if |s| == 2 && '0' <= s[0] <= '1' && IsDigit(s[1]) then Some(10 * DigitValue(s[0]) + DigitValue(s[1]))
    else if |s| == 2 && s[0] == '2' && '0' <= s[1] <= '3' then Some(20 + DigitValue(s[1]))
    else None
  }

  /** strptime's `%M`: one of `[0-5]\d`, `\d`. */
  function ParseMinute(s: string): (r: Option<nat>)
    ensures r.Some? ==> r.value < 60
  {
    if |s| == 1 && IsDigit(s[0]) then Some(DigitValue(s[0]))
    else if |s| == 2 && '0' <= s[0] <= '5' && IsDigit(s[1]) then Some(10 * DigitValue(s[0]) + DigitValue(s[1]))
    else None
  }

  /** `datetime.strptime(s, "%H:%M")`, as minutes since midnight: the hour is
      everything before the first colon, the minute everything after it, and
      the whole text must be consumed. */
  function ParseTime(s: string): (r: Option<nat>)
    ensures r.Some? ==> r.value < MinutesPerDay && 3 <= |s| <= 5
  {
    var split := if |s| >= 2 && s[1] == ':' then 1 else 2;
    if |s| <= split || s[split] != ':' then None
    else
      match (ParseHour(s[..split]), ParseMinute(s[split + 1..]))
      case (Some(h), Some(m)) => Some(h * 60 + m)
      case _ => None
  }

  /** Two zero-padded decimal digits. */
  function Pad2(n: nat): (s: string)
    requires n < 100
    ensures |s| == 2 && IsDigit(s[0]) && IsDigit(s[1])
    ensures 10 * DigitValue(s[0]) + DigitValue(s[1]) == n
  {
    [DigitChar(n / 10), DigitChar(n % 10)]
  }

  /** `strftime("%H:%M")` of a time of day. */
  function FormatTime(t: nat): (s: string)
    requires t < MinutesPerDay
    ensures |s| == 5 && s[2] == ':'
  {
    Pad2(t / 60) + ":" + Pad2(t % 60)
  }

  /** Parsing undoes formatting. */
  lemma ParseFormatTime(t: nat)
    requires t < MinutesPerDay
    ensures ParseTime(FormatTime(t)) == Some(t)
  {
    var s := FormatTime(t);
    var h, m := t / 60, t % 60;
    assert s[..2] == Pad2(h) && s[3..] == Pad2(m);
    assert s[1] != ':';
    if h >= 20 {
      assert s[0] == '2' && '0' <= s[1] <= '3';
    }
    assert ParseHour(s[..2]) == Some(h);
    assert ParseMinute(s[3..]) == Some(m);
  }

  /** Formatting undoes parsing of five-character text, the only text the
      formatter produces: on `HH:MM` the parser is one-to-one. */
  lemma FormatParseTime(s: string)
    requires |s| == 5 && ParseTime(s).Some?
    ensures FormatTime(ParseTime(s).value) == s
  {
    var t := ParseTime(s).value;
    assert s[2] == ':' && s[1] != ':';
    var h, m := ParseHour(s[..2]).value, ParseMinute(s[3..]).value;
    assert t == h * 60 + m;
    assert t / 60 == h && t % 60 == m;
    assert Pad2(h) == s[..2];
    assert Pad2(m) == s[3..];
    assert FormatTime(t) == s[..2] + ":" + s[3..];
  }

  /** The sum `start + duration` stays inside the range of a `datetime`. */
  predicate InRange(t: nat, duration: int)
  {
    0 <= DefaultDateOffset + t + duration < DatetimeSpan
  }

  /** `(datetime(1900, 1, 1) + t + timedelta(minutes=duration)).strftime("%H:%M")`
      for a start time `t` already parsed. */
  function Advance(t: nat, duration: int): Result<string, TimeError>
    requires t < MinutesPerDay
  {
    if InRange(t, duration) then Success(FormatTime((DefaultDateOffset + t + duration) % MinutesPerDay))
    else Failure(Overflow)
  }

  /** The end time that `add_lecture` stores: the start time parsed with
      strptime, plus `duration` minutes, rendered with `strftime("%H:%M")`. */
  function EndTime(start: string, duration: int): (r: Result<string, TimeError>)
    ensures r.Success? ==> |r.value| == 5
  {
    match ParseTime(start)
    case None => Failure(ParseError)
    case Some(t) => Advance(t, duration)
  }

  lemma ShiftByDays(k: int, x: int)
    ensures (k * MinutesPerDay + x) % MinutesPerDay == x % MinutesPerDay
  {
  }

  lemma ModThenAdd(x: int, y: int)
    ensures (x % MinutesPerDay + y) % MinutesPerDay == (x + y) % MinutesPerDay
  {
    ShiftByDays(x / MinutesPerDay, x % MinutesPerDay + y);
  }

  /** The date that strptime supplies is a whole number of days, so it drops
      out of the time of day. */
  lemma AdvanceWraps(t: nat, duration: int)
    requires t < MinutesPerDay && InRange(t, duration)
    ensures Advance(t, duration) == Success(FormatTime((t + duration) % MinutesPerDay))
  {
    ShiftByDays(693595, t + duration);
  }

  /** When the start parses and the sum stays in range, the end time is the
      start plus the duration modulo one day, and it parses back to that
      minute. */
  lemma EndTimeWraps(start: string, duration: int)
    requires ParseTime(start).Some? && InRange(ParseTime(start).value, duration)
    ensures EndTime(start, duration) ==
              Success(FormatTime((ParseTime(start).value + duration) % MinutesPerDay))
    ensures ParseTime(EndTime(start, duration).value) ==
              Some((ParseTime(start).value + duration) % MinutesPerDay)
  {
    var t := ParseTime(start).value;
    AdvanceWraps(t, duration);
    ParseFormatTime((t + duration) % MinutesPerDay);
  }

  /** The end time is an error exactly when the start does not parse, which
      is a `ParseError`, or the sum leaves the range of `datetime`, which is
      an `Overflow`. */
  lemma EndTimeFails(start: string, duration: int)
    ensures EndTime(start, duration).Failure? <==>
              ParseTime(start).None? || !InRange(ParseTime(start).value, duration)
    ensures EndTime(start, duration) == Failure(ParseError) <==> ParseTime(start).None?
  {
  }

  /** A formatted time of day, taken as a start time, advances like the
      number it came from. */
  lemma EndTimeOfFormatted(u: nat, duration: int)
    requires u < MinutesPerDay
    ensures EndTime(FormatTime(u), duration) == Advance(u, duration)
  {
    ParseFormatTime(u);
  }

  lemma AdvanceTwice(t: nat, d1: int, d2: int)
    requires t < MinutesPerDay && InRange(t, d1)
    requires InRange((t + d1) % MinutesPerDay, d2)
    ensures EndTime(Advance(t, d1).value, d2) ==
              Success(FormatTime(((t + d1) % MinutesPerDay + d2) % MinutesPerDay))
  {
    var u := (t + d1) % MinutesPerDay;
    AdvanceWraps(t, d1);
    EndTimeOfFormatted(u, d2);
    AdvanceWraps(u, d2);
  }

  lemma AdvanceCompose(t: nat, d1: int, d2: int)
    requires t < MinutesPerDay && InRange(t, d1) && InRange(t, d1 + d2)
    requires InRange((t + d1) % MinutesPerDay, d2)
    ensures EndTime(Advance(t, d1).value, d2) == Advance(t, d1 + d2)
  {
    AdvanceTwice(t, d1, d2);
    AdvanceWraps(t, d1 + d2);
    ModThenAdd(t + d1, d2);
    assert t + d1 + d2 == t + (d1 + d2);
  }

  /** Adding two durations one after the other ends where adding their sum
      ends, as long as no sum overflows. */
  lemma EndTimeCompose(start: string, d1: int, d2: int)
    requires ParseTime(start).Some?
    requires InRange(ParseTime(start).value, d1) && InRange(ParseTime(start).value, d1 + d2)
    requires InRange((ParseTime(start).value + d1) % MinutesPerDay, d2)
    ensures EndTime(EndTime(start, d1).value, d2) == EndTime(start, d1 + d2)
  {
    AdvanceCompose(ParseTime(start).value, d1, d2);
  }

  /** The five characters of a formatted time. */
  lemma FormatTimeChars(t: nat)
    requires t < MinutesPerDay
    ensures FormatTime(t) == [DigitChar(t / 600), DigitChar(t / 60 % 10), ':', DigitChar(t % 60 / 10), DigitChar(t % 10)]
  {
    assert t / 60 / 10 == t / 600;
    assert t % 60 % 10 == t % 10;
  }

  /** Worked example: a lecture that runs past midnight. */
  lemma EndTimeMidnight()
    ensures EndTime("23:50", 20) == Success("00:10")
  {
    FormatTimeChars(1430);
    ParseFormatTime(1430);
    assert FormatTime(1430) == "23:50";
    AdvanceWraps(1430, 20);
    assert (1430 + 20) % MinutesPerDay == 10;
    FormatTimeChars(10);
  }

  /** Worked example: a fifty-minute lecture, with and without the leading zero. */
  lemma EndTimeMorning()
    ensures EndTime("09:00", 50) == Success("09:50")
    ensures EndTime("9:00", 50) == Success("09:50")
  {
    FormatTimeChars(540);
    ParseFormatTime(540);
    assert FormatTime(540) == "09:00";
    assert ParseTime("9:00") == Some(540) by {
      assert "9:00"[..1] == "9" && "9:00"[2..] == "00";
    }
    AdvanceWraps(540, 50);
    assert (540 + 50) % MinutesPerDay == 590;
    FormatTimeChars(590);
  }

  /** Worked example: `24:00` is not a time strptime accepts. */
  lemma EndTimeRejects()
    ensures EndTime("24:00", 0) == Failure(ParseError)
  {
    assert "24:00"[..2] == "24";
  }
}
