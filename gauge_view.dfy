/**
 * `GaugeView.timeString(from:)`: the elapsed and remaining times shown in
 * the gauge, as hours, minutes and seconds joined by ':'. The seconds are
 * whole (`Int(timeInterval)`), and Swift's `/` and `%` truncate toward zero,
 * so a negative interval (a goal overrun, for the remaining time) yields
 * non-positive fields.
 */
module Gauge {
  import opened Wrappers
  import opened TimeUnits
  import opened Decimal

  datatype Clock = Clock(hours: int, minutes: int, seconds: int)

  /** Whole hours, the minutes left within the hour and the seconds left within the minute, each truncated toward zero. */
  function ClockFields(t: int): (c: Clock)
    ensures c.hours * 3600 + c.minutes * 60 + c.seconds == t
    ensures t >= 0 ==> c.hours >= 0 && 0 <= c.minutes <= 59 && 0 <= c.seconds <= 59
    ensures t <= 0 ==> c.hours <= 0 && -59 <= c.minutes <= 0 && -59 <= c.seconds <= 0
  {
    MinutesThenHours(t);
    Clock(Quot(t, SecondsPerHour), Rem(Quot(t, SecondsPerMinute), 60), Rem(t, SecondsPerMinute))
  }

  /** The three fields, each zero-padded to two characters, joined by ':'. */
  function TimeString(t: int): string
  {
    var c := ClockFields(t);
    Pad2(c.hours) + ":" + Pad2(c.minutes) + ":" + Pad2(c.seconds)
  }

  /** Reads "h:m:s" back into seconds; `None` unless there are three numerals separated by ':'. */
  function ParseClock(s: string): Option<int>
  {
    match FirstIndexOf(s, ':')
    case None => None
    case Some(i) => ParseMinutesSeconds(ParseInt(s[..i]), s[i + 1..])
  }

  function ParseMinutesSeconds(hours: Option<int>, rest: string): Option<int>
  {
    match FirstIndexOf(rest, ':')
    case None => None
    case Some(j) => Seconds(hours, ParseInt(rest[..j]), ParseInt(rest[j + 1..]))
  }

  function Seconds(hours: Option<int>, minutes: Option<int>, seconds: Option<int>): Option<int>
  {
    if hours.Some? && minutes.Some? && seconds.Some? then
      Some(hours.value * 3600 + minutes.value * 60 + seconds.value)
    else None
  }

  /** Two numerals joined by ':' read back as minutes and seconds after the hours. */
  lemma ParseMinutesSecondsJoin(h: int, ms: string, ss: string, m: int, sec: int)
    requires NumeralChars(ms) && ParseInt(ms) == Some(m) && ParseInt(ss) == Some(sec)
    ensures ParseMinutesSeconds(Some(h), ms + ":" + ss) == Some(h * 3600 + m * 60 + sec)
  {
    var rest := ms + ":" + ss;
    NumeralLacks(ms, ':');
    FirstIndexAfter(ms, ':', ss);
    assert FirstIndexOf(rest, ':') == Some(|ms|);
    assert rest[..|ms|] == ms;
    assert rest[|ms| + 1..] == ss;
  }

  /** Three numerals joined by ':' read back field by field. */
  lemma ParseClockJoin(hs: string, ms: string, ss: string, h: int, m: int, sec: int)
    requires NumeralChars(hs) && NumeralChars(ms)
    requires ParseInt(hs) == Some(h) && ParseInt(ms) == Some(m) && ParseInt(ss) == Some(sec)
    ensures ParseClock(hs + ":" + ms + ":" + ss) == Some(h * 3600 + m * 60 + sec)
  {
    var rest := ms + ":" + ss;
    ParseMinutesSecondsJoin(h, ms, ss, m, sec);
    var s := hs + ":" + ms + ":" + ss;
    assert s == hs + [':'] + rest;
    NumeralLacks(hs, ':');
    FirstIndexAfter(hs, ':', rest);
    assert FirstIndexOf(s, ':') == Some(|hs|);
    assert s[..|hs|] == hs;
    assert s[|hs| + 1..] == rest;
  }

  /** The rendered time reads back as the interval it shows, for every sign of the interval: nothing is lost but the fraction of a second. */
  lemma TimeStringRoundTrip(t: int)
    ensures ParseClock(TimeString(t)) == Some(t)
  {
    var c := ClockFields(t);
    var hs, ms, ss := Pad2(c.hours), Pad2(c.minutes), Pad2(c.seconds);
    assert TimeString(t) == hs + ":" + ms + ":" + ss;
    Pad2RoundTrip(c.hours);
    Pad2RoundTrip(c.minutes);
    Pad2RoundTrip(c.seconds);
    ParseClockJoin(hs, ms, ss, c.hours, c.minutes, c.seconds);
  }

  /** Below 100 hours the text has the fixed shape "hh:mm:ss". */
  lemma TimeStringWidth(t: int)
    requires 0 <= t < 100 * 3600
    ensures |TimeString(t)| == 8
    ensures TimeString(t)[2] == ':' && TimeString(t)[5] == ':'
  {
    var c := ClockFields(t);
    assert c.hours < 100;
  }
}
