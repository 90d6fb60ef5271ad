/**
  `format_timestamp` of utils.py, over an integer number of milliseconds, and the conversion of a
  time in seconds to milliseconds (Python's `round`, ties to even, applied to the exact value).
  A parser for the rendered form gives the formatter its partner.
*/
module Timestamps {
  import opened Text
  import opened Wrappers

  datatype Clock = Clock(hours: nat, minutes: nat, seconds: nat, milliseconds: nat)

  /** The number of milliseconds a field split stands for. */
  function Milliseconds(hours: nat, minutes: nat, seconds: nat, milliseconds: nat): nat
  {
    hours * 3_600_000 + minutes * 60_000 + seconds * 1_000 + milliseconds
  }

  /** The successive subtractions of utils.py: every field below its unit, and together exactly `ms`. */
  function ClockOf(ms: int): (c: Clock)
    requires ms >= 0
    ensures Milliseconds(c.hours, c.minutes, c.seconds, c.milliseconds) == ms
    ensures c.minutes < 60 && c.seconds < 60 && c.milliseconds < 1000
  {
    var hours := ms / 3_600_000;
    var afterHours := ms - hours * 3_600_000;
    var minutes := afterHours / 60_000;
    var afterMinutes := afterHours - minutes * 60_000;
    var seconds := afterMinutes / 1_000;
    Clock(hours, minutes, seconds, afterMinutes - seconds * 1_000)
  }

  /** `HH:` when forced or when there is at least one hour, then `MM:SS`, the separator and `mmm`; the source asserts a non-negative input. */
  function FormatTimestamp(ms: int, alwaysIncludeHours: bool, fractionalSeparator: string): string
    requires ms >= 0
  {
    Render(ClockOf(ms), alwaysIncludeHours, fractionalSeparator)
  }

  /** The text of a split time: `HH:` when forced or non-zero, then the zero-padded fields. */
  function Render(c: Clock, alwaysIncludeHours: bool, fractionalSeparator: string): string
  {
    HoursMarker(c, alwaysIncludeHours) + ClockFields(c, fractionalSeparator)
  }

  function HoursMarker(c: Clock, alwaysIncludeHours: bool): string
  {
    if alwaysIncludeHours || c.hours > 0 then ZeroPad(c.hours, 2) + ":" else ""
  }

  /** `MM:SS`, the separator and `mmm`. */
  function ClockFields(c: Clock, fractionalSeparator: string): string
  {
    ZeroPad(c.minutes, 2) + ":" + ZeroPad(c.seconds, 2) + fractionalSeparator + ZeroPad(c.milliseconds, 3)
  }

  /** Python's `round(x)` taken on the exact value: the nearest integer, ties to the even one. */
  function RoundHalfEven(x: real): (r: int)
    ensures x - 0.5 <= r as real <= x + 0.5
    ensures x - (x.Floor as real) == 0.5 ==> r % 2 == 0
    ensures x >= 0.0 ==> r >= 0
  {
    var f := x.Floor;
    var frac := x - f as real;
    if frac < 0.5 then f
    else if frac > 0.5 then f + 1
    else if f % 2 == 0 then f else f + 1
  }

  /** utils.py's timestamp for a time in seconds: `round(seconds * 1000)` milliseconds, formatted. */
  function Stamp(seconds: real, alwaysIncludeHours: bool, fractionalSeparator: string): string
    requires seconds >= 0.0
  {
    FormatTimestamp(RoundHalfEven(seconds * 1000.0), alwaysIncludeHours, fractionalSeparator)
  }
}

/** The reverse of `FormatTimestamp`: a timestamp's text determines its milliseconds. */
module TimestampParsing {
  import opened Text
  import opened Wrappers
  import opened Timestamps

  /** Reads `[H+:]MM:SS<sep>mmm` back, given the separator's length. */
  function ParseTimestamp(s: string, separatorLength: nat): Option<nat>
  {
    if |s| < 8 + separatorLength then None
    else
      var base := |s| - (8 + separatorLength);
      match (ParseHours(s[..base]), ParseMinuteFields(s[base..]))
      case (Some(h), Some((m, sec, ms))) => Some(Milliseconds(h, m, sec, ms))
      case _ => None
  }

  /** The optional `H+:` field: empty means zero hours. */
  function ParseHours(head: string): Option<nat>
  {
    if head == [] then Some(0)
    else if head[|head| - 1] == ':' && AllDigits(head[..|head| - 1]) then Some(DigitsValue(head[..|head| - 1]))
    else None
  }

  /** The minutes, seconds and milliseconds of `MM:SS<sep>mmm`, whatever the separator is. */
  function ParseMinuteFields(t: string): Option<(nat, nat, nat)>
  {
    if |t| < 8 then None
    else
      var mm, ss, millis := t[..2], t[3..5], t[|t| - 3..];
      if AllDigits(mm) && AllDigits(ss) && AllDigits(millis) && t[2] == ':' then
        Some((DigitsValue(mm), DigitsValue(ss), DigitsValue(millis)))
      else None
  }

  lemma PadWidths(c: Clock)
    requires c.minutes < 60 && c.seconds < 60 && c.milliseconds < 1000
    ensures |ZeroPad(c.minutes, 2)| == 2 && |ZeroPad(c.seconds, 2)| == 2 && |ZeroPad(c.milliseconds, 3)| == 3
    ensures |ZeroPad(c.hours, 2)| >= 2
    ensures DigitsValue(ZeroPad(c.minutes, 2)) == c.minutes && DigitsValue(ZeroPad(c.seconds, 2)) == c.seconds
    ensures DigitsValue(ZeroPad(c.milliseconds, 3)) == c.milliseconds && DigitsValue(ZeroPad(c.hours, 2)) == c.hours
  {
    NatToStringLength(c.minutes);
    NatToStringLength(c.seconds);
    NatToStringLength(c.milliseconds);
    ZeroPadProperties(c.minutes, 2);
    ZeroPadProperties(c.seconds, 2);
    ZeroPadProperties(c.milliseconds, 3);
    ZeroPadProperties(c.hours, 2);
  }

  /** Where the parser finds each field of an assembled `MM:SS<sep>mmm`. */
  lemma {:induction false} ParseAssembled(mm: string, ss: string, separator: string, millis: string)
    requires |mm| == 2 && |ss| == 2 && |millis| == 3
    requires AllDigits(mm) && AllDigits(ss) && AllDigits(millis)
    ensures ParseMinuteFields(mm + ":" + ss + separator + millis) == Some((DigitsValue(mm), DigitsValue(ss), DigitsValue(millis)))
  {
    var t := mm + ":" + ss + separator + millis;
    assert t[..2] == mm;
    assert t[2] == ':';
    assert t[3..5] == ss;
    assert t[|t| - 3..] == millis;
  }

  lemma ParseWithHead(head: string, t: string, separatorLength: nat)
    requires |t| == 8 + separatorLength
    ensures ParseTimestamp(head + t, separatorLength)
            == match (ParseHours(head), ParseMinuteFields(t))
               case (Some(h), Some((m, sec, ms))) => Some(Milliseconds(h, m, sec, ms))
               case _ => None
  {
    var s := head + t;
    assert s[..|head|] == head && s[|head|..] == t;
  }

  /** Parsing a rendered clock gives back the milliseconds it stands for. */
  lemma ParseRender(c: Clock, alwaysIncludeHours: bool, fractionalSeparator: string)
    requires c.minutes < 60 && c.seconds < 60 && c.milliseconds < 1000
    ensures ParseTimestamp(Render(c, alwaysIncludeHours, fractionalSeparator), |fractionalSeparator|)
            == Some(Milliseconds(c.hours, c.minutes, c.seconds, c.milliseconds))
  {
    ParseHoursMarker(c, alwaysIncludeHours);
    ParseClockFields(c, fractionalSeparator);
    ParseWithHead(HoursMarker(c, alwaysIncludeHours), ClockFields(c, fractionalSeparator), |fractionalSeparator|);
  }

  /** The `HH:` field, or its absence, reads back as the clock's hours. */
  lemma ParseHoursMarker(c: Clock, alwaysIncludeHours: bool)
    ensures ParseHours(HoursMarker(c, alwaysIncludeHours)) == Some(c.hours)
  {
    var hoursMarker := HoursMarker(c, alwaysIncludeHours);
    if hoursMarker != [] {
      ZeroPadProperties(c.hours, 2);
      assert hoursMarker[..|hoursMarker| - 1] == ZeroPad(c.hours, 2);
    }
  }

  /** `MM:SS<sep>mmm` has its fixed width and reads back as the clock's minutes, seconds and milliseconds. */
  lemma ParseClockFields(c: Clock, fractionalSeparator: string)
    requires c.minutes < 60 && c.seconds < 60 && c.milliseconds < 1000
    ensures |ClockFields(c, fractionalSeparator)| == 8 + |fractionalSeparator|
    ensures ParseMinuteFields(ClockFields(c, fractionalSeparator)) == Some((c.minutes, c.seconds, c.milliseconds))
  {
    PadWidths(c);
    ParseAssembled(ZeroPad(c.minutes, 2), ZeroPad(c.seconds, 2), fractionalSeparator, ZeroPad(c.milliseconds, 3));
  }

  /** The round trip of utils.py's timestamp format: the text determines the milliseconds. */
  lemma ParseFormatTimestamp(ms: int, alwaysIncludeHours: bool, fractionalSeparator: string)
    requires ms >= 0
    ensures ParseTimestamp(FormatTimestamp(ms, alwaysIncludeHours, fractionalSeparator), |fractionalSeparator|) == Some(ms)
  {
    ParseRender(ClockOf(ms), alwaysIncludeHours, fractionalSeparator);
  }

  /** The `HH:` field is present exactly when hours are forced or non-zero. */
  lemma HoursFieldShown(ms: int, alwaysIncludeHours: bool, fractionalSeparator: string)
    requires ms >= 0
    ensures |FormatTimestamp(ms, alwaysIncludeHours, fractionalSeparator)| > 8 + |fractionalSeparator|
            <==> alwaysIncludeHours || ClockOf(ms).hours > 0
  {
    PadWidths(ClockOf(ms));
    assert |ClockFields(ClockOf(ms), fractionalSeparator)| == 8 + |fractionalSeparator|;
  }

}
