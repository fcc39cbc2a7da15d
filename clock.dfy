/** The two parses the calendar export makes (app.py:490-494): the nominal
    minutes int(duration.split('-')[0]) and the time of day
    strptime(training_time, '%H:%M'), and the end time printed with
    strftime('%H:%M'), which wraps at midnight. */
module Clock {
  import opened Basics
  import opened Text

  /** The ValueError int() or strptime() raises. */
  datatype ClockError = BadDuration | BadTime

  const MinutesPerDay := 1440

  /** int(text.split('-')[0]) for plain ASCII digits. */
  function ParseDuration(text: string): Result<nat, ClockError>
  {
    var head := UpTo(text, '-');
    if head != [] && AllDigits(head) then Success(DigitsValue(head)) else Failure(BadDuration)
  }

  /** A range "lo-..." gives its lower bound. */
  lemma ParseDurationOfRange(lo: nat, rest: string)
    ensures ParseDuration(NatToString(lo) + "-" + rest) == Success(lo)
  {
    assert NatToString(lo) + "-" + rest == NatToString(lo) + ['-'] + rest;
    UpToDigits(NatToString(lo), '-', rest);
    DigitsRoundTrip(lo);
  }

  lemma SixtyToSeventyFive()
    ensures ParseDuration("60-75 minutes") == Success(60)
  {
    assert NatToString(60) == "60";
    assert "60-75 minutes" == NatToString(60) + "-" + "75 minutes";
    ParseDurationOfRange(60, "75 minutes");
  }

  /** One field of %H or %M: one or two digits, below limit. */
  function ClockField(s: string, limit: nat): Option<nat>
  {
    if 1 <= |s| <= 2 && AllDigits(s) && DigitsValue(s) < limit then Some(DigitsValue(s)) else None
  }

  /** strptime(text, '%H:%M') as minutes after midnight: an hour of one or
      two digits below 24, a colon, a minute of one or two digits below 60,
      and nothing after it. */
  function ParseClock(text: string): (r: Result<nat, ClockError>)
    ensures r.Success? ==> r.value < MinutesPerDay
  {
    var h := UpTo(text, ':');
    if |h| == |text| then Failure(BadTime)
    else
      match (ClockField(h, 24), ClockField(text[|h| + 1..], 60))
      case (Some(hh), Some(mm)) => Success(60 * hh + mm)
      case _ => Failure(BadTime)
  }

  function TwoDigits(n: nat): (s: string)
    requires n < 100
    ensures |s| == 2 && AllDigits(s) && DigitsValue(s) == n
  {
    var s := [DigitChar(n / 10), DigitChar(n % 10)];
    assert s[..1] == [DigitChar(n / 10)] && s[..1][..0] == [];
    assert DigitsValue(s[..1]) == n / 10;
    s
  }

  /** strftime('%H:%M') of a time of day in minutes. */
  function ClockText(m: nat): string
    requires m < MinutesPerDay
  {
    TwoDigits(m / 60) + ":" + TwoDigits(m % 60)
  }

  /** Printing a time and parsing it back gives the same time. */
  lemma ClockRoundTrip(m: nat)
    requires m < MinutesPerDay
    ensures ParseClock(ClockText(m)) == Success(m)
  {
    var hh, mm := TwoDigits(m / 60), TwoDigits(m % 60);
    var s := ClockText(m);
    assert s == hh + [':'] + mm;
    UpToDigits(hh, ':', mm);
    assert s[3..] == mm;
  }

  /** The printed end time: start plus minutes, modulo a day. */
  function EndTime(start: nat, minutes: nat): (s: string)
    ensures ParseClock(s) == Success((start + minutes) % MinutesPerDay)
  {
    ClockRoundTrip((start + minutes) % MinutesPerDay);
    ClockText((start + minutes) % MinutesPerDay)
  }

  lemma EndTimeExamples()
    ensures EndTime(9 * 60, 60) == "10:00"
    ensures EndTime(23 * 60 + 30, 75) == "00:45"
  {
    assert (9 * 60 + 60) % MinutesPerDay == 600;
    assert TwoDigits(10) == "10" && TwoDigits(0) == "00";
    assert ClockText(600) == "10" + ":" + "00";
    assert (23 * 60 + 30 + 75) % MinutesPerDay == 45;
    assert TwoDigits(45) == "45";
    assert ClockText(45) == "00" + ":" + "45";
  }
}
