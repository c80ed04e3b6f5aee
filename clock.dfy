/** Wall-clock times of day as the tracker stores them: "HH:MM" strings, read back into minutes
    after midnight by `time.split(':').map(Number)` (script.js:1440-1446, 1471-1475). */
module Clock {
  import opened Wrappers
  import opened Text

  const MinutesPerDay := 24 * 60

  /** Minutes after midnight of a time string: hours from the piece before the first ':', minutes from the
      piece after it. A string without ':' has no minutes piece and reads as NaN (`None`), as does a
      piece `Number` cannot read. */
  function ClockMinutes(t: string): (m: Option<int>)
    ensures m.Some? ==> m.value >= 0
  {
    PiecesMinutes(Split(t, ':'))
  }

  /** The hours and minutes pieces of a split time string, read with `Number`. */
  function PiecesMinutes(parts: seq<string>): (m: Option<int>)
    ensures m.Some? ==> m.value >= 0
  {
    if |parts| < 2 then None
    else
      match (Number(parts[0]), Number(parts[1]))
      case (Some(h), Some(mm)) => Some(h * 60 + mm)
      case _ => None
  }

  /** The "HH:MM" form of a time of day, two digits each, 24-hour clock. */
  function FormatClock(h: nat, m: nat): (t: string)
    requires h < 24 && m < 60
    ensures |t| == 5 && t[2] == ':'
  {
    TwoDigits(h) + ":" + TwoDigits(m)
  }

  lemma {:induction false} NumberOfTwoDigits(n: nat)
    requires n < 100
    ensures Number(TwoDigits(n)) == Some(n)
  {
    var s := TwoDigits(n);
    assert !IsSpace(s[0]) && !IsSpace(s[1]) by {
      assert IsDigit(s[0]) && IsDigit(s[1]);
    }
    TrimOfTrimmed(s);
  }

  /** Reading a formatted time gives back its minutes after midnight, which lie within one day. */
  lemma {:induction false} ClockRoundTrip(h: nat, m: nat)
    requires h < 24 && m < 60
    ensures ClockMinutes(FormatClock(h, m)) == Some(h * 60 + m)
    ensures 0 <= h * 60 + m < MinutesPerDay
  {
    var a, b := TwoDigits(h), TwoDigits(m);
    var t := FormatClock(h, m);
    assert t == Join([a, b], ':') by {
      assert [a, b][1..] == [b];
    }
    assert ':' !in a by { assert AllDigits(a); }
    assert ':' !in b by { assert AllDigits(b); }
    SplitJoin([a, b], ':');
    assert Split(t, ':') == [a, b];
    NumberOfTwoDigits(h);
    NumberOfTwoDigits(m);
    PiecesOfClock(a, b, h, m);
    HourMinuteInDay(h, m);
  }

  lemma PiecesOfClock(a: string, b: string, h: nat, m: nat)
    requires Number(a) == Some(h) && Number(b) == Some(m)
    ensures PiecesMinutes([a, b]) == Some(h * 60 + m)
  {
  }

  lemma HourMinuteInDay(h: nat, m: nat)
    requires h < 24 && m < 60
    ensures 0 <= h * 60 + m < MinutesPerDay
  {
  }

  /** Distinct times of day have distinct "HH:MM" strings, so comparing the strings compares the times. */
  lemma {:induction false} FormatClockInjective(h1: nat, m1: nat, h2: nat, m2: nat)
    requires h1 < 24 && m1 < 60 && h2 < 24 && m2 < 60
    requires FormatClock(h1, m1) == FormatClock(h2, m2)
    ensures h1 == h2 && m1 == m2
  {
    ClockRoundTrip(h1, m1);
    ClockRoundTrip(h2, m2);
  }
}
