/** Wall-clock times of day as the shuttle tracker handles them: a count of minutes
    since midnight, written as "HH:MM". Parsing follows `s.split(':').map(Number)`
    followed by `hour * 60 + minute`; formatting follows
    `String(n).padStart(2, '0')` on the hour and the minute. */
module TimeOfDay {
  import opened Optional
  import opened Strings

  const MinutesPerDay: nat := 1440

  // ---------------------------------------------------------------- decimal digits

  predicate IsDigit(c: char) { '0' <= c <= '9' }

  predicate AllDigits(s: string) {
    forall i :: 0 <= i < |s| ==> IsDigit(s[i])
  }

  function DigitValue(c: char): (v: nat)
    requires IsDigit(c)
    ensures v < 10
  {
    c as int - '0' as int
  }

  function DigitChar(n: nat): (c: char)
    requires n < 10
    ensures IsDigit(c) && DigitValue(c) == n
  {
    ('0' as int + n) as char
  }

  /** The value of a string of decimal digits (leading zeros allowed). */
  function DigitsValue(s: string): nat
    requires AllDigits(s)
  {
    if s == [] then 0 else DigitsValue(s[..|s| - 1]) * 10 + DigitValue(s[|s| - 1])
  }

  /** `Number(s)` on the strings the schedules can hold: a string of decimal digits
      gives its value (the empty string gives 0, as in JavaScript); anything else
      gives `NaN`, modelled as `None`. */
  function NumberOf(s: string): (r: Option<nat>)
    ensures r.Some? <==> AllDigits(s)
  {
    if AllDigits(s) then Some(DigitsValue(s)) else None
  }

  /** `String(n)` for a non-negative integer: its decimal digits without leading zeros. */
  function Decimal(n: nat): (r: string)
    ensures |r| >= 1 && AllDigits(r)
    ensures n < 10 <==> |r| == 1
  {
    if n < 10 then [DigitChar(n)] else Decimal(n / 10) + [DigitChar(n % 10)]
  }

  /** `s.padStart(width, c)`. */
  function PadStart(s: string, width: nat, c: char): (r: string)
    ensures |r| == if |s| >= width then |s| else width
  {
    if |s| >= width then s else seq(width - |s|, _ => c) + s
  }

  /** `String(n).padStart(2, '0')`. */
  function TwoDigits(n: nat): string {
    PadStart(Decimal(n), 2, '0')
  }

  // ---------------------------------------------------------------- format and parse

  /** The "HH:MM" text of a minute count (source: the `nextDeparture` template). */
  function FormatHHMM(t: nat): string {
    TwoDigits(t / 60) + ":" + TwoDigits(t % 60)
  }

  /** `const [h, m] = s.split(':').map(Number)` followed by `h * 60 + m`. A missing
      minute part is `undefined`, which makes the sum `NaN` like a non-numeric part. */
  function ParseHHMM(s: string): Option<int> {
    var parts := Split(s, ':');
    if |parts| < 2 then None
    else match (NumberOf(parts[0]), NumberOf(parts[1]))
      case (Some(h), Some(m)) => Some(h * 60 + m)
      case _ => None
  }

  /** The well-formed schedule strings: two digits, a colon and two digits, with an
      hour below 24 and a minute below 60. */
  predicate IsClock(s: string) {
    |s| == 5 && IsDigit(s[0]) && IsDigit(s[1]) && s[2] == ':' && IsDigit(s[3]) && IsDigit(s[4])
    && DigitValue(s[0]) * 10 + DigitValue(s[1]) < 24
    && DigitValue(s[3]) * 10 + DigitValue(s[4]) < 60
  }

  /** The minute count an "HH:MM" string denotes, read digit by digit. */
  function ClockMinutes(s: string): nat
    requires IsClock(s)
  {
    (DigitValue(s[0]) * 10 + DigitValue(s[1])) * 60 + DigitValue(s[3]) * 10 + DigitValue(s[4])
  }

  // ---------------------------------------------------------------- lemmas

  lemma {:induction false} DecimalValue(n: nat)
    ensures DigitsValue(Decimal(n)) == n
  {
    if n >= 10 {
      DecimalValue(n / 10);
      var r := Decimal(n);
      assert r[..|r| - 1] == Decimal(n / 10);
    }
  }

  lemma TwoDigitsValue(n: nat)
    requires n < 100
    ensures |TwoDigits(n)| == 2 && AllDigits(TwoDigits(n))
    ensures DigitsValue(TwoDigits(n)) == n
    ensures TwoDigits(n) == [DigitChar(n / 10), DigitChar(n % 10)]
  {
    var r := TwoDigits(n);
    if n < 10 {
      assert r == ['0', DigitChar(n)];
      assert r[..1] == ['0'];
      assert DigitsValue(['0']) == DigitsValue([]) * 10 + 0;
    } else {
      DecimalValue(n);
      assert Decimal(n / 10) == [DigitChar(n / 10)];
      assert r == [DigitChar(n / 10), DigitChar(n % 10)];
    }
  }

  lemma TwoCharValue(s: string)
    requires |s| == 2 && AllDigits(s)
    ensures DigitsValue(s) == DigitValue(s[0]) * 10 + DigitValue(s[1])
  {
    assert s[..1] == [s[0]];
    assert [s[0]][..0] == [];
    assert DigitsValue([s[0]]) == DigitValue(s[0]);
  }

  /** Parsing an "HH:MM" string gives the minute count its digits denote. */
  lemma ParseClock(s: string)
    requires IsClock(s)
    ensures ParseHHMM(s) == Some(ClockMinutes(s))
  {
    assert s == s[..2] + [':'] + s[3..];
    SplitAround(s[..2], s[3..], ':');
    SplitNoDelimiter(s[..2], ':');
    SplitNoDelimiter(s[3..], ':');
    TwoCharValue(s[..2]);
    TwoCharValue(s[3..]);
  }

  /** Formatting a time of day gives a well-formed "HH:MM" string that denotes it. */
  lemma FormatIsClock(t: nat)
    requires t < MinutesPerDay
    ensures IsClock(FormatHHMM(t)) && ClockMinutes(FormatHHMM(t)) == t
  {
    TwoDigitsValue(t / 60);
    TwoDigitsValue(t % 60);
  }

  /** Round trip: formatting `t` as zero-padded "HH:MM" and parsing it back gives `t`. */
  lemma ParseFormat(t: nat)
    requires t < MinutesPerDay
    ensures ParseHHMM(FormatHHMM(t)) == Some(t)
  {
    FormatIsClock(t);
    ParseClock(FormatHHMM(t));
  }

  /** Round trip the other way: parsing a well-formed "HH:MM" string and formatting the
      result gives the string back. */
  lemma FormatParse(s: string)
    requires IsClock(s)
    ensures ClockMinutes(s) < MinutesPerDay
    ensures ParseHHMM(s).Some? && FormatHHMM(ParseHHMM(s).value) == s
  {
    ParseClock(s);
    var h := DigitValue(s[0]) * 10 + DigitValue(s[1]);
    var m := DigitValue(s[3]) * 10 + DigitValue(s[4]);
    FormatOfParts(h, m);
    TwoDigitsOf(s[0], s[1]);
    TwoDigitsOf(s[3], s[4]);
    assert s == [s[0], s[1]] + ":" + [s[3], s[4]];
  }

  /** The hour and minute fields of `h * 60 + m`. */
  lemma FormatOfParts(h: nat, m: nat)
    requires h < 24 && m < 60
    ensures h * 60 + m < MinutesPerDay
    ensures FormatHHMM(h * 60 + m) == TwoDigits(h) + ":" + TwoDigits(m)
  {
    assert (h * 60 + m) / 60 == h && (h * 60 + m) % 60 == m;
  }

  /** Two digits written back by `String(n).padStart(2, '0')`. */
  lemma TwoDigitsOf(a: char, b: char)
    requires IsDigit(a) && IsDigit(b)
    ensures TwoDigits(DigitValue(a) * 10 + DigitValue(b)) == [a, b]
  {
    var n := DigitValue(a) * 10 + DigitValue(b);
    TwoDigitsValue(n);
    assert n / 10 == DigitValue(a) && n % 10 == DigitValue(b);
  }
}
