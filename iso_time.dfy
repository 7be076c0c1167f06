/**
 * Naive timestamps as pymongo hands them back (a `datetime` without a time
 * zone) and their rendering by `datetime.isoformat()`:
 * `YYYY-MM-DDTHH:MM:SS`, followed by `.ffffff` only when the microsecond
 * part is not zero. `FromIsoFormat` is the inverse reading, used to state
 * that the rendered string denotes exactly the stored instant.
 */
module IsoTime {
  import opened Wrappers

  datatype DateTimeFields = DateTimeFields(
    year: int, month: int, day: int,
    hour: int, minute: int, second: int, microsecond: int)

  predicate IsLeapYear(y: int)
  {
    y % 4 == 0 && (y % 100 != 0 || y % 400 == 0)
  }

  function DaysInMonth(y: int, m: int): (n: int)
    requires 1 <= m <= 12
    ensures 28 <= n <= 31
  {
    if m == 2 then (if IsLeapYear(y) then 29 else 28)
    else if m == 4 || m == 6 || m == 9 || m == 11 then 30
    else 31
  }

  /** The ranges Python's `datetime` constructor accepts (MINYEAR 1, MAXYEAR 9999). */
  predicate ValidFields(t: DateTimeFields)
  {
    && 1 <= t.year <= 9999
    && 1 <= t.month <= 12
    && 1 <= t.day <= DaysInMonth(t.year, t.month)
    && 0 <= t.hour < 24
    && 0 <= t.minute < 60
    && 0 <= t.second < 60
    && 0 <= t.microsecond < 1000000
  }

  type Timestamp = t: DateTimeFields | ValidFields(t)
    witness DateTimeFields(1970, 1, 1, 0, 0, 0, 0)

  function Pow10(w: nat): (p: nat)
    ensures p >= 1
  {
    if w == 0 then 1 else 10 * Pow10(w - 1)
  }

  predicate IsDigit(c: char)
  {
    '0' <= c <= '9'
  }

  predicate AllDigits(s: string)
  {
    forall i :: 0 <= i < |s| ==> IsDigit(s[i])
  }

  function DigitChar(d: int): (c: char)
    requires 0 <= d < 10
    ensures IsDigit(c) && c as int - '0' as int == d
  {
    ('0' as int + d) as char
  }

  /** `n` written in decimal with leading zeros to exactly `w` digits (`{n:0wd}`). */
  function PadDigits(n: nat, w: nat): (s: string)
    requires n < Pow10(w)
    ensures |s| == w && AllDigits(s)
  {
    if w == 0 then []
    else PadDigits(n / 10, w - 1) + [DigitChar(n % 10)]
  }

  /** The number a string of decimal digits denotes. */
  function DigitsValue(s: string): (n: int)
    requires AllDigits(s)
  {
    if |s| == 0 then 0
    else 10 * DigitsValue(s[..|s| - 1]) + (s[|s| - 1] as int - '0' as int)
  }

  lemma {:induction false} PadDigitsValue(n: nat, w: nat)
    requires n < Pow10(w)
    ensures DigitsValue(PadDigits(n, w)) == n
  {
    if w > 0 {
      PadDigitsValue(n / 10, w - 1);
      var s := PadDigits(n, w);
      assert s[..|s| - 1] == PadDigits(n / 10, w - 1);
    }
  }

  /** `YYYY-MM-DD`. */
  function DatePart(t: Timestamp): (s: string)
    ensures |s| == 10
  {
    PadDigits(t.year, 4) + "-" + PadDigits(t.month, 2) + "-" + PadDigits(t.day, 2)
  }

  /** `HH:MM:SS`. */
  function TimePart(t: Timestamp): (s: string)
    ensures |s| == 8
  {
    PadDigits(t.hour, 2) + ":" + PadDigits(t.minute, 2) + ":" + PadDigits(t.second, 2)
  }

  /** `.ffffff`, present only for a non-zero microsecond. */
  function FractionPart(t: Timestamp): (s: string)
    ensures |s| == (if t.microsecond == 0 then 0 else 7)
  {
    if t.microsecond == 0 then "" else "." + PadDigits(t.microsecond, 6)
  }

  /** `datetime.isoformat()` of a naive datetime. */
  function IsoFormat(t: Timestamp): (s: string)
    ensures |s| == (if t.microsecond == 0 then 19 else 26)
  {
    DatePart(t) + "T" + TimePart(t) + FractionPart(t)
  }

  /**
   * `datetime.fromisoformat` restricted to the two shapes `IsoFormat`
   * produces; anything else is rejected with `None`.
   */
  function FromIsoFormat(s: string): (r: Option<Timestamp>)
    ensures r.Some? ==> |s| == 19 || |s| == 26
  {
    if !(|s| == 19 || |s| == 26) then None
    else if !(s[4] == '-' && s[7] == '-' && s[10] == 'T' && s[13] == ':' && s[16] == ':') then None
    else if !(AllDigits(s[0..4]) && AllDigits(s[5..7]) && AllDigits(s[8..10])
              && AllDigits(s[11..13]) && AllDigits(s[14..16]) && AllDigits(s[17..19])) then None
    else if |s| == 26 && !(s[19] == '.' && AllDigits(s[20..26])) then None
    else
      var t := DateTimeFields(
        DigitsValue(s[0..4]), DigitsValue(s[5..7]), DigitsValue(s[8..10]),
        DigitsValue(s[11..13]), DigitsValue(s[14..16]), DigitsValue(s[17..19]),
        if |s| == 26 then DigitsValue(s[20..26]) else 0);
      if ValidFields(t) && (|s| == 26 ==> t.microsecond != 0) then Some(t) else None
  }

  lemma DatePartLayout(t: Timestamp)
    ensures var s := DatePart(t);
      && s[4] == '-' && s[7] == '-'
      && s[0..4] == PadDigits(t.year, 4) && s[5..7] == PadDigits(t.month, 2)
      && s[8..10] == PadDigits(t.day, 2)
  {
  }

  lemma TimePartLayout(t: Timestamp)
    ensures var s := TimePart(t);
      && s[2] == ':' && s[5] == ':'
      && s[0..2] == PadDigits(t.hour, 2) && s[3..5] == PadDigits(t.minute, 2)
      && s[6..8] == PadDigits(t.second, 2)
  {
  }

  /** Where `IsoFormat` puts each field and separator. */
  lemma IsoFormatLayout(t: Timestamp)
    ensures var s := IsoFormat(t);
      && s[4] == '-' && s[7] == '-' && s[10] == 'T' && s[13] == ':' && s[16] == ':'
      && s[0..4] == PadDigits(t.year, 4) && s[5..7] == PadDigits(t.month, 2)
      && s[8..10] == PadDigits(t.day, 2) && s[11..13] == PadDigits(t.hour, 2)
      && s[14..16] == PadDigits(t.minute, 2) && s[17..19] == PadDigits(t.second, 2)
      && (t.microsecond != 0 ==> s[19] == '.' && s[20..26] == PadDigits(t.microsecond, 6))
  {
    var date, time, tail := DatePart(t), TimePart(t), FractionPart(t);
    var s := IsoFormat(t);
    DatePartLayout(t);
    TimePartLayout(t);
    assert s[0..10] == date;
    assert s[11..19] == time;
    assert s[19..] == tail;
    assert s[0..4] == date[0..4] && s[5..7] == date[5..7] && s[8..10] == date[8..10];
    assert s[11..13] == time[0..2] && s[14..16] == time[3..5] && s[17..19] == time[6..8];
    if t.microsecond != 0 {
      assert s[20..26] == tail[1..];
    }
  }

  /** Reading back what `IsoFormat` wrote gives the same instant. */
  lemma IsoFormatRoundTrip(t: Timestamp)
    ensures FromIsoFormat(IsoFormat(t)) == Some(t)
  {
    IsoFormatLayout(t);
    PadDigitsValue(t.year, 4);
    PadDigitsValue(t.month, 2);
    PadDigitsValue(t.day, 2);
    PadDigitsValue(t.hour, 2);
    PadDigitsValue(t.minute, 2);
    PadDigitsValue(t.second, 2);
    PadDigitsValue(t.microsecond, 6);
  }

  /** Distinct instants render to distinct strings. */
  lemma IsoFormatInjective(t1: Timestamp, t2: Timestamp)
    requires IsoFormat(t1) == IsoFormat(t2)
    ensures t1 == t2
  {
    IsoFormatRoundTrip(t1);
    IsoFormatRoundTrip(t2);
  }
}
