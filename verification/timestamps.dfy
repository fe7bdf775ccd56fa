/**
 * A pandas Timestamp and its rendering with strftime("%Y-%m-%d %H:%M:%S").
 * The calendar fields are kept as numbers; a Timestamp is a DateTime whose
 * fields lie inside the range pandas can represent.
 */
module Timestamps {

  datatype DateTime = DateTime(year: int, month: int, day: int,
                               hour: int, minute: int, second: int,
                               nanosecond: int)

  predicate IsLeapYear(y: int)
  {
    y % 4 == 0 && (y % 100 != 0 || y % 400 == 0)
  }

  function DaysInMonth(y: int, m: int): (n: int)
    requires 1 <= m <= 12
    ensures 28 <= n <= 31
  {
    if m == 2 then (if IsLeapYear(y) then 29 else 28)
    else if m == 4 || m == 6 || m == 9 || m == 11 then 30
    else 31
  }

  /** A calendar date and time of day within the years a pandas Timestamp spans. */
  predicate InRange(d: DateTime)
  {
    && 1677 <= d.year <= 2262
    && 1 <= d.month <= 12
    && 1 <= d.day <= DaysInMonth(d.year, d.month)
    && 0 <= d.hour < 24
    && 0 <= d.minute < 60
    && 0 <= d.second < 60
    && 0 <= d.nanosecond < 1000000000
  }

  type Timestamp = d: DateTime | InRange(d) witness DateTime(1970, 1, 1, 0, 0, 0, 0)

  /** The timestamp with its fraction of a second dropped. */
  function ToSecond(t: Timestamp): Timestamp
  {
    t.(nanosecond := 0)
  }

  function DigitChar(d: int): char
    requires 0 <= d < 10
  {
    (48 + d) as char
  }

  function DigitValue(c: char): int
  {
    c as int - 48
  }

  predicate IsDigit(c: char)
  {
    '0' <= c <= '9'
  }

  /** Two decimal digits with a leading zero ("%m", "%d", "%H", "%M", "%S"). */
  function Pad2(n: int): (s: string)
    requires 0 <= n < 100
    ensures |s| == 2 && IsDigit(s[0]) && IsDigit(s[1])
    ensures 10 * DigitValue(s[0]) + DigitValue(s[1]) == n
  {
    [DigitChar(n / 10), DigitChar(n % 10)]
  }

  /** Four decimal digits ("%Y" for the years a Timestamp spans). */
  function Pad4(n: int): (s: string)
    requires 0 <= n < 10000
    ensures |s| == 4 && IsDigit(s[0]) && IsDigit(s[1]) && IsDigit(s[2]) && IsDigit(s[3])
    ensures 100 * Read2(s, 0) + Read2(s, 2) == n
  {
    Pad2(n / 100) + Pad2(n % 100)
  }

  /** strftime("%Y-%m-%d %H:%M:%S"): the fraction of a second is not printed. */
  function Strftime(t: Timestamp): (s: string)
    ensures |s| == 19
    ensures s[4] == '-' && s[7] == '-' && s[10] == ' ' && s[13] == ':' && s[16] == ':'
  {
    Pad4(t.year) + "-" + Pad2(t.month) + "-" + Pad2(t.day) + " "
      + Pad2(t.hour) + ":" + Pad2(t.minute) + ":" + Pad2(t.second)
  }

  /** The number written by the two digits at s[k], s[k+1]. */
  function Read2(s: string, k: nat): int
    requires k + 2 <= |s|
  {
    10 * DigitValue(s[k]) + DigitValue(s[k + 1])
  }

  /** Calendar fields read from a text, or the sign that it is not of the printed shape. */
  datatype Readout = NotFormatted | Fields(year: int, month: int, day: int, hour: int, minute: int, second: int)

  /** Reads a "%Y-%m-%d %H:%M:%S" text back into calendar fields. */
  function ReadBack(s: string): (r: Readout)
  {
    if |s| != 19 then NotFormatted
    else Fields(100 * Read2(s, 0) + Read2(s, 2), Read2(s, 5), Read2(s, 8),
                Read2(s, 11), Read2(s, 14), Read2(s, 17))
  }

  /** Reading back what Strftime wrote gives the timestamp's fields up to the second. */
  lemma ReadBackStrftime(t: Timestamp)
    ensures ReadBack(Strftime(t)) == Fields(t.year, t.month, t.day, t.hour, t.minute, t.second)
  {
  }

  /** Two timestamps print alike exactly when they agree up to the second. */
  lemma StrftimeInjective(a: Timestamp, b: Timestamp)
    ensures Strftime(a) == Strftime(b) <==> ToSecond(a) == ToSecond(b)
  {
    ReadBackStrftime(a);
    ReadBackStrftime(b);
  }
}
