/**
  Gregorian dates and the `pd.to_datetime(..., format="%d-%m-%Y", errors="coerce")`
  parser of main.py:97. The field patterns are those of Python's `strptime`
  (which pandas reuses): `%d` accepts `01`-`31`, `1`-`9` and ` 1`-` 9`, `%m`
  accepts `01`-`12` and `1`-`9`, `%Y` exactly four digits. Text that does not
  match, or that names a day the calendar does not have, becomes `None`.
 */
module Calendar {
  import opened Wrappers
  import Text

  datatype Date = Date(year: int, month: int, day: int)

  predicate IsLeapYear(y: int) {
    y % 4 == 0 && (y % 100 != 0 || y % 400 == 0)
  }

  function DaysInMonth(y: int, m: int): (n: int)
    requires 1 <= m <= 12
    ensures 28 <= n <= 31
    ensures m == 2 ==> (n == 29 <==> IsLeapYear(y))
  {
    if m == 2 then (if IsLeapYear(y) then 29 else 28)
    else if m == 4 || m == 6 || m == 9 || m == 11 then 30
    else 31
  }

  /** A day `datetime.date` accepts: years 1-9999 of the proleptic Gregorian calendar. */
  predicate ValidDate(d: Date) {
    1 <= d.year <= 9999 && 1 <= d.month <= 12 && 1 <= d.day <= DaysInMonth(d.year, d.month)
  }

  /** A day that exists: what a parsed timestamp holds. */
  type Day = d: Date | ValidDate(d) witness Date(2000, 1, 1)

  function DigitValue(c: char): int
    requires Text.IsDigit(c)
  {
    c as int - '0' as int
  }

  function DigitChar(n: int): (c: char)
    requires 0 <= n <= 9
    ensures Text.IsDigit(c) && DigitValue(c) == n
  {
    (n + '0' as int) as char
  }

  /** The `%d` field: `01`-`31`, or one digit `1`-`9` alone or after a space. */
  function DayField(p: string): Option<int> {
    if |p| == 1 && '1' <= p[0] <= '9' then Some(DigitValue(p[0]))
    else if |p| == 2 && p[0] == ' ' && '1' <= p[1] <= '9' then Some(DigitValue(p[1]))
    else if |p| == 2 && Text.IsDigit(p[0]) && Text.IsDigit(p[1]) && 1 <= PairValue(p[0], p[1]) <= 31
    then Some(PairValue(p[0], p[1]))
    else None
  }

  /** The `%m` field: `01`-`12`, or one digit `1`-`9`. */
  function MonthField(p: string): Option<int> {
    if |p| == 1 && '1' <= p[0] <= '9' then Some(DigitValue(p[0]))
    else if |p| == 2 && Text.IsDigit(p[0]) && Text.IsDigit(p[1]) && 1 <= PairValue(p[0], p[1]) <= 12
    then Some(PairValue(p[0], p[1]))
    else None
  }

  /** The number two decimal digits denote. */
  function PairValue(c0: char, c1: char): (n: int)
    requires Text.IsDigit(c0) && Text.IsDigit(c1)
    ensures 0 <= n <= 99
  {
    10 * DigitValue(c0) + DigitValue(c1)
  }

  /** The `%Y` field: exactly four digits. */
  function YearField(p: string): Option<int> {
    if |p| == 4 && Text.IsDigit(p[0]) && Text.IsDigit(p[1]) && Text.IsDigit(p[2]) && Text.IsDigit(p[3])
    then Some(100 * PairValue(p[0], p[1]) + PairValue(p[2], p[3]))
    else None
  }

  /**
    Parses `DAY-MONTH-YEAR`. No field pattern can contain `-`, so the day field
    ends at the first dash (position 1 or 2) and the month field at the next one.
   */
  function ParseDate(s: string): (r: Option<Date>)
    ensures r.Some? ==> ValidDate(r.value)
  {
    var dl := if |s| > 1 && s[1] == '-' then 1 else 2;
    if |s| <= dl || s[dl] != '-' then None
    else
      var t := s[dl + 1..];
      var ml := if |t| > 1 && t[1] == '-' then 1 else 2;
      if |t| <= ml || t[ml] != '-' then None
      else
        match (DayField(s[..dl]), MonthField(t[..ml]), YearField(t[ml + 1..]))
        case (Some(day), Some(month), Some(year)) =>
          var d := Date(year, month, day);
          if ValidDate(d) then Some(d) else None
        case _ => None
  }

  function TwoDigits(n: int): (s: string)
    requires 0 <= n <= 99
  {
    [DigitChar(n / 10), DigitChar(n % 10)]
  }

  function FourDigits(n: int): (s: string)
    requires 0 <= n <= 9999
  {
    TwoDigits(n / 100) + TwoDigits(n % 100)
  }

  /** The zero-padded spelling `DD-MM-YYYY` of a date whose fields fit it. */
  function FormatDate(d: Date): (s: string)
    requires 0 <= d.year <= 9999 && 1 <= d.month <= 12 && 1 <= d.day <= 31
    ensures |s| == 10 && s[2] == '-' && s[5] == '-'
  {
    TwoDigits(d.day) + "-" + TwoDigits(d.month) + "-" + FourDigits(d.year)
  }

  /** The zero-padded spelling of a number below 100 denotes that number. */
  lemma TwoDigitsValue(n: int)
    requires 0 <= n <= 99
    ensures Text.IsDigit(TwoDigits(n)[0]) && Text.IsDigit(TwoDigits(n)[1])
    ensures PairValue(TwoDigits(n)[0], TwoDigits(n)[1]) == n
  {
  }

  /** `%Y` reads back the year `FourDigits` spells. */
  lemma {:induction false} FourDigitsValue(n: int)
    requires 0 <= n <= 9999
    ensures YearField(FourDigits(n)) == Some(n)
  {
    var p := FourDigits(n);
    TwoDigitsValue(n / 100);
    TwoDigitsValue(n % 100);
    assert p[0] == TwoDigits(n / 100)[0] && p[1] == TwoDigits(n / 100)[1];
    assert p[2] == TwoDigits(n % 100)[0] && p[3] == TwoDigits(n % 100)[1];
  }

  /** Two digits are the zero-padded spelling of the number they denote. */
  lemma DigitsSpellValue(c0: char, c1: char)
    requires Text.IsDigit(c0) && Text.IsDigit(c1)
    ensures TwoDigits(PairValue(c0, c1)) == [c0, c1]
  {
  }

  /** A four-digit year field is the spelling `FourDigits` gives its value. */
  lemma {:induction false} FourDigitsSpellValue(p: string)
    requires YearField(p).Some?
    ensures FourDigits(YearField(p).value) == p
  {
    var hi, lo := PairValue(p[0], p[1]), PairValue(p[2], p[3]);
    assert YearField(p).value / 100 == hi && YearField(p).value % 100 == lo;
    DigitsSpellValue(p[0], p[1]);
    DigitsSpellValue(p[2], p[3]);
    assert p == [p[0], p[1]] + [p[2], p[3]];
  }

  /**
    Every zero-padded `DD-MM-YYYY` text parses to the day it names when that day
    exists in the Gregorian calendar (29 February only in leap years), and to
    `None` otherwise: the parse neither raises nor rolls an impossible day over.
   */
  lemma {:induction false} ParseFormatted(d: Date)
    requires 0 <= d.year <= 9999 && 1 <= d.month <= 12 && 1 <= d.day <= 31
    ensures ParseDate(FormatDate(d)) == if ValidDate(d) then Some(d) else None
  {
    var s := FormatDate(d);
    var t := s[3..];
    assert s[..2] == TwoDigits(d.day);
    assert t[..2] == TwoDigits(d.month);
    assert t[3..] == FourDigits(d.year);
    TwoDigitsValue(d.day);
    TwoDigitsValue(d.month);
    FourDigitsValue(d.year);
    assert DayField(s[..2]) == Some(d.day);
    assert MonthField(t[..2]) == Some(d.month);
  }

  /**
    A ten-character text that parses, and does not start with the space `%d`
    allows before a single digit, is exactly the zero-padded spelling of its date.
   */
  lemma {:induction false} ParsedTenIsFormatted(s: string)
    requires |s| == 10 && s[0] != ' ' && ParseDate(s).Some?
    ensures s == FormatDate(ParseDate(s).value)
  {
    var d := ParseDate(s).value;
    assert s[2] == '-';
    var t := s[3..];
    assert t[2] == '-';
    assert DayField(s[..2]) == Some(d.day);
    assert MonthField(t[..2]) == Some(d.month);
    assert YearField(t[3..]) == Some(d.year);
    DigitsSpellValue(s[0], s[1]);
    DigitsSpellValue(t[0], t[1]);
    FourDigitsSpellValue(t[3..]);
    assert s == s[..2] + "-" + t[..2] + "-" + t[3..];
  }

  /** Calendar months numbered consecutively, so that month `i + 1` follows month `i`. */
  function MonthIndex(d: Date): int {
    d.year * 12 + (d.month - 1)
  }

  datatype Month = Month(year: int, month: int)

  /** The calendar month with the given consecutive number. */
  function MonthAt(i: int): (m: Month)
    ensures 1 <= m.month <= 12
    ensures m.year * 12 + (m.month - 1) == i
  {
    Month(i / 12, i % 12 + 1)
  }

  /** A date falls in the month `MonthAt` names for its index. */
  lemma MonthOfDate(d: Date)
    requires ValidDate(d)
    ensures MonthAt(MonthIndex(d)) == Month(d.year, d.month)
  {
  }
}
