/** Calendar dates and Python's `datetime.strptime(s, '%Y-%m-%d')`. */
module Dates {
  import opened Wrappers

  datatype Date = Date(year: int, month: int, day: int)

  predicate IsLeapYear(y: int)
  {
    y % 4 == 0 && (y % 100 != 0 || y % 400 == 0)
  }

  function DaysInMonth(y: int, m: int): int
    requires 1 <= m <= 12
  {
    if m == 2 then (if IsLeapYear(y) then 29 else 28)
    else if m == 4 || m == 6 || m == 9 || m == 11 then 30
    else 31
  }

  /** The dates Python's `datetime` can represent. */
  predicate Valid(d: Date)
  {
    1 <= d.year <= 9999 && 1 <= d.month <= 12 && 1 <= d.day <= DaysInMonth(d.year, d.month)
  }

  /** Chronological order: `a < b` on midnight timestamps. */
  predicate Before(a: Date, b: Date)
  {
    a.year < b.year || (a.year == b.year && (a.month < b.month || (a.month == b.month && a.day < b.day)))
  }

  predicate IsDigit(c: char) { '0' <= c <= '9' }

  function DigitValue(c: char): int
    requires IsDigit(c)
  {
    c as int - '0' as int
  }

  function DigitChar(n: int): (c: char)
    requires 0 <= n <= 9
    ensures IsDigit(c) && DigitValue(c) == n
  {
    (n + '0' as int) as char
  }

  /** The `%m` group `1[0-2]|0[1-9]|[1-9]`: the month and how many characters it takes, using the
      first alternative that matches (no later part of the pattern can make a shorter one win). */
  function MatchMonth(s: string): (r: Option<(int, nat)>)
    ensures r.Some? ==> 1 <= r.value.0 <= 12 && 1 <= r.value.1 <= |s|
  {
    if |s| >= 2 && s[0] == '1' && '0' <= s[1] <= '2' then Some((10 + DigitValue(s[1]), 2))
    else if |s| >= 2 && s[0] == '0' && '1' <= s[1] <= '9' then Some((DigitValue(s[1]), 2))
    else if |s| >= 1 && '1' <= s[0] <= '9' then Some((DigitValue(s[0]), 1))
    else None
  }

  /** The `%d` group `3[01]|[12]\d|0[1-9]|[1-9]| [1-9]`, first matching alternative. */
  function MatchDay(s: string): (r: Option<(int, nat)>)
    ensures r.Some? ==> 1 <= r.value.0 <= 31 && 1 <= r.value.1 <= |s|
  {
    if |s| >= 2 && s[0] == '3' && '0' <= s[1] <= '1' then Some((30 + DigitValue(s[1]), 2))
    else if |s| >= 2 && '1' <= s[0] <= '2' && IsDigit(s[1]) then Some((10 * DigitValue(s[0]) + DigitValue(s[1]), 2))
    else if |s| >= 2 && s[0] == '0' && '1' <= s[1] <= '9' then Some((DigitValue(s[1]), 2))
    else if |s| >= 1 && '1' <= s[0] <= '9' then Some((DigitValue(s[0]), 1))
    else if |s| >= 2 && s[0] == ' ' && '1' <= s[1] <= '9' then Some((DigitValue(s[1]), 2))
    else None
  }

  /** `datetime.strptime(s, '%Y-%m-%d')`: four digits, '-', a month, '-', a day, nothing after
      it, and a day that exists in that month of a year from 1 to 9999; anything else is a
      ValueError. */
  function ParseDate(s: string): (r: Result<Date>)
    ensures r.Ok? ==> Valid(r.value)
    ensures r.Err? ==> r.error == ValueError
  {
    if |s| < 5 || !(IsDigit(s[0]) && IsDigit(s[1]) && IsDigit(s[2]) && IsDigit(s[3])) || s[4] != '-' then
      Err(ValueError)
    else
      var y := 1000 * DigitValue(s[0]) + 100 * DigitValue(s[1]) + 10 * DigitValue(s[2]) + DigitValue(s[3]);
      match MatchMonth(s[5..])
      case None => Err(ValueError)
      case Some((m, lm)) =>
        var rest := s[5 + lm..];
        if |rest| == 0 || rest[0] != '-' then Err(ValueError)
        else
          match MatchDay(rest[1..])
          case None => Err(ValueError)
          case Some((d, ld)) =>
            if 1 + ld != |rest| then Err(ValueError)     // "unconverted data remains"
            else if y < 1 || d > DaysInMonth(y, m) then Err(ValueError)
            else Ok(Date(y, m, d))
  }

  function TwoDigits(n: int): string
    requires 0 <= n <= 99
  {
    [DigitChar(n / 10), DigitChar(n % 10)]
  }

  /** `d.strftime('%Y-%m-%d')`: zero-padded year, month and day. */
  function FormatDate(d: Date): (s: string)
    requires Valid(d)
    ensures |s| == 10 && s[4] == '-' && s[7] == '-'
    ensures forall i :: 0 <= i < |s| ==> IsDigit(s[i]) || s[i] == '-'
  {
    TwoDigits(d.year / 100) + TwoDigits(d.year % 100) + "-" + TwoDigits(d.month) + "-" + TwoDigits(d.day)
  }

  /** Every valid date survives formatting and parsing back. */
  lemma FormatParse(d: Date)
    requires Valid(d)
    ensures ParseDate(FormatDate(d)) == Ok(d)
  {
    var s := FormatDate(d);
    var hi, lo := d.year / 100, d.year % 100;
    assert DigitValue(s[0]) == hi / 10 && DigitValue(s[1]) == hi % 10;
    assert DigitValue(s[2]) == lo / 10 && DigitValue(s[3]) == lo % 10;
    assert 1000 * (hi / 10) + 100 * (hi % 10) + 10 * (lo / 10) + lo % 10 == d.year;
    assert s[5..] == TwoDigits(d.month) + "-" + TwoDigits(d.day);
    assert MatchMonth(s[5..]) == Some((d.month, 2));
    var rest := s[7..];
    assert rest == "-" + TwoDigits(d.day);
    assert rest[1..] == TwoDigits(d.day);
    assert MatchDay(rest[1..]) == Some((d.day, 2));
  }
}
