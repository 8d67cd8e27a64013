/**
 * `parse_since_date` in scripts/pipeline.py: `datetime.strptime(value,
 * "%Y-%m-%d")` made timezone-aware in UTC. Python's `strptime` turns the format
 * into a regular expression (`%Y` is four digits, `%m` is `1[0-2]|0[1-9]|[1-9]`,
 * `%d` is `3[01]|[12]\d|0[1-9]|[1-9]| [1-9]`), matches it at the start of the
 * string taking the first alternative that matches, rejects unconverted
 * trailing text, and then builds the date, which fails for a day the month
 * does not have or for year 0. Instants are microseconds since
 * 0001-01-01T00:00 UTC (`datetime.min`).
 */
module SinceDate {
  import opened Wrappers

  const MicrosPerDay: int := 86_400_000_000

  predicate IsDigit(c: char) {
    '0' <= c <= '9'
  }

  function DigitValue(c: char): (v: int)
    requires IsDigit(c)
    ensures 0 <= v <= 9
  {
    c as int - '0' as int
  }

  predicate IsLeap(y: int) {
    y % 4 == 0 && (y % 100 != 0 || y % 400 == 0)
  }

  function DaysInMonth(y: int, m: int): (n: int)
    requires 1 <= m <= 12
    ensures 28 <= n <= 31
  {
    if m == 2 then (if IsLeap(y) then 29 else 28)
    else if m == 4 || m == 6 || m == 9 || m == 11 then 30
    else 31
  }

  /** A date the Gregorian calendar of `datetime` has. */
  predicate ValidDate(y: int, m: int, d: int) {
    1 <= y <= 9999 && 1 <= m <= 12 && 1 <= d <= DaysInMonth(y, m)
  }

  /** Days in the years before `y`. */
  function DaysBeforeYear(y: int): int
    requires y >= 1
  {
    var p := y - 1;
    365 * p + p / 4 - p / 100 + p / 400
  }

  /** Days in the months of year `y` before month `m`. */
  function DaysBeforeMonth(y: int, m: int): (n: int)
    requires 1 <= m <= 13
    ensures 28 * (m - 1) <= n <= 31 * (m - 1)
    decreases m
  {
    if m == 1 then 0 else DaysBeforeMonth(y, m - 1) + DaysInMonth(y, m - 1)
  }

  /** `date(y, m, d).toordinal()`: 1 for 0001-01-01. */
  function Ordinal(y: int, m: int, d: int): int
    requires y >= 1 && 1 <= m <= 12
  {
    DaysBeforeYear(y) + DaysBeforeMonth(y, m) + d
  }

  /** Midnight UTC at the start of the date. */
  function Timestamp(y: int, m: int, d: int): int
    requires y >= 1 && 1 <= m <= 12
  {
    (Ordinal(y, m, d) - 1) * MicrosPerDay
  }

  /** `%Y` at position `i`: four digits. */
  function MatchYear(s: string, i: nat): (r: Option<(int, nat)>)
    ensures r.Some? ==> r.value.1 == i + 4 <= |s| && 0 <= r.value.0 <= 9999
  {
    if i + 4 <= |s| && IsDigit(s[i]) && IsDigit(s[i + 1]) && IsDigit(s[i + 2]) && IsDigit(s[i + 3]) then
      Some((1000 * DigitValue(s[i]) + 100 * DigitValue(s[i + 1]) + 10 * DigitValue(s[i + 2]) + DigitValue(s[i + 3]), i + 4))
    else None
  }

  /** `%m` at position `i`: `1[0-2]|0[1-9]|[1-9]`, first alternative that matches. */
  function MatchMonth(s: string, i: nat): (r: Option<(int, nat)>)
    ensures r.Some? ==> i < r.value.1 <= i + 2 && r.value.1 <= |s| && 1 <= r.value.0 <= 12
  {
    if i + 1 < |s| && s[i] == '1' && '0' <= s[i + 1] <= '2' then Some((10 + DigitValue(s[i + 1]), i + 2))
    else if i + 1 < |s| && s[i] == '0' && '1' <= s[i + 1] <= '9' then Some((DigitValue(s[i + 1]), i + 2))
    else if i < |s| && '1' <= s[i] <= '9' then Some((DigitValue(s[i]), i + 1))
    else None
  }

  /** `%d` at position `i`: `3[01]|[12]\d|0[1-9]|[1-9]| [1-9]`, first alternative that matches. */
  function MatchDay(s: string, i: nat): (r: Option<(int, nat)>)
    ensures r.Some? ==> i < r.value.1 <= i + 2 && r.value.1 <= |s| && 1 <= r.value.0 <= 31
  {
    if i + 1 < |s| && s[i] == '3' && (s[i + 1] == '0' || s[i + 1] == '1') then Some((30 + DigitValue(s[i + 1]), i + 2))
    else if i + 1 < |s| && (s[i] == '1' || s[i] == '2') && IsDigit(s[i + 1]) then Some((10 * DigitValue(s[i]) + DigitValue(s[i + 1]), i + 2))
    else if i + 1 < |s| && s[i] == '0' && '1' <= s[i + 1] <= '9' then Some((DigitValue(s[i + 1]), i + 2))
    else if i < |s| && '1' <= s[i] <= '9' then Some((DigitValue(s[i]), i + 1))
    else if i + 1 < |s| && s[i] == ' ' && '1' <= s[i + 1] <= '9' then Some((DigitValue(s[i + 1]), i + 2))
    else None
  }

  /** `parse_since_date`: the instant, or `None` for the ValueError it raises. */
  function ParseSinceDate(s: string): (r: Option<int>)
  {
    match MatchYear(s, 0)
    case None => None
    case Some((y, i)) =>
      if !(i < |s| && s[i] == '-') then None
      else
        match MatchMonth(s, i + 1)
        case None => None
        case Some((m, i2)) =>
          if !(i2 < |s| && s[i2] == '-') then None
          else
            match MatchDay(s, i2 + 1)
            case None => None
            case Some((d, i3)) =>
              if i3 != |s| then None
              else if y < 1 || d > DaysInMonth(y, m) then None
              else Some(Timestamp(y, m, d))
  }

  // ---------------------------------------------------------------------------
  // The canonical spelling

  function DigitChar(n: int): (c: char)
    requires 0 <= n <= 9
    ensures IsDigit(c) && DigitValue(c) == n
  {
    ('0' as int + n) as char
  }

  /** `n` written with two digits, zero-padded. */
  function Pad2(n: int): (s: string)
    requires 0 <= n <= 99
    ensures |s| == 2
  {
    [DigitChar(n / 10), DigitChar(n % 10)]
  }

  /** `n` written with four digits, zero-padded. */
  function Pad4(n: int): (s: string)
    requires 0 <= n <= 9999
    ensures |s| == 4
  {
    [DigitChar(n / 1000), DigitChar((n / 100) % 10), DigitChar((n / 10) % 10), DigitChar(n % 10)]
  }

  /** The date written `YYYY-MM-DD`. */
  function FormatYmd(y: int, m: int, d: int): (s: string)
    requires 0 <= y <= 9999 && 0 <= m <= 99 && 0 <= d <= 99
    ensures |s| == 10
  {
    Pad4(y) + "-" + Pad2(m) + "-" + Pad2(d)
  }

  lemma FourDigits(y: int)
    requires 0 <= y <= 9999
    ensures 1000 * (y / 1000) + 100 * ((y / 100) % 10) + 10 * ((y / 10) % 10) + y % 10 == y
  {
    assert y == 10 * (y / 10) + y % 10;
    assert (y / 10) / 10 == y / 100;
    assert y / 10 == 10 * (y / 100) + (y / 10) % 10;
    assert (y / 100) / 10 == y / 1000;
    assert y / 100 == 10 * (y / 1000) + (y / 100) % 10;
  }

  /** The three fields of a date written `YYYY-MM-DD` match as themselves. */
  lemma FormattedFields(y: int, m: int, d: int)
    requires 0 <= y <= 9999 && 1 <= m <= 12 && 1 <= d <= 31
    ensures var s := FormatYmd(y, m, d);
      MatchYear(s, 0) == Some((y, 4)) && s[4] == '-' && MatchMonth(s, 5) == Some((m, 7)) && s[7] == '-'
      && MatchDay(s, 8) == Some((d, 10))
  {
    var s := FormatYmd(y, m, d);
    FourDigits(y);
    assert s[0] == DigitChar(y / 1000) && s[1] == DigitChar((y / 100) % 10);
    assert s[2] == DigitChar((y / 10) % 10) && s[3] == DigitChar(y % 10);
    assert s[5] == DigitChar(m / 10) && s[6] == DigitChar(m % 10);
    assert s[8] == DigitChar(d / 10) && s[9] == DigitChar(d % 10);
    assert m == 10 * (m / 10) + m % 10 && d == 10 * (d / 10) + d % 10;
  }

  /**
   * A valid date written `YYYY-MM-DD` parses to midnight UTC at its start.
   */
  lemma ParseFormatted(y: int, m: int, d: int)
    requires ValidDate(y, m, d)
    ensures ParseSinceDate(FormatYmd(y, m, d)) == Some(Timestamp(y, m, d))
  {
    FormattedFields(y, m, d);
  }

  /**
   * A day the month does not have, or year 0, is rejected even when it is
   * written in the right shape.
   */
  lemma RejectsImpossibleDates(y: int, m: int, d: int)
    requires 0 <= y <= 9999 && 1 <= m <= 12 && 1 <= d <= 31
    requires y == 0 || d > DaysInMonth(y, m)
    ensures ParseSinceDate(FormatYmd(y, m, d)) == None
  {
    FormattedFields(y, m, d);
  }

  /**
   * What an accepted string looks like: four digits, a dash, a month of one or
   * two characters, a dash, a day of one or two characters, and nothing else;
   * and it stands for a valid date, at midnight UTC.
   */
  lemma AcceptedShape(s: string)
    requires ParseSinceDate(s).Some?
    ensures 8 <= |s| <= 10 && (forall k :: 0 <= k < 4 ==> IsDigit(s[k])) && s[4] == '-'
    ensures exists y, m, d :: ValidDate(y, m, d) && ParseSinceDate(s) == Some(Timestamp(y, m, d))
  {
    var ym := MatchYear(s, 0).value;
    var mm := MatchMonth(s, 5).value;
    var dm := MatchDay(s, mm.1 + 1).value;
    assert ValidDate(ym.0, mm.0, dm.0);
  }

  /** `strptime` also takes an unpadded month and day. */
  lemma AcceptsUnpadded()
    ensures ParseSinceDate("2024-1-5") == Some(Timestamp(2024, 1, 5))
  {
    var s := "2024-1-5";
    assert MatchYear(s, 0) == Some((2024, 4));
    assert MatchMonth(s, 5) == Some((1, 6));
    assert MatchDay(s, 7) == Some((5, 8));
  }

  // ---------------------------------------------------------------------------
  // Order

  lemma {:induction false} DaysBeforeMonthBound(y: int, m: int)
    requires 1 <= m <= 12
    ensures DaysBeforeMonth(y, m) + DaysInMonth(y, m) <= (if IsLeap(y) then 366 else 365)
    decreases 12 - m
  {
    if m < 12 {
      DaysBeforeMonthBound(y, m + 1);
    } else {
      assert DaysBeforeMonth(y, 12) == DaysBeforeMonth(y, 11) + DaysInMonth(y, 11);
    }
  }

  lemma DaysBeforeNextYear(y: int)
    requires y >= 1
    ensures DaysBeforeYear(y + 1) == DaysBeforeYear(y) + (if IsLeap(y) then 366 else 365)
  {
    Step4(y);
    Step100(y);
    Step400(y);
  }

  lemma Step4(y: int)
    ensures y / 4 == (y - 1) / 4 + (if y % 4 == 0 then 1 else 0)
  {
  }

  lemma Step100(y: int)
    ensures y / 100 == (y - 1) / 100 + (if y % 100 == 0 then 1 else 0)
  {
  }

  lemma Step400(y: int)
    ensures y / 400 == (y - 1) / 400 + (if y % 400 == 0 then 1 else 0)
  {
  }

  lemma {:induction false} DaysBeforeYearGrows(y: int, y': int)
    requires 1 <= y < y'
    ensures DaysBeforeYear(y) + (if IsLeap(y) then 366 else 365) <= DaysBeforeYear(y')
    decreases y' - y
  {
    DaysBeforeNextYear(y);
    if y + 1 < y' {
      DaysBeforeYearGrows(y + 1, y');
    }
  }

  lemma {:induction false} DaysBeforeMonthGrows(y: int, m: int, m': int)
    requires 1 <= m < m' <= 12
    ensures DaysBeforeMonth(y, m) + DaysInMonth(y, m) <= DaysBeforeMonth(y, m')
    decreases m' - m
  {
    if m + 1 < m' {
      DaysBeforeMonthGrows(y, m + 1, m');
    }
  }

  /**
   * Later dates are later instants: comparing timestamps compares the dates
   * (year, then month, then day).
   */
  lemma TimestampOrder(y: int, m: int, d: int, y': int, m': int, d': int)
    requires ValidDate(y, m, d) && ValidDate(y', m', d')
    requires y < y' || (y == y' && m < m') || (y == y' && m == m' && d < d')
    ensures Timestamp(y, m, d) < Timestamp(y', m', d')
  {
    if y < y' {
      DaysBeforeMonthBound(y, m);
      DaysBeforeYearGrows(y, y');
    } else if m < m' {
      DaysBeforeMonthGrows(y, m, m');
    }
    assert Ordinal(y, m, d) < Ordinal(y', m', d');
  }
}
