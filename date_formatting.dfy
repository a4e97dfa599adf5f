/** Timestamp rendering: `formatDateForFilename`, which writes broken-down
    local time as `YYYYMMDD_HHMMSS`, and `formatDateForJson`, which writes
    broken-down UTC time in the ISO 8601 extended format
    `YYYY-MM-DDTHH:MM:SS.sssZ`. A date is given by its integer fields, and
    every field is written zero-padded to its width, as
    `String(n).padStart(w, "0")` writes it. For the JSON year this is what
    `toISOString` does; for the filename year it is this model's choice,
    which agrees with an unpadded year from 1000 on. */
module DateFormatting {
  import opened Digits
  import Text

  /** Broken-down calendar time: month 1-12, day 1-31, hour 0-23, and so on. */
  datatype DateTime = DateTime(
    year: int, month: int, day: int,
    hour: int, minute: int, second: int, millisecond: int)

  /** Gregorian leap-year rule. */
  predicate IsLeapYear(y: int) {
    y % 4 == 0 && (y % 100 != 0 || y % 400 == 0)
  }

  function YearLength(y: int): int {
    if IsLeapYear(y) then 366 else 365
  }

  function DaysInMonth(y: int, m: int): int
    requires 1 <= m <= 12
  {
    if m == 2 then (if IsLeapYear(y) then 29 else 28)
    else if m == 4 || m == 6 || m == 9 || m == 11 then 30
    else 31
  }

  /** The fields a date object can hold, for the years 0 to 9999. */
  predicate Valid(d: DateTime) {
    && 0 <= d.year <= 9999
    && 1 <= d.month <= 12
    && 1 <= d.day <= 31 && d.day <= DaysInMonth(d.year, d.month)
    && 0 <= d.hour < 24
    && 0 <= d.minute < 60
    && 0 <= d.second < 60
    && 0 <= d.millisecond < 1000
  }

  /** `String(n).padStart(w, "0")`. */
  function Pad(n: nat, w: nat): string {
    PadStart(Decimal(n), w, '0')
  }

  /** Each field is written as `String(n).padStart(w, "0")`: for a field
      that fits in `w` digits this is its `w`-digit rendering, the form in
      which both layouts below are written. */
  lemma PadIsFixed(n: nat, w: nat)
    requires 1 <= w && n < Pow10(w)
    ensures Pad(n, w) == Fixed(n, w)
  {
    PadStartDecimal(n, w);
  }

  // ---------------------------------------------------------------------
  // Chronology: the number of days, seconds and milliseconds elapsed since
  // the start of year 0, used as the independent meaning of "earlier".

  ghost function DaysBeforeYear(y: nat): nat {
    if y == 0 then 0 else DaysBeforeYear(y - 1) + YearLength(y - 1)
  }

  function DaysBeforeMonth(y: int, m: int): nat
    requires 1 <= m <= 12
  {
    if m == 1 then 0 else DaysBeforeMonth(y, m - 1) + DaysInMonth(y, m - 1)
  }

  ghost function DayNumber(d: DateTime): int
    requires Valid(d)
  {
    DaysBeforeYear(d.year) + DaysBeforeMonth(d.year, d.month) + d.day - 1
  }

  ghost function ElapsedSeconds(d: DateTime): int
    requires Valid(d)
  {
    DayNumber(d) * 86400 + d.hour * 3600 + d.minute * 60 + d.second
  }

  ghost function ElapsedMilliseconds(d: DateTime): int
    requires Valid(d)
  {
    ElapsedSeconds(d) * 1000 + d.millisecond
  }

  lemma {:induction false} DaysBeforeMonthBound(y: int, m: int, m': int)
    requires 1 <= m < m' <= 12
    ensures DaysBeforeMonth(y, m) + DaysInMonth(y, m) <= DaysBeforeMonth(y, m')
  {
    if m' > m + 1 {
      DaysBeforeMonthBound(y, m, m' - 1);
    }
  }

  lemma DaysBeforeMonthInYear(y: int, m: int)
    requires 1 <= m <= 12
    ensures DaysBeforeMonth(y, m) + DaysInMonth(y, m) <= YearLength(y)
  {
    if m < 12 {
      DaysBeforeMonthBound(y, m, 12);
    }
  }

  lemma {:induction false} DaysBeforeYearBound(y: nat, y': nat)
    requires y < y'
    ensures DaysBeforeYear(y) + YearLength(y) <= DaysBeforeYear(y')
  {
    if y' > y + 1 {
      DaysBeforeYearBound(y, y' - 1);
    }
  }

  /** Field-by-field order at one-second resolution: year first, then month,
      day, hour, minute and second. */
  predicate SecondBefore(a: DateTime, b: DateTime) {
    || a.year < b.year
    || (a.year == b.year && a.month < b.month)
    || (a.year == b.year && a.month == b.month && a.day < b.day)
    || (a.year == b.year && a.month == b.month && a.day == b.day && a.hour < b.hour)
    || (a.year == b.year && a.month == b.month && a.day == b.day && a.hour == b.hour
        && a.minute < b.minute)
    || (a.year == b.year && a.month == b.month && a.day == b.day && a.hour == b.hour
        && a.minute == b.minute && a.second < b.second)
  }

  predicate SameSecond(a: DateTime, b: DateTime) {
    && a.year == b.year && a.month == b.month && a.day == b.day
    && a.hour == b.hour && a.minute == b.minute && a.second == b.second
  }

  lemma DayBefore(a: DateTime, b: DateTime)
    requires Valid(a) && Valid(b)
    requires a.year < b.year
      || (a.year == b.year && a.month < b.month)
      || (a.year == b.year && a.month == b.month && a.day < b.day)
    ensures DayNumber(a) < DayNumber(b)
  {
    DaysBeforeMonthInYear(a.year, a.month);
    if a.year < b.year {
      DaysBeforeYearBound(a.year, b.year);
    } else if a.month < b.month {
      DaysBeforeMonthBound(a.year, a.month, b.month);
    }
  }

  /** Field order is elapsed-time order: for valid dates, `a` comes before
      `b` field by field exactly when fewer seconds have elapsed at `a`. */
  lemma SecondBeforeIsChronological(a: DateTime, b: DateTime)
    requires Valid(a) && Valid(b)
    ensures SecondBefore(a, b) <==> ElapsedSeconds(a) < ElapsedSeconds(b)
    ensures SameSecond(a, b) <==> ElapsedSeconds(a) == ElapsedSeconds(b)
  {
    var ta := a.hour * 3600 + a.minute * 60 + a.second;
    var tb := b.hour * 3600 + b.minute * 60 + b.second;
    assert 0 <= ta < 86400 && 0 <= tb < 86400;
    var sameDay := a.year == b.year && a.month == b.month && a.day == b.day;
    if sameDay {
      assert DayNumber(a) == DayNumber(b);
    } else if a.year < b.year || (a.year == b.year && a.month < b.month)
      || (a.year == b.year && a.month == b.month && a.day < b.day) {
      DayBefore(a, b);
    } else {
      DayBefore(b, a);
    }
  }

  // ---------------------------------------------------------------------
  // Layout

  /** Field widths: the year is padded to four digits, milliseconds to
      three, every other field to two. */
  const YEAR_DIGITS: nat := 4
  const FIELD_DIGITS: nat := 2
  const MILLIS_DIGITS: nat := 3

  lemma WidthBounds()
    ensures Pow10(YEAR_DIGITS) == 10000 && Pow10(FIELD_DIGITS) == 100 && Pow10(MILLIS_DIGITS) == 1000
  {
  }

  /** The `w` characters of `r` from index `i` on are decimal digits that
      denote `n`. */
  predicate FieldAt(r: string, i: nat, w: nat, n: int) {
    i + w <= |r| && AllDigits(r[i..i + w]) && ValueOf(r[i..i + w]) == n
  }

  lemma FixedFieldAt(r: string, i: nat, w: nat, n: nat)
    requires n < Pow10(w) && i + w <= |r| && r[i..i + w] == Fixed(n, w)
    ensures FieldAt(r, i, w, n)
  {
    ValueOfFixed(n, w);
  }

  // ---------------------------------------------------------------------
  // formatDateForFilename

  /** `YYYYMMDD_HHMMSS` from local-time fields; milliseconds are not shown.
      Each field is zero-padded to its width (see PadIsFixed). */
  function FormatDateForFilename(d: DateTime): (r: string)
    requires Valid(d)
    ensures |r| == 15 && r[8] == '_'
  {
    WidthBounds();
    Fixed(d.year, YEAR_DIGITS) + Fixed(d.month, FIELD_DIGITS) + Fixed(d.day, FIELD_DIGITS) + "_"
      + Fixed(d.hour, FIELD_DIGITS) + Fixed(d.minute, FIELD_DIGITS) + Fixed(d.second, FIELD_DIGITS)
  }

  /** Where each field of a filename is written. */
  lemma FilenameLayout(d: DateTime)
    requires Valid(d)
    ensures Pow10(YEAR_DIGITS) == 10000 && Pow10(FIELD_DIGITS) == 100
    ensures var r := FormatDateForFilename(d);
      && r[0..4] == Fixed(d.year, YEAR_DIGITS) && r[4..6] == Fixed(d.month, FIELD_DIGITS)
      && r[6..8] == Fixed(d.day, FIELD_DIGITS) && r[9..11] == Fixed(d.hour, FIELD_DIGITS)
      && r[11..13] == Fixed(d.minute, FIELD_DIGITS) && r[13..15] == Fixed(d.second, FIELD_DIGITS)
      && (forall i :: 0 <= i < 15 && i != 8 ==> IsDigit(r[i]))
  {
    WidthBounds();
    FilenameSlices(Fixed(d.year, YEAR_DIGITS), Fixed(d.month, FIELD_DIGITS), Fixed(d.day, FIELD_DIGITS),
                   Fixed(d.hour, FIELD_DIGITS), Fixed(d.minute, FIELD_DIGITS), Fixed(d.second, FIELD_DIGITS));
  }

  /** Every field of a filename sits at its fixed position and reads back as
      the value it was written from; every other position is a digit. */
  lemma FilenameFields(d: DateTime)
    requires Valid(d)
    ensures var r := FormatDateForFilename(d);
      && (forall i :: 0 <= i < 15 && i != 8 ==> IsDigit(r[i]))
      && FieldAt(r, 0, 4, d.year) && FieldAt(r, 4, 2, d.month) && FieldAt(r, 6, 2, d.day)
      && FieldAt(r, 9, 2, d.hour) && FieldAt(r, 11, 2, d.minute) && FieldAt(r, 13, 2, d.second)
  {
    FilenameLayout(d);
    var r := FormatDateForFilename(d);
    FixedFieldAt(r, 0, 4, d.year);
    FixedFieldAt(r, 4, 2, d.month);
    FixedFieldAt(r, 6, 2, d.day);
    FixedFieldAt(r, 9, 2, d.hour);
    FixedFieldAt(r, 11, 2, d.minute);
    FixedFieldAt(r, 13, 2, d.second);
  }

  /** Conversely, a string is the filename of `d` as soon as it has the `_`
      in place and every field slot holds that field's digits. */
  lemma FilenameMatches(d: DateTime, r: string)
    requires Valid(d) && |r| == 15 && r[8] == '_'
    requires DigitsAt(r, 0, d.year, 4) && DigitsAt(r, 4, d.month, 2) && DigitsAt(r, 6, d.day, 2)
    requires DigitsAt(r, 9, d.hour, 2) && DigitsAt(r, 11, d.minute, 2) && DigitsAt(r, 13, d.second, 2)
    ensures FormatDateForFilename(d) == r
  {
    WidthBounds();
    DigitsAtFixed(r, 0, d.year, 4);
    DigitsAtFixed(r, 4, d.month, 2);
    DigitsAtFixed(r, 6, d.day, 2);
    DigitsAtFixed(r, 9, d.hour, 2);
    DigitsAtFixed(r, 11, d.minute, 2);
    DigitsAtFixed(r, 13, d.second, 2);
    FilenameLayout(d);
    SameFilenameLayout(FormatDateForFilename(d), r);
  }

  /** Two 15-character strings with `_` at index 8 that agree on every field are equal. */
  lemma SameFilenameLayout(r: string, s: string)
    requires |r| == 15 && |s| == 15 && r[8] == '_' && s[8] == '_'
    requires r[0..4] == s[0..4] && r[4..6] == s[4..6] && r[6..8] == s[6..8]
    requires r[9..11] == s[9..11] && r[11..13] == s[11..13] && r[13..15] == s[13..15]
    ensures r == s
  {
    forall i | 0 <= i < 15 ensures r[i] == s[i] {
      if i < 4 { assert r[i] == r[0..4][i] && s[i] == s[0..4][i]; }
      else if i < 6 { assert r[i] == r[4..6][i - 4] && s[i] == s[4..6][i - 4]; }
      else if i < 8 { assert r[i] == r[6..8][i - 6] && s[i] == s[6..8][i - 6]; }
      else if 9 <= i < 11 { assert r[i] == r[9..11][i - 9] && s[i] == s[9..11][i - 9]; }
      else if 11 <= i < 13 { assert r[i] == r[11..13][i - 11] && s[i] == s[11..13][i - 11]; }
      else if 13 <= i { assert r[i] == r[13..15][i - 13] && s[i] == s[13..15][i - 13]; }
    }
  }

  /** Where each part of a filename sits. */
  lemma FilenameSlices(y: string, mo: string, da: string, h: string, mi: string, s: string)
    requires |y| == 4 && |mo| == 2 && |da| == 2 && |h| == 2 && |mi| == 2 && |s| == 2
    requires AllDigits(y) && AllDigits(mo) && AllDigits(da) && AllDigits(h) && AllDigits(mi) && AllDigits(s)
    ensures var r := y + mo + da + "_" + h + mi + s;
      && |r| == 15 && r[8] == '_'
      && r[0..4] == y && r[4..6] == mo && r[6..8] == da
      && r[9..11] == h && r[11..13] == mi && r[13..15] == s
      && forall i :: 0 <= i < 15 && i != 8 ==> IsDigit(r[i])
  {
  }

  /** A field below ten is written with a leading zero. */
  lemma FilenamePadsSingleDigits(d: DateTime)
    requires Valid(d)
    ensures var r := FormatDateForFilename(d);
      && (d.month < 10 ==> r[4] == '0') && (d.day < 10 ==> r[6] == '0')
      && (d.hour < 10 ==> r[9] == '0') && (d.minute < 10 ==> r[11] == '0')
      && (d.second < 10 ==> r[13] == '0')
  {
    var r := FormatDateForFilename(d);
    FilenameFields(d);
    LeadingZero(r, 4);
    LeadingZero(r, 6);
    LeadingZero(r, 9);
    LeadingZero(r, 11);
    LeadingZero(r, 13);
  }

  lemma LeadingZero(r: string, i: nat)
    requires i + 2 <= |r| && AllDigits(r[i..i + 2])
    ensures ValueOf(r[i..i + 2]) < 10 ==> r[i] == '0'
  {
    var s := r[i..i + 2];
    var first := s[..1];
    assert s[..|s| - 1] == first;
    assert first[..0] == [] && first[0] == s[0] == r[i];
    assert ValueOf(first) == DigitValue(s[0]);
  }

  /** Sortable filenames: for valid dates, the filename of `a` sorts before
      that of `b` exactly when `a` is earlier than `b` to the second, and the
      two filenames coincide exactly when the dates fall in the same second. */
  lemma FilenameOrderIsChronological(a: DateTime, b: DateTime)
    requires Valid(a) && Valid(b)
    ensures LexLess(FormatDateForFilename(a), FormatDateForFilename(b))
      <==> ElapsedSeconds(a) < ElapsedSeconds(b)
    ensures FormatDateForFilename(a) == FormatDateForFilename(b)
      <==> ElapsedSeconds(a) == ElapsedSeconds(b)
  {
    SecondBeforeIsChronological(a, b);
    FilenameOrderIsFieldOrder(a, b);
  }

  /** The calendar date as the eight-digit number `YYYYMMDD`. */
  function DateDigits(d: DateTime): nat
    requires Valid(d)
  {
    Shift(Shift(d.year, FIELD_DIGITS) + d.month, FIELD_DIGITS) + d.day
  }

  /** The time of day as the six-digit number `HHMMSS`. */
  function TimeDigits(d: DateTime): nat
    requires Valid(d)
  {
    Shift(Shift(d.hour, FIELD_DIGITS) + d.minute, FIELD_DIGITS) + d.second
  }

  const DATE_DIGITS: nat := YEAR_DIGITS + FIELD_DIGITS + FIELD_DIGITS
  const TIME_DIGITS: nat := FIELD_DIGITS + FIELD_DIGITS + FIELD_DIGITS

  /** A filename is the date number and the time number, each at its full
      width, on either side of the `_`. */
  lemma FilenameAsNumbers(d: DateTime)
    requires Valid(d)
    ensures DateDigits(d) < Pow10(DATE_DIGITS) && TimeDigits(d) < Pow10(TIME_DIGITS)
    ensures FormatDateForFilename(d) == Fixed(DateDigits(d), DATE_DIGITS) + "_" + Fixed(TimeDigits(d), TIME_DIGITS)
  {
    WidthBounds();
    var y, mo, da := Fixed(d.year, YEAR_DIGITS), Fixed(d.month, FIELD_DIGITS), Fixed(d.day, FIELD_DIGITS);
    var h, mi, s := Fixed(d.hour, FIELD_DIGITS), Fixed(d.minute, FIELD_DIGITS), Fixed(d.second, FIELD_DIGITS);
    DatePart(d);
    TimePart(d);
    assert y + mo + da + "_" + h + mi + s == (y + mo + da) + "_" + (h + mi + s);
  }

  lemma DatePart(d: DateTime)
    requires Valid(d)
    ensures DateDigits(d) < Pow10(DATE_DIGITS)
    ensures Pow10(YEAR_DIGITS) == 10000 && Pow10(FIELD_DIGITS) == 100
    ensures Fixed(d.year, YEAR_DIGITS) + Fixed(d.month, FIELD_DIGITS) + Fixed(d.day, FIELD_DIGITS)
      == Fixed(DateDigits(d), DATE_DIGITS)
  {
    WidthBounds();
    FixedConcat3(d.year, YEAR_DIGITS, d.month, FIELD_DIGITS, d.day, FIELD_DIGITS, DateDigits(d), DATE_DIGITS);
  }

  lemma TimePart(d: DateTime)
    requires Valid(d)
    ensures TimeDigits(d) < Pow10(TIME_DIGITS)
    ensures Pow10(FIELD_DIGITS) == 100
    ensures Fixed(d.hour, FIELD_DIGITS) + Fixed(d.minute, FIELD_DIGITS) + Fixed(d.second, FIELD_DIGITS)
      == Fixed(TimeDigits(d), TIME_DIGITS)
  {
    WidthBounds();
    FixedConcat3(d.hour, FIELD_DIGITS, d.minute, FIELD_DIGITS, d.second, FIELD_DIGITS, TimeDigits(d), TIME_DIGITS);
  }

  /** Three fixed-width fields side by side are the rendering of the number
      `n` they spell, at the total width `w`. */
  lemma FixedConcat3(a: nat, wa: nat, b: nat, wb: nat, c: nat, wc: nat, n: nat, w: nat)
    requires a < Pow10(wa) && b < Pow10(wb) && c < Pow10(wc)
    requires n == Shift(Shift(a, wb) + b, wc) + c && w == wa + wb + wc
    ensures n < Pow10(w)
    ensures Fixed(a, wa) + Fixed(b, wb) + Fixed(c, wc) == Fixed(n, w)
  {
    FixedConcat(a, wa, b, wb);
    FixedConcat(Shift(a, wb) + b, wa + wb, c, wc);
  }

  /** String order of filenames is field-by-field order of the dates. */
  lemma FilenameOrderIsFieldOrder(a: DateTime, b: DateTime)
    requires Valid(a) && Valid(b)
    ensures LexLess(FormatDateForFilename(a), FormatDateForFilename(b)) <==> SecondBefore(a, b)
    ensures FormatDateForFilename(a) == FormatDateForFilename(b) <==> SameSecond(a, b)
  {
    FilenameAsNumbers(a);
    FilenameAsNumbers(b);
    var da, db := Fixed(DateDigits(a), DATE_DIGITS), Fixed(DateDigits(b), DATE_DIGITS);
    var ta, tb := Fixed(TimeDigits(a), TIME_DIGITS), Fixed(TimeDigits(b), TIME_DIGITS);
    LexLessFixed(DateDigits(a), DateDigits(b), DATE_DIGITS);
    FixedInjective(DateDigits(a), DateDigits(b), DATE_DIGITS);
    LexLessFixed(TimeDigits(a), TimeDigits(b), TIME_DIGITS);
    FixedInjective(TimeDigits(a), TimeDigits(b), TIME_DIGITS);
    LexLessIrreflexive("_");
    Extend(da, "_", db, "_", DateDigits(a) < DateDigits(b), DateDigits(a) == DateDigits(b));
    Extend(da + "_", ta, db + "_", tb, DateDigits(a) < DateDigits(b), DateDigits(a) == DateDigits(b));
    NumberOrder(a, b);
  }

  /** The date and time numbers order dates field by field. */
  lemma NumberOrder(a: DateTime, b: DateTime)
    requires Valid(a) && Valid(b)
    ensures SecondBefore(a, b) <==>
      DateDigits(a) < DateDigits(b) || (DateDigits(a) == DateDigits(b) && TimeDigits(a) < TimeDigits(b))
    ensures SameSecond(a, b) <==> DateDigits(a) == DateDigits(b) && TimeDigits(a) == TimeDigits(b)
  {
    ShiftField(a.year);
    ShiftField(b.year);
    ShiftField(Shift(a.year, FIELD_DIGITS) + a.month);
    ShiftField(Shift(b.year, FIELD_DIGITS) + b.month);
    ShiftField(a.hour);
    ShiftField(b.hour);
    ShiftField(Shift(a.hour, FIELD_DIGITS) + a.minute);
    ShiftField(Shift(b.hour, FIELD_DIGITS) + b.minute);
  }

  lemma ShiftField(n: nat)
    ensures Shift(n, FIELD_DIGITS) == 100 * n
  {
    assert Shift(n, 1) == 10 * n;
  }

  /** One step of a left-to-right comparison: knowing how two prefixes of
      equal length compare, and appending one more part to each. */
  lemma Extend(q: string, c: string, q': string, c': string, less: bool, same: bool)
    requires |q| == |q'|
    requires LexLess(q, q') <==> less
    requires q == q' <==> same
    ensures LexLess(q + c, q' + c') <==> less || (same && LexLess(c, c'))
    ensures q + c == q' + c' <==> same && c == c'
  {
    LexLessConcat(q, c, q', c');
    if q + c == q' + c' {
      assert q == (q + c)[..|q|] && q' == (q' + c')[..|q'|];
      assert c == (q + c)[|q|..] && c' == (q' + c')[|q'|..];
    }
  }

  // ---------------------------------------------------------------------
  // formatDateForJson

  /** `YYYY-MM-DDTHH:MM:SS.sssZ` from UTC fields, as `Date.prototype.toISOString`
      writes a four-digit year. Each field is zero-padded to its width. */
  function FormatDateForJson(d: DateTime): (r: string)
    requires Valid(d)
    ensures |r| == 24 && JsonSeparators(r)
  {
    WidthBounds();
    var y, mo, da := Fixed(d.year, YEAR_DIGITS), Fixed(d.month, FIELD_DIGITS), Fixed(d.day, FIELD_DIGITS);
    var h, mi, s := Fixed(d.hour, FIELD_DIGITS), Fixed(d.minute, FIELD_DIGITS), Fixed(d.second, FIELD_DIGITS);
    var ms := Fixed(d.millisecond, MILLIS_DIGITS);
    JsonSlices(y, mo, da, h, mi, s, ms);
    y + "-" + mo + "-" + da + "T" + h + ":" + mi + ":" + s + "." + ms + "Z"
  }

  /** Where each field of a JSON timestamp is written. */
  lemma JsonLayout(d: DateTime)
    requires Valid(d)
    ensures Pow10(YEAR_DIGITS) == 10000 && Pow10(FIELD_DIGITS) == 100 && Pow10(MILLIS_DIGITS) == 1000
    ensures var r := FormatDateForJson(d);
      && r[0..4] == Fixed(d.year, YEAR_DIGITS) && r[5..7] == Fixed(d.month, FIELD_DIGITS)
      && r[8..10] == Fixed(d.day, FIELD_DIGITS) && r[11..13] == Fixed(d.hour, FIELD_DIGITS)
      && r[14..16] == Fixed(d.minute, FIELD_DIGITS) && r[17..19] == Fixed(d.second, FIELD_DIGITS)
      && r[20..23] == Fixed(d.millisecond, MILLIS_DIGITS)
  {
    WidthBounds();
    JsonSlices(Fixed(d.year, YEAR_DIGITS), Fixed(d.month, FIELD_DIGITS), Fixed(d.day, FIELD_DIGITS),
               Fixed(d.hour, FIELD_DIGITS), Fixed(d.minute, FIELD_DIGITS), Fixed(d.second, FIELD_DIGITS),
               Fixed(d.millisecond, MILLIS_DIGITS));
  }

  /** Every field of a JSON timestamp sits at its fixed position and reads
      back as the value it was written from. */
  lemma JsonFields(d: DateTime)
    requires Valid(d)
    ensures var r := FormatDateForJson(d);
      && FieldAt(r, 0, 4, d.year) && FieldAt(r, 5, 2, d.month) && FieldAt(r, 8, 2, d.day)
      && FieldAt(r, 11, 2, d.hour) && FieldAt(r, 14, 2, d.minute) && FieldAt(r, 17, 2, d.second)
      && FieldAt(r, 20, 3, d.millisecond)
  {
    JsonLayout(d);
    var r := FormatDateForJson(d);
    FixedFieldAt(r, 0, 4, d.year);
    FixedFieldAt(r, 5, 2, d.month);
    FixedFieldAt(r, 8, 2, d.day);
    FixedFieldAt(r, 11, 2, d.hour);
    FixedFieldAt(r, 14, 2, d.minute);
    FixedFieldAt(r, 17, 2, d.second);
    FixedFieldAt(r, 20, 3, d.millisecond);
  }

  /** Conversely, a string is the JSON timestamp of `d` as soon as it has
      the punctuation in place and every field slot holds that field's digits. */
  lemma JsonMatches(d: DateTime, r: string)
    requires Valid(d) && JsonSeparators(r)
    requires DigitsAt(r, 0, d.year, 4) && DigitsAt(r, 5, d.month, 2) && DigitsAt(r, 8, d.day, 2)
    requires DigitsAt(r, 11, d.hour, 2) && DigitsAt(r, 14, d.minute, 2) && DigitsAt(r, 17, d.second, 2)
    requires DigitsAt(r, 20, d.millisecond, 3)
    ensures FormatDateForJson(d) == r
  {
    WidthBounds();
    DigitsAtFixed(r, 0, d.year, 4);
    DigitsAtFixed(r, 5, d.month, 2);
    DigitsAtFixed(r, 8, d.day, 2);
    DigitsAtFixed(r, 11, d.hour, 2);
    DigitsAtFixed(r, 14, d.minute, 2);
    DigitsAtFixed(r, 17, d.second, 2);
    DigitsAtFixed(r, 20, d.millisecond, 3);
    JsonLayout(d);
    SameJsonLayout(FormatDateForJson(d), r);
  }

  /** The fixed punctuation of the extended format. */
  predicate JsonSeparators(r: string) {
    && |r| == 24
    && r[4] == '-' && r[7] == '-' && r[10] == 'T' && r[13] == ':' && r[16] == ':'
    && r[19] == '.' && r[23] == 'Z'
  }

  /** Where each part of a JSON timestamp sits. */
  lemma JsonSlices(y: string, mo: string, da: string, h: string, mi: string, s: string, ms: string)
    requires |y| == 4 && |mo| == 2 && |da| == 2 && |h| == 2 && |mi| == 2 && |s| == 2 && |ms| == 3
    ensures var r := y + "-" + mo + "-" + da + "T" + h + ":" + mi + ":" + s + "." + ms + "Z";
      && |r| == 24 && JsonSeparators(r)
      && r[0..4] == y && r[5..7] == mo && r[8..10] == da
      && r[11..13] == h && r[14..16] == mi && r[17..19] == s && r[20..23] == ms
  {
  }

  /** Reading back a string in the exact layout `formatDateForJson` writes;
      anything else, including a calendar date that does not exist, is `None`. */
  function ParseJsonDate(s: string): Text.Option<DateTime> {
    if |s| == 24 && JsonSeparators(s)
      && AllDigits(s[0..4]) && AllDigits(s[5..7]) && AllDigits(s[8..10]) && AllDigits(s[11..13])
      && AllDigits(s[14..16]) && AllDigits(s[17..19]) && AllDigits(s[20..23])
    then
      var d := DateTime(
        ValueOf(s[0..4]), ValueOf(s[5..7]), ValueOf(s[8..10]),
        ValueOf(s[11..13]), ValueOf(s[14..16]), ValueOf(s[17..19]), ValueOf(s[20..23]));
      if Valid(d) then Text.Some(d) else Text.None
    else Text.None
  }

  /** The JSON timestamp reads back as the very fields it was written from,
      and so as the same instant. */
  lemma JsonRoundTrip(d: DateTime)
    requires Valid(d)
    ensures ParseJsonDate(FormatDateForJson(d)) == Text.Some(d)
    ensures ElapsedMilliseconds(ParseJsonDate(FormatDateForJson(d)).value) == ElapsedMilliseconds(d)
  {
    JsonFields(d);
  }

  /** Every string the reader accepts is exactly what the formatter writes
      for the fields it yields. */
  lemma JsonCanonical(s: string, d: DateTime)
    requires ParseJsonDate(s) == Text.Some(d)
    ensures Valid(d) && FormatDateForJson(d) == s
  {
    var r := FormatDateForJson(d);
    JsonFields(d);
    FixedValueOf(s[0..4]);
    FixedValueOf(s[5..7]);
    FixedValueOf(s[8..10]);
    FixedValueOf(s[11..13]);
    FixedValueOf(s[14..16]);
    FixedValueOf(s[17..19]);
    FixedValueOf(s[20..23]);
    FixedValueOf(r[0..4]);
    FixedValueOf(r[5..7]);
    FixedValueOf(r[8..10]);
    FixedValueOf(r[11..13]);
    FixedValueOf(r[14..16]);
    FixedValueOf(r[17..19]);
    FixedValueOf(r[20..23]);
    SameJsonLayout(r, s);
  }

  /** Two strings with the JSON punctuation that agree on every field are equal. */
  lemma SameJsonLayout(r: string, s: string)
    requires JsonSeparators(r) && JsonSeparators(s)
    requires r[0..4] == s[0..4] && r[5..7] == s[5..7] && r[8..10] == s[8..10]
    requires r[11..13] == s[11..13] && r[14..16] == s[14..16] && r[17..19] == s[17..19]
    requires r[20..23] == s[20..23]
    ensures r == s
  {
    forall i | 0 <= i < 24 ensures r[i] == s[i] {
      if i < 4 { assert r[i] == r[0..4][i] && s[i] == s[0..4][i]; }
      else if 5 <= i < 7 { assert r[i] == r[5..7][i - 5] && s[i] == s[5..7][i - 5]; }
      else if 8 <= i < 10 { assert r[i] == r[8..10][i - 8] && s[i] == s[8..10][i - 8]; }
      else if 11 <= i < 13 { assert r[i] == r[11..13][i - 11] && s[i] == s[11..13][i - 11]; }
      else if 14 <= i < 16 { assert r[i] == r[14..16][i - 14] && s[i] == s[14..16][i - 14]; }
      else if 17 <= i < 19 { assert r[i] == r[17..19][i - 17] && s[i] == s[17..19][i - 17]; }
      else if 20 <= i < 23 { assert r[i] == r[20..23][i - 20] && s[i] == s[20..23][i - 20]; }
    }
  }
}
