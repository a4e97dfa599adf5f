/** The documented behaviour of the two timestamp formatters on concrete
    dates. Months are written 1-12 here, where JavaScript's `Date`
    constructor counts them from 0. */
module DateFormattingExamples {
  import opened Digits
  import opened DateFormatting

  /** January 5th, 2025, 09:05:03: every single-digit field gets a leading zero. */
  lemma PadsSingleDigitFields()
    ensures FormatDateForFilename(DateTime(2025, 1, 5, 9, 5, 3, 0)) == "20250105_090503"
  {
    FilenameMatches(DateTime(2025, 1, 5, 9, 5, 3, 0), "20250105_090503");
  }

  lemma FormatsMidnight()
    ensures FormatDateForFilename(DateTime(2025, 6, 15, 0, 0, 0, 0)) == "20250615_000000"
  {
    FilenameMatches(DateTime(2025, 6, 15, 0, 0, 0, 0), "20250615_000000");
  }

  lemma FormatsEndOfDay()
    ensures FormatDateForFilename(DateTime(2025, 12, 31, 23, 59, 59, 0)) == "20251231_235959"
  {
    FilenameMatches(DateTime(2025, 12, 31, 23, 59, 59, 0), "20251231_235959");
  }

  /** February 29th exists in 2024 (and not in 2023). */
  lemma FormatsLeapDay()
    ensures Valid(DateTime(2024, 2, 29, 12, 30, 0, 0)) && !Valid(DateTime(2023, 2, 29, 12, 30, 0, 0))
    ensures FormatDateForFilename(DateTime(2024, 2, 29, 12, 30, 0, 0)) == "20240229_123000"
  {
    FilenameMatches(DateTime(2024, 2, 29, 12, 30, 0, 0), "20240229_123000");
  }

  lemma FormatsYear2000()
    ensures FormatDateForFilename(DateTime(2000, 1, 1, 0, 0, 0, 0)) == "20000101_000000"
  {
    FilenameMatches(DateTime(2000, 1, 1, 0, 0, 0, 0), "20000101_000000");
  }

  /** Sorting the filenames of June 15th 10:30, June 14th 10:30 and June 15th
      09:30 as strings puts them in chronological order. */
  lemma SortsChronologically()
    ensures var a, b, c := DateTime(2025, 6, 15, 10, 30, 0, 0), DateTime(2025, 6, 14, 10, 30, 0, 0),
                           DateTime(2025, 6, 15, 9, 30, 0, 0);
      && LexLess(FormatDateForFilename(b), FormatDateForFilename(c))
      && LexLess(FormatDateForFilename(c), FormatDateForFilename(a))
      && ElapsedSeconds(b) < ElapsedSeconds(c) < ElapsedSeconds(a)
  {
    var a, b, c := DateTime(2025, 6, 15, 10, 30, 0, 0), DateTime(2025, 6, 14, 10, 30, 0, 0),
                   DateTime(2025, 6, 15, 9, 30, 0, 0);
    FilenameOrderIsChronological(b, c);
    FilenameOrderIsChronological(c, a);
    FilenameOrderIsFieldOrder(b, c);
    FilenameOrderIsFieldOrder(c, a);
  }

  lemma FormatsIsoString()
    ensures FormatDateForJson(DateTime(2025, 3, 15, 14, 30, 45, 0)) == "2025-03-15T14:30:45.000Z"
  {
    JsonMatches(DateTime(2025, 3, 15, 14, 30, 45, 0), "2025-03-15T14:30:45.000Z");
  }

  /** The milliseconds appear as the three digits before the final `Z`. */
  lemma IncludesMilliseconds()
    ensures FormatDateForJson(DateTime(2025, 3, 15, 14, 30, 45, 123))[19..] == ".123Z"
  {
    JsonMatches(DateTime(2025, 3, 15, 14, 30, 45, 123), "2025-03-15T14:30:45.123Z");
  }

  /** The Unix epoch, 1970-01-01 00:00:00.000 UTC. */
  lemma FormatsEpoch()
    ensures FormatDateForJson(DateTime(1970, 1, 1, 0, 0, 0, 0)) == "1970-01-01T00:00:00.000Z"
  {
    JsonMatches(DateTime(1970, 1, 1, 0, 0, 0, 0), "1970-01-01T00:00:00.000Z");
  }

  lemma FormatsFarFuture()
    ensures FormatDateForJson(DateTime(2099, 12, 31, 23, 59, 59, 999)) == "2099-12-31T23:59:59.999Z"
  {
    JsonMatches(DateTime(2099, 12, 31, 23, 59, 59, 999), "2099-12-31T23:59:59.999Z");
  }

  /** 2025-06-20T08:15:30.500Z reads back as the same instant. */
  lemma ParsesBackToSameInstant()
    ensures var d := DateTime(2025, 6, 20, 8, 15, 30, 500);
      && ParseJsonDate(FormatDateForJson(d)).Some?
      && ElapsedMilliseconds(ParseJsonDate(FormatDateForJson(d)).value) == ElapsedMilliseconds(d)
  {
    JsonRoundTrip(DateTime(2025, 6, 20, 8, 15, 30, 500));
  }
}
