/**
 * `formatDate` of the news section: how long ago an item was published,
 * in whole days, rendered as a time of day, "yesterday", "n days ago" or a
 * calendar date. Dates are millisecond timestamps; an unparseable date is
 * `None`. The two `Intl.DateTimeFormat` renderings are parameters.
 */
module NewsDates {
  import opened Options
  import opened JsStrings

  const MsPerDay: int := 1000 * 60 * 60 * 24

  /** `Math.floor(diffMs / MsPerDay)`: whole days elapsed, rounded towards minus infinity. */
  function DiffDays(now: int, date: int): (d: int)
    ensures d * MsPerDay <= now - date < (d + 1) * MsPerDay
  {
    (now - date) / MsPerDay
  }

  /** The `Intl` locale of the news section: Turkish for "tr", British English otherwise. */
  function DateLocale(uiLocale: string): (r: string)
    ensures r == "tr-TR" <==> uiLocale == "tr"
    ensures r == "tr-TR" || r == "en-GB"
  {
    if uiLocale == "tr" then "tr-TR" else "en-GB"
  }

  /** "n days ago", in Turkish or in English. */
  function DaysAgo(locale: string, n: int): string {
    if locale == "tr-TR" then IntToString(n) + " g\U{00FC}n \U{00F6}nce" else IntToString(n) + " days ago"
  }

  /**
   * The relative date. `timeShort` and `dayMonthYear` stand for the
   * `timeStyle: "short"` and the day-month-year formats of the locale.
   */
  function FormatDate(date: Option<int>, now: int, locale: string,
                      timeShort: int -> string, dayMonthYear: int -> string): (r: string)
    ensures date.None? ==> r == ""
    ensures date.Some? && 0 <= now - date.value < MsPerDay ==> r == timeShort(date.value)
    ensures date.Some? && MsPerDay <= now - date.value < 2 * MsPerDay ==>
              r == (if locale == "tr-TR" then "D\U{00FC}n" else "Yesterday")
    ensures date.Some? && (now - date.value < 0 || 2 * MsPerDay <= now - date.value < 7 * MsPerDay) ==>
              r == DaysAgo(locale, DiffDays(now, date.value))
    ensures date.Some? && now - date.value >= 7 * MsPerDay ==> r == dayMonthYear(date.value)
  {
    match date
    case None => ""
    case Some(d) =>
      var diffDays := DiffDays(now, d);
      if diffDays == 0 then timeShort(d)
      else if diffDays == 1 then (if locale == "tr-TR" then "D\U{00FC}n" else "Yesterday")
      else if diffDays < 7 then DaysAgo(locale, diffDays)
      else dayMonthYear(d)
  }

  /**
   * A date in the future falls in the "n days ago" bucket with a negative
   * count, so its text starts with a minus sign.
   */
  lemma FutureDateReadsNegative(date: int, now: int, locale: string,
                                timeShort: int -> string, dayMonthYear: int -> string)
    requires date > now
    ensures var r := FormatDate(Some(date), now, locale, timeShort, dayMonthYear);
            r != [] && r[0] == '-'
  {
    var n := DiffDays(now, date);
    assert n < 0;
    var digits := IntToString(n);
    assert digits[0] == '-';
    if locale == "tr-TR" {
      assert DaysAgo(locale, n)[0] == digits[0];
    } else {
      assert DaysAgo(locale, n)[0] == digits[0];
    }
  }

  /** Between two and six whole days back the text is the day count followed by the words. */
  lemma DaysAgoNamesTheCount(date: int, now: int, timeShort: int -> string, dayMonthYear: int -> string)
    requires 2 * MsPerDay <= now - date < 7 * MsPerDay
    ensures var n := (now - date) / MsPerDay;
            2 <= n < 7
            && FormatDate(Some(date), now, "en-GB", timeShort, dayMonthYear) == [DigitChar(n)] + " days ago"
  {
    var n := DiffDays(now, date);
    assert 2 <= n < 7;
  }
}
