/**
 * The list filter that both GetAllUsers handlers build from query strings:
 * an OR of case-insensitive matches for `search`, a createdAt range from
 * `startDate`/`endDate` (RFC 3339 section 5.6 full-date, parsed with the Go
 * layout "2006-01-02", the end extended by 24 hours), and exact matches for
 * `isAdmin`/`isVerified` when strconv.ParseBool accepts them. All keys sit in
 * one filter document, so they combine by AND.
 */
module Filter {
  import opened Common
  import opened UserModel

  const DAY: int := 24 * 60 * 60

  // ---------------------------------------------------------------
  // strconv.ParseBool
  // ---------------------------------------------------------------

  function ParseBool(s: string): (r: Option<bool>)
    ensures r == Some(true) <==> s in {"1", "t", "T", "TRUE", "true", "True"}
    ensures r == Some(false) <==> s in {"0", "f", "F", "FALSE", "false", "False"}
  {
    if s in {"1", "t", "T", "TRUE", "true", "True"} then Some(true)
    else if s in {"0", "f", "F", "FALSE", "false", "False"} then Some(false)
    else None
  }

  // ---------------------------------------------------------------
  // full-date = date-fullyear "-" date-month "-" date-mday
  // ---------------------------------------------------------------

  predicate IsLeapYear(y: int) { y % 4 == 0 && (y % 100 != 0 || y % 400 == 0) }

  function DaysIn(month: int, year: int): int
    requires 1 <= month <= 12
  {
    if month == 2 then (if IsLeapYear(year) then 29 else 28)
    else if month in {4, 6, 9, 11} then 30
    else 31
  }

  /** Days in the months of `year` before `month`. */
  function DaysBeforeMonth(month: int, year: int): nat
    requires 1 <= month <= 12
  {
    if month == 1 then 0 else DaysBeforeMonth(month - 1, year) + DaysIn(month - 1, year)
  }

  /** Leap years among 0000 .. year-1 (the proleptic Gregorian calendar counts 0000). */
  function LeapYearsBefore(year: nat): nat
  {
    if year == 0 then 0 else (year - 1) / 4 - (year - 1) / 100 + (year - 1) / 400 + 1
  }

  /** Days from 0000-01-01 to the given date. */
  function DayNumber(year: nat, month: int, day: int): int
    requires 1 <= month <= 12
  {
    365 * year + LeapYearsBefore(year) + DaysBeforeMonth(month, year) + day - 1
  }

  /** DayNumber(1970, 1, 1). */
  const EPOCH_DAY: int := 719528

  predicate IsDate(year: int, month: int, day: int)
  {
    0 <= year <= 9999 && 1 <= month <= 12 && 1 <= day <= DaysIn(month, year)
  }

  /** The instant 00:00:00 UTC that starts the given day, in Unix seconds. */
  function Midnight(year: int, month: int, day: int): Time
    requires IsDate(year, month, day)
  {
    (DayNumber(year, month, day) - EPOCH_DAY) * DAY
  }

  /** time.Parse("2006-01-02", s): four-digit year, two-digit month in
      1..12, two-digit day within the month, nothing after; the result is
      midnight UTC. */
  function ParseFullDate(s: string): (r: Option<Time>)
    ensures r.Some? ==> |s| == 10 && s[4] == '-' && s[7] == '-'
  {
    if |s| == 10 && s[4] == '-' && s[7] == '-'
       && AllDigits(s[0..4]) && AllDigits(s[5..7]) && AllDigits(s[8..10])
    then
      var y, m, d := DecimalValue(s[0..4]), DecimalValue(s[5..7]), DecimalValue(s[8..10]);
      DecimalValueBound(s[0..4]);
      assert Pow10(4) == 10000;
      if 1 <= m <= 12 && 1 <= d <= DaysIn(m, y) then Some(Midnight(y, m, d)) else None
    else None
  }

  /** A number below 10^width, written with exactly `width` digits. */
  function PadDigits(n: nat, width: nat): (r: string)
    ensures |r| == width && AllDigits(r)
  {
    if width == 0 then [] else PadDigits(n / 10, width - 1) + [DigitChar(n % 10)]
  }

  lemma {:induction false} PadDigitsValue(n: nat, width: nat)
    requires n < Pow10(width)
    ensures DecimalValue(PadDigits(n, width)) == n
  {
    if width > 0 {
      var s := PadDigits(n, width);
      assert s[..|s| - 1] == PadDigits(n / 10, width - 1);
      PadDigitsValue(n / 10, width - 1);
    }
  }

  /** The full-date text of a calendar date. */
  function FormatFullDate(year: nat, month: nat, day: nat): string
  {
    PadDigits(year, 4) + "-" + PadDigits(month, 2) + "-" + PadDigits(day, 2)
  }

  /** Every calendar date of years 0000..9999 is accepted, and read back as
      the midnight that starts it. */
  lemma ParseFormattedDate(year: nat, month: nat, day: nat)
    requires IsDate(year, month, day)
    ensures ParseFullDate(FormatFullDate(year, month, day)) == Some(Midnight(year, month, day))
  {
    var s := FormatFullDate(year, month, day);
    assert s[0..4] == PadDigits(year, 4);
    assert s[5..7] == PadDigits(month, 2);
    assert s[8..10] == PadDigits(day, 2);
    PadDigitsValue(year, 4);
    PadDigitsValue(month, 2);
    PadDigitsValue(day, 2);
  }

  /** Writing back the value of k digits with k digits gives them back. */
  lemma {:induction false} PadDecimalValue(t: string)
    requires AllDigits(t)
    ensures PadDigits(DecimalValue(t), |t|) == t
  {
    if t != [] {
      var init := t[..|t| - 1];
      PadDecimalValue(init);
      var n := DecimalValue(t);
      assert n / 10 == DecimalValue(init) && n % 10 == DigitValue(t[|t| - 1]);
      assert DigitChar(n % 10) == t[|t| - 1];
      assert t == init + [t[|t| - 1]];
    }
  }

  /** The year, month and day an accepted text spells, and its value. */
  lemma ParsedDateFields(s: string) returns (y: nat, m: nat, d: nat)
    requires ParseFullDate(s).Some?
    ensures |s| == 10 && s[4] == '-' && s[7] == '-'
    ensures AllDigits(s[0..4]) && AllDigits(s[5..7]) && AllDigits(s[8..10])
    ensures y == DecimalValue(s[0..4]) && m == DecimalValue(s[5..7]) && d == DecimalValue(s[8..10])
    ensures IsDate(y, m, d) && ParseFullDate(s).value == Midnight(y, m, d)
  {
    y, m, d := DecimalValue(s[0..4]), DecimalValue(s[5..7]), DecimalValue(s[8..10]);
    DecimalValueBound(s[0..4]);
  }

  /** A text of the layout's shape is the full-date of the numbers it spells. */
  lemma DigitsFormatBack(s: string)
    requires |s| == 10 && s[4] == '-' && s[7] == '-'
    requires AllDigits(s[0..4]) && AllDigits(s[5..7]) && AllDigits(s[8..10])
    ensures s == FormatFullDate(DecimalValue(s[0..4]), DecimalValue(s[5..7]), DecimalValue(s[8..10]))
  {
    PadDecimalValue(s[0..4]);
    PadDecimalValue(s[5..7]);
    PadDecimalValue(s[8..10]);
    assert s == s[0..4] + "-" + s[5..7] + "-" + s[8..10];
  }

  /** The layout accepts exactly the full-date texts of the calendar dates
      of years 0000..9999, each read as the midnight that starts it. */
  lemma ParseFullDateExactly(s: string, t: Time)
    ensures ParseFullDate(s) == Some(t) <==>
      exists y: nat, m: nat, d: nat :: IsDate(y, m, d) && s == FormatFullDate(y, m, d) && t == Midnight(y, m, d)
  {
    if ParseFullDate(s) == Some(t) {
      var y, m, d := ParsedDateFields(s);
      DigitsFormatBack(s);
      assert IsDate(y, m, d) && s == FormatFullDate(y, m, d) && t == Midnight(y, m, d);
    }
    forall y: nat, m: nat, d: nat | IsDate(y, m, d) && s == FormatFullDate(y, m, d) && t == Midnight(y, m, d)
      ensures ParseFullDate(s) == Some(t)
    {
      ParseFormattedDate(y, m, d);
    }
  }

  /** Consecutive days of a month start 24 hours apart. */
  lemma NextDayMidnight(year: int, month: int, day: int)
    requires IsDate(year, month, day) && IsDate(year, month, day + 1)
    ensures Midnight(year, month, day + 1) == Midnight(year, month, day) + DAY
  {
  }

  // ---------------------------------------------------------------
  // Case-insensitive search
  // ---------------------------------------------------------------

  /** `needle` occurs in `hay` at some position. */
  predicate IsSubstring(needle: string, hay: string)
    decreases |hay|
  {
    |needle| <= |hay| && (hay[..|needle|] == needle || IsSubstring(needle, hay[1..]))
  }

  /** The `$regex` with option "i", read as a literal, case-insensitive substring test. */
  predicate ContainsFold(hay: string, needle: string)
  {
    IsSubstring(ToLower(needle), ToLower(hay))
  }

  lemma {:induction false} SubstringAt(needle: string, hay: string, k: nat)
    requires k + |needle| <= |hay| && hay[k..k + |needle|] == needle
    ensures IsSubstring(needle, hay)
    decreases k
  {
    if k > 0 {
      assert hay[1..][k - 1..k - 1 + |needle|] == needle;
      SubstringAt(needle, hay[1..], k - 1);
    }
  }

  lemma EmptyIsSubstring(hay: string)
    ensures IsSubstring("", hay)
  {
    SubstringAt("", hay, 0);
  }

  // ---------------------------------------------------------------
  // The filter document
  // ---------------------------------------------------------------

  /** The keys of the bson.M filter: `$or`, `createdAt` ($gte / $lte),
      `isAdmin`, `isVerified`. */
  datatype Filter = Filter(
    search: Option<string>,
    createdFrom: Option<Time>,
    createdTo: Option<Time>,
    isAdmin: Option<bool>,
    isVerified: Option<bool>)

  const MATCH_ALL: Filter := Filter(None, None, None, None, None)

  predicate Matches(f: Filter, u: User)
  {
    && (f.search.None? ||
        ContainsFold(u.firstName, f.search.value) ||
        ContainsFold(u.lastName, f.search.value) ||
        ContainsFold(u.email, f.search.value))
    && (f.createdFrom.None? || u.createdAt >= f.createdFrom.value)
    && (f.createdTo.None? || u.createdAt <= f.createdTo.value)
    && (f.isAdmin.None? || u.isAdmin == f.isAdmin.value)
    && (f.isVerified.None? || u.isVerified == f.isVerified.value)
  }

  /** The query strings the handlers read (`c.Query` gives "" when absent). */
  datatype ListQuery = ListQuery(
    search: string,
    startDate: string,
    endDate: string,
    isAdmin: string,
    isVerified: string)

  /** The filter construction of both GetAllUsers handlers. */
  function BuildFilter(q: ListQuery): (f: Filter)
    ensures f.search.Some? <==> q.search != ""
    ensures f.createdFrom.Some? <==> ParseFullDate(q.startDate).Some?
    ensures f.createdTo.Some? <==> ParseFullDate(q.endDate).Some?
    ensures f.isAdmin.Some? <==> ParseBool(q.isAdmin).Some?
    ensures f.isVerified.Some? <==> ParseBool(q.isVerified).Some?
    ensures f.search.Some? ==> f.search.value == q.search
    ensures f.createdFrom == ParseFullDate(q.startDate)
    ensures f.createdTo.Some? ==> f.createdTo.value == ParseFullDate(q.endDate).value + DAY
    ensures f.isAdmin == ParseBool(q.isAdmin) && f.isVerified == ParseBool(q.isVerified)
  {
    Filter(
      if q.search != "" then Some(q.search) else None,
      ParseFullDate(q.startDate),
      match ParseFullDate(q.endDate)
      case None => None
      case Some(end) => Some(end + DAY),
      ParseBool(q.isAdmin),
      ParseBool(q.isVerified))
  }

  /** With no usable query value the filter is empty and admits every record. */
  lemma EmptyQueryMatchesAll(q: ListQuery, u: User)
    requires q.search == ""
    requires ParseFullDate(q.startDate).None? && ParseFullDate(q.endDate).None?
    requires ParseBool(q.isAdmin).None? && ParseBool(q.isVerified).None?
    ensures BuildFilter(q) == MATCH_ALL && Matches(BuildFilter(q), u)
  {
  }

  /** A date or flag value that does not parse is dropped silently: the
      filter is the same as with the value left out. */
  lemma UnparsedValuesIgnored(q: ListQuery)
    ensures ParseFullDate(q.startDate).None? ==> BuildFilter(q) == BuildFilter(q.(startDate := ""))
    ensures ParseFullDate(q.endDate).None? ==> BuildFilter(q) == BuildFilter(q.(endDate := ""))
    ensures ParseBool(q.isAdmin).None? ==> BuildFilter(q) == BuildFilter(q.(isAdmin := ""))
    ensures ParseBool(q.isVerified).None? ==> BuildFilter(q) == BuildFilter(q.(isVerified := ""))
  {
    assert ParseFullDate("").None?;
  }

  /** An endDate bound admits every record created up to the midnight that
      ends that day, that midnight included (the bound is `$lte`). */
  lemma EndDateBound(q: ListQuery, year: nat, month: nat, day: nat, u: User)
    requires IsDate(year, month, day)
    requires q == ListQuery("", "", FormatFullDate(year, month, day), "", "")
    ensures Matches(BuildFilter(q), u) <==> u.createdAt <= Midnight(year, month, day) + DAY
  {
    ParseFormattedDate(year, month, day);
  }

  /** A startDate bound admits every record created at or after the midnight
      that starts that day. */
  lemma StartDateBound(q: ListQuery, year: nat, month: nat, day: nat, u: User)
    requires IsDate(year, month, day)
    requires q == ListQuery("", FormatFullDate(year, month, day), "", "", "")
    ensures Matches(BuildFilter(q), u) <==> u.createdAt >= Midnight(year, month, day)
  {
    ParseFormattedDate(year, month, day);
  }

  /** Each flag is an exact match that is ANDed with the rest of the
      filter: a record passes exactly when it passes the filter without
      that flag and, if the flag's text parses, holds that value. */
  lemma FlagFiltersMatchExactly(q: ListQuery, u: User)
    ensures Matches(BuildFilter(q), u) <==>
      Matches(BuildFilter(q.(isAdmin := "")), u) &&
      (ParseBool(q.isAdmin).Some? ==> u.isAdmin == ParseBool(q.isAdmin).value)
    ensures Matches(BuildFilter(q), u) <==>
      Matches(BuildFilter(q.(isVerified := "")), u) &&
      (ParseBool(q.isVerified).Some? ==> u.isVerified == ParseBool(q.isVerified).value)
  {
  }

  /** Each date bound is ANDed with the rest of the filter: a record passes
      exactly when it passes the filter without that bound and was created
      no earlier than the start date's midnight, or no later than 24 hours
      after the end date's midnight. */
  lemma DateFiltersBound(q: ListQuery, u: User)
    ensures Matches(BuildFilter(q), u) <==>
      Matches(BuildFilter(q.(startDate := "")), u) &&
      (ParseFullDate(q.startDate).Some? ==> u.createdAt >= ParseFullDate(q.startDate).value)
    ensures Matches(BuildFilter(q), u) <==>
      Matches(BuildFilter(q.(endDate := "")), u) &&
      (ParseFullDate(q.endDate).Some? ==> u.createdAt <= ParseFullDate(q.endDate).value + DAY)
  {
    assert ParseFullDate("").None?;
  }

  /** A search term matches a record exactly when it occurs, ignoring ASCII
      case, in its first name, last name or email; every other constraint
      left empty. */
  lemma SearchIsCaseInsensitive(q: ListQuery, u: User)
    requires q.search != ""
    requires ParseFullDate(q.startDate).None? && ParseFullDate(q.endDate).None?
    requires ParseBool(q.isAdmin).None? && ParseBool(q.isVerified).None?
    ensures Matches(BuildFilter(q), u) <==>
      IsSubstring(ToLower(q.search), ToLower(u.firstName)) ||
      IsSubstring(ToLower(q.search), ToLower(u.lastName)) ||
      IsSubstring(ToLower(q.search), ToLower(u.email))
    ensures Matches(BuildFilter(q), u) <==> Matches(BuildFilter(q.(search := ToLower(q.search))), u)
  {
    LowerIdempotent(q.search);
  }
}
