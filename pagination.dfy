/**
 * Page parameters (internal/common/pagination/pagination.go) and the
 * integer parsing they rely on: strconv.Atoi, with the value it returns
 * alongside an error, and gin's DefaultQuery.
 */
module Pagination {
  import opened Common

  const MAX_UINT64: int := 0xFFFF_FFFF_FFFF_FFFF

  // ---------------------------------------------------------------
  // strconv.Atoi
  // ---------------------------------------------------------------

  /** The unsigned magnitude read so far, or the first failure met. */
  datatype Scan = Value(n: nat) | SyntaxError | RangeError

  /** The decimal digit loop of strconv.ParseUint with 64 bits, continuing
      from the value `acc` of the digits already read: the first non-digit
      is a syntax error, and the first digit that takes the value past the
      64-bit range is a range error, whichever comes first. */
  function ScanDigits(s: string, acc: nat): Scan
  {
    if s == [] then Value(acc)
    else if !IsDigit(s[0]) then SyntaxError
    else if acc * 10 + DigitValue(s[0]) > MAX_UINT64 then RangeError
    else ScanDigits(s[1..], acc * 10 + DigitValue(s[0]))
  }

  /** strconv.Atoi: the value and whether there was no error. On a syntax
      error the value is 0; on a range error it is the int64 bound on the
      side of the sign. */
  function Atoi(s: string): (r: (int, bool))
    ensures IsInt64(r.0)
    ensures !r.1 ==> r.0 == 0 || r.0 == MIN_INT64 || r.0 == MAX_INT64
    ensures r.1 ==> |s| > 0 && (IsDigit(s[0]) || s[0] == '+' || s[0] == '-')
  {
    var negative := |s| > 0 && s[0] == '-';
    var digits := if |s| > 0 && (s[0] == '-' || s[0] == '+') then s[1..] else s;
    if digits == [] then (0, false)
    else match ScanDigits(digits, 0)
      case SyntaxError => (0, false)
      case RangeError => (if negative then MIN_INT64 else MAX_INT64, false)
      case Value(u) =>
        if !negative && u > MAX_INT64 then (MAX_INT64, false)
        else if negative && u > -MIN_INT64 then (MIN_INT64, false)
        else (if negative then -(u as int) else u as int, true)
  }

  /** A leading digit contributes its value times the weight of its place. */
  lemma {:induction false} DecimalValueCons(c: char, t: string)
    requires IsDigit(c) && AllDigits(t)
    ensures AllDigits([c] + t)
    ensures DecimalValue([c] + t) == DigitValue(c) * Pow10(|t|) + DecimalValue(t)
  {
    var s := [c] + t;
    assert forall i :: 0 <= i < |s| ==> s[i] == if i == 0 then c else t[i - 1];
    if t != [] {
      var t' := t[..|t| - 1];
      assert s[..|s| - 1] == [c] + t';
      assert s[|s| - 1] == t[|t| - 1];
      DecimalValueCons(c, t');
      var d, e := DigitValue(c), DigitValue(t[|t| - 1]);
      assert DecimalValue(s) == DecimalValue([c] + t') * 10 + e;
      assert DecimalValue(t) == DecimalValue(t') * 10 + e;
      assert Pow10(|t|) == 10 * Pow10(|t'|);
      PlaceShift(d, Pow10(|t'|), DecimalValue(t'), e);
    }
  }

  lemma PlaceShift(d: nat, p: nat, v: nat, e: nat)
    ensures (d * p + v) * 10 + e == d * (10 * p) + (v * 10 + e)
  {
  }

  lemma ShiftStep(acc: nat, d: nat, p: nat, v: nat)
    ensures (acc * 10 + d) * p + v == acc * (10 * p) + (d * p + v)
    ensures p >= 1 ==> acc * 10 + d <= (acc * 10 + d) * p
  {
  }

  /** Reading digits after `acc` gives acc shifted by their count plus their
      value, as long as that stays in the 64-bit range. */
  lemma {:induction false} ScanDigitsValue(s: string, acc: nat)
    requires AllDigits(s)
    requires acc * Pow10(|s|) + DecimalValue(s) <= MAX_UINT64
    ensures ScanDigits(s, acc) == Value(acc * Pow10(|s|) + DecimalValue(s))
  {
    if s != [] {
      var t := s[1..];
      assert s == [s[0]] + t;
      DecimalValueCons(s[0], t);
      var d := DigitValue(s[0]);
      var p := Pow10(|t|);
      assert Pow10(|s|) == 10 * p;
      ShiftStep(acc, d, p, DecimalValue(t));
      ScanDigitsValue(t, acc * 10 + d);
    }
  }

  /** Atoi reads back every int64 that strconv.Itoa prints. */
  lemma AtoiFormatInt(x: int)
    requires IsInt64(x)
    ensures Atoi(FormatInt(x)) == (x, true)
  {
    var n: nat := Abs(x);
    var digits := Itoa(n);
    ItoaRoundTrip(n);
    ScanDigitsValue(digits, 0);
    if x < 0 {
      var s := FormatInt(x);
      assert s[1..] == digits;
    } else {
      assert digits[0] != '-' && digits[0] != '+' by { assert IsDigit(digits[0]); }
    }
  }

  /** gin's Context.DefaultQuery: the value when the key is present, even
      an empty one, and the default otherwise. */
  function DefaultQuery(value: Option<string>, default: string): string
  {
    match value
    case Some(v) => v
    case None => default
  }

  // ---------------------------------------------------------------
  // ExtractPagination and CreatePaginationResponse
  // ---------------------------------------------------------------

  /** ExtractPagination: the "page" and "per_page" query values, each
      replaced when Atoi fails or gives less than 1 (page by 1, per_page by
      the default). There is no upper bound on per_page. */
  function ExtractPagination(pageQuery: Option<string>, perPageQuery: Option<string>, defaultPerPage: int): (r: (int, int))
    requires IsInt64(defaultPerPage)
    ensures r.0 >= 1
    ensures r.1 >= 1 || r.1 == defaultPerPage
    ensures !Atoi(DefaultQuery(pageQuery, "1")).1 ==> r.0 == 1
    ensures !Atoi(DefaultQuery(perPageQuery, FormatInt(defaultPerPage))).1 ==> r.1 == defaultPerPage
  {
    var (page, pageOk) := Atoi(DefaultQuery(pageQuery, "1"));
    var (perPage, perPageOk) := Atoi(DefaultQuery(perPageQuery, FormatInt(defaultPerPage)));
    (if !pageOk || page < 1 then 1 else page,
     if !perPageOk || perPage < 1 then defaultPerPage else perPage)
  }

  /** With a positive default both results are positive. */
  lemma PaginationPositive(pageQuery: Option<string>, perPageQuery: Option<string>, defaultPerPage: int)
    requires 1 <= defaultPerPage <= MAX_INT64
    ensures ExtractPagination(pageQuery, perPageQuery, defaultPerPage).0 >= 1
    ensures ExtractPagination(pageQuery, perPageQuery, defaultPerPage).1 >= 1
  {
  }

  /** Absent parameters give page 1 and the default page size. */
  lemma PaginationDefaults(defaultPerPage: int)
    requires IsInt64(defaultPerPage)
    ensures ExtractPagination(None, None, defaultPerPage) == (1, defaultPerPage)
  {
    AtoiFormatInt(1);
    AtoiFormatInt(defaultPerPage);
  }

  /** Positive numbers are taken as written, however large the page size. */
  lemma PaginationKeepsPositive(page: int, perPage: int, defaultPerPage: int)
    requires 1 <= page <= MAX_INT64 && 1 <= perPage <= MAX_INT64 && IsInt64(defaultPerPage)
    ensures ExtractPagination(Some(FormatInt(page)), Some(FormatInt(perPage)), defaultPerPage) == (page, perPage)
  {
    AtoiFormatInt(page);
    AtoiFormatInt(perPage);
  }

  /** Values that do not parse, or parse below 1, fall back to the defaults. */
  lemma PaginationFallsBack(page: string, perPage: string, defaultPerPage: int)
    requires IsInt64(defaultPerPage)
    requires !Atoi(page).1 || Atoi(page).0 < 1
    requires !Atoi(perPage).1 || Atoi(perPage).0 < 1
    ensures ExtractPagination(Some(page), Some(perPage), defaultPerPage) == (1, defaultPerPage)
  {
  }

  /** The pagination metadata. */
  datatype PageInfo = PageInfo(page: int, perPage: int, total: int, totalPages: int)

  /** CreatePaginationResponse: echoes its arguments and adds the number of
      pages, the ceiling of total / perPage. */
  function CreatePaginationResponse(page: int, perPage: int, total: int): (r: PageInfo)
    requires perPage >= 1
    ensures r.page == page && r.perPage == perPage && r.total == total
    ensures r.totalPages * perPage >= total > (r.totalPages - 1) * perPage
    ensures total == 0 ==> r.totalPages == 0
    ensures total > 0 ==> r.totalPages >= 1
  {
    PageInfo(page, perPage, total, CeilDiv(total, perPage))
  }

  /** Multiplying by a positive number keeps a strict order. */
  lemma MulCancel(a: int, b: int, c: int)
    requires c >= 1 && a * c > b * c
    ensures a > b
  {
    assert (a - b) * c > 0;
  }

  lemma CeilUnique(total: int, perPage: int, q: int, q': int)
    requires perPage >= 1
    requires q * perPage >= total > (q - 1) * perPage
    requires q' * perPage >= total > (q' - 1) * perPage
    ensures q == q'
  {
    MulCancel(q, q' - 1, perPage);
    MulCancel(q', q - 1, perPage);
  }

  /** The page count the layered handler computes in integer arithmetic,
      (total + perPage - 1) / perPage, is the same ceiling. */
  lemma TotalPagesFormula(total: nat, perPage: int)
    requires perPage >= 1
    ensures (total + perPage - 1) / perPage == CreatePaginationResponse(1, perPage, total).totalPages
  {
    var q := (total + perPage - 1) / perPage;
    assert q * perPage <= total + perPage - 1 < (q + 1) * perPage;
    assert q * perPage >= total > (q - 1) * perPage;
    CeilUnique(total, perPage, q, CreatePaginationResponse(1, perPage, total).totalPages);
  }
}
