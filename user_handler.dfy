/**
 * The listing handler of the layered rewrite
 * (internal/adapters/http/facades/user/handler.go, GetAllUsers): it
 * normalises `page` and `pageSize`, builds the filter document key by key,
 * asks the user service for one page and the total, and answers with the
 * page and its pagination block. The other handlers of that file only
 * forward to the user service and map every error to 400.
 */
module UserHandler {
  import opened Common
  import opened UserModel
  import opened Filter
  import opened Store
  import opened Pagination
  import Repository
  import UserService

  const FETCH_FAILED: string := "Failed to fetch users"
  const FETCHED: string := "Users fetched successfully"

  /** The page size used when the request's is missing or out of range. */
  const DEFAULT_PAGE_SIZE: int := 10
  /** The largest page size the handler accepts. */
  const MAX_PAGE_SIZE: int := 100

  /** The response envelope: `data` holds the page, `pagination` the block. */
  datatype Response = Response(status: int, message: string, success: bool, users: seq<User>, pagination: Option<PageInfo>)

  // ---------------------------------------------------------------
  // page and pageSize
  // ---------------------------------------------------------------

  /** The page the handler serves: Atoi of the query value (default "1"),
      its error ignored, and anything below 1 replaced by 1. */
  function RequestedPage(query: Option<string>): (page: int)
    ensures page >= 1
    ensures Atoi(DefaultQuery(query, "1")).0 >= 1 ==> page == Atoi(DefaultQuery(query, "1")).0
    ensures Atoi(DefaultQuery(query, "1")).0 < 1 ==> page == 1
  {
    var page := Atoi(DefaultQuery(query, "1")).0;
    if page < 1 then 1 else page
  }

  /** The page size the handler serves: Atoi of the query value (default
      "10"), and anything outside 1..100 replaced by 10. */
  function RequestedPageSize(query: Option<string>): (size: int)
    ensures 1 <= size <= MAX_PAGE_SIZE
    ensures 1 <= Atoi(DefaultQuery(query, "10")).0 <= MAX_PAGE_SIZE ==> size == Atoi(DefaultQuery(query, "10")).0
    ensures !(1 <= Atoi(DefaultQuery(query, "10")).0 <= MAX_PAGE_SIZE) ==> size == DEFAULT_PAGE_SIZE
  {
    var size := Atoi(DefaultQuery(query, "10")).0;
    if size < 1 || size > MAX_PAGE_SIZE then DEFAULT_PAGE_SIZE else size
  }

  /** Absent values give page 1 of 10 records. */
  lemma RequestedDefaults()
    ensures RequestedPage(None) == 1 && RequestedPageSize(None) == DEFAULT_PAGE_SIZE
  {
    AtoiFormatInt(1);
    AtoiFormatInt(10);
  }

  /** A page number of at least 1 and a page size in 1..100 are taken as
      written. */
  lemma RequestedKeepsInRange(page: int, size: int)
    requires 1 <= page <= MAX_INT64 && 1 <= size <= MAX_PAGE_SIZE
    ensures RequestedPage(Some(FormatInt(page))) == page
    ensures RequestedPageSize(Some(FormatInt(size))) == size
  {
    AtoiFormatInt(page);
    AtoiFormatInt(size);
  }

  /** A page size above 100 is reset to 10, not clamped to 100; the shared
      ExtractPagination helper, which has no upper bound, would keep it. */
  lemma OversizedPageSizeIsReset(size: int)
    requires MAX_PAGE_SIZE < size <= MAX_INT64
    ensures RequestedPageSize(Some(FormatInt(size))) == DEFAULT_PAGE_SIZE
    ensures ExtractPagination(None, Some(FormatInt(size)), DEFAULT_PAGE_SIZE).1 == size
  {
    AtoiFormatInt(size);
  }

  /** A page value that does not parse is read as 0 and so becomes page 1. */
  lemma UnparsedPageIsFirst(query: string)
    requires !Atoi(query).1 && Atoi(query).0 == 0
    ensures RequestedPage(Some(query)) == 1
  {
  }

  /** The handler's opening lines: both values read, then reassigned when
      out of range. */
  method Normalize(pageQuery: Option<string>, pageSizeQuery: Option<string>) returns (page: int, pageSize: int)
    ensures page == RequestedPage(pageQuery) && pageSize == RequestedPageSize(pageSizeQuery)
  {
    page := Atoi(DefaultQuery(pageQuery, "1")).0;
    pageSize := Atoi(DefaultQuery(pageSizeQuery, "10")).0;
    if page < 1 {
      page := 1;
    }
    if pageSize < 1 || pageSize > MAX_PAGE_SIZE {
      pageSize := DEFAULT_PAGE_SIZE;
    }
  }

  // ---------------------------------------------------------------
  // The filter document
  // ---------------------------------------------------------------

  /** The filter built key by key: the search group, the date range only
      when one of its bounds parsed, and each flag only when ParseBool
      accepts it. It is the filter of the flat controller. */
  method BuildListFilter(q: ListQuery) returns (f: Filter)
    ensures f == BuildFilter(q)
  {
    f := MATCH_ALL;
    if q.search != "" {
      f := f.(search := Some(q.search));
    }
    var from, to := DateRange(q.startDate, q.endDate);
    if from.Some? || to.Some? {
      f := f.(createdFrom := from, createdTo := to);
    }
    if q.isAdmin != "" {
      var isAdmin := ParseBool(q.isAdmin);
      if isAdmin.Some? {
        f := f.(isAdmin := isAdmin);
      }
    }
    if q.isVerified != "" {
      var isVerified := ParseBool(q.isVerified);
      if isVerified.Some? {
        f := f.(isVerified := isVerified);
      }
    }
  }

  /** The `createdAt` range: from midnight of startDate, up to midnight of
      the day after endDate, each bound only when its date parses. */
  method DateRange(startDate: string, endDate: string) returns (from: Option<Time>, to: Option<Time>)
    ensures from == ParseFullDate(startDate)
    ensures to.Some? <==> ParseFullDate(endDate).Some?
    ensures to.Some? ==> to.value == ParseFullDate(endDate).value + DAY
  {
    from, to := None, None;
    if startDate != "" {
      var start := ParseFullDate(startDate);
      if start.Some? {
        from := start;
      }
    }
    if endDate != "" {
      var end := ParseFullDate(endDate);
      if end.Some? {
        to := Some(end.value + DAY);
      }
    }
  }

  // ---------------------------------------------------------------
  // GetAllUsers
  // ---------------------------------------------------------------

  /** The handler's block agrees with the shared CreatePaginationResponse. */
  lemma PaginationBlock(page: int, pageSize: int, total: nat)
    requires pageSize >= 1
    ensures PageInfo(page, pageSize, total, (total + pageSize - 1) / pageSize) ==
      CreatePaginationResponse(page, pageSize, total)
  {
    TotalPagesFormula(total, pageSize);
  }

  /** GetAllUsers: the normalised page of the newest-first matches of the
      filter, the number of matches, and the number of pages as the integer
      ceiling of total / pageSize, which is what the shared
      CreatePaginationResponse computes. With unbounded integers the
      normalised arguments give a non-negative skip, so the service does not
      refuse the page and the 400 "Failed to fetch users" branch is not
      taken; the 64-bit overflow of the skip that could reach it is not
      modelled. */
  method GetAllUsers(docs: seq<User>, pageQuery: Option<string>, pageSizeQuery: Option<string>, q: ListQuery)
    returns (r: Response)
    ensures r.success && r.status == STATUS_OK && r.message == FETCHED && r.pagination.Some?
    ensures var p := r.pagination.value;
      p.page == RequestedPage(pageQuery) && p.perPage == RequestedPageSize(pageSizeQuery) &&
      p.total == |Select(docs, BuildFilter(q))| &&
      r.pagination == Some(CreatePaginationResponse(p.page, p.perPage, p.total))
    ensures Repository.Skip(r.pagination.value.page, r.pagination.value.perPage) >= 0
    ensures var p := r.pagination.value;
      r.users == Repository.Slice(Listing(docs, BuildFilter(q)), Repository.Skip(p.page, p.perPage), p.perPage)
    ensures NewestFirst(r.users)
    ensures forall u :: u in r.users ==> u in docs && Matches(BuildFilter(q), u)
  {
    var page, pageSize := Normalize(pageQuery, pageSizeQuery);
    var f := BuildListFilter(q);
    var listed := UserService.AllUsers(docs, page, pageSize, f);
    UserService.AllUsersListsOnePage(docs, page, pageSize, f);
    Repository.PageIsSlice(docs, page, pageSize, f);
    CountIsSelected(docs, f);
    assert listed.users == Repository.Slice(Listing(docs, f), Repository.Skip(page, pageSize), pageSize);
    var total := listed.count;
    assert total == |Select(docs, f)|;
    PaginationBlock(page, pageSize, total);
    r := if listed.err.Some? then Response(STATUS_BAD_REQUEST, FETCH_FAILED, false, [], None)
         else Response(STATUS_OK, FETCHED, true, listed.users,
                       Some(PageInfo(page, pageSize, total, (total + pageSize - 1) / pageSize)));
  }
}
