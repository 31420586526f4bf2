/**
 * The user handlers of the flat service (controllers/user.go): the listing
 * with its filter and pagination metadata, one record by id, update and
 * delete. The listing query and the pagination helpers it calls
 * (queries.GetAllUsers, helpers.ExtractPagination and
 * helpers.CreatePaginationResponse) are not part of this model: the page
 * fetch enters as the parameter `fetch`, and the helpers of the same name
 * and signature in internal/common/pagination stand in for the other two.
 */
module UserControllers {
  import opened Common
  import opened UserModel
  import opened Filter
  import opened Store
  import opened Queries
  import opened Pagination
  import Repository

  /** Users per page when the request does not say. */
  const DEFAULT_PER_PAGE: int := 10

  const FETCH_FAILED: string := "Unable to Fetch Users"
  const NONE_FOUND: string := "No Users Found"
  const FETCHED: string := "Users Fetched Successfully"
  const USER_FETCH_FAILED: string := "Unable to Fetch this user"
  const USER_FETCHED: string := "User Fetched Successfully"
  const DELETE_FAILED: string := "Unable to delete this User"
  const DELETED: string := "User Deleted Successfully"
  const NO_SUCH_USER: string := "User does not exist"
  const INVALID_PAYLOAD: string := "Invalid request payload"
  const UPDATE_FAILED: string := "Unable to Update this User"
  const UPDATED: string := "User Updated Successfully"

  /** The JSON response: `status`, `message`, `success`, the records in
      `data` and the pagination `metaData`, when there are any. */
  datatype Response = Response(status: int, message: string, success: bool, users: seq<User>, meta: Option<PageInfo>)

  function Fail(message: string): Response
  {
    Response(STATUS_BAD_REQUEST, message, false, [], None)
  }

  function Done(message: string): Response
  {
    Response(STATUS_OK, message, true, [], None)
  }

  // ---------------------------------------------------------------
  // GetAllUsers
  // ---------------------------------------------------------------

  /** The request's `page` and `per_page` after defaulting. */
  function PageParams(pageQuery: Option<string>, perPageQuery: Option<string>): (r: (int, int))
    ensures r.0 >= 1 && r.1 >= 1
  {
    PaginationPositive(pageQuery, perPageQuery, DEFAULT_PER_PAGE);
    ExtractPagination(pageQuery, perPageQuery, DEFAULT_PER_PAGE)
  }

  /** GetAllUsers: one filter built from the query strings serves both the
      page fetch and the count. `fetch(page, pageSize, filter)` is what the
      listing query returns: an error, a nil list (None) or the records. */
  function GetAllUsers(docs: seq<User>, pageQuery: Option<string>, perPageQuery: Option<string>, q: ListQuery,
                       fetch: (int, int, Filter) -> Result<Option<seq<User>>, string>): (r: Response)
  {
    var (page, pageSize) := PageParams(pageQuery, perPageQuery);
    var f := BuildFilter(q);
    match fetch(page, pageSize, f)
    case Err(_) => Fail(FETCH_FAILED)
    case Ok(listed) =>
      var meta := CreatePaginationResponse(page, pageSize, GetUserCount(docs, f));
      match listed
      case None => Response(STATUS_OK, NONE_FOUND, true, [], Some(meta))
      case Some(users) => Response(STATUS_OK, FETCHED, true, users, Some(meta))
  }

  /** A fetch that answers with the sorted, paged matches of the filter, and
      nil for an empty page. */
  ghost predicate FetchesPages(docs: seq<User>, fetch: (int, int, Filter) -> Result<Option<seq<User>>, string>)
  {
    forall page: int, pageSize: int, f: Filter :: page >= 1 && pageSize >= 1 ==>
      fetch(page, pageSize, f) ==
        Ok(if Repository.GetAllUsers(docs, page, pageSize, f).value == [] then None
           else Some(Repository.GetAllUsers(docs, page, pageSize, f).value))
  }

  /** Whatever the fetch answers, a successful response carries the
      metadata of the count under the same filter, and a failed one
      carries nothing. With a fetch that pages the matches, the response
      is "No Users Found" exactly for the pages past the last one the
      metadata announces, and otherwise lists that page, newest first. */
  lemma ListingAgreesWithMetadata(docs: seq<User>, pageQuery: Option<string>, perPageQuery: Option<string>, q: ListQuery,
                                  fetch: (int, int, Filter) -> Result<Option<seq<User>>, string>)
    ensures var r := GetAllUsers(docs, pageQuery, perPageQuery, q, fetch);
      var (page, pageSize) := PageParams(pageQuery, perPageQuery);
      (r.success <==> fetch(page, pageSize, BuildFilter(q)).Ok?) &&
      (r.success ==>
         (r.status == STATUS_OK &&
          r.meta == Some(CreatePaginationResponse(page, pageSize, |Select(docs, BuildFilter(q))|)))) &&
      (!r.success ==> r == Fail(FETCH_FAILED))
    ensures FetchesPages(docs, fetch) ==>
      var r := GetAllUsers(docs, pageQuery, perPageQuery, q, fetch);
      var (page, pageSize) := PageParams(pageQuery, perPageQuery);
      r.success &&
      (r.message == NONE_FOUND <==> page > r.meta.value.totalPages) &&
      NewestFirst(r.users) &&
      (forall u :: u in r.users ==> u in docs && Matches(BuildFilter(q), u))
  {
    var (page, pageSize) := PageParams(pageQuery, perPageQuery);
    var f := BuildFilter(q);
    if FetchesPages(docs, fetch) {
      Repository.PageNonEmptyIff(docs, page, pageSize, f);
      Repository.PageIsSlice(docs, page, pageSize, f);
      CountIsSelected(docs, f);
    }
  }

  // ---------------------------------------------------------------
  // GetUser
  // ---------------------------------------------------------------

  /** GetUser: the record with the path's id; every lookup error, a
      malformed id and a missing record alike, is answered 400. */
  function GetUser(docs: seq<User>, id: string): (r: Response)
    ensures r.success <==> IsObjectIdHex(id) && exists u :: u in docs && u.id == ToLower(id)
    ensures r.success ==> r.status == STATUS_OK && |r.users| == 1 && r.users[0] in docs && r.users[0].id == ToLower(id)
    ensures !r.success ==> r == Fail(USER_FETCH_FAILED)
  {
    match GetUserByID(docs, id)
    case Err(_) => Fail(USER_FETCH_FAILED)
    case Ok(user) => Response(STATUS_OK, USER_FETCHED, true, [user], None)
  }

  // ---------------------------------------------------------------
  // DeleteUser
  // ---------------------------------------------------------------

  /** DeleteUser: delete by the path's id. The handler calls the query by
      the name DeleteUserById; the query is DeleteUser. */
  method DeleteUser(users: Collection, id: string) returns (reply: Response)
    requires users.Valid()
    modifies users
    ensures users.Valid()
    ensures reply.success <==> GetUserByID(old(users.docs), id).Ok?
    ensures reply == if reply.success then Done(DELETED) else Fail(DELETE_FAILED)
    ensures reply.success ==> users.docs == WithoutId(old(users.docs), ToLower(id))
    ensures !reply.success ==> users.docs == old(users.docs)
  {
    var err := Queries.DeleteUser(users, id);
    reply := if err.Some? then Fail(DELETE_FAILED) else Done(DELETED);
  }

  // ---------------------------------------------------------------
  // UpdateUser
  // ---------------------------------------------------------------

  /** The update body: both names required, the admin flag optional. */
  datatype UpdateInput = UpdateInput(firstName: string, lastName: string, isAdmin: bool)

  predicate UpdateBinds(i: UpdateInput)
  {
    i.firstName != "" && i.lastName != ""
  }

  /** `$set` of the names, the admin flag and the update time. */
  function UpdatePatch(i: UpdateInput, now: Time): Patch
  {
    EMPTY_PATCH.(firstName := Some(i.firstName), lastName := Some(i.lastName), isAdmin := Some(i.isAdmin),
                 updatedAt := Some(Some(now)))
  }

  /** UpdateUser: the record must exist before the body is even read; then
      exactly its names, admin flag and update time change. */
  method UpdateUser(users: Collection, id: string, input: Option<UpdateInput>, now: Time) returns (reply: Response)
    requires users.Valid()
    modifies users
    ensures users.Valid()
    ensures GetUserByID(old(users.docs), id).Err? ==> reply == Fail(NO_SUCH_USER) && users.docs == old(users.docs)
    ensures GetUserByID(old(users.docs), id).Ok? && (input.None? || !UpdateBinds(input.value)) ==>
      reply == Fail(INVALID_PAYLOAD) && users.docs == old(users.docs)
    ensures reply.success <==> GetUserByID(old(users.docs), id).Ok? && input.Some? && UpdateBinds(input.value)
    ensures reply.success ==>
      reply == Done(UPDATED) &&
      IndexOfId(old(users.docs), ToLower(id)).Some? &&
      var k := IndexOfId(old(users.docs), ToLower(id)).value;
      var before := old(users.docs)[k];
      users.docs == old(users.docs)[k := before.(firstName := input.value.firstName, lastName := input.value.lastName,
                                                 isAdmin := input.value.isAdmin, updatedAt := Some(now))]
  {
    var existing := GetUserByID(users.docs, id);
    if existing.Err? {
      return Fail(NO_SUCH_USER);
    }
    if input.None? || !UpdateBinds(input.value) {
      return Fail(INVALID_PAYLOAD);
    }
    var err := Queries.UpdateUser(users, id, UpdatePatch(input.value, now));
    reply := if err.Some? then Fail(UPDATE_FAILED) else Done(UPDATED);
  }
}
