/**
 * The layered user service (internal/services/user/service.go): thin
 * checks in front of the repository. Its repository calls use the names
 * GetAllUsersRepo, GetUserCountRepo, GetUserByIDRepo, UpdateUserRepo and
 * DeleteUserRepo for the repository's GetAllUsers, GetUserCount,
 * GetUserByID, UpdateUser and Delete.
 */
module UserService {
  import opened Common
  import opened UserModel
  import opened Filter
  import opened Store
  import opened Repository

  datatype ServiceError = IdRequired | Repo(cause: RepoError)

  function ErrorMessage(e: ServiceError): string
  {
    match e
    case IdRequired => "ID is required"
    case Repo(cause) => Message(cause)
  }

  /** A repository result with its error wrapped. */
  function FromRepo(r: Result<User, RepoError>): Result<User, ServiceError>
  {
    match r
    case Ok(u) => Ok(u)
    case Err(e) => Err(Repo(e))
  }

  /** AllUsers' three results: a page, the count, an error. */
  datatype Listed = Listed(users: seq<User>, count: int, err: Option<ServiceError>)

  /** AllUsers: one page and the total for the same filter; on an error,
      no users and a count of 0. */
  function AllUsers(docs: seq<User>, page: int, pageSize: int, f: Filter): (r: Listed)
    ensures r.err.Some? ==> r.users == [] && r.count == 0
    ensures r.err.None? <==> Skip(page, pageSize) >= 0
    ensures r.err.None? ==> r.count == |Listing(docs, f)|
    ensures r.err.None? ==> forall u :: u in r.users ==> u in docs && Matches(f, u)
  {
    match GetAllUsers(docs, page, pageSize, f)
    case Err(e) => Listed([], 0, Some(Repo(e)))
    case Ok(users) => Listed(users, GetUserCount(docs, f), None)
  }

  /** For page and pageSize of at least 1 (what the handler passes),
      AllUsers gives the page's run of the sorted matches and the total
      number of matches, both for the same filter. */
  lemma AllUsersListsOnePage(docs: seq<User>, page: int, pageSize: int, f: Filter)
    requires page >= 1 && pageSize >= 1
    ensures Skip(page, pageSize) >= 0
    ensures AllUsers(docs, page, pageSize, f) ==
      Listed(Slice(Listing(docs, f), Skip(page, pageSize), pageSize), Count(docs, f), None)
  {
    PageIsSlice(docs, page, pageSize, f);
  }

  /** GetByID: an empty id is refused before any lookup; then the
      repository's lookup by the decoded id. */
  function GetByID(docs: seq<User>, id: string): (r: Result<User, ServiceError>)
    ensures id == "" ==> r == Err(IdRequired)
    ensures id != "" && !IsObjectIdHex(id) ==> r == Err(Repo(InvalidHex))
    ensures r.Ok? <==> IsObjectIdHex(id) && exists u :: u in docs && u.id == ToLower(id)
    ensures r.Ok? ==> r.value in docs && r.value.id == ToLower(id)
    ensures r.Err? && IsObjectIdHex(id) ==> r == Err(Repo(NoDocuments))
  {
    if id == "" then Err(IdRequired)
    else match Repository.GetUserByID(docs, id)
      case Err(e) => Err(Repo(e))
      case Ok(u) => Ok(u)
  }

  /** GetUser: the zero record and no error, whatever the store holds. */
  function GetUser(docs: seq<User>): (r: (User, Option<ServiceError>))
    ensures r.1.None?
    ensures r.0.id == NIL_ID && r.0.email == "" && !r.0.isAdmin && !r.0.isVerified
  {
    (ZeroUser(), None)
  }

  /** The body of an update request. */
  datatype UpdateBody = UpdateBody(firstName: string, lastName: string, isAdmin: bool)

  /** The fields Update writes: the three from the body and updatedAt. */
  function UpdatePatch(body: UpdateBody, now: Time): (p: Patch)
    ensures forall u :: (ApplyPatch(u, p) ==
      u.(firstName := body.firstName, lastName := body.lastName, isAdmin := body.isAdmin, updatedAt := Some(now)))
  {
    Patch(Some(body.firstName), Some(body.lastName), Some(body.isAdmin), None, None, None, None, Some(Some(now)))
  }

  /** The update document as Update builds it: the field names at the top
      level, with no `$set` around them. */
  function UpdateDocument(body: UpdateBody, now: Time): UpdateDoc
  {
    PlainFields(UpdatePatch(body, now))
  }

  /** The update document with the `$set` operator the flat
      queries.UpdateUser wraps around the same fields. */
  function UpdateDocumentWithSet(body: UpdateBody, now: Time): UpdateDoc
  {
    SetOperator(UpdatePatch(body, now))
  }

  /** As written, every Update that reaches the repository fails with the
      driver's refusal of the operator-less document and leaves the store
      unchanged, for every id: malformed, missing, or that of a stored
      record. */
  lemma UpdateAsWrittenAlwaysFails(docs: seq<User>, body: UpdateBody, id: string, now: Time)
    ensures UpdateAsWrittenOutcome(docs, id, UpdateDocument(body, now)) == (Err(MissingOperator), docs)
  {
  }

  /** With `$set`, Update on an existing id writes exactly firstName,
      lastName, isAdmin and updatedAt = now, keeps every other field, and
      returns the record as it is afterwards. */
  lemma UpdateWithSetPatchesFields(docs: seq<User>, body: UpdateBody, id: string, now: Time)
    requires DistinctIds(docs)
    requires IsObjectIdHex(id) && exists u :: u in docs && u.id == ToLower(id)
    ensures var (r, after) := UpdateOutcome(docs, id, UpdateDocumentWithSet(body, now));
            var old_ := docs[IndexOfId(docs, ToLower(id)).value];
            r == Ok(old_.(firstName := body.firstName, lastName := body.lastName,
                          isAdmin := body.isAdmin, updatedAt := Some(now))) &&
            after == docs[IndexOfId(docs, ToLower(id)).value := r.value] &&
            IndexOfId(after, ToLower(id)) == IndexOfId(docs, ToLower(id))
  {
    var k := IndexOfId(docs, ToLower(id)).value;
    var p := UpdatePatch(body, now);
    var after := docs[k := ApplyPatch(docs[k], p)];
    assert UpdateOutcome(docs, id, UpdateDocumentWithSet(body, now)) == (Ok(ApplyPatch(docs[k], p)), after);
    IdFindsItself(after, k);
  }

  /** Update as written: an empty id is refused, and every other call
      reaches the repository's UpdateUser, filter as written, with a
      document the driver refuses. */
  method Update(col: Collection, body: UpdateBody, id: string, now: Time) returns (r: Result<User, ServiceError>)
    requires col.Valid()
    modifies col
    ensures col.Valid()
    ensures id == "" ==> r == Err(IdRequired)
    ensures id != "" ==> r == Err(Repo(MissingOperator))
    ensures col.docs == old(col.docs)
  {
    if id == "" {
      return Err(IdRequired);
    }
    var updated := Repository.UpdateUserAsWritten(col, id, UpdateDocument(body, now));
    r := FromRepo(updated);
  }

  /** Update with the fields under `$set`: the evidently intended behaviour. */
  method UpdateWithSet(col: Collection, body: UpdateBody, id: string, now: Time) returns (r: Result<User, ServiceError>)
    requires col.Valid()
    modifies col
    ensures col.Valid()
    ensures id == "" ==> r == Err(IdRequired) && col.docs == old(col.docs)
    ensures id != "" ==>
      var (res, after) := UpdateOutcome(old(col.docs), id, UpdateDocumentWithSet(body, now));
      col.docs == after && (r.Ok? <==> res.Ok?) && (r.Ok? ==> r.value == res.value) &&
      (r.Err? ==> r == Err(Repo(if IsObjectIdHex(id) then NoDocuments else InvalidHex)))
  {
    if id == "" {
      return Err(IdRequired);
    }
    var updated := Repository.UpdateUser(col, id, UpdateDocumentWithSet(body, now));
    r := FromRepo(updated);
  }

  /** Delete: an empty id is refused; a failed lookup (a malformed id or a
      missing record) returns the lookup error and nothing is deleted;
      otherwise the record is removed. */
  method Delete(col: Collection, id: string) returns (err: Option<ServiceError>)
    requires col.Valid()
    modifies col
    ensures col.Valid()
    ensures id == "" ==> err == Some(IdRequired) && col.docs == old(col.docs)
    ensures id != "" && GetByID(old(col.docs), id).Err? ==>
      err == Some(GetByID(old(col.docs), id).error) && col.docs == old(col.docs)
    ensures GetByID(old(col.docs), id).Ok? ==>
      err.None? && col.docs == WithoutId(old(col.docs), ToLower(id)) && |col.docs| == |old(col.docs)| - 1
  {
    if id == "" {
      return Some(IdRequired);
    }
    var found := Repository.GetUserByID(col.docs, id);
    if found.Err? {
      return Some(Repo(found.error));
    }
    var deleted := Repository.Delete(col, id);
    err := match deleted case None => None case Some(e) => Some(Repo(e));
  }
}
