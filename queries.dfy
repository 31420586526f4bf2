/**
 * The data-access functions of the flat service (queries/user.go) over the
 * "users" collection. Ids arrive as text and are decoded with
 * primitive.ObjectIDFromHex before any lookup or write.
 */
module Queries {
  import opened Common
  import opened UserModel
  import opened Filter
  import opened Store

  /** The errors these functions return, by the text they start with. */
  datatype QueryError =
    | InvalidObjectId     // "invalid ObjectID: ..."
    | UserNotFound        // "user not found"
    | InvalidUserId       // "invalid user ID: ..."
    | NoUserWithId        // "no user found with the given ID"
    | NoIdInContext       // "ID not found in context"
    | BadIdInContext      // "invalid ID format in context"

  function Message(e: QueryError): string
  {
    match e
    case InvalidObjectId => "invalid ObjectID"
    case UserNotFound => "user not found"
    case InvalidUserId => "invalid user ID"
    case NoUserWithId => "no user found with the given ID"
    case NoIdInContext => "ID not found in context"
    case BadIdInContext => "invalid ID format in context"
  }

  /** GetUserByID: the id must be an ObjectID in hex, in either letter
      case; then the first record stored under the ObjectID it decodes to,
      or "user not found". */
  function GetUserByID(docs: seq<User>, id: string): (r: Result<User, QueryError>)
    ensures !IsObjectIdHex(id) ==> r == Err(InvalidObjectId)
    ensures r.Ok? <==> IsObjectIdHex(id) && exists u :: u in docs && u.id == ToLower(id)
    ensures r.Ok? ==> r.value in docs && r.value.id == ToLower(id)
    ensures r.Err? && IsObjectIdHex(id) ==> r == Err(UserNotFound)
  {
    match ObjectIdFromHex(id)
    case None => Err(InvalidObjectId)
    case Some(oid) =>
      match IndexOfId(docs, oid)
      case None => Err(UserNotFound)
      case Some(k) => Ok(docs[k])
  }

  /** In a collection whose ids are distinct and canonical, a lookup by id
      finds a given record exactly when the id is that record's ObjectID
      written in hex, in upper, lower or mixed case. */
  lemma IdLookupFindsRecord(docs: seq<User>, k: nat, id: string)
    requires DistinctIds(docs) && CanonicalIds(docs) && k < |docs|
    ensures GetUserByID(docs, id) == Ok(docs[k]) <==> IsObjectIdHex(id) && ToLower(id) == docs[k].id
  {
    if IsObjectIdHex(id) && ToLower(id) == docs[k].id {
      IdFindsItself(docs, k);
    }
  }

  /** GetUserByEmail: the first record whose email equals the argument
      exactly (no case folding), or "user not found". */
  function GetUserByEmail(docs: seq<User>, email: string): (r: Result<User, QueryError>)
    ensures r.Ok? <==> exists u :: u in docs && u.email == email
    ensures r.Ok? ==> r.value in docs && r.value.email == email
    ensures r.Err? ==> r == Err(UserNotFound)
  {
    match IndexOfEmail(docs, email)
    case None => Err(UserNotFound)
    case Some(k) => Ok(docs[k])
  }

  /** Email lookup is case-sensitive: where every stored email is in lower
      case (as registration stores them), an email with an upper-case letter
      finds nothing. */
  lemma EmailLookupIsCaseSensitive(docs: seq<User>, email: string)
    requires LowerEmails(docs) && email != ToLower(email)
    ensures GetUserByEmail(docs, email) == Err(UserNotFound)
  {
    LowerFixedPoints(email);
  }

  /** GetUserCount: the number of records the filter matches. */
  function GetUserCount(docs: seq<User>, f: Filter): (n: nat)
    ensures n == |Select(docs, f)|
    ensures n <= |docs|
  {
    CountIsSelected(docs, f);
    Count(docs, f)
  }

  /** GetUser: the id the guard stored under "uid" in the request context,
      then GetUserByID. */
  function GetUser(context: map<string, CtxValue>, docs: seq<User>): (r: Result<User, QueryError>)
    ensures "uid" !in context ==> r == Err(NoIdInContext)
    ensures "uid" in context && !context["uid"].Text? ==> r == Err(BadIdInContext)
    ensures "uid" in context && context["uid"].Text? ==> r == GetUserByID(docs, context["uid"].s)
  {
    if "uid" !in context then Err(NoIdInContext)
    else match context["uid"]
      case Flag(_) => Err(BadIdInContext)
      case Text(id) => GetUserByID(docs, id)
  }

  /** What UpdateUser answers and leaves behind: the id decoded by
      ObjectIDFromHex, then `UpdateOne({_id: oid}, {$set: update})`, failing
      when nothing matched. */
  function UpdateOutcome(docs: seq<User>, userId: string, update: Patch): (r: (Option<QueryError>, seq<User>))
    ensures !IsObjectIdHex(userId) ==> r == (Some(InvalidUserId), docs)
    ensures IsObjectIdHex(userId) && IndexOfId(docs, ToLower(userId)).None? ==> r == (Some(NoUserWithId), docs)
    ensures IsObjectIdHex(userId) && IndexOfId(docs, ToLower(userId)).Some? ==>
      r == (None, UpdatedById(docs, ToLower(userId), update))
    ensures DistinctIds(docs) ==> DistinctIds(r.1)
    ensures r.0.Some? <==> GetUserByID(docs, userId).Err?
  {
    match ObjectIdFromHex(userId)
    case None => (Some(InvalidUserId), docs)
    case Some(oid) =>
      if IndexOfId(docs, oid).None? then (Some(NoUserWithId), docs)
      else (None, UpdatedById(docs, oid, update))
  }

  /** The account handlers pass `found.ID.Hex()`, the canonical text of a
      stored id: the update then always matches, and patches the first
      record with that id (that very record when ids are distinct). */
  lemma UpdateByStoredId(docs: seq<User>, k: nat, p: Patch)
    requires CanonicalIds(docs) && k < |docs|
    ensures UpdateOutcome(docs, docs[k].id, p) == (None, UpdatedById(docs, docs[k].id, p))
    ensures DistinctIds(docs) ==> UpdateOutcome(docs, docs[k].id, p).1 == docs[k := ApplyPatch(docs[k], p)]
  {
    LowerFixedPoints(docs[k].id);
    if DistinctIds(docs) {
      IdFindsItself(docs, k);
    }
  }

  /** UpdateUser on the collection. */
  method UpdateUser(users: Collection, userId: string, update: Patch) returns (err: Option<QueryError>)
    requires users.Valid()
    modifies users
    ensures users.Valid()
    ensures (err, users.docs) == UpdateOutcome(old(users.docs), userId, update)
  {
    var oid := ObjectIdFromHex(userId);
    if oid.None? {
      return Some(InvalidUserId);
    }
    var matched := users.SetById(oid.value, update);
    if !matched {
      return Some(NoUserWithId);
    }
    return None;
  }

  /** What DeleteUser answers and leaves behind: the id decoded by
      ObjectIDFromHex, then `FindOneAndDelete({_id: oid})`, failing when
      nothing matched. */
  function DeleteOutcome(docs: seq<User>, userId: string): (r: (Option<QueryError>, seq<User>))
    ensures !IsObjectIdHex(userId) ==> r == (Some(InvalidObjectId), docs)
    ensures IsObjectIdHex(userId) && IndexOfId(docs, ToLower(userId)).None? ==> r == (Some(UserNotFound), docs)
    ensures IsObjectIdHex(userId) && IndexOfId(docs, ToLower(userId)).Some? ==>
      r == (None, WithoutId(docs, ToLower(userId)))
    ensures r.0.Some? <==> GetUserByID(docs, userId).Err?
    ensures r.0 == None <==> (GetUserByID(docs, userId).Ok? && |r.1| == |docs| - 1)
  {
    match ObjectIdFromHex(userId)
    case None => (Some(InvalidObjectId), docs)
    case Some(oid) =>
      match IndexOfId(docs, oid)
      case None => (Some(UserNotFound), docs)
      case Some(k) => (None, WithoutId(docs, oid))
  }

  /** DeleteUser on the collection. */
  method DeleteUser(users: Collection, userId: string) returns (err: Option<QueryError>)
    requires users.Valid()
    modifies users
    ensures users.Valid()
    ensures (err, users.docs) == DeleteOutcome(old(users.docs), userId)
  {
    var oid := ObjectIdFromHex(userId);
    if oid.None? {
      return Some(InvalidObjectId);
    }
    var removed := users.DeleteById(oid.value);
    if removed.None? {
      return Some(UserNotFound);
    }
    return None;
  }
}
