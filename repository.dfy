/**
 * The layered service's user repository
 * (internal/adapters/mongo/repositories/user/respository.go) over the
 * "user" collection. It passes driver errors through unchanged. As
 * written it puts the id text itself in its `_id` filters, which match no
 * stored record; the operations by id here decode the text with
 * primitive.ObjectIDFromHex first, as the flat queries do.
 */
module Repository {
  import opened Common
  import opened UserModel
  import opened Filter
  import opened Store

  /** The driver errors the repository passes on. */
  datatype RepoError =
    | NoDocuments       // mongo.ErrNoDocuments
    | DuplicateKey      // the unique index on _id refuses an insert
    | MissingOperator   // an update document whose keys are not `$` operators
    | NegativeSkip      // the server refuses a negative skip
    | InvalidHex        // primitive.ErrInvalidHex, from ObjectIDFromHex

  function Message(e: RepoError): string
  {
    match e
    case NoDocuments => "mongo: no documents in result"
    case DuplicateKey => "E11000 duplicate key error"
    case MissingOperator => "update document must contain key beginning with '$'"
    case NegativeSkip => "skip must be non-negative"
    case InvalidHex => "the provided hex string is not a valid ObjectID"
  }

  // ---------------------------------------------------------------
  // Reads
  // ---------------------------------------------------------------

  /** The number of matches GetAllUsers passes over before its page. */
  function Skip(page: int, pageSize: int): int
  {
    (page - 1) * pageSize
  }

  lemma MulMono(a: int, b: int, c: nat)
    requires a <= b
    ensures a * c <= b * c
  {
  }

  lemma SkipFacts(page: int, pageSize: int)
    requires page >= 1 && pageSize >= 1
    ensures Skip(page, pageSize) >= 0
    ensures Skip(page, pageSize) + pageSize == Skip(page + 1, pageSize)
  {
    MulMono(0, page - 1, pageSize);
  }

  /** GetAllUsers: the matches, newest first, from position
      (page-1)*pageSize, at most pageSize of them. */
  function GetAllUsers(docs: seq<User>, page: int, pageSize: int, f: Filter): (r: Result<seq<User>, RepoError>)
    ensures r.Err? <==> Skip(page, pageSize) < 0
    ensures r.Err? ==> r.error == NegativeSkip
    ensures r.Ok? && pageSize > 0 ==> |r.value| <= pageSize
    ensures r.Ok? ==> forall i :: 0 <= i < |r.value| ==> r.value[i] in docs && Matches(f, r.value[i])
  {
    var skip := Skip(page, pageSize);
    if skip < 0 then Err(NegativeSkip)
    else Ok(Window(Listing(docs, f), skip, pageSize))
  }

  /** The run of `all` from `start`, at most `size` long. */
  function Slice(all: seq<User>, start: nat, size: nat): seq<User>
  {
    if start >= |all| then [] else all[start..Min(start + size, |all|)]
  }

  lemma WindowIsSlice(s: seq<User>, start: nat, size: int)
    requires size >= 1
    ensures Window(s, start, size) == Slice(s, start, size)
  {
  }

  lemma SliceKeepsOrder(s: seq<User>, start: nat, size: nat)
    requires NewestFirst(s)
    ensures NewestFirst(Slice(s, start, size))
  {
    var r := Slice(s, start, size);
    assert forall i :: 0 <= i < |r| ==> r[i] == s[start + i];
  }

  /** A page is the run of the sorted matches that starts at
      (page-1)*pageSize, in the same order. */
  lemma PageIsSlice(docs: seq<User>, page: int, pageSize: int, f: Filter)
    requires page >= 1 && pageSize >= 1
    ensures Skip(page, pageSize) >= 0
    ensures GetAllUsers(docs, page, pageSize, f) == Ok(Slice(Listing(docs, f), Skip(page, pageSize), pageSize))
    ensures NewestFirst(GetAllUsers(docs, page, pageSize, f).value)
  {
    SkipFacts(page, pageSize);
    WindowIsSlice(Listing(docs, f), Skip(page, pageSize), pageSize);
    SliceKeepsOrder(Listing(docs, f), Skip(page, pageSize), pageSize);
  }

  /** Pages laid end to end. */
  function Concat(pages: seq<seq<User>>): seq<User>
  {
    if pages == [] then [] else Concat(pages[..|pages| - 1]) + pages[|pages| - 1]
  }

  /** Pages 1..n as the repository returns them. */
  function Pages(docs: seq<User>, pageSize: int, f: Filter, n: nat): (pages: seq<seq<User>>)
    ensures |pages| == n
  {
    seq(n, k requires 0 <= k < n =>
      var page := GetAllUsers(docs, k + 1, pageSize, f);
      if page.Ok? then page.value else [])
  }

  lemma TileStep(all: seq<User>, a: nat, size: nat)
    ensures all[..Min(a, |all|)] + Slice(all, a, size) == all[..Min(a + size, |all|)]
  {
    if a < |all| {
      assert all[..Min(a + size, |all|)] == all[..a] + all[a..Min(a + size, |all|)];
    }
  }

  /** Consecutive runs of `size` entries of `all`, laid end to end, are the
      prefix of `all` they cover. */
  lemma {:induction false} TilesPrefix(all: seq<User>, size: int, pages: seq<seq<User>>)
    requires size >= 1
    requires forall k :: 0 <= k < |pages| ==> pages[k] == Slice(all, Skip(k + 1, size), size)
    ensures Skip(|pages| + 1, size) >= 0
    ensures Concat(pages) == all[..Min(Skip(|pages| + 1, size), |all|)]
  {
    SkipFacts(|pages| + 1, size);
    if pages != [] {
      var n := |pages|;
      TilesPrefix(all, size, pages[..n - 1]);
      SkipFacts(n, size);
      TileStep(all, Skip(n, size), size);
    }
  }

  /** Pages 1..n laid end to end are exactly the sorted matches before
      position n*pageSize: each match sits on one page, and consecutive
      pages neither overlap nor leave a gap. */
  lemma PagesTile(docs: seq<User>, pageSize: int, f: Filter, n: nat)
    requires pageSize >= 1
    ensures Skip(n + 1, pageSize) >= 0
    ensures Concat(Pages(docs, pageSize, f, n)) == Listing(docs, f)[..Min(Skip(n + 1, pageSize), |Listing(docs, f)|)]
  {
    var all := Listing(docs, f);
    var pages := Pages(docs, pageSize, f, n);
    forall k | 0 <= k < n
      ensures pages[k] == Slice(all, Skip(k + 1, pageSize), pageSize)
    {
      PageIsSlice(docs, k + 1, pageSize, f);
    }
    TilesPrefix(all, pageSize, pages);
  }

  lemma SliceNonEmptyIff(all: seq<User>, page: int, size: int)
    requires page >= 1 && size >= 1
    ensures Skip(page, size) >= 0
    ensures |Slice(all, Skip(page, size), size)| > 0 <==> page <= CeilDiv(|all|, size)
  {
    SkipFacts(page, size);
    var pages := CeilDiv(|all|, size);
    if page <= pages {
      MulMono(page - 1, pages - 1, size);
    } else {
      MulMono(pages, page - 1, size);
    }
  }

  /** A page has records exactly up to the page count the metadata reports. */
  lemma PageNonEmptyIff(docs: seq<User>, page: int, pageSize: int, f: Filter)
    requires page >= 1 && pageSize >= 1
    ensures |GetAllUsers(docs, page, pageSize, f).value| > 0 <==> page <= CeilDiv(Count(docs, f), pageSize)
  {
    PageIsSlice(docs, page, pageSize, f);
    SliceNonEmptyIff(Listing(docs, f), page, pageSize);
  }

  // ---------------------------------------------------------------
  // The `_id` filter
  // ---------------------------------------------------------------

  /** The value an `{_id: ...}` filter holds: an ObjectID, named by its
      canonical text, or a plain string. */
  datatype IdFilter = ObjectIdKey(oid: Id) | StringKey(text: string)

  /** BSON equality of a record's `_id` with the filter value. Every record
      is stored under an ObjectID, and no string equals an ObjectID. */
  predicate MatchesId(u: User, key: IdFilter)
  {
    key == ObjectIdKey(u.id)
  }

  /** The position of the first record the filter matches. */
  function IndexOfKey(docs: seq<User>, key: IdFilter): (r: Option<nat>)
    ensures r.None? <==> forall k :: 0 <= k < |docs| ==> !MatchesId(docs[k], key)
    ensures r.Some? ==> r.value < |docs| && MatchesId(docs[r.value], key)
    ensures r.Some? ==> forall j :: 0 <= j < r.value ==> !MatchesId(docs[j], key)
  {
    match key
    case StringKey(_) => None
    case ObjectIdKey(oid) => IndexOfId(docs, oid)
  }

  /** The filter as respository.go builds it: the id text itself. */
  function FilterAsWritten(id: string): IdFilter
  {
    StringKey(id)
  }

  /** The filter built from the ObjectID the text decodes to, or the
      decoding error. */
  function DecodedFilter(id: string): (r: Result<IdFilter, RepoError>)
    ensures r.Err? <==> !IsObjectIdHex(id)
    ensures r.Err? ==> r.error == InvalidHex
    ensures r.Ok? ==> r.value.ObjectIdKey? && IsCanonicalId(r.value.oid) && ToLower(r.value.oid) == ToLower(id)
  {
    match ObjectIdFromHex(id)
    case None => Err(InvalidHex)
    case Some(oid) => Ok(ObjectIdKey(oid))
  }

  /** `FindOne({_id: key})`. */
  function FindById(docs: seq<User>, key: IdFilter): (r: Result<User, RepoError>)
    ensures r.Ok? <==> exists u :: u in docs && MatchesId(u, key)
    ensures r.Ok? ==> r.value in docs && MatchesId(r.value, key)
    ensures r.Err? ==> r.error == NoDocuments
  {
    match IndexOfKey(docs, key)
    case None => Err(NoDocuments)
    case Some(k) => Ok(docs[k])
  }

  /** `DeleteOne({_id: key})`: the first matching record goes. */
  function DeleteByKey(docs: seq<User>, key: IdFilter): (r: seq<User>)
    ensures IndexOfKey(docs, key).None? ==> r == docs
    ensures IndexOfKey(docs, key).Some? ==>
      var k := IndexOfKey(docs, key).value; r == docs[..k] + docs[k + 1..]
  {
    match IndexOfKey(docs, key)
    case None => docs
    case Some(k) => docs[..k] + docs[k + 1..]
  }

  /** GetUserByID: the id decoded by ObjectIDFromHex (in either letter
      case), then the first record stored under that ObjectID. */
  function GetUserByID(docs: seq<User>, id: string): (r: Result<User, RepoError>)
    ensures !IsObjectIdHex(id) ==> r == Err(InvalidHex)
    ensures r.Ok? <==> IsObjectIdHex(id) && exists u :: u in docs && u.id == ToLower(id)
    ensures r.Ok? ==> r.value in docs && r.value.id == ToLower(id)
    ensures r.Err? && IsObjectIdHex(id) ==> r.error == NoDocuments
  {
    match DecodedFilter(id)
    case Err(e) => Err(e)
    case Ok(key) => FindById(docs, key)
  }

  /** GetByEmail: the first record with exactly that email. */
  function GetByEmail(docs: seq<User>, email: string): (r: Result<User, RepoError>)
    ensures r.Ok? <==> exists u :: u in docs && u.email == email
    ensures r.Ok? ==> r.value in docs && r.value.email == email
    ensures r.Err? ==> r.error == NoDocuments
  {
    match IndexOfEmail(docs, email)
    case None => Err(NoDocuments)
    case Some(k) => Ok(docs[k])
  }

  /** GetUserCount: how many records the filter matches; the same filter
      that GetAllUsers pages through. */
  function GetUserCount(docs: seq<User>, f: Filter): (n: nat)
    ensures n == |Listing(docs, f)|
  {
    Count(docs, f)
  }

  // ---------------------------------------------------------------
  // Writes
  // ---------------------------------------------------------------

  /** The `_id` a record is stored under: its own, or, when it is the nil
      ObjectID (left out of the document by `omitempty`), the one the driver
      generates. */
  function StoredId(u: User, generated: Id): Id
  {
    if u.id == NIL_ID then generated else u.id
  }

  /** The form of an update document: `$` operators, or plain field names. */
  datatype UpdateDoc = SetOperator(patch: Patch) | PlainFields(patch: Patch)

  /** Create: InsertOne, then the record with its ID set to the inserted id. */
  method Create(col: Collection, u: User, generated: Id) returns (r: Result<User, RepoError>)
    requires col.Valid()
    modifies col
    ensures col.Valid()
    ensures r.Ok? <==> IndexOfId(old(col.docs), StoredId(u, generated)).None?
    ensures r.Ok? ==> r.value == u.(id := StoredId(u, generated)) && col.docs == old(col.docs) + [r.value]
    ensures r.Err? ==> r.error == DuplicateKey && col.docs == old(col.docs)
  {
    var doc := u.(id := StoredId(u, generated));
    var inserted := col.InsertOne(doc);
    if !inserted {
      return Err(DuplicateKey);
    }
    return Ok(doc);
  }

  /** What `FindOneAndUpdate({_id: key}, update)` with the "after" option
      returns, and the collection it leaves. The driver refuses a document
      of plain field names before it reaches the collection. */
  function UpdateByKey(docs: seq<User>, key: IdFilter, update: UpdateDoc): (r: (Result<User, RepoError>, seq<User>))
    ensures update.PlainFields? ==> r == (Err(MissingOperator), docs)
    ensures update.SetOperator? && IndexOfKey(docs, key).None? ==> r == (Err(NoDocuments), docs)
    ensures update.SetOperator? && IndexOfKey(docs, key).Some? ==>
      var k := IndexOfKey(docs, key).value;
      r == (Ok(ApplyPatch(docs[k], update.patch)), docs[k := ApplyPatch(docs[k], update.patch)])
    ensures r.0.Ok? ==> r.0.value in r.1
  {
    match update
    case PlainFields(_) => (Err(MissingOperator), docs)
    case SetOperator(patch) =>
      match IndexOfKey(docs, key)
      case None => (Err(NoDocuments), docs)
      case Some(k) =>
        var after := docs[k := ApplyPatch(docs[k], patch)];
        assert after[k] == ApplyPatch(docs[k], patch);
        (Ok(ApplyPatch(docs[k], patch)), after)
  }

  /** As written, the filter holds the id text, and it matches no record,
      not even the one whose ObjectID that text spells: a lookup reports
      no documents, an update changes nothing and a delete removes nothing. */
  lemma StringIdFilterNeverMatches(docs: seq<User>, id: string, update: UpdateDoc)
    ensures forall k :: 0 <= k < |docs| ==> !MatchesId(docs[k], FilterAsWritten(id))
    ensures FindById(docs, FilterAsWritten(id)) == Err(NoDocuments)
    ensures UpdateByKey(docs, FilterAsWritten(id), update).1 == docs
    ensures UpdateByKey(docs, FilterAsWritten(id), update).0.Err?
    ensures DeleteByKey(docs, FilterAsWritten(id)) == docs
  {
  }

  /** With the id decoded first, a record whose ids are distinct and
      canonical is found exactly by the hex text of its ObjectID, in any
      letter case. */
  lemma DecodedIdFindsRecord(docs: seq<User>, k: nat, id: string)
    requires DistinctIds(docs) && CanonicalIds(docs) && k < |docs|
    ensures GetUserByID(docs, id) == Ok(docs[k]) <==> IsObjectIdHex(id) && ToLower(id) == docs[k].id
  {
    if IsObjectIdHex(id) && ToLower(id) == docs[k].id {
      IdFindsItself(docs, k);
    }
  }

  /** UpdateUser's outcome: the id decoded, then FindOneAndUpdate. */
  function UpdateOutcome(docs: seq<User>, userId: string, update: UpdateDoc): (r: (Result<User, RepoError>, seq<User>))
    ensures !IsObjectIdHex(userId) ==> r == (Err(InvalidHex), docs)
    ensures IsObjectIdHex(userId) && update.PlainFields? ==> r == (Err(MissingOperator), docs)
    ensures IsObjectIdHex(userId) && update.SetOperator? ==> r.1 == UpdatedById(docs, ToLower(userId), update.patch)
    ensures r.0.Ok? <==> IsObjectIdHex(userId) && update.SetOperator? && exists u :: u in docs && u.id == ToLower(userId)
    ensures r.0.Err? && IsObjectIdHex(userId) && update.SetOperator? ==> r.0.error == NoDocuments && r.1 == docs
    ensures r.0.Ok? ==>
      (r.0.value.id == ToLower(userId) && r.0.value in r.1 &&
       r.0.value == ApplyPatch(docs[IndexOfId(docs, ToLower(userId)).value], update.patch))
  {
    match DecodedFilter(userId)
    case Err(e) => (Err(e), docs)
    case Ok(key) => UpdateByKey(docs, key, update)
  }

  /** UpdateUser: FindOneAndUpdate returning the document after the update. */
  method UpdateUser(col: Collection, userId: string, update: UpdateDoc) returns (r: Result<User, RepoError>)
    requires col.Valid()
    modifies col
    ensures col.Valid()
    ensures (r, col.docs) == UpdateOutcome(old(col.docs), userId, update)
  {
    var key := DecodedFilter(userId);
    if key.Err? {
      return Err(key.error);
    }
    if update.PlainFields? {
      return Err(MissingOperator);
    }
    var oid := key.value.oid;
    var k := IndexOfId(col.docs, oid);
    var matched := col.SetById(oid, update.patch);
    if !matched {
      return Err(NoDocuments);
    }
    return Ok(col.docs[k.value]);
  }

  /** UpdateUser as written: FindOneAndUpdate with the id text itself as the
      `_id` filter. No id is decoded, so no id is refused as malformed; a
      document of plain field names is refused by the driver, and a `$set`
      document matches nothing. Either way the collection is unchanged. */
  function UpdateAsWrittenOutcome(docs: seq<User>, userId: string, update: UpdateDoc): (r: (Result<User, RepoError>, seq<User>))
    ensures r.1 == docs
    ensures update.PlainFields? ==> r.0 == Err(MissingOperator)
    ensures update.SetOperator? ==> r.0 == Err(NoDocuments)
  {
    UpdateByKey(docs, FilterAsWritten(userId), update)
  }

  /** UpdateUser with the filter as written. */
  method UpdateUserAsWritten(col: Collection, userId: string, update: UpdateDoc) returns (r: Result<User, RepoError>)
    requires col.Valid()
    modifies col
    ensures col.Valid()
    ensures (r, col.docs) == UpdateAsWrittenOutcome(old(col.docs), userId, update)
  {
    if update.PlainFields? {
      return Err(MissingOperator);
    }
    var k := IndexOfKey(col.docs, FilterAsWritten(userId));
    if k.None? {
      return Err(NoDocuments);
    }
    // A string filter never equals a stored ObjectID, so no record matched.
    assert false;
  }

  /** Delete's outcome: the id decoded, then DeleteOne. A missing record is
      not an error: when nothing is deleted the function returns the
      driver's nil error. */
  function DeleteOutcome(docs: seq<User>, id: string): (r: (Option<RepoError>, seq<User>))
    ensures !IsObjectIdHex(id) ==> r == (Some(InvalidHex), docs)
    ensures IsObjectIdHex(id) ==> r == (None, WithoutId(docs, ToLower(id)))
    ensures IsObjectIdHex(id) && IndexOfId(docs, ToLower(id)).None? ==> r.1 == docs
    ensures IsObjectIdHex(id) && IndexOfId(docs, ToLower(id)).Some? ==> |r.1| == |docs| - 1
  {
    match DecodedFilter(id)
    case Err(e) => (Some(e), docs)
    case Ok(key) => (None, DeleteByKey(docs, key))
  }

  /** Delete: DeleteOne by the decoded id. */
  method Delete(col: Collection, id: string) returns (err: Option<RepoError>)
    requires col.Valid()
    modifies col
    ensures col.Valid()
    ensures (err, col.docs) == DeleteOutcome(old(col.docs), id)
  {
    var key := DecodedFilter(id);
    if key.Err? {
      return Some(key.error);
    }
    var removed := col.DeleteById(key.value.oid);
    return None;
  }
}
