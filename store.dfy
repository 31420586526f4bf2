/**
 * A user collection: "users" for the flat packages, "user" for the layered
 * repository; the two hold separate records. Documents are kept in the
 * collection's natural order (the order of insertion), which is the order
 * in which FindOne without a sort meets them: a lookup returns the first
 * match. Each `_id` occurs at most once, which the unique index on `_id`
 * enforces, and is held as the canonical hex text of its ObjectID.
 */
module Store {
  import opened Common
  import opened UserModel
  import opened Filter

  predicate DistinctIds(docs: seq<User>)
  {
    forall i, j :: 0 <= i < j < |docs| ==> docs[i].id != docs[j].id
  }

  // ---------------------------------------------------------------
  // FindOne
  // ---------------------------------------------------------------

  /** The position of the first document with the given `_id`. */
  function IndexOfId(docs: seq<User>, id: Id): (r: Option<nat>)
    ensures r.None? <==> forall k :: 0 <= k < |docs| ==> docs[k].id != id
    ensures r.Some? ==> r.value < |docs| && docs[r.value].id == id
    ensures r.Some? ==> forall k :: 0 <= k < r.value ==> docs[k].id != id
  {
    if docs == [] then None
    else if docs[0].id == id then Some(0)
    else match IndexOfId(docs[1..], id)
      case None => None
      case Some(k) => Some(k + 1)
  }

  /** The position of the first document whose email equals `email` exactly. */
  function IndexOfEmail(docs: seq<User>, email: string): (r: Option<nat>)
    ensures r.None? <==> forall k :: 0 <= k < |docs| ==> docs[k].email != email
    ensures r.Some? ==> r.value < |docs| && docs[r.value].email == email
    ensures r.Some? ==> forall k :: 0 <= k < r.value ==> docs[k].email != email
  {
    if docs == [] then None
    else if docs[0].email == email then Some(0)
    else match IndexOfEmail(docs[1..], email)
      case None => None
      case Some(k) => Some(k + 1)
  }

  /** With distinct ids, a document is found again by its own id. */
  lemma IdFindsItself(docs: seq<User>, k: nat)
    requires DistinctIds(docs) && k < |docs|
    ensures IndexOfId(docs, docs[k].id) == Some(k)
  {
  }

  // ---------------------------------------------------------------
  // Writes by _id
  // ---------------------------------------------------------------

  /** The collection after `UpdateOne({_id: id}, {$set: p})`. */
  function UpdatedById(docs: seq<User>, id: Id, p: Patch): (r: seq<User>)
    ensures |r| == |docs|
    ensures IndexOfId(docs, id).None? ==> r == docs
    ensures IndexOfId(docs, id).Some? ==>
      var k := IndexOfId(docs, id).value; r == docs[k := ApplyPatch(docs[k], p)]
    ensures DistinctIds(docs) ==> DistinctIds(r)
  {
    match IndexOfId(docs, id)
    case None => docs
    case Some(k) => docs[k := ApplyPatch(docs[k], p)]
  }

  /** The collection after deleting the document with `_id` id. */
  function WithoutId(docs: seq<User>, id: Id): (r: seq<User>)
    ensures IndexOfId(docs, id).None? ==> r == docs
    ensures IndexOfId(docs, id).Some? ==>
      var k := IndexOfId(docs, id).value; r == docs[..k] + docs[k + 1..]
  {
    match IndexOfId(docs, id)
    case None => docs
    case Some(k) => docs[..k] + docs[k + 1..]
  }

  lemma RemoveAtKeepsOthers(docs: seq<User>, k: nat) returns (r: seq<User>)
    requires DistinctIds(docs) && k < |docs|
    ensures r == docs[..k] + docs[k + 1..]
    ensures DistinctIds(r)
    ensures forall j :: 0 <= j < |r| ==> r[j].id != docs[k].id
    ensures forall u :: u in docs && u.id != docs[k].id ==> u in r
  {
    r := docs[..k] + docs[k + 1..];
    assert forall i :: 0 <= i < |r| ==> r[i] == docs[if i < k then i else i + 1];
    forall u | u in docs && u.id != docs[k].id
      ensures u in r
    {
      var i :| 0 <= i < |docs| && docs[i] == u;
      assert r[if i < k then i else i - 1] == u;
    }
  }

  lemma RemoveAtCounts(docs: seq<User>, k: nat)
    requires k < |docs|
    ensures |docs[..k] + docs[k + 1..]| == |docs| - 1
    ensures multiset(docs[..k] + docs[k + 1..]) + multiset{docs[k]} == multiset(docs)
  {
    assert docs == docs[..k] + ([docs[k]] + docs[k + 1..]);
  }

  /** Deleting by id removes that one document and keeps every other one, in order. */
  lemma DeleteRemovesExactlyOne(docs: seq<User>, id: Id)
    requires DistinctIds(docs)
    ensures DistinctIds(WithoutId(docs, id))
    ensures IndexOfId(WithoutId(docs, id), id).None?
    ensures IndexOfId(docs, id).Some? ==>
      |WithoutId(docs, id)| == |docs| - 1 &&
      multiset(WithoutId(docs, id)) + multiset{docs[IndexOfId(docs, id).value]} == multiset(docs)
    ensures forall u :: u in docs && u.id != id ==> u in WithoutId(docs, id)
  {
    match IndexOfId(docs, id)
    case None =>
    case Some(k) =>
      var r := RemoveAtKeepsOthers(docs, k);
      RemoveAtCounts(docs, k);
  }

  // ---------------------------------------------------------------
  // CountDocuments and Find with sort / skip / limit
  // ---------------------------------------------------------------

  /** The documents that match the filter, in natural order. */
  function Select(docs: seq<User>, f: Filter): (r: seq<User>)
    ensures |r| <= |docs|
    ensures forall i :: 0 <= i < |r| ==> Matches(f, r[i]) && r[i] in docs
    ensures forall u :: u in docs && Matches(f, u) ==> u in r
    ensures forall u :: multiset(r)[u] == if Matches(f, u) then multiset(docs)[u] else 0
  {
    if docs == [] then []
    else
      var d, tail := docs[0], docs[1..];
      var rest := Select(tail, f);
      assert docs == [d] + tail;
      assert multiset(docs) == multiset{d} + multiset(tail);
      var r := if Matches(f, d) then [d] + rest else rest;
      assert multiset(r) == (if Matches(f, d) then multiset{d} else multiset{}) + multiset(rest);
      SelectedMembers(docs, r, f);
      r
  }

  /** Counting each document as often as the filter keeps it fixes which
      documents are present. */
  lemma SelectedMembers(docs: seq<User>, r: seq<User>, f: Filter)
    requires forall u :: multiset(r)[u] == if Matches(f, u) then multiset(docs)[u] else 0
    ensures forall i :: 0 <= i < |r| ==> Matches(f, r[i]) && r[i] in docs
    ensures forall u :: u in docs && Matches(f, u) ==> u in r
  {
    forall i | 0 <= i < |r| ensures Matches(f, r[i]) && r[i] in docs {
      assert r[i] in multiset(r);
    }
    forall u | u in docs && Matches(f, u) ensures u in r {
      assert u in multiset(docs);
    }
  }

  /** CountDocuments: how many documents match. */
  function Count(docs: seq<User>, f: Filter): nat
  {
    if docs == [] then 0 else (if Matches(f, docs[0]) then 1 else 0) + Count(docs[1..], f)
  }

  /** The count and the list agree on what matches. */
  lemma {:induction false} CountIsSelected(docs: seq<User>, f: Filter)
    ensures Count(docs, f) == |Select(docs, f)|
  {
    if docs != [] {
      CountIsSelected(docs[1..], f);
    }
  }

  predicate NewestFirst(s: seq<User>)
  {
    forall i, j :: 0 <= i < j < |s| ==> s[i].createdAt >= s[j].createdAt
  }

  /** Every element of a rearrangement of `tail` plus `u` is no newer than
      `h` when `u` and all of `tail` are no newer. */
  lemma NoNewerThanHead(h: User, u: User, tail: seq<User>, rest: seq<User>)
    requires u.createdAt <= h.createdAt
    requires forall i :: 0 <= i < |tail| ==> tail[i].createdAt <= h.createdAt
    requires multiset(rest) == multiset(tail) + multiset{u}
    ensures forall i :: 0 <= i < |rest| ==> rest[i].createdAt <= h.createdAt
  {
    forall i | 0 <= i < |rest| ensures rest[i].createdAt <= h.createdAt {
      var x := rest[i];
      assert x in multiset(rest);
      assert x == u || x in multiset(tail);
      if x != u {
        assert x in tail;
      }
    }
  }

  function InsertNewestFirst(u: User, s: seq<User>): (r: seq<User>)
    requires NewestFirst(s)
    ensures NewestFirst(r)
    ensures multiset(r) == multiset(s) + multiset{u}
  {
    if s == [] || u.createdAt >= s[0].createdAt then
      assert forall i :: 0 <= i < |s| ==> s[i].createdAt <= u.createdAt by {
        forall i | 0 <= i < |s| ensures s[i].createdAt <= u.createdAt {
          if i > 0 {
            assert s[0].createdAt >= s[i].createdAt;
          }
        }
      }
      ConsNewestFirst(u, s);
      [u] + s
    else
      var tail := s[1..];
      assert s == [s[0]] + tail;
      assert forall i :: 0 <= i < |tail| ==> tail[i] == s[i + 1];
      var rest := InsertNewestFirst(u, tail);
      NoNewerThanHead(s[0], u, tail, rest);
      ConsNewestFirst(s[0], rest);
      [s[0]] + rest
  }

  /** A record no older than every entry of a newest-first sequence can be
      put in front of it. */
  lemma ConsNewestFirst(h: User, rest: seq<User>)
    requires NewestFirst(rest)
    requires forall i :: 0 <= i < |rest| ==> rest[i].createdAt <= h.createdAt
    ensures NewestFirst([h] + rest)
  {
    var r := [h] + rest;
    forall i, j | 0 <= i < j < |r| ensures r[i].createdAt >= r[j].createdAt {
      assert r[j] == rest[j - 1];
      if i > 0 {
        assert r[i] == rest[i - 1];
      }
    }
  }

  /** `SetSort({createdAt: -1})`: newest first, the same documents. Records
      created at the same instant keep their natural order. */
  function SortNewestFirst(s: seq<User>): (r: seq<User>)
    ensures NewestFirst(r)
    ensures multiset(r) == multiset(s)
    ensures |r| == |s|
  {
    if s == [] then []
    else
      assert s == [s[0]] + s[1..];
      InsertNewestFirst(s[0], SortNewestFirst(s[1..]))
  }

  /** `SetSkip(skip)` then `SetLimit(limit)`: a limit of 0 means no limit and a
      negative limit is taken by its magnitude. */
  function Window(s: seq<User>, skip: nat, limit: int): (r: seq<User>)
    ensures |r| == if skip >= |s| then 0 else if limit == 0 then |s| - skip else Min(Abs(limit), |s| - skip)
    ensures forall i :: 0 <= i < |r| ==> skip + i < |s| && r[i] == s[skip + i]
  {
    var rest := if skip <= |s| then s[skip..] else [];
    var n := if limit == 0 then |rest| else Min(Abs(limit), |rest|);
    rest[..n]
  }

  /** The matching documents, newest first: what a sorted Find walks through. */
  function Listing(docs: seq<User>, f: Filter): (r: seq<User>)
    ensures NewestFirst(r) && |r| == Count(docs, f)
    ensures forall u :: u in r <==> u in docs && Matches(f, u)
  {
    CountIsSelected(docs, f);
    var r := SortNewestFirst(Select(docs, f));
    assert forall u :: u in r <==> u in Select(docs, f) by {
      forall u ensures u in r <==> u in Select(docs, f) {
        assert u in r <==> multiset(r)[u] > 0;
        assert u in Select(docs, f) <==> multiset(Select(docs, f))[u] > 0;
      }
    }
    r
  }

  // ---------------------------------------------------------------
  // The collection invariant
  // ---------------------------------------------------------------

  predicate UniqueEmails(docs: seq<User>)
  {
    forall i, j :: 0 <= i < j < |docs| ==> docs[i].email != docs[j].email
  }

  predicate LowerEmails(docs: seq<User>)
  {
    forall i :: 0 <= i < |docs| ==> IsLower(docs[i].email)
  }

  /** Every `_id` is held as the text Hex() gives for it. */
  predicate CanonicalIds(docs: seq<User>)
  {
    forall i :: 0 <= i < |docs| ==> IsCanonicalId(docs[i].id)
  }

  /** Ids are unique and canonical, and emails are unique and stored in
      lower case. */
  predicate Consistent(docs: seq<User>)
  {
    DistinctIds(docs) && CanonicalIds(docs) && UniqueEmails(docs) && LowerEmails(docs)
  }

  lemma AppendKeepsConsistent(docs: seq<User>, u: User)
    requires Consistent(docs) && IsLower(u.email) && IsCanonicalId(u.id)
    requires forall k :: 0 <= k < |docs| ==> docs[k].email != u.email && docs[k].id != u.id
    ensures Consistent(docs + [u])
  {
    var after := docs + [u];
    assert forall k :: 0 <= k < |docs| ==> after[k] == docs[k];
  }

  lemma PatchKeepsConsistent(docs: seq<User>, id: Id, p: Patch)
    requires Consistent(docs)
    ensures Consistent(UpdatedById(docs, id, p))
  {
    var after := UpdatedById(docs, id, p);
    assert forall k :: 0 <= k < |docs| ==> after[k].email == docs[k].email && after[k].id == docs[k].id;
  }

  // ---------------------------------------------------------------
  // The collection object
  // ---------------------------------------------------------------

  /** A MongoDB collection handle. */
  class Collection {
    var docs: seq<User>

    ghost predicate Valid()
      reads this
    {
      DistinctIds(docs)
    }

    constructor ()
      ensures Valid() && docs == []
    {
      docs := [];
    }

    /** InsertOne: the document is appended unless its `_id` is taken, in
        which case the duplicate-key error leaves the collection as it was. */
    method InsertOne(u: User) returns (inserted: bool)
      requires Valid()
      modifies this
      ensures Valid()
      ensures inserted <==> IndexOfId(old(docs), u.id).None?
      ensures docs == if inserted then old(docs) + [u] else old(docs)
    {
      inserted := IndexOfId(docs, u.id).None?;
      if inserted {
        docs := docs + [u];
      }
    }

    /** UpdateOne / FindOneAndUpdate with `$set` on `{_id: id}`; the result
        says whether a document matched. */
    method SetById(id: Id, p: Patch) returns (matched: bool)
      requires Valid()
      modifies this
      ensures Valid()
      ensures matched <==> IndexOfId(old(docs), id).Some?
      ensures docs == UpdatedById(old(docs), id, p)
    {
      matched := IndexOfId(docs, id).Some?;
      docs := UpdatedById(docs, id, p);
    }

    /** DeleteOne / FindOneAndDelete on `{_id: id}`: the removed document, if any. */
    method DeleteById(id: Id) returns (removed: Option<User>)
      requires Valid()
      modifies this
      ensures Valid()
      ensures removed.None? <==> IndexOfId(old(docs), id).None?
      ensures removed.Some? ==> removed.value == old(docs)[IndexOfId(old(docs), id).value]
      ensures docs == WithoutId(old(docs), id)
    {
      DeleteRemovesExactlyOne(docs, id);
      match IndexOfId(docs, id)
      case None =>
        removed := None;
      case Some(k) =>
        removed := Some(docs[k]);
        docs := WithoutId(docs, id);
    }
  }
}
