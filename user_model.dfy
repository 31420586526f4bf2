/**
 * The user record shared by the flat models package and the layered
 * repository package (both declare the same struct), its validation tags,
 * its JSON form, and the typed form of the `$set` patches the handlers build.
 */
module UserModel {
  import opened Common

  /** An ObjectID, held as its 24-character hexadecimal text. */
  type Id = string

  /** The all-zero ObjectID, the value of an unset ID field. */
  const NIL_ID: Id := "000000000000000000000000"

  /** time.Time{} (0001-01-01T00:00:00Z) in Unix seconds. */
  const ZERO_TIME: Time := -62135596800

  predicate IsHexDigit(c: char) { '0' <= c <= '9' || 'a' <= c <= 'f' || 'A' <= c <= 'F' }

  /** What primitive.ObjectIDFromHex accepts: exactly 24 hexadecimal digits. */
  predicate IsObjectIdHex(s: string) { |s| == 24 && forall i :: 0 <= i < |s| ==> IsHexDigit(s[i]) }

  /** The text ObjectID.Hex() produces: 24 hexadecimal digits in lower case.
      A stored `_id` is held in this form. */
  predicate IsCanonicalId(s: string) { IsObjectIdHex(s) && IsLower(s) }

  /** primitive.ObjectIDFromHex: the twelve bytes the 24 hex digits (of
      either case) spell, named by their canonical text; None for any other
      string. */
  function ObjectIdFromHex(s: string): (r: Option<Id>)
    ensures r.Some? <==> IsObjectIdHex(s)
    ensures r.Some? ==> IsCanonicalId(r.value) && ToLower(r.value) == ToLower(s)
  {
    if IsObjectIdHex(s) then
      LowerIdempotent(s);
      Some(ToLower(s))
    else None
  }

  /** Hex() then ObjectIDFromHex gives back the same ObjectID, and two hex
      strings decode to the same ObjectID exactly when they agree up to the
      case of their letters. */
  lemma ObjectIdHexRoundTrip(id: Id, s: string, t: string)
    ensures IsCanonicalId(id) ==> ObjectIdFromHex(id) == Some(id)
    ensures IsObjectIdHex(s) && IsObjectIdHex(t) ==>
      (ObjectIdFromHex(s) == ObjectIdFromHex(t) <==> ToLower(s) == ToLower(t))
  {
    LowerFixedPoints(id);
    if IsObjectIdHex(s) {
      LowerFixedPoints(ObjectIdFromHex(s).value);
    }
    if IsObjectIdHex(t) {
      LowerFixedPoints(ObjectIdFromHex(t).value);
    }
  }

  datatype User = User(
    id: Id,
    firstName: string,
    lastName: string,
    email: string,
    password: string,          // the stored hash
    isAdmin: bool,
    isVerified: bool,
    lastLogin: Option<Time>,
    otp: Option<string>,
    otpExpire: Option<Time>,
    createdAt: Time,
    updatedAt: Option<Time>)

  /** The Go zero value of the struct. */
  function ZeroUser(): (u: User)
    ensures u.id == NIL_ID && u.email == "" && u.password == ""
    ensures !u.isAdmin && !u.isVerified
    ensures u.lastLogin.None? && u.otp.None? && u.otpExpire.None? && u.updatedAt.None?
  {
    User(NIL_ID, "", "", "", "", false, false, None, None, None, ZERO_TIME, None)
  }

  // ---------------------------------------------------------------
  // Validation (`validate:"required"`, `required,email`, `required,min=6`)
  // ---------------------------------------------------------------

  /** One failed validation tag: the struct field and the tag that failed. */
  datatype FieldError = FieldError(field: string, tag: string)

  /** The per-field checks the validator runs, in declaration order; a
      field reports only its first failing tag. The email-shape check of the
      validator library is the parameter `isEmail`. */
  function FieldErrors(u: User, isEmail: string -> bool): seq<FieldError>
  {
    (if u.firstName == "" then [FieldError("FirstName", "required")] else [])
    + (if u.lastName == "" then [FieldError("LastName", "required")] else [])
    + (if u.email == "" then [FieldError("Email", "required")]
       else if !isEmail(u.email) then [FieldError("Email", "email")] else [])
    + (if u.password == "" then [FieldError("Password", "required")]
       else if |u.password| < 6 then [FieldError("Password", "min")] else [])
  }

  /** User.ValidateUser: nil, or the list of failed field checks. */
  function ValidateUser(u: User, isEmail: string -> bool): (r: Option<seq<FieldError>>)
    ensures r.None? <==>
      u.firstName != "" && u.lastName != "" && isEmail(u.email) && u.email != "" && |u.password| >= 6
    ensures r.Some? ==> |r.value| > 0
    ensures u.firstName == "" ==> r.Some? && FieldError("FirstName", "required") in r.value
    ensures u.lastName == "" ==> r.Some? && FieldError("LastName", "required") in r.value
    ensures 0 < |u.password| < 6 ==> r.Some? && FieldError("Password", "min") in r.value
  {
    var errs := FieldErrors(u, isEmail);
    if errs == [] then None else Some(errs)
  }

  // ---------------------------------------------------------------
  // JSON form (encoding/json with the struct's `json` tags)
  // ---------------------------------------------------------------

  datatype Json = JStr(s: string) | JBool(b: bool) | JTime(t: Time) | JNull

  /** A nil time pointer is written as null (no `omitempty` on these tags). */
  function TimeOrNull(t: Option<Time>): Json
  {
    match t
    case None => JNull
    case Some(v) => JTime(v)
  }

  function StrOrNull(s: Option<string>): Json
  {
    match s
    case None => JNull
    case Some(v) => JStr(v)
  }

  /** The object the record marshals to. Password carries `json:"-"`. */
  function ToJson(u: User): (j: map<string, Json>)
    ensures "password" !in j
    ensures j.Keys == {"id", "firstName", "lastName", "email", "isAdmin", "isVerified",
                       "lastLogin", "otp", "otpExpire", "createdAt", "updatedAt"}
  {
    map["id" := JStr(u.id), "firstName" := JStr(u.firstName), "lastName" := JStr(u.lastName),
        "email" := JStr(u.email), "isAdmin" := JBool(u.isAdmin), "isVerified" := JBool(u.isVerified),
        "lastLogin" := TimeOrNull(u.lastLogin), "otp" := StrOrNull(u.otp),
        "otpExpire" := TimeOrNull(u.otpExpire), "createdAt" := JTime(u.createdAt),
        "updatedAt" := TimeOrNull(u.updatedAt)]
  }

  /** The JSON form determines every field except the password, and nothing
      about the password: two records have the same JSON exactly when they
      differ at most in their password. */
  lemma JsonHidesOnlyPassword(u: User, v: User)
    ensures ToJson(u) == ToJson(v) <==> u.(password := v.password) == v
  {
    if ToJson(u) == ToJson(v) {
      assert ToJson(u)["id"] == ToJson(v)["id"];
      assert ToJson(u)["firstName"] == ToJson(v)["firstName"];
      assert ToJson(u)["lastName"] == ToJson(v)["lastName"];
      assert ToJson(u)["email"] == ToJson(v)["email"];
      assert ToJson(u)["isAdmin"] == ToJson(v)["isAdmin"];
      assert ToJson(u)["isVerified"] == ToJson(v)["isVerified"];
      assert ToJson(u)["lastLogin"] == ToJson(v)["lastLogin"];
      assert ToJson(u)["otp"] == ToJson(v)["otp"];
      assert ToJson(u)["otpExpire"] == ToJson(v)["otpExpire"];
      assert ToJson(u)["createdAt"] == ToJson(v)["createdAt"];
      assert ToJson(u)["updatedAt"] == ToJson(v)["updatedAt"];
    }
  }

  // ---------------------------------------------------------------
  // `$set` patches
  // ---------------------------------------------------------------

  /** The fields a `$set` document built by the handlers may name. A present
      outer Some means the key is in the document; for the nil-able fields the
      inner Option is the value written, None being BSON null. */
  datatype Patch = Patch(
    firstName: Option<string>,
    lastName: Option<string>,
    isAdmin: Option<bool>,
    isVerified: Option<bool>,
    lastLogin: Option<Option<Time>>,
    otp: Option<Option<string>>,
    otpExpire: Option<Option<Time>>,
    updatedAt: Option<Option<Time>>)

  const EMPTY_PATCH: Patch := Patch(None, None, None, None, None, None, None, None)

  function Pick<T>(key: Option<T>, current: T): T
  {
    match key
    case None => current
    case Some(v) => v
  }

  /** `$set`: every key present in the patch takes its value; every other
      field, and always id, email, password and createdAt, keeps its value. */
  function ApplyPatch(u: User, p: Patch): (r: User)
    ensures r.id == u.id && r.email == u.email && r.password == u.password && r.createdAt == u.createdAt
    ensures p.firstName.None? ==> r.firstName == u.firstName
    ensures p.lastName.None? ==> r.lastName == u.lastName
    ensures p.isAdmin.None? ==> r.isAdmin == u.isAdmin
    ensures p.isVerified.None? ==> r.isVerified == u.isVerified
    ensures p.lastLogin.None? ==> r.lastLogin == u.lastLogin
    ensures p.otp.None? ==> r.otp == u.otp
    ensures p.otpExpire.None? ==> r.otpExpire == u.otpExpire
    ensures p.updatedAt.None? ==> r.updatedAt == u.updatedAt
    ensures p.firstName.Some? ==> r.firstName == p.firstName.value
    ensures p.lastName.Some? ==> r.lastName == p.lastName.value
    ensures p.isAdmin.Some? ==> r.isAdmin == p.isAdmin.value
    ensures p.isVerified.Some? ==> r.isVerified == p.isVerified.value
    ensures p.lastLogin.Some? ==> r.lastLogin == p.lastLogin.value
    ensures p.otp.Some? ==> r.otp == p.otp.value
    ensures p.otpExpire.Some? ==> r.otpExpire == p.otpExpire.value
    ensures p.updatedAt.Some? ==> r.updatedAt == p.updatedAt.value
  {
    u.(firstName := Pick(p.firstName, u.firstName),
       lastName := Pick(p.lastName, u.lastName),
       isAdmin := Pick(p.isAdmin, u.isAdmin),
       isVerified := Pick(p.isVerified, u.isVerified),
       lastLogin := Pick(p.lastLogin, u.lastLogin),
       otp := Pick(p.otp, u.otp),
       otpExpire := Pick(p.otpExpire, u.otpExpire),
       updatedAt := Pick(p.updatedAt, u.updatedAt))
  }

  /** Applying the same `$set` twice is the same as applying it once, and
      the empty `$set` changes nothing. */
  lemma PatchIdempotent(u: User, p: Patch)
    ensures ApplyPatch(ApplyPatch(u, p), p) == ApplyPatch(u, p)
    ensures ApplyPatch(u, EMPTY_PATCH) == u
  {
  }
}
