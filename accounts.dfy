/**
 * What the account handlers of the flat service (controllers/auth.go) answer
 * and what they leave in the "users" collection, as functions of the
 * collection before the request. The handler methods in AuthControllers are
 * proved to compute exactly these; the lemmas here state what the handlers
 * promise: registration stores a lower-cased, unique email; an OTP is six
 * decimal digits at most and lives five minutes; verification consumes the
 * OTP; login refuses a wrong password before an unverified account.
 *
 * The clock, the password library, the token signer, the email-shape check
 * of the binding validator, the fresh ObjectID and the random OTP draw are
 * parameters.
 */
module Accounts {
  import opened Common
  import opened UserModel
  import opened Store
  import opened Queries
  import opened Credentials
  import opened Token
  import opened AuthMiddleware

  /** An OTP lives five minutes and is drawn uniformly from [0, 1000000). */
  const OTP_TTL: int := 5 * 60
  const OTP_RANGE: nat := 1000000

  const INVALID_PAYLOAD: string := "Invalid request payload"
  const EMAIL_TAKEN: string := "This email already exists"
  const HASH_FAILED: string := "Failed to process password"
  const TOKENS_FAILED: string := "Failed to generate tokens"
  const CREATE_FAILED: string := "Failed to create user"
  const REGISTERED: string := "Registration successful"
  const OTP_SENT: string := "An OTP has been sent to your email address for account verification "
  const NO_ACCOUNT: string := "User account does not exist"
  const INVALID_OTP: string := "Invalid OTP"
  const OTP_EXPIRED: string := "OTP has expired"
  const VERIFY_FAILED: string := "Failed to complete account verification"
  const VERIFIED: string := "Account verification completed successfully"
  const NO_ACCOUNT_RESEND: string := "User Account does not exist"
  const RESEND_FAILED: string := "Failed to resend OTP"
  const BAD_CREDENTIALS: string := "Invalid email or password"
  const UNVERIFIED: string := "Account verification incomplete"
  const LOGIN_TOKENS_FAILED: string := "Failed to generate authentication tokens"
  const LOGGED_IN: string := "Login successful"

  /** The world outside the handler: the clock, the password library, the
      token signer and the validator's email-shape check. */
  datatype Env = Env(now: Time, hasher: Hasher, codec: Codec, isEmail: string -> bool)

  /** The JSON response: `status`, `message`, `success` and the `data` object
      (empty when the response has none). */
  datatype Reply = Reply(status: int, message: string, success: bool, data: map<string, Json>)

  function Fail(status: int, message: string): Reply
  {
    Reply(status, message, false, map[])
  }

  // ---------------------------------------------------------------
  // Request bodies and their binding tags
  // ---------------------------------------------------------------

  datatype SignupInput = SignupInput(firstName: string, lastName: string, email: string, password: string, isAdmin: bool)
  datatype VerifyInput = VerifyInput(email: string, otp: string)
  datatype LoginInput = LoginInput(email: string, password: string)

  /** `binding:"required,email"`. */
  predicate EmailBinds(email: string, isEmail: string -> bool)
  {
    email != "" && isEmail(email)
  }

  /** The tags of the registration body: names required, email required and
      well-formed, password of at least six characters. */
  predicate SignupBinds(i: SignupInput, isEmail: string -> bool)
  {
    i.firstName != "" && i.lastName != "" && EmailBinds(i.email, isEmail) && |i.password| >= 6
  }

  predicate VerifyBinds(i: VerifyInput, isEmail: string -> bool)
  {
    EmailBinds(i.email, isEmail) && i.otp != ""
  }

  predicate LoginBinds(i: LoginInput, isEmail: string -> bool)
  {
    EmailBinds(i.email, isEmail) && i.password != ""
  }

  // ---------------------------------------------------------------
  // Records, patches and response bodies
  // ---------------------------------------------------------------

  /** The record a registration creates. */
  function NewUser(i: SignupInput, id: Id, hashed: string, now: Time, otp: Option<string>): User
  {
    User(id, i.firstName, i.lastName, ToLower(i.email), hashed, i.isAdmin,
         otp.None?, None, otp, if otp.None? then None else Some(now + OTP_TTL), now, None)
  }

  /** The six identity fields every response body repeats. */
  function Profile(u: User): map<string, Json>
  {
    map["id" := JStr(u.id), "firstName" := JStr(u.firstName), "lastName" := JStr(u.lastName),
        "email" := JStr(u.email), "isAdmin" := JBool(u.isAdmin), "isVerified" := JBool(u.isVerified)]
  }

  function SignupData(u: User, issued: Issued): map<string, Json>
  {
    Profile(u)["createdAt" := JTime(u.createdAt)]["token" := JStr(issued.token)]
      ["refreshToken" := JStr(issued.refreshToken)]["insertId" := JStr(u.id)]
  }

  function LoginData(u: User, now: Time, issued: Issued): map<string, Json>
  {
    Profile(u)["lastLogin" := JTime(now)]["token" := JStr(issued.token)]
      ["refreshToken" := JStr(issued.refreshToken)]
  }

  /** Verification sets the flag and clears both OTP fields. */
  const VERIFY_PATCH: Patch := EMPTY_PATCH.(isVerified := Some(true), otp := Some(None), otpExpire := Some(None))

  /** A fresh OTP and its expiry. */
  function OtpPatch(otp: string, now: Time): Patch
  {
    EMPTY_PATCH.(otp := Some(Some(otp)), otpExpire := Some(Some(now + OTP_TTL)))
  }

  function LoginPatch(now: Time): Patch
  {
    EMPTY_PATCH.(lastLogin := Some(Some(now)))
  }

  // ---------------------------------------------------------------
  // The handlers, as functions of the collection
  // ---------------------------------------------------------------

  /** Signup: bind, refuse a taken email, hash, sign the tokens, insert a
      verified record. */
  function Signup(docs: seq<User>, env: Env, input: Option<SignupInput>, freshId: Id): (Reply, seq<User>)
  {
    if input.None? || !SignupBinds(input.value, env.isEmail) then (Fail(STATUS_BAD_REQUEST, INVALID_PAYLOAD), docs)
    else
      var i := input.value;
      var email := ToLower(i.email);
      if GetUserByEmail(docs, email).Ok? then (Fail(STATUS_UNAUTHORIZED, EMAIL_TAKEN), docs)
      else match env.hasher.hash(i.password)
        case Err(_) => (Fail(STATUS_INTERNAL_SERVER_ERROR, HASH_FAILED), docs)
        case Ok(hashed) =>
          var u := NewUser(i, freshId, hashed, env.now, None);
          var issued := GenerateAllTokens(env.codec, email, freshId, i.isAdmin, env.now);
          if issued.err.Some? then (Fail(STATUS_INTERNAL_SERVER_ERROR, TOKENS_FAILED), docs)
          else if IndexOfId(docs, freshId).Some? then (Fail(STATUS_INTERNAL_SERVER_ERROR, CREATE_FAILED), docs)
          else (Reply(STATUS_CREATED, REGISTERED, true, SignupData(u, issued)), docs + [u])
  }

  /** RegisterWithOtp: as Signup up to the hash, then an unverified record
      carrying the OTP `draw` printed in decimal. */
  function RegisterWithOtp(docs: seq<User>, env: Env, input: Option<SignupInput>, freshId: Id, draw: nat): (Reply, seq<User>)
  {
    if input.None? || !SignupBinds(input.value, env.isEmail) then (Fail(STATUS_BAD_REQUEST, INVALID_PAYLOAD), docs)
    else
      var i := input.value;
      if GetUserByEmail(docs, ToLower(i.email)).Ok? then (Fail(STATUS_UNAUTHORIZED, EMAIL_TAKEN), docs)
      else match env.hasher.hash(i.password)
        case Err(_) => (Fail(STATUS_INTERNAL_SERVER_ERROR, HASH_FAILED), docs)
        case Ok(hashed) =>
          var otp := Itoa(draw);
          var u := NewUser(i, freshId, hashed, env.now, Some(otp));
          if IndexOfId(docs, freshId).Some? then (Fail(STATUS_INTERNAL_SERVER_ERROR, CREATE_FAILED), docs)
          else (Reply(STATUS_CREATED, OTP_SENT + otp, true, map[]), docs + [u])
  }

  /** VerifyAccount: the account must exist, hold this OTP and the OTP must
      not have expired; then the record is marked verified. */
  function VerifyAccount(docs: seq<User>, env: Env, input: Option<VerifyInput>): (Reply, seq<User>)
  {
    if input.None? || !VerifyBinds(input.value, env.isEmail) then (Fail(STATUS_BAD_REQUEST, INVALID_PAYLOAD), docs)
    else
      var i := input.value;
      match GetUserByEmail(docs, ToLower(i.email))
      case Err(_) => (Fail(STATUS_UNAUTHORIZED, NO_ACCOUNT), docs)
      case Ok(found) =>
        if found.otp != Some(i.otp) then (Fail(STATUS_BAD_REQUEST, INVALID_OTP), docs)
        else if found.otpExpire.None? || env.now > found.otpExpire.value then (Fail(STATUS_UNAUTHORIZED, OTP_EXPIRED), docs)
        else
          var (err, after) := UpdateOutcome(docs, found.id, VERIFY_PATCH);
          if err.Some? then (Fail(STATUS_INTERNAL_SERVER_ERROR, VERIFY_FAILED), after)
          else (Reply(STATUS_OK, VERIFIED, true, Profile(found)["isVerified" := JBool(true)]), after)
  }

  /** ResendOtp: a fresh OTP and expiry on the account with this email. */
  function ResendOtp(docs: seq<User>, env: Env, input: Option<string>, draw: nat): (Reply, seq<User>)
  {
    if input.None? || !EmailBinds(input.value, env.isEmail) then (Fail(STATUS_BAD_REQUEST, INVALID_PAYLOAD), docs)
    else
      match GetUserByEmail(docs, ToLower(input.value))
      case Err(_) => (Fail(STATUS_UNAUTHORIZED, NO_ACCOUNT_RESEND), docs)
      case Ok(found) =>
        var otp := Itoa(draw);
        var (err, after) := UpdateOutcome(docs, found.id, OtpPatch(otp, env.now));
        if err.Some? then (Fail(STATUS_INTERNAL_SERVER_ERROR, RESEND_FAILED), after)
        else (Reply(STATUS_CREATED, OTP_SENT + otp, true, map[]), after)
  }

  /** Login: the account must exist, the password must verify and the
      account must be verified; the tokens are signed and the login time is
      recorded, a failure to record it being ignored. */
  function Login(docs: seq<User>, env: Env, input: Option<LoginInput>): (Reply, seq<User>)
  {
    if input.None? || !LoginBinds(input.value, env.isEmail) then (Fail(STATUS_BAD_REQUEST, INVALID_PAYLOAD), docs)
    else
      var i := input.value;
      match GetUserByEmail(docs, ToLower(i.email))
      case Err(_) => (Fail(STATUS_UNAUTHORIZED, BAD_CREDENTIALS), docs)
      case Ok(found) =>
        var (valid, msg) := env.hasher.verify(i.password, found.password);
        if !valid then (Fail(STATUS_UNAUTHORIZED, msg), docs)
        else if !found.isVerified then (Fail(STATUS_FORBIDDEN, UNVERIFIED), docs)
        else
          var issued := GenerateAllTokens(env.codec, found.email, found.id, found.isAdmin, env.now);
          if issued.err.Some? then (Fail(STATUS_INTERNAL_SERVER_ERROR, LOGIN_TOKENS_FAILED), docs)
          else (Reply(STATUS_OK, LOGGED_IN, true, LoginData(found, env.now, issued)),
                UpdateOutcome(docs, found.id, LoginPatch(env.now)).1)
  }

  // ---------------------------------------------------------------
  // Lookups after a write
  // ---------------------------------------------------------------

  /** Two collections with the same email at every position answer an email
      lookup the same way. */
  lemma SameEmailsSameLookup(a: seq<User>, b: seq<User>, email: string)
    requires |a| == |b| && forall k :: 0 <= k < |a| ==> a[k].email == b[k].email
    ensures IndexOfEmail(a, email) == IndexOfEmail(b, email)
  {
    match IndexOfEmail(a, email)
    case None =>
    case Some(k) =>
      assert b[k].email == email;
  }

  /** A record appended under an email no earlier record has is found by it. */
  lemma LookupAppended(docs: seq<User>, u: User)
    requires forall k :: 0 <= k < |docs| ==> docs[k].email != u.email && docs[k].id != u.id
    ensures IndexOfEmail(docs + [u], u.email) == Some(|docs|)
    ensures IndexOfId(docs + [u], u.id) == Some(|docs|)
  {
    var after := docs + [u];
    assert after[|docs|] == u;
    assert forall k :: 0 <= k < |docs| ==> after[k].email != u.email && after[k].id != u.id;
  }

  /** After `$set` by the id of the first record with a given email, that
      record is still the first with that email, now patched. */
  lemma PatchedRecordFoundAgain(docs: seq<User>, email: string, p: Patch)
    requires DistinctIds(docs) && IndexOfEmail(docs, email).Some?
    ensures var k := IndexOfEmail(docs, email).value;
      IndexOfId(docs, docs[k].id) == Some(k) &&
      GetUserByEmail(UpdatedById(docs, docs[k].id, p), email) == Ok(ApplyPatch(docs[k], p))
  {
    var k := IndexOfEmail(docs, email).value;
    IdFindsItself(docs, k);
    var after := UpdatedById(docs, docs[k].id, p);
    SameEmailsSameLookup(docs, after, email);
  }

  /** Each account handler keeps the collection consistent, whatever the
      request and whatever the libraries answer; the fresh id is the
      canonical text of primitive.NewObjectID(). */
  lemma SignupKeepsConsistent(docs: seq<User>, env: Env, input: Option<SignupInput>, freshId: Id)
    requires Consistent(docs) && IsCanonicalId(freshId)
    ensures Consistent(Signup(docs, env, input, freshId).1)
  {
    if Signup(docs, env, input, freshId).1 != docs {
      var i := input.value;
      AppendKeepsConsistent(docs, NewUser(i, freshId, env.hasher.hash(i.password).value, env.now, None));
    }
  }

  lemma RegisterKeepsConsistent(docs: seq<User>, env: Env, input: Option<SignupInput>, freshId: Id, draw: nat)
    requires Consistent(docs) && IsCanonicalId(freshId)
    ensures Consistent(RegisterWithOtp(docs, env, input, freshId, draw).1)
  {
    if RegisterWithOtp(docs, env, input, freshId, draw).1 != docs {
      var i := input.value;
      AppendKeepsConsistent(docs, NewUser(i, freshId, env.hasher.hash(i.password).value, env.now, Some(Itoa(draw))));
    }
  }

  lemma VerifyKeepsConsistent(docs: seq<User>, env: Env, input: Option<VerifyInput>)
    requires Consistent(docs)
    ensures Consistent(VerifyAccount(docs, env, input).1)
  {
    if input.Some? && GetUserByEmail(docs, ToLower(input.value.email)).Ok? {
      PatchKeepsConsistent(docs, ToLower(GetUserByEmail(docs, ToLower(input.value.email)).value.id), VERIFY_PATCH);
    }
  }

  lemma ResendKeepsConsistent(docs: seq<User>, env: Env, input: Option<string>, draw: nat)
    requires Consistent(docs)
    ensures Consistent(ResendOtp(docs, env, input, draw).1)
  {
    if input.Some? && GetUserByEmail(docs, ToLower(input.value)).Ok? {
      PatchKeepsConsistent(docs, ToLower(GetUserByEmail(docs, ToLower(input.value)).value.id), OtpPatch(Itoa(draw), env.now));
    }
  }

  lemma LoginKeepsConsistent(docs: seq<User>, env: Env, input: Option<LoginInput>)
    requires Consistent(docs)
    ensures Consistent(Login(docs, env, input).1)
  {
    var after := Login(docs, env, input).1;
    if after != docs {
      var found := GetUserByEmail(docs, ToLower(input.value.email)).value;
      assert after == UpdateOutcome(docs, found.id, LoginPatch(env.now)).1;
      PatchKeepsConsistent(docs, ToLower(found.id), LoginPatch(env.now));
    }
  }

  // ---------------------------------------------------------------
  // Registration
  // ---------------------------------------------------------------

  /** Signup succeeds exactly when the body binds, no stored email equals
      the lower-cased one, the password hashes, both tokens sign and the new
      id is free. It then appends one verified record under the lower-cased
      email and answers 201 with the tokens; every failure leaves the
      collection as it was. */
  lemma SignupSucceedsIff(docs: seq<User>, env: Env, input: Option<SignupInput>, freshId: Id)
    ensures Signup(docs, env, input, freshId).0.success <==>
      input.Some? && SignupBinds(input.value, env.isEmail) &&
      (forall u :: u in docs ==> u.email != ToLower(input.value.email)) &&
      env.hasher.hash(input.value.password).Ok? &&
      GenerateAllTokens(env.codec, ToLower(input.value.email), freshId, input.value.isAdmin, env.now).err.None? &&
      (forall u :: u in docs ==> u.id != freshId)
    ensures !Signup(docs, env, input, freshId).0.success ==> Signup(docs, env, input, freshId).1 == docs
    ensures Signup(docs, env, input, freshId).0.success ==>
      var (reply, after) := Signup(docs, env, input, freshId);
      var issued := GenerateAllTokens(env.codec, ToLower(input.value.email), freshId, input.value.isAdmin, env.now);
      |after| == |docs| + 1 && after[..|docs|] == docs &&
      after[|docs|].id == freshId && after[|docs|].email == ToLower(input.value.email) &&
      after[|docs|].isVerified && after[|docs|].otp.None? &&
      after[|docs|].password == env.hasher.hash(input.value.password).value &&
      reply.status == STATUS_CREATED &&
      reply.data["token"] == JStr(issued.token) && reply.data["refreshToken"] == JStr(issued.refreshToken)
  {
    if input.Some? && !(forall u :: u in docs ==> u.id != freshId) {
      var u :| u in docs && u.id == freshId;
    }
    if Signup(docs, env, input, freshId).0.success {
      var after := Signup(docs, env, input, freshId).1;
      assert after[..|docs|] == docs;
    }
  }

  /** An email that differs from a stored one only in letter case is
      refused by both registrations, which then change nothing. */
  lemma RegistrationRefusesTakenEmail(docs: seq<User>, env: Env, i: SignupInput, freshId: Id, draw: nat, u: User)
    requires LowerEmails(docs) && u in docs && SignupBinds(i, env.isEmail)
    requires ToLower(u.email) == ToLower(i.email)
    ensures Signup(docs, env, Some(i), freshId) == (Fail(STATUS_UNAUTHORIZED, EMAIL_TAKEN), docs)
    ensures RegisterWithOtp(docs, env, Some(i), freshId, draw) == (Fail(STATUS_UNAUTHORIZED, EMAIL_TAKEN), docs)
  {
    var k :| 0 <= k < |docs| && docs[k] == u;
    LowerFixedPoints(u.email);
    assert GetUserByEmail(docs, ToLower(i.email)).Ok?;
  }

  /** The OTP stored and sent is the draw in decimal: one to six digits
      that read back as the draw. The record is unverified and the OTP
      expires five minutes after registration. */
  lemma RegisterStoresOtp(docs: seq<User>, env: Env, input: Option<SignupInput>, freshId: Id, draw: nat)
    requires draw < OTP_RANGE
    requires RegisterWithOtp(docs, env, input, freshId, draw).0.success
    ensures var (reply, after) := RegisterWithOtp(docs, env, input, freshId, draw);
      |after| == |docs| + 1 && after[..|docs|] == docs &&
      after[|docs|].email == ToLower(input.value.email) &&
      !after[|docs|].isVerified && after[|docs|].otp.Some? &&
      after[|docs|].otpExpire == Some(env.now + OTP_TTL) &&
      reply.status == STATUS_CREATED && reply.message == OTP_SENT + after[|docs|].otp.value &&
      1 <= |after[|docs|].otp.value| <= 6 && AllDigits(after[|docs|].otp.value) &&
      DecimalValue(after[|docs|].otp.value) == draw
  {
    var after := RegisterWithOtp(docs, env, input, freshId, draw).1;
    assert after[..|docs|] == docs;
    assert Pow10(6) == OTP_RANGE;
    ItoaLength(draw, 6);
    ItoaRoundTrip(draw);
  }

  // ---------------------------------------------------------------
  // Verification
  // ---------------------------------------------------------------

  /** Verification succeeds exactly when the body binds, the account
      exists, holds this OTP and the OTP has not expired. It then marks that
      record verified and clears its OTP; a wrong OTP is refused before an
      expired one. */
  lemma VerifySucceedsIff(docs: seq<User>, env: Env, input: Option<VerifyInput>)
    requires CanonicalIds(docs)
    ensures VerifyAccount(docs, env, input).0.success <==>
      input.Some? && VerifyBinds(input.value, env.isEmail) &&
      GetUserByEmail(docs, ToLower(input.value.email)).Ok? &&
      var found := GetUserByEmail(docs, ToLower(input.value.email)).value;
      found.otp == Some(input.value.otp) && found.otpExpire.Some? &&
      env.now <= found.otpExpire.value
    ensures !VerifyAccount(docs, env, input).0.success ==> VerifyAccount(docs, env, input).1 == docs
    ensures VerifyAccount(docs, env, input).0.success ==> VerifyAccount(docs, env, input).0.status == STATUS_OK
    ensures VerifyAccount(docs, env, input).0.success ==>
      var found := GetUserByEmail(docs, ToLower(input.value.email)).value;
      VerifyAccount(docs, env, input).1 == UpdatedById(docs, found.id, VERIFY_PATCH)
    ensures (input.Some? && VerifyBinds(input.value, env.isEmail) &&
             GetUserByEmail(docs, ToLower(input.value.email)).Ok? &&
             GetUserByEmail(docs, ToLower(input.value.email)).value.otp != Some(input.value.otp)) ==>
      VerifyAccount(docs, env, input) == (Fail(STATUS_BAD_REQUEST, INVALID_OTP), docs)
  {
    if input.Some? && GetUserByEmail(docs, ToLower(input.value.email)).Ok? {
      var found := GetUserByEmail(docs, ToLower(input.value.email)).value;
      var k :| 0 <= k < |docs| && docs[k] == found;
      UpdateByStoredId(docs, k, VERIFY_PATCH);
    }
  }

  /** An OTP works once: after a successful verification the same request
      is refused as an invalid OTP, at any later time. */
  lemma VerifyConsumesOtp(docs: seq<User>, env: Env, input: Option<VerifyInput>, later: Time)
    requires DistinctIds(docs) && CanonicalIds(docs)
    requires VerifyAccount(docs, env, input).0.success
    ensures var after := VerifyAccount(docs, env, input).1;
      VerifyAccount(after, env.(now := later), input) == (Fail(STATUS_BAD_REQUEST, INVALID_OTP), after)
  {
    var email := ToLower(input.value.email);
    VerifySucceedsIff(docs, env, input);
    PatchedRecordFoundAgain(docs, email, VERIFY_PATCH);
  }

  /** Registering with an OTP and then verifying with that OTP succeeds
      until five minutes have passed, and is refused as expired after. */
  lemma RegisterThenVerify(docs: seq<User>, env: Env, i: SignupInput, freshId: Id, draw: nat, later: Time)
    requires IsCanonicalId(freshId)
    requires RegisterWithOtp(docs, env, Some(i), freshId, draw).0.success
    ensures var after := RegisterWithOtp(docs, env, Some(i), freshId, draw).1;
      var verified := VerifyAccount(after, env.(now := later), Some(VerifyInput(i.email, Itoa(draw))));
      (later <= env.now + OTP_TTL ==>
        verified.0.status == STATUS_OK &&
        verified.1 == after[|docs| := after[|docs|].(isVerified := true, otp := None, otpExpire := None)]) &&
      (later > env.now + OTP_TTL ==> verified == (Fail(STATUS_UNAUTHORIZED, OTP_EXPIRED), after))
  {
    var u := RegisterAppends(docs, env, i, freshId, draw);
    var after := docs + [u];
    RegisteredRecordFound(docs, i, u, i.email);
    LookupAppended(docs, u);
    var env', input := env.(now := later), VerifyInput(i.email, Itoa(draw));
    assert VerifyBinds(input, env'.isEmail);
    if later <= env.now + OTP_TTL {
      var patched := after[|docs| := u.(isVerified := true, otp := None, otpExpire := None)];
      LowerFixedPoints(freshId);
      assert UpdateOutcome(after, freshId, VERIFY_PATCH) == (None, patched);
      assert VerifyAccount(after, env', Some(input)).1 == patched;
    }
  }

  /** A successful RegisterWithOtp appends the new unverified record, whose
      email was unused and whose id was free. */
  lemma RegisterAppends(docs: seq<User>, env: Env, i: SignupInput, freshId: Id, draw: nat) returns (u: User)
    requires RegisterWithOtp(docs, env, Some(i), freshId, draw).0.success
    ensures SignupBinds(i, env.isEmail) && env.hasher.hash(i.password).Ok?
    ensures u == NewUser(i, freshId, env.hasher.hash(i.password).value, env.now, Some(Itoa(draw)))
    ensures RegisterWithOtp(docs, env, Some(i), freshId, draw).1 == docs + [u]
    ensures GetUserByEmail(docs, ToLower(i.email)).Err? && IndexOfId(docs, freshId).None?
  {
    u := NewUser(i, freshId, env.hasher.hash(i.password).value, env.now, Some(Itoa(draw)));
  }

  /** RegisterWithOtp succeeds exactly when the body binds, no stored email
      equals the lower-cased one, the password hashes and the new id is
      free. It then appends the unverified record with the OTP and answers
      201 with the OTP; every failure leaves the collection as it was. */
  lemma RegisterSucceedsIff(docs: seq<User>, env: Env, input: Option<SignupInput>, freshId: Id, draw: nat)
    ensures RegisterWithOtp(docs, env, input, freshId, draw).0.success <==>
      input.Some? && SignupBinds(input.value, env.isEmail) &&
      (forall u :: u in docs ==> u.email != ToLower(input.value.email)) &&
      env.hasher.hash(input.value.password).Ok? &&
      (forall u :: u in docs ==> u.id != freshId)
    ensures !RegisterWithOtp(docs, env, input, freshId, draw).0.success ==>
      RegisterWithOtp(docs, env, input, freshId, draw).1 == docs
    ensures RegisterWithOtp(docs, env, input, freshId, draw).0.success ==>
      RegisterWithOtp(docs, env, input, freshId, draw) ==
        (Reply(STATUS_CREATED, OTP_SENT + Itoa(draw), true, map[]),
         docs + [NewUser(input.value, freshId, env.hasher.hash(input.value.password).value, env.now, Some(Itoa(draw)))])
  {
    if input.Some? && !(forall u :: u in docs ==> u.id != freshId) {
      var u :| u in docs && u.id == freshId;
    }
  }

  // ---------------------------------------------------------------
  // Resending
  // ---------------------------------------------------------------

  /** A successful resend changes only the OTP and its expiry, on the first
      record with the lower-cased email; a failed one changes nothing. */
  lemma ResendReplacesOnlyOtp(docs: seq<User>, env: Env, email: string, draw: nat)
    requires DistinctIds(docs) && CanonicalIds(docs)
    ensures !ResendOtp(docs, env, Some(email), draw).0.success ==> ResendOtp(docs, env, Some(email), draw).1 == docs
    ensures ResendOtp(docs, env, Some(email), draw).0.success ==>
      IndexOfEmail(docs, ToLower(email)).Some? &&
      var k := IndexOfEmail(docs, ToLower(email)).value;
      ResendOtp(docs, env, Some(email), draw).1 ==
        docs[k := docs[k].(otp := Some(Itoa(draw)), otpExpire := Some(env.now + OTP_TTL))]
  {
    if EmailBinds(email, env.isEmail) && IndexOfEmail(docs, ToLower(email)).Some? {
      var k := IndexOfEmail(docs, ToLower(email)).value;
      var found := docs[k];
      assert GetUserByEmail(docs, ToLower(email)) == Ok(found);
      var p := OtpPatch(Itoa(draw), env.now);
      var patched := found.(otp := Some(Itoa(draw)), otpExpire := Some(env.now + OTP_TTL));
      assert ApplyPatch(found, p) == patched;
      UpdateByStoredId(docs, k, p);
    }
  }

  /** A resend succeeds exactly when the email binds and some account has
      the lower-cased email, whether or not it is verified; it then answers
      201 with the new OTP. An unknown email is answered 401 "User Account
      does not exist" and nothing changes. */
  lemma ResendSucceedsIff(docs: seq<User>, env: Env, email: string, draw: nat)
    requires DistinctIds(docs) && CanonicalIds(docs)
    ensures ResendOtp(docs, env, Some(email), draw).0.success <==>
      EmailBinds(email, env.isEmail) && exists u :: u in docs && u.email == ToLower(email)
    ensures ResendOtp(docs, env, Some(email), draw).0.success ==>
      ResendOtp(docs, env, Some(email), draw).0 == Reply(STATUS_CREATED, OTP_SENT + Itoa(draw), true, map[])
    ensures EmailBinds(email, env.isEmail) && (forall u :: u in docs ==> u.email != ToLower(email)) ==>
      ResendOtp(docs, env, Some(email), draw) == (Fail(STATUS_UNAUTHORIZED, NO_ACCOUNT_RESEND), docs)
  {
    if EmailBinds(email, env.isEmail) && GetUserByEmail(docs, ToLower(email)).Ok? {
      var found := GetUserByEmail(docs, ToLower(email)).value;
      var k :| 0 <= k < |docs| && docs[k] == found;
      UpdateByStoredId(docs, k, OtpPatch(Itoa(draw), env.now));
    }
  }

  /** After a resend the new OTP verifies within five minutes, and an older
      OTP that differs from it no longer does. */
  lemma ResendThenVerify(docs: seq<User>, env: Env, email: string, draw: nat, oldOtp: string, later: Time)
    requires DistinctIds(docs) && CanonicalIds(docs)
    requires ResendOtp(docs, env, Some(email), draw).0.success
    requires later <= env.now + OTP_TTL && oldOtp != "" && oldOtp != Itoa(draw)
    ensures var after := ResendOtp(docs, env, Some(email), draw).1;
      VerifyAccount(after, env.(now := later), Some(VerifyInput(email, Itoa(draw)))).0.status == STATUS_OK &&
      VerifyAccount(after, env.(now := later), Some(VerifyInput(email, oldOtp))) == (Fail(STATUS_BAD_REQUEST, INVALID_OTP), after)
  {
    ResendReplacesOnlyOtp(docs, env, email, draw);
    var k := IndexOfEmail(docs, ToLower(email)).value;
    var after := ResendOtp(docs, env, Some(email), draw).1;
    assert forall j :: 0 <= j < |docs| ==> after[j].email == docs[j].email && after[j].id == docs[j].id;
    SameEmailsSameLookup(docs, after, ToLower(email));
    assert GetUserByEmail(after, ToLower(email)) == Ok(after[k]);
    var env' := env.(now := later);
    VerifySucceedsIff(after, env', Some(VerifyInput(email, Itoa(draw))));
    VerifySucceedsIff(after, env', Some(VerifyInput(email, oldOtp)));
  }

  // ---------------------------------------------------------------
  // Login
  // ---------------------------------------------------------------

  /** Login succeeds exactly when the body binds, the account exists, the
      password verifies against the stored hash, the account is verified and
      both tokens sign; whether the login time could be recorded plays no
      part. A failure changes nothing. */
  lemma LoginSucceedsIff(docs: seq<User>, env: Env, input: Option<LoginInput>)
    requires CanonicalIds(docs)
    ensures Login(docs, env, input).0.success <==>
      input.Some? && LoginBinds(input.value, env.isEmail) &&
      GetUserByEmail(docs, ToLower(input.value.email)).Ok? &&
      var found := GetUserByEmail(docs, ToLower(input.value.email)).value;
      env.hasher.verify(input.value.password, found.password).0 && found.isVerified &&
      GenerateAllTokens(env.codec, found.email, found.id, found.isAdmin, env.now).err.None?
    ensures !Login(docs, env, input).0.success ==> Login(docs, env, input).1 == docs
    ensures Login(docs, env, input).0.success ==>
      var found := GetUserByEmail(docs, ToLower(input.value.email)).value;
      Login(docs, env, input).1 == UpdatedById(docs, found.id, LoginPatch(env.now))
  {
    if input.Some? && GetUserByEmail(docs, ToLower(input.value.email)).Ok? {
      var found := GetUserByEmail(docs, ToLower(input.value.email)).value;
      var k :| 0 <= k < |docs| && docs[k] == found;
      UpdateByStoredId(docs, k, LoginPatch(env.now));
    }
  }

  /** A wrong password is refused with the library's message whether or not
      the account is verified; a right password on an unverified account is
      refused with 403. */
  lemma LoginRefusals(docs: seq<User>, env: Env, i: LoginInput)
    requires LoginBinds(i, env.isEmail) && GetUserByEmail(docs, ToLower(i.email)).Ok?
    ensures var found := GetUserByEmail(docs, ToLower(i.email)).value;
      var (valid, msg) := env.hasher.verify(i.password, found.password);
      (!valid ==> Login(docs, env, Some(i)) == (Fail(STATUS_UNAUTHORIZED, msg), docs)) &&
      (valid && !found.isVerified ==> Login(docs, env, Some(i)) == (Fail(STATUS_FORBIDDEN, UNVERIFIED), docs))
  {
  }

  /** The record just appended by a registration is the one a lookup by
      the registered email, in any letter case, finds. */
  lemma RegisteredRecordFound(docs: seq<User>, i: SignupInput, u: User, loginEmail: string)
    requires GetUserByEmail(docs, ToLower(i.email)).Err? && IndexOfId(docs, u.id).None?
    requires u.email == ToLower(i.email) && ToLower(loginEmail) == ToLower(i.email)
    ensures GetUserByEmail(docs + [u], ToLower(loginEmail)) == Ok(u)
  {
    assert forall k :: 0 <= k < |docs| ==> docs[k].email != u.email && docs[k].id != u.id by {
      forall k | 0 <= k < |docs| ensures docs[k].email != u.email && docs[k].id != u.id {
        assert docs[k] in docs;
      }
    }
    LookupAppended(docs, u);
  }

  /** With a sound password library, the email (in any letter case) and
      password just registered through Signup log in at any later time at
      which the tokens sign. */
  lemma LoginAfterSignup(docs: seq<User>, env: Env, i: SignupInput, freshId: Id, loginEmail: string, later: Time)
    requires Sound(env.hasher)
    requires ToLower(loginEmail) == ToLower(i.email) && EmailBinds(loginEmail, env.isEmail)
    requires Signup(docs, env, Some(i), freshId).0.success
    requires GenerateAllTokens(env.codec, ToLower(i.email), freshId, i.isAdmin, later).err.None?
    ensures var login := Login(Signup(docs, env, Some(i), freshId).1, env.(now := later), Some(LoginInput(loginEmail, i.password)));
      login.0.status == STATUS_OK && login.0.data["email"] == JStr(ToLower(i.email)) &&
      login.0.data["id"] == JStr(freshId)
  {
    var u := SignupAppends(docs, env, i, freshId);
    RegisteredRecordFound(docs, i, u, loginEmail);
    assert env.hasher.verify(i.password, u.password).0;
    var env', input := env.(now := later), LoginInput(loginEmail, i.password);
    LoginOfFound(docs + [u], env', input, u);
    var issued := GenerateAllTokens(env'.codec, u.email, u.id, u.isAdmin, later);
    LoginDataIdentity(u, later, issued);
    assert Login(docs + [u], env', Some(input)).0.data == LoginData(u, later, issued);
  }

  /** The login body names the account by its email and id. */
  lemma LoginDataIdentity(u: User, now: Time, issued: Issued)
    ensures LoginData(u, now, issued)["email"] == JStr(u.email)
    ensures LoginData(u, now, issued)["id"] == JStr(u.id)
  {
  }

  /** A successful Signup appends the new record, whose email was unused and
      whose id was free. */
  lemma SignupAppends(docs: seq<User>, env: Env, i: SignupInput, freshId: Id) returns (u: User)
    requires Signup(docs, env, Some(i), freshId).0.success
    ensures SignupBinds(i, env.isEmail) && env.hasher.hash(i.password).Ok?
    ensures u == NewUser(i, freshId, env.hasher.hash(i.password).value, env.now, None)
    ensures Signup(docs, env, Some(i), freshId).1 == docs + [u]
    ensures GetUserByEmail(docs, ToLower(i.email)).Err? && IndexOfId(docs, freshId).None?
  {
    u := NewUser(i, freshId, env.hasher.hash(i.password).value, env.now, None);
  }

  /** A login whose record is found, whose password verifies, whose account
      is verified and whose tokens sign answers 200 with that record. */
  lemma LoginOfFound(docs: seq<User>, env: Env, input: LoginInput, u: User)
    requires LoginBinds(input, env.isEmail) && GetUserByEmail(docs, ToLower(input.email)) == Ok(u)
    requires env.hasher.verify(input.password, u.password).0 && u.isVerified
    requires GenerateAllTokens(env.codec, u.email, u.id, u.isAdmin, env.now).err.None?
    ensures Login(docs, env, Some(input)).0 ==
      Reply(STATUS_OK, LOGGED_IN, true, LoginData(u, env.now, GenerateAllTokens(env.codec, u.email, u.id, u.isAdmin, env.now)))
  {
  }

  /** An account registered through RegisterWithOtp and not yet verified
      is refused with 403 when the right password is given. */
  lemma LoginBeforeVerification(docs: seq<User>, env: Env, i: SignupInput, freshId: Id, draw: nat, loginEmail: string, later: Time)
    requires Sound(env.hasher)
    requires ToLower(loginEmail) == ToLower(i.email) && EmailBinds(loginEmail, env.isEmail)
    requires RegisterWithOtp(docs, env, Some(i), freshId, draw).0.success
    ensures var after := RegisterWithOtp(docs, env, Some(i), freshId, draw).1;
      Login(after, env.(now := later), Some(LoginInput(loginEmail, i.password))) == (Fail(STATUS_FORBIDDEN, UNVERIFIED), after)
  {
    var hashed := env.hasher.hash(i.password).value;
    assert env.hasher.verify(i.password, hashed).0;
    RegisteredRecordFound(docs, i, NewUser(i, freshId, hashed, env.now, Some(Itoa(draw))), loginEmail);
  }

  /** The access token a login returns, sent as "Bearer <token>", passes
      the authentication guard for three hours with the account's email, id
      and admin flag in the request context. */
  lemma LoginTokenAuthenticates(docs: seq<User>, env: Env, input: Option<LoginInput>, now: Time)
    requires RoundTrips(env.codec)
    requires Login(docs, env, input).0.success
    requires env.now <= now <= env.now + ACCESS_TTL
    ensures input.Some? && GetUserByEmail(docs, ToLower(input.value.email)).Ok?
    ensures var found := GetUserByEmail(docs, ToLower(input.value.email)).value;
      var token := GenerateAllTokens(env.codec, found.email, found.id, found.isAdmin, env.now).token;
      Login(docs, env, input).0.data["token"] == JStr(token) &&
      (' ' !in token ==>
        IsAuthenticated(env.codec, "Bearer " + token, now) ==
          Proceed(map["email" := Text(found.email), "id" := Text(found.id), "isAdmin" := Flag(found.isAdmin)]))
  {
    var found := GetUserByEmail(docs, ToLower(input.value.email)).value;
    var token := GenerateAllTokens(env.codec, found.email, found.id, found.isAdmin, env.now).token;
    if ' ' !in token {
      IssuedTokenAuthenticates(env.codec, found.email, found.id, found.isAdmin, env.now, now);
    }
  }
}
