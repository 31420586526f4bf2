/**
 * The account handlers of the flat service (controllers/auth.go) as they run
 * against the flat service's "users" collection: each binds its body, reads and
 * writes the collection step by step and returns one JSON response. Each is
 * proved to answer and to leave the collection exactly as the function of
 * the same name in Accounts says, so every lemma proved there holds of them.
 */
module AuthControllers {
  import opened Common
  import opened UserModel
  import opened Store
  import opened Queries
  import opened Token
  import opened Accounts

  method Signup(users: Collection, env: Env, input: Option<SignupInput>, freshId: Id) returns (reply: Reply)
    requires users.Valid()
    modifies users
    ensures users.Valid()
    ensures (reply, users.docs) == Accounts.Signup(old(users.docs), env, input, freshId)
  {
    if input.None? || !SignupBinds(input.value, env.isEmail) {
      return Fail(STATUS_BAD_REQUEST, INVALID_PAYLOAD);
    }
    var i := input.value;
    var email := ToLower(i.email);
    var existing := GetUserByEmail(users.docs, email);
    if existing.Ok? {
      return Fail(STATUS_UNAUTHORIZED, EMAIL_TAKEN);
    }
    var hashed := env.hasher.hash(i.password);
    if hashed.Err? {
      return Fail(STATUS_INTERNAL_SERVER_ERROR, HASH_FAILED);
    }
    var newUser := NewUser(i, freshId, hashed.value, env.now, None);
    var issued := GenerateAllTokens(env.codec, newUser.email, freshId, newUser.isAdmin, env.now);
    if issued.err.Some? {
      return Fail(STATUS_INTERNAL_SERVER_ERROR, TOKENS_FAILED);
    }
    var inserted := users.InsertOne(newUser);
    if !inserted {
      return Fail(STATUS_INTERNAL_SERVER_ERROR, CREATE_FAILED);
    }
    reply := Reply(STATUS_CREATED, REGISTERED, true, SignupData(newUser, issued));
  }

  method RegisterWithOtp(users: Collection, env: Env, input: Option<SignupInput>, freshId: Id, draw: nat)
    returns (reply: Reply)
    requires users.Valid()
    modifies users
    ensures users.Valid()
    ensures (reply, users.docs) == Accounts.RegisterWithOtp(old(users.docs), env, input, freshId, draw)
  {
    if input.None? || !SignupBinds(input.value, env.isEmail) {
      return Fail(STATUS_BAD_REQUEST, INVALID_PAYLOAD);
    }
    var i := input.value;
    var existing := GetUserByEmail(users.docs, ToLower(i.email));
    if existing.Ok? {
      return Fail(STATUS_UNAUTHORIZED, EMAIL_TAKEN);
    }
    var hashed := env.hasher.hash(i.password);
    if hashed.Err? {
      return Fail(STATUS_INTERNAL_SERVER_ERROR, HASH_FAILED);
    }
    var otp := Itoa(draw);
    var newUser := NewUser(i, freshId, hashed.value, env.now, Some(otp));
    var inserted := users.InsertOne(newUser);
    if !inserted {
      return Fail(STATUS_INTERNAL_SERVER_ERROR, CREATE_FAILED);
    }
    reply := Reply(STATUS_CREATED, OTP_SENT + otp, true, map[]);
  }

  method VerifyAccount(users: Collection, env: Env, input: Option<VerifyInput>) returns (reply: Reply)
    requires users.Valid()
    modifies users
    ensures users.Valid()
    ensures (reply, users.docs) == Accounts.VerifyAccount(old(users.docs), env, input)
  {
    if input.None? || !VerifyBinds(input.value, env.isEmail) {
      return Fail(STATUS_BAD_REQUEST, INVALID_PAYLOAD);
    }
    var i := input.value;
    var lookup := GetUserByEmail(users.docs, ToLower(i.email));
    if lookup.Err? {
      return Fail(STATUS_UNAUTHORIZED, NO_ACCOUNT);
    }
    var found := lookup.value;
    if found.otp != Some(i.otp) {
      return Fail(STATUS_BAD_REQUEST, INVALID_OTP);
    }
    if found.otpExpire.None? || env.now > found.otpExpire.value {
      return Fail(STATUS_UNAUTHORIZED, OTP_EXPIRED);
    }
    var err := Queries.UpdateUser(users, found.id, VERIFY_PATCH);
    if err.Some? {
      return Fail(STATUS_INTERNAL_SERVER_ERROR, VERIFY_FAILED);
    }
    reply := Reply(STATUS_OK, VERIFIED, true, Profile(found)["isVerified" := JBool(true)]);
  }

  method ResendOtp(users: Collection, env: Env, input: Option<string>, draw: nat) returns (reply: Reply)
    requires users.Valid()
    modifies users
    ensures users.Valid()
    ensures (reply, users.docs) == Accounts.ResendOtp(old(users.docs), env, input, draw)
  {
    if input.None? || !EmailBinds(input.value, env.isEmail) {
      return Fail(STATUS_BAD_REQUEST, INVALID_PAYLOAD);
    }
    var lookup := GetUserByEmail(users.docs, ToLower(input.value));
    if lookup.Err? {
      return Fail(STATUS_UNAUTHORIZED, NO_ACCOUNT_RESEND);
    }
    var otp := Itoa(draw);
    var err := Queries.UpdateUser(users, lookup.value.id, OtpPatch(otp, env.now));
    if err.Some? {
      return Fail(STATUS_INTERNAL_SERVER_ERROR, RESEND_FAILED);
    }
    reply := Reply(STATUS_CREATED, OTP_SENT + otp, true, map[]);
  }

  method Login(users: Collection, env: Env, input: Option<LoginInput>) returns (reply: Reply)
    requires users.Valid()
    modifies users
    ensures users.Valid()
    ensures (reply, users.docs) == Accounts.Login(old(users.docs), env, input)
  {
    if input.None? || !LoginBinds(input.value, env.isEmail) {
      return Fail(STATUS_BAD_REQUEST, INVALID_PAYLOAD);
    }
    var i := input.value;
    var lookup := GetUserByEmail(users.docs, ToLower(i.email));
    if lookup.Err? {
      return Fail(STATUS_UNAUTHORIZED, BAD_CREDENTIALS);
    }
    var found := lookup.value;
    var (valid, msg) := env.hasher.verify(i.password, found.password);
    if !valid {
      return Fail(STATUS_UNAUTHORIZED, msg);
    }
    if !found.isVerified {
      return Fail(STATUS_FORBIDDEN, UNVERIFIED);
    }
    var issued := GenerateAllTokens(env.codec, found.email, found.id, found.isAdmin, env.now);
    if issued.err.Some? {
      return Fail(STATUS_INTERNAL_SERVER_ERROR, LOGIN_TOKENS_FAILED);
    }
    // A failure to record the login time is only logged.
    var _ := Queries.UpdateUser(users, found.id, LoginPatch(env.now));
    reply := Reply(STATUS_OK, LOGGED_IN, true, LoginData(found, env.now, issued));
  }
}
