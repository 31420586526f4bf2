/**
 * The account service of the layered rewrite (internal/services/auth). It
 * talks to the collection through the repository; the password and token
 * packages it calls (internal/common/password, internal/common/token) are
 * not part of this model and enter as the same parameters the flat service
 * uses: a Hasher and a Codec with GenerateAllTokens.
 */
module AuthService {
  import opened Common
  import opened UserModel
  import opened Store
  import opened Credentials
  import opened Token
  import Repository

  /** The errors the service returns. */
  datatype AuthError =
    | InvalidUser(fields: seq<FieldError>)   // the validator's report
    | EmailInUse                         // "email already in use"
    | HashFailed                         // "unable to hash password"
    | TokenFailed(text: string)          // the signer's error, passed on
    | CreateFailed(cause: Repository.RepoError)
    | WrongEmail                         // "the email you entered is incorrect"
    | WrongPassword(text: string)        // the verifier's message

  function Message(e: AuthError): string
  {
    match e
    case InvalidUser(_) => "validation failed"
    case EmailInUse => "email already in use"
    case HashFailed => "unable to hash password"
    case TokenFailed(text) => text
    case CreateFailed(cause) => Repository.Message(cause)
    case WrongEmail => "the email you entered is incorrect"
    case WrongPassword(text) => text
  }

  /** SignUpDto. */
  datatype SignUpDto = SignUpDto(firstName: string, lastName: string, email: string, password: string, isAdmin: bool)

  /** LoginDTO. */
  datatype LoginDto = LoginDto(email: string, password: string)

  /** A user and the access token issued for it. */
  datatype Signed = Signed(user: User, token: string)

  /** The record Signup stores: the caller's record with its identity,
      names, email, flags and creation time overwritten from the body, and
      its password replaced by the hash. */
  function Registered(u: User, body: SignUpDto, id: Id, hashed: string, now: Time): User
  {
    u.(id := id, firstName := body.firstName, lastName := body.lastName, email := ToLower(body.email),
       isVerified := true, isAdmin := body.isAdmin, createdAt := now, password := hashed)
  }

  /** Signup: validate the caller's record, refuse a taken email, fill the
      record from the body, hash its password, issue the access token for
      it, then create it. `freshId` is the ObjectID generated for it. */
  method Signup(col: Collection, u: User, body: SignUpDto, hasher: Hasher, codec: Codec,
                isEmail: string -> bool, freshId: Id, now: Time)
    returns (r: Result<Signed, AuthError>)
    requires col.Valid()
    modifies col
    ensures col.Valid()
    ensures r.Err? ==> col.docs == old(col.docs)
    ensures ValidateUser(u, isEmail).Some? ==> r == Err(InvalidUser(ValidateUser(u, isEmail).value))
    ensures ValidateUser(u, isEmail).None? && Repository.GetByEmail(old(col.docs), ToLower(u.email)).Ok? ==>
      r == Err(EmailInUse)
    ensures r.Ok? <==>
      ValidateUser(u, isEmail).None? && Repository.GetByEmail(old(col.docs), ToLower(u.email)).Err? &&
      hasher.hash(u.password).Ok? &&
      GenerateAllTokens(codec, ToLower(body.email), freshId, body.isAdmin, now).err.None? &&
      IndexOfId(old(col.docs), freshId).None?
    ensures r.Ok? ==>
      r.value.user == Registered(u, body, freshId, hasher.hash(u.password).value, now) &&
      r.value.token == GenerateAllTokens(codec, ToLower(body.email), freshId, body.isAdmin, now).token &&
      col.docs == old(col.docs) + [r.value.user]
    ensures r.Ok? && Consistent(old(col.docs)) && ToLower(u.email) == ToLower(body.email) && IsCanonicalId(freshId) ==>
      Consistent(col.docs)
    ensures r.Err? && ValidateUser(u, isEmail).None? && Repository.GetByEmail(old(col.docs), ToLower(u.email)).Err? ==>
      (hasher.hash(u.password).Err? ==> r == Err(HashFailed)) &&
      (hasher.hash(u.password).Ok? && GenerateAllTokens(codec, ToLower(body.email), freshId, body.isAdmin, now).err.Some? ==>
        r == Err(TokenFailed(GenerateAllTokens(codec, ToLower(body.email), freshId, body.isAdmin, now).err.value)))
  {
    var errs := ValidateUser(u, isEmail);
    if errs.Some? {
      return Err(InvalidUser(errs.value));
    }
    var user := u;
    user := user.(email := ToLower(user.email));
    var existing := Repository.GetByEmail(col.docs, user.email);
    if existing.Ok? {
      return Err(EmailInUse);
    }
    user := user.(id := freshId);
    user := user.(firstName := body.firstName);
    user := user.(lastName := body.lastName);
    user := user.(email := ToLower(body.email));
    user := user.(isVerified := true);
    user := user.(isAdmin := body.isAdmin);
    user := user.(createdAt := now);
    var hashed := hasher.hash(user.password);
    if hashed.Err? {
      return Err(HashFailed);
    }
    user := user.(password := hashed.value);
    var issued := GenerateAllTokens(codec, user.email, user.id, user.isAdmin, now);
    if issued.err.Some? {
      return Err(TokenFailed(issued.err.value));
    }
    ghost var before := col.docs;
    var created := Repository.Create(col, user, freshId);
    if created.Err? {
      return Err(CreateFailed(created.error));
    }
    if Consistent(before) && ToLower(u.email) == ToLower(body.email) && IsCanonicalId(freshId) {
      assert forall k :: 0 <= k < |before| ==> before[k].email != user.email && before[k].id != user.id by {
        forall k | 0 <= k < |before| ensures before[k].email != user.email && before[k].id != user.id {
          assert before[k] in before;
        }
      }
      AppendKeepsConsistent(before, user);
    }
    return Ok(Signed(created.value, issued.token));
  }

  /** Login: look the lower-cased email up, refuse a missing record or one
      with an empty email, stamp the login time on the copy it returns,
      check the password, issue the access token. It writes nothing and
      does not look at the verification flag. */
  method Login(docs: seq<User>, dto: LoginDto, hasher: Hasher, codec: Codec, now: Time)
    returns (r: Result<Signed, AuthError>)
    ensures r == Err(WrongEmail) <==>
      ToLower(dto.email) == "" || forall u :: u in docs ==> u.email != ToLower(dto.email)
    ensures r.Ok? <==>
      Repository.GetByEmail(docs, ToLower(dto.email)).Ok? && ToLower(dto.email) != "" &&
      var found := Repository.GetByEmail(docs, ToLower(dto.email)).value;
      hasher.verify(dto.password, found.password).0 &&
      GenerateAllTokens(codec, found.email, found.id, found.isAdmin, now).err.None?
    ensures r.Ok? ==>
      var found := Repository.GetByEmail(docs, ToLower(dto.email)).value;
      r.value == Signed(found.(lastLogin := Some(now)),
                        GenerateAllTokens(codec, found.email, found.id, found.isAdmin, now).token)
    ensures (Repository.GetByEmail(docs, ToLower(dto.email)).Ok? && ToLower(dto.email) != "" &&
             !hasher.verify(dto.password, Repository.GetByEmail(docs, ToLower(dto.email)).value.password).0) ==>
      r == Err(WrongPassword(hasher.verify(dto.password, Repository.GetByEmail(docs, ToLower(dto.email)).value.password).1))
    ensures (Sound(hasher) && Repository.GetByEmail(docs, ToLower(dto.email)).Ok? && ToLower(dto.email) != "" &&
             hasher.hash(dto.password) == Ok(Repository.GetByEmail(docs, ToLower(dto.email)).value.password) &&
             GenerateAllTokens(codec, ToLower(dto.email), Repository.GetByEmail(docs, ToLower(dto.email)).value.id,
                               Repository.GetByEmail(docs, ToLower(dto.email)).value.isAdmin, now).err.None?) ==>
      r.Ok?
  {
    var email := ToLower(dto.email);
    var lookup := Repository.GetByEmail(docs, email);
    if lookup.Err? {
      return Err(WrongEmail);
    }
    var user := lookup.value;
    if user.email == "" {
      return Err(WrongEmail);
    }
    user := user.(lastLogin := Some(now));
    var (check, msg) := hasher.verify(dto.password, user.password);
    if !check {
      return Err(WrongPassword(msg));
    }
    var issued := GenerateAllTokens(codec, user.email, user.id, user.isAdmin, now);
    if issued.err.Some? {
      return Err(TokenFailed(issued.err.value));
    }
    return Ok(Signed(user, issued.token));
  }
}
