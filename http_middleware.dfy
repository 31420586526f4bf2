/**
 * The middlewares of the layered service
 * (internal/adapters/http/middleware/middleware.go): Cors, installed on the
 * whole router, and the AuthenticateUser guard. The token package this
 * guard calls (internal/common/token) is not part of this model: its
 * ValidateToken enters as the parameter `validate`.
 */
module HttpMiddleware {
  import opened Common
  import opened Token
  import opened AuthMiddleware
  import opened UserModel
  import Queries

  /** The headers Cors writes on every response. */
  const CORS_HEADERS: map<string, string> := map[
    "Access-Control-Allow-Origin" := "*",
    "Access-Control-Allow-Credentials" := "true",
    "Access-Control-Allow-Headers" := "Content-Type, Content-Length, Accept-Encoding, X-CSRF-Token, Authorization, token, accept, origin, Cache-Control, X-Requested-With",
    "Access-Control-Allow-Methods" := "POST, OPTIONS, GET, PUT"]

  /** The headers written, and the status the request is aborted with, if it is. */
  datatype CorsOutcome = CorsOutcome(headers: map<string, string>, abortedWith: Option<int>)

  function Cors(verb: string): (r: CorsOutcome)
    ensures r.headers == CORS_HEADERS
    ensures r.abortedWith.Some? <==> verb == "OPTIONS"
    ensures r.abortedWith.Some? ==> r.abortedWith.value == STATUS_NO_CONTENT
  {
    CorsOutcome(CORS_HEADERS, if verb == "OPTIONS" then Some(STATUS_NO_CONTENT) else None)
  }

  const NO_TOKEN: string := "Token not provided"

  /** AuthenticateUser: the admin-only guard, which records the id under
      "uid". `validate` returns the claims or a message. */
  function AuthenticateUser(header: string, validate: string -> (Option<Claims>, string)): (d: Decision)
    ensures header == "" ==> d == Reject(STATUS_UNAUTHORIZED, NO_TOKEN)
    ensures d == Crash <==>
      (header != "" &&
       (BearerToken(header).OutOfRange? ||
        (validate(BearerToken(header).token).1 == "" && validate(BearerToken(header).token).0.None?)))
    ensures d.Proceed? ==>
      BearerToken(header).Extracted? && validate(BearerToken(header).token).0.Some? &&
      var c := validate(BearerToken(header).token).0.value;
      c.isAdmin && d.context == map["email" := Text(c.email), "uid" := Text(c.id), "isAdmin" := Flag(true)]
  {
    if header == "" then Reject(STATUS_UNAUTHORIZED, NO_TOKEN)
    else match BearerToken(header)
      case OutOfRange => Crash
      case Extracted(token) =>
        var (claims, err) := validate(token);
        if err != "" then Reject(STATUS_UNAUTHORIZED, err)
        else if claims.None? then Crash
        else if !claims.value.isAdmin then Reject(STATUS_UNAUTHORIZED, NO_PERMISSION)
        else Proceed(map["email" := Text(claims.value.email), "uid" := Text(claims.value.id),
                         "isAdmin" := Flag(claims.value.isAdmin)])
  }

  /** The router runs Cors before any guard: a preflight request is
      answered 204 and never reaches AuthenticateUser. */
  function CorsThenAuthenticate(verb: string, header: string, validate: string -> (Option<Claims>, string)): (d: Decision)
    ensures verb == "OPTIONS" ==> d == Reject(STATUS_NO_CONTENT, "")
    ensures verb != "OPTIONS" ==> d == AuthenticateUser(header, validate)
  {
    var cors := Cors(verb);
    if cors.abortedWith.Some? then Reject(cors.abortedWith.value, "") else AuthenticateUser(header, validate)
  }

  /** The context key names the two guards agree on. */
  function Rename(m: map<string, CtxValue>): map<string, CtxValue>
    requires "id" in m
  {
    (m - {"id"})["uid" := m["id"]]
  }

  /** With a validator that has the contract of helpers.ValidateToken,
      AuthenticateUser takes the flat IsAdmin guard's decision, except that
      a missing header is reported as "Token not provided" and the id is
      stored under "uid" instead of "id". */
  lemma AuthenticateUserMatchesIsAdmin(k: Codec, header: string, now: Time)
    requires header != ""
    ensures var d := AuthenticateUser(header, t => ValidateToken(k, t, now));
            var e := IsAdmin(k, header, now);
            (d.Proceed? <==> e.Proceed?) &&
            (d.Proceed? ==> "id" in e.context && d.context == Rename(e.context)) &&
            (!d.Proceed? ==> d == e)
  {
    var d := AuthenticateUser(header, t => ValidateToken(k, t, now));
    var e := IsAdmin(k, header, now);
    if d.Proceed? {
      var c := ValidateToken(k, BearerToken(header).token, now).0.value;
      assert e.context == ClaimsContext(c);
      assert d.context == Rename(e.context);
    }
  }

  /** The context written under "uid" is what the flat queries.GetUser
      looks up; see Queries.GetUser. */
  lemma AuthenticateUserSetsUid(header: string, validate: string -> (Option<Claims>, string))
    requires AuthenticateUser(header, validate).Proceed?
    ensures "uid" in AuthenticateUser(header, validate).context
    ensures AuthenticateUser(header, validate).context["uid"] == Text(validate(BearerToken(header).token).0.value.id)
  {
  }

  /** The current-user query reads the id under "uid". The flat guard
      records it under "id", so behind that guard the query always answers
      "ID not found in context"; behind AuthenticateUser it looks up the
      token's user. */
  lemma FlatGuardHidesCurrentUser(k: Codec, header: string, now: Time, docs: seq<User>)
    requires IsAuthenticated(k, header, now).Proceed?
    ensures Queries.GetUser(IsAuthenticated(k, header, now).context, docs) == Err(Queries.NoIdInContext)
  {
  }

  lemma LayeredGuardFindsCurrentUser(header: string, validate: string -> (Option<Claims>, string), docs: seq<User>)
    requires AuthenticateUser(header, validate).Proceed?
    ensures Queries.GetUser(AuthenticateUser(header, validate).context, docs) ==
      Queries.GetUserByID(docs, validate(BearerToken(header).token).0.value.id)
  {
    AuthenticateUserSetsUid(header, validate);
  }
}
