/**
 * The two gin guards of the flat service (middleware/auth.go), reduced to
 * the decision they take on a request: reject it with a status and a
 * message, crash on an out-of-range index, or let it through with the
 * context values they set. The Authorization header is read in a loose
 * form of the RFC 6750 section 2.1 `Bearer` scheme: a case-sensitive
 * "Bearer" prefix, then the second space-separated field.
 */
module AuthMiddleware {
  import opened Common
  import opened Token

  // ---------------------------------------------------------------
  // strings.HasPrefix and strings.Split with a one-character separator
  // ---------------------------------------------------------------

  predicate HasPrefix(s: string, prefix: string)
  {
    |prefix| <= |s| && s[..|prefix|] == prefix
  }

  /** strings.Split(s, [sep]): the pieces between separators, one more
      piece than there are separators. */
  function Split(s: string, sep: char): (r: seq<string>)
    ensures |r| >= 1
    ensures |r| == 1 <==> sep !in s
    ensures forall i :: 0 <= i < |r| ==> sep !in r[i]
  {
    if s == [] then [""]
    else
      var rest := Split(s[1..], sep);
      assert s == [s[0]] + s[1..];
      if s[0] == sep then [""] + rest
      else [[s[0]] + rest[0]] + rest[1..]
  }

  /** strings.Join(fields, [sep]). */
  function Join(fields: seq<string>, sep: char): string
    requires |fields| >= 1
  {
    if |fields| == 1 then fields[0] else fields[0] + [sep] + Join(fields[1..], sep)
  }

  lemma {:induction false} JoinPrepend(c: char, fields: seq<string>, sep: char)
    requires |fields| >= 1
    ensures Join([[c] + fields[0]] + fields[1..], sep) == [c] + Join(fields, sep)
  {
    var g := [[c] + fields[0]] + fields[1..];
    if |fields| > 1 {
      assert g[1..] == fields[1..];
    }
  }

  /** Joining the pieces with the separator gives the string back. */
  lemma {:induction false} JoinSplit(s: string, sep: char)
    ensures Join(Split(s, sep), sep) == s
  {
    if s != [] {
      var rest := Split(s[1..], sep);
      JoinSplit(s[1..], sep);
      assert s == [s[0]] + s[1..];
      if s[0] == sep {
        assert ([""] + rest)[1..] == rest;
      } else {
        JoinPrepend(s[0], rest, sep);
      }
    }
  }

  /** Splitting a join of separator-free pieces gives the pieces back. */
  lemma {:induction false} SplitJoin(fields: seq<string>, sep: char)
    requires |fields| >= 1
    requires forall i :: 0 <= i < |fields| ==> sep !in fields[i]
    ensures Split(Join(fields, sep), sep) == fields
    decreases |fields|, |fields[0]|
  {
    var f := fields[0];
    if f == [] {
      if |fields| > 1 {
        SplitJoin(fields[1..], sep);
        var s := Join(fields, sep);
        assert s == [sep] + Join(fields[1..], sep);
        assert s[1..] == Join(fields[1..], sep);
        assert fields == [""] + fields[1..];
      }
    } else {
      var g := [f[1..]] + fields[1..];
      assert g[1..] == fields[1..];
      assert forall i :: 0 <= i < |g| ==> sep !in g[i] by {
        assert forall c :: c in f[1..] ==> c in f;
      }
      SplitJoin(g, sep);
      JoinPrepend(f[0], g, sep);
      assert g[0] == f[1..] && f == [f[0]] + f[1..];
      assert [[f[0]] + g[0]] + g[1..] == fields;
      var s := Join(fields, sep);
      assert s[1..] == Join(g, sep);
      assert s[0] == f[0] && f[0] != sep;
    }
  }

  // ---------------------------------------------------------------
  // The token in the Authorization header
  // ---------------------------------------------------------------

  /** The token text, or the index out of range that `[1]` hits on a
      header starting with "Bearer" that holds no space. */
  datatype Extracted = Extracted(token: string) | OutOfRange

  function BearerToken(header: string): (r: Extracted)
    ensures !HasPrefix(header, "Bearer") ==> r == Extracted(header)
    ensures HasPrefix(header, "Bearer") ==> (r.OutOfRange? <==> ' ' !in header)
    ensures HasPrefix(header, "Bearer") && r.Extracted? ==> ' ' !in r.token
  {
    if HasPrefix(header, "Bearer") then
      var fields := Split(header, ' ');
      if |fields| < 2 then OutOfRange else Extracted(fields[1])
    else Extracted(header)
  }

  /** "Bearer <token>" yields the token, for a token without spaces. */
  lemma BearerOfToken(token: string)
    requires ' ' !in token
    ensures BearerToken("Bearer " + token) == Extracted(token)
  {
    var h := "Bearer " + token;
    assert h == Join(["Bearer", token], ' ');
    SplitJoin(["Bearer", token], ' ');
    assert HasPrefix(h, "Bearer") by { assert h[..6] == "Bearer"; }
  }

  // ---------------------------------------------------------------
  // The guards
  // ---------------------------------------------------------------

  const NO_HEADER: string := "No Authorization header provided"
  const NO_PERMISSION: string := "You don't have the permission to access this data"

  /** What a guard does with the request. */
  datatype Decision = Reject(status: int, message: string) | Crash | Proceed(context: map<string, CtxValue>)

  /** The context values IsAuthenticated and IsAdmin set from valid claims. */
  function ClaimsContext(c: Claims): (m: map<string, CtxValue>)
    ensures m.Keys == {"email", "id", "isAdmin"}
  {
    map["email" := Text(c.email), "id" := Text(c.id), "isAdmin" := Flag(c.isAdmin)]
  }

  /** IsAuthenticated: any holder of a valid token passes. */
  function IsAuthenticated(k: Codec, header: string, now: Time): (d: Decision)
    ensures header == "" ==> d == Reject(STATUS_UNAUTHORIZED, NO_HEADER)
    ensures d == Crash <==> header != "" && BearerToken(header).OutOfRange?
    ensures d.Proceed? <==>
      header != "" && BearerToken(header).Extracted? &&
      ValidateToken(k, BearerToken(header).token, now).0.Some?
    ensures d.Proceed? ==> d.context == ClaimsContext(ValidateToken(k, BearerToken(header).token, now).0.value)
    ensures d.Reject? && header != "" ==> d == Reject(STATUS_UNAUTHORIZED, ValidateToken(k, BearerToken(header).token, now).1)
  {
    if header == "" then Reject(STATUS_UNAUTHORIZED, NO_HEADER)
    else match BearerToken(header)
      case OutOfRange => Crash
      case Extracted(token) =>
        var (claims, err) := ValidateToken(k, token, now);
        if err != "" then Reject(STATUS_UNAUTHORIZED, err)
        else Proceed(ClaimsContext(claims.value))
  }

  /** IsAdmin: the same checks, then a refusal for a token without the
      admin flag. */
  function IsAdmin(k: Codec, header: string, now: Time): (d: Decision)
    ensures header == "" ==> d == Reject(STATUS_UNAUTHORIZED, NO_HEADER)
    ensures d.Proceed? ==> "isAdmin" in d.context && d.context["isAdmin"] == Flag(true)
  {
    if header == "" then Reject(STATUS_UNAUTHORIZED, NO_HEADER)
    else match BearerToken(header)
      case OutOfRange => Crash
      case Extracted(token) =>
        var (claims, err) := ValidateToken(k, token, now);
        if err != "" then Reject(STATUS_UNAUTHORIZED, err)
        else if !claims.value.isAdmin then Reject(STATUS_UNAUTHORIZED, NO_PERMISSION)
        else Proceed(ClaimsContext(claims.value))
  }

  /** IsAdmin lets through exactly the requests IsAuthenticated lets
      through with the admin flag set, with the same context; every other
      request IsAuthenticated admits it refuses for want of permission. */
  lemma AdminGuardRefinesAuthentication(k: Codec, header: string, now: Time)
    ensures IsAdmin(k, header, now).Proceed? <==>
      IsAuthenticated(k, header, now).Proceed? && IsAuthenticated(k, header, now).context["isAdmin"] == Flag(true)
    ensures IsAdmin(k, header, now).Proceed? ==> IsAdmin(k, header, now) == IsAuthenticated(k, header, now)
    ensures !IsAuthenticated(k, header, now).Proceed? ==> IsAdmin(k, header, now) == IsAuthenticated(k, header, now)
    ensures IsAuthenticated(k, header, now).Proceed? && !IsAdmin(k, header, now).Proceed? ==>
      IsAdmin(k, header, now) == Reject(STATUS_UNAUTHORIZED, NO_PERMISSION)
  {
  }

  /** A token issued by GenerateAllTokens and sent as "Bearer <token>"
      before it expires passes IsAuthenticated with the identity it was
      issued for in the context. */
  lemma IssuedTokenAuthenticates(k: Codec, email: string, uid: string, isAdmin: bool, issued: Time, now: Time)
    requires RoundTrips(k)
    requires GenerateAllTokens(k, email, uid, isAdmin, issued).err.None?
    requires ' ' !in GenerateAllTokens(k, email, uid, isAdmin, issued).token
    requires issued <= now <= issued + ACCESS_TTL
    ensures IsAuthenticated(k, "Bearer " + GenerateAllTokens(k, email, uid, isAdmin, issued).token, now) ==
      Proceed(map["email" := Text(email), "id" := Text(uid), "isAdmin" := Flag(isAdmin)])
  {
    var token := GenerateAllTokens(k, email, uid, isAdmin, issued).token;
    BearerOfToken(token);
    AccessTokenValidates(k, email, uid, isAdmin, issued, now);
  }
}
