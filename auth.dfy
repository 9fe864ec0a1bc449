/** The gateway's `authenticate` middleware (API_GATEWAY/middleware/auth.js).
    JWT verification is an oracle: `verify` gives the decoded claims of a
    token it accepts and None for one it rejects. */
module Auth {
  import opened Wrappers
  import opened Seqs

  /** Request headers by lower-case name, as Node presents them. */
  type Headers = map<string, string>

  const LoginPath := "/auth/userauth/login"
  const RegisterPath := "/auth/userauth/register"

  /** Either the request is passed on (`next()`), with the headers it then
      carries and the claims stored in `req.userData`, or it is answered here. */
  datatype AuthResult<C> =
    | PassOn(headers: Headers, userData: Option<C>)
    | Deny(status: nat, message: string)

  /** The index of the first space in s. */
  function IndexOfSpace(s: string): (r: Option<nat>)
    ensures r.Some? ==> r.value < |s| && s[r.value] == ' '
    ensures r.Some? ==> forall j :: 0 <= j < r.value ==> s[j] != ' '
    ensures r.None? <==> ' ' !in s
  {
    FirstIndex(s, (c: char) => c == ' ')
  }

  /** s.split(" ")[1]: the text between the first and the second space (or
      the end), undefined when s has no space. */
  function SecondField(s: string): (r: Option<string>)
    ensures r.None? <==> ' ' !in s
    ensures r.Some? ==> ' ' !in r.value
    ensures r.Some? ==>
      var p := IndexOfSpace(s).value;
      && r.value <= s[p + 1..]
      && (p + 1 + |r.value| == |s| || s[p + 1 + |r.value|] == ' ')
  {
    match IndexOfSpace(s)
    case None => None
    case Some(p) =>
      var rest := s[p + 1..];
      match IndexOfSpace(rest)
      case None => Some(rest)
      case Some(q) =>
        assert forall j :: 0 <= j < q ==> rest[..q][j] == rest[j];
        Some(rest[..q])
  }

  /** From "Bearer <token>" the second field is the token. */
  lemma BearerToken(scheme: string, token: string)
    requires ' ' !in scheme && ' ' !in token
    ensures SecondField(scheme + " " + token) == Some(token)
  {
    var s := scheme + " " + token;
    assert s[|scheme|] == ' ';
    assert forall j :: 0 <= j < |scheme| ==> s[j] == scheme[j];
    assert IndexOfSpace(s) == Some(|scheme|);
    assert s[|scheme| + 1..] == token;
  }

  /** The login and register calls pass without a token. */
  predicate Bypasses(headers: Headers) {
    "pathname" in headers && (headers["pathname"] == LoginPath || headers["pathname"] == RegisterPath)
  }

  /** The authorization header is present and non-empty. */
  predicate HasAuthorization(headers: Headers) {
    "authorization" in headers && headers["authorization"] != ""
  }

  /** The token handed to jwt.verify; an absent or empty token is rejected
      by the library before any signature check. */
  function TokenOf(headers: Headers): Option<string>
    requires HasAuthorization(headers)
  {
    match SecondField(headers["authorization"])
    case None => None
    case Some(t) => if t == "" then None else Some(t)
  }

  /** authenticate(req, res, next). */
  function Authenticate<C>(headers: Headers, verify: string -> Option<C>, serialize: C -> string): (r: AuthResult<C>)
    ensures Bypasses(headers) ==> r == PassOn(headers, None)
    ensures !Bypasses(headers) && !HasAuthorization(headers) ==>
      r == Deny(401, "Authentication token is required")
    ensures r.PassOn? <==>
      Bypasses(headers) || (HasAuthorization(headers) && TokenOf(headers).Some? && verify(TokenOf(headers).value).Some?)
    ensures r.Deny? ==> r.status == 401 || r.status == 403
    ensures r.Deny? && HasAuthorization(headers) ==> r == Deny(403, "Invalid token")
    ensures r.PassOn? && !Bypasses(headers) ==>
      && r.userData == verify(TokenOf(headers).value)
      && r.headers == headers["user-data" := serialize(r.userData.value)]
  {
    if Bypasses(headers) then PassOn(headers, None)
    else if !HasAuthorization(headers) then Deny(401, "Authentication token is required")
    else match TokenOf(headers)
      case None => Deny(403, "Invalid token")
      case Some(token) =>
        match verify(token)
        case None => Deny(403, "Invalid token")
        case Some(claims) => PassOn(headers["user-data" := serialize(claims)], Some(claims))
  }

  /** With "Bearer <token>" and a token the oracle accepts, the request is
      passed on carrying the claims; with one it rejects, it gets 403. */
  lemma BearerHeaderDecides<C>(headers: Headers, token: string, verify: string -> Option<C>, serialize: C -> string)
    requires !Bypasses(headers)
    requires ' ' !in token && token != ""
    requires "authorization" in headers && headers["authorization"] == "Bearer " + token
    ensures verify(token).Some? ==>
      Authenticate(headers, verify, serialize) == PassOn(headers["user-data" := serialize(verify(token).value)], verify(token))
    ensures verify(token).None? ==> Authenticate(headers, verify, serialize) == Deny(403, "Invalid token")
  {
    assert "Bearer " + token == "Bearer" + " " + token;
    BearerToken("Bearer", token);
    assert HasAuthorization(headers);
    assert TokenOf(headers) == Some(token);
  }
}
