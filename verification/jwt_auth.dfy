/** The JWT middleware: find the token (session cookie first, then a bearer
    header), have it parsed, and put the subject and roles of a valid token
    into the request's locals. */
module JwtAuth {
  import opened Wrappers
  import opened Bson
  import opened Http

  const BearerPrefix: string := "Bearer "

  /** What the token parser reports: a parse error, or a token with its
      validity and, when they are a JSON object, its claims. */
  datatype Parsed = ParseError | Parsed(valid: bool, claims: Option<map<string, Value>>)

  /** `c.Locals("userID")` and `c.Locals("userRoles")`: `None` is Go's nil
      for a claim that is absent. */
  datatype Locals = Locals(userID: Option<Value>, userRoles: Option<Value>)

  /** The header carries a bearer token: the exact prefix and at least one
      character after it. The prefix is ASCII, so counting bytes or
      characters gives the same answer here. */
  predicate IsBearer(header: string) {
    |header| > |BearerPrefix| && header[..|BearerPrefix|] == BearerPrefix
  }

  /** The token string the middleware goes on with; empty means none. */
  function TokenSource(cookie: string, header: string): (t: string)
    ensures cookie != "" ==> t == cookie
    ensures cookie == "" ==> (t != "" <==> IsBearer(header))
    ensures cookie == "" && IsBearer(header) ==> BearerPrefix + t == header
  {
    if cookie != "" then cookie
    else if IsBearer(header) then header[|BearerPrefix|..]
    else ""
  }

  function Reject<T>(message: string): (r: Outcome<T>)
    ensures r.Halt? && r.response.status == 401 && r.response.body == Fields(map["error" := message])
  {
    Halt(Response(401, Fields(map["error" := message])))
  }

  function Claim(claims: map<string, Value>, k: string): Option<Value> {
    if k in claims then Some(claims[k]) else None
  }

  /** `JWTAuth()`; the parser is a parameter. */
  function Authenticate(cookie: string, header: string, parse: string -> Parsed): (r: Outcome<Locals>)
    ensures TokenSource(cookie, header) == "" ==> r == Reject("Missing authentication token")
    ensures var t := TokenSource(cookie, header);
      t != "" && (parse(t).ParseError? || !parse(t).valid) ==> r == Reject("Invalid or expired token")
    ensures var t := TokenSource(cookie, header);
      t != "" && parse(t).Parsed? && parse(t).valid && parse(t).claims.None? ==> r == Reject("Invalid token claims")
    ensures r.Next? <==> var t := TokenSource(cookie, header);
      t != "" && parse(t).Parsed? && parse(t).valid && parse(t).claims.Some?
    ensures r.Next? ==> var claims := parse(TokenSource(cookie, header)).claims.value;
      r.value == Locals(Claim(claims, "sub"), Claim(claims, "roles"))
  {
    var t := TokenSource(cookie, header);
    if t == "" then Reject("Missing authentication token")
    else match parse(t)
      case ParseError => Reject("Invalid or expired token")
      case Parsed(valid, claims) =>
        if !valid then Reject("Invalid or expired token")
        else if claims.None? then Reject("Invalid token claims")
        else Next(Locals(Claim(claims.value, "sub"), Claim(claims.value, "roles")))
  }

  /** A bearer header gives back exactly the token that was put in it. */
  lemma BearerRoundTrip(token: string)
    requires token != ""
    ensures TokenSource("", BearerPrefix + token) == token
  {
    assert (BearerPrefix + token)[..|BearerPrefix|] == BearerPrefix;
  }

  /** With a session cookie present the header is never looked at. */
  lemma CookieWins(cookie: string, h1: string, h2: string, parse: string -> Parsed)
    requires cookie != ""
    ensures Authenticate(cookie, h1, parse) == Authenticate(cookie, h2, parse)
  {
  }

  /** The scheme is case-sensitive: a lower-case `bearer` header counts as
      no token at all. */
  lemma LowerCaseSchemeIgnored(token: string, parse: string -> Parsed)
    ensures Authenticate("", "bearer " + token, parse) == Reject("Missing authentication token")
  {
    assert ("bearer " + token)[0] == 'b';
  }
}
