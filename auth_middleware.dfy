/**
 * The authentication middleware: reads the `Authorization` header, expects
 * `Bearer <token>`, hands the token to the token parser and either aborts the
 * request with an error response or stores the caller's claims in the
 * request context and passes the request on.
 */
module AuthMiddleware {
  import opened Common
  import opened AppErrors

  /** The claims a valid token carries. */
  datatype Claims = Claims(userId: string, companyId: string, email: string)

  /** An error response written with `c.JSON(status, body)`. */
  datatype Response = Response(status: int, body: AppError)

  const BearerPrefix := "Bearer "

  /**
   * The token of an `Authorization` header: what follows "Bearer " when the
   * header is longer than that prefix and starts with it exactly.
   */
  function BearerToken(header: string): Option<string> {
    if |header| > 7 && header[..7] == BearerPrefix then Some(header[7..]) else None
  }

  /** A token is found exactly for "Bearer " followed by a non-empty token, and that token is the rest of the header. */
  lemma BearerTokenMeaning(header: string)
    ensures BearerToken(header).Some? <==> exists token :: |token| > 0 && header == BearerPrefix + token
    ensures BearerToken(header).Some? ==> |BearerToken(header).value| > 0
                                          && header == BearerPrefix + BearerToken(header).value
  {
    if BearerToken(header).Some? {
      assert header == BearerPrefix + header[7..];
    }
    if exists token :: |token| > 0 && header == BearerPrefix + token {
      var token :| |token| > 0 && header == BearerPrefix + token;
      assert header[..7] == BearerPrefix;
    }
  }

  /** Writing a token behind the prefix and parsing the header gives the token back. */
  lemma BearerRoundTrip(token: string)
    requires |token| > 0
    ensures BearerToken(BearerPrefix + token) == Some(token)
  {
    assert (BearerPrefix + token)[..7] == BearerPrefix;
    assert (BearerPrefix + token)[7..] == token;
  }

  /** The bare prefix, and anything not starting with it exactly, has no token. */
  lemma BearerRejects(header: string)
    ensures header == BearerPrefix ==> BearerToken(header).None?
    ensures |header| >= 7 && header[..7] != BearerPrefix ==> BearerToken(header).None?
    ensures |header| <= 7 ==> BearerToken(header).None?
  {
  }

  /** The 401 a malformed header gets. */
  function InvalidAuthHeader(): AppError {
    ApplyOptions(Fresh(StatusUnauthorized, "Invalid authorization header format"), [WithCode("INVALID_AUTH_HEADER")])
  }

  lemma InvalidAuthHeaderError()
    ensures InvalidAuthHeader().statusCode == 401 && InvalidAuthHeader().code == "INVALID_AUTH_HEADER"
  {
    LastCodeWins(Fresh(StatusUnauthorized, "Invalid authorization header format"), [WithCode("INVALID_AUTH_HEADER")]);
    assert IsLast([WithCode("INVALID_AUTH_HEADER")], 0, CodeField);
  }

  /** What the middleware decides for a header, given the token parser's verdicts. */
  datatype Decision = Reject(error: AppError) | Accept(claims: Claims)

  function Decide(header: string, parseToken: string -> Result<Claims, AppError>): Decision {
    if header == "" then Reject(ErrUnauthorized)
    else match BearerToken(header)
      case None => Reject(InvalidAuthHeader())
      case Some(token) =>
        match parseToken(token)
        case Err(e) => Reject(e)
        case Ok(claims) => Accept(claims)
  }

  /**
   * The decision in the source's terms: an empty header is a 401
   * `UNAUTHORIZED`; any other header without a token, the bare "Bearer "
   * included, is a 401 `INVALID_AUTH_HEADER`; a token the parser refuses is
   * refused with the parser's own error; the parser only ever sees a
   * non-empty token, and its claims are accepted as they are.
   */
  lemma DecideMeaning(header: string, parseToken: string -> Result<Claims, AppError>)
    ensures var d := Decide(header, parseToken);
      && (header == "" ==> d == Reject(ErrUnauthorized) && d.error.statusCode == 401 && d.error.code == "UNAUTHORIZED")
      && (header != "" && BearerToken(header).None? ==>
            d == Reject(InvalidAuthHeader()) && d.error.statusCode == 401 && d.error.code == "INVALID_AUTH_HEADER")
      && (header == BearerPrefix ==> d == Reject(InvalidAuthHeader()))
      && (d.Accept? <==> exists token :: |token| > 0 && header == BearerPrefix + token && parseToken(token).Ok?)
      && (d.Accept? ==> d.claims == parseToken(header[7..]).value)
      && (BearerToken(header).Some? && parseToken(header[7..]).Err? ==> d == Reject(parseToken(header[7..]).error))
  {
    PredefinedErrors();
    InvalidAuthHeaderError();
    BearerTokenMeaning(header);
    if exists token :: |token| > 0 && header == BearerPrefix + token && parseToken(token).Ok? {
      var token :| |token| > 0 && header == BearerPrefix + token && parseToken(token).Ok?;
      assert header[7..] == token;
    }
  }

  /** The context keys a successful request carries: userID and email always, companyID only when the claim has one. */
  function ClaimKeys(keys: map<string, string>, claims: Claims): map<string, string> {
    var withUser := keys["userID" := claims.userId]["email" := claims.email];
    if claims.companyId != "" then withUser["companyID" := claims.companyId] else withUser
  }

  lemma ClaimKeysMeaning(keys: map<string, string>, claims: Claims)
    ensures var k := ClaimKeys(keys, claims);
      && k["userID"] == claims.userId && k["email"] == claims.email
      && (claims.companyId != "" ==> k["companyID"] == claims.companyId)
      && (claims.companyId == "" ==> ("companyID" in k <==> "companyID" in keys)
                                     && ("companyID" in keys ==> k["companyID"] == keys["companyID"]))
      && forall key :: key in keys ==> key in k
  {
  }

  /** The part of a Gin request context the middleware reads and writes. */
  class Context {
    const header: string
    var keys: map<string, string>
    var response: Option<Response>
    var aborted: bool
    var nextCalled: bool

    constructor (header: string)
      ensures this.header == header
      ensures keys == map[] && response.None? && !aborted && !nextCalled
    {
      this.header := header;
      keys := map[];
      response := None;
      aborted := false;
      nextCalled := false;
    }

    /** `c.Set(key, value)`. */
    method Set(key: string, value: string)
      modifies this
      ensures keys == old(keys)[key := value]
      ensures response == old(response) && aborted == old(aborted) && nextCalled == old(nextCalled)
    {
      keys := keys[key := value];
    }

    /** `c.JSON(status, body)` followed by `c.Abort()`. */
    method AbortWith(e: AppError)
      modifies this
      ensures response == Some(Response(e.statusCode, e)) && aborted
      ensures keys == old(keys) && nextCalled == old(nextCalled)
    {
      response := Some(Response(e.statusCode, e));
      aborted := true;
    }

    /** `c.Next()`: the request goes on to the handler. */
    method Next()
      modifies this
      ensures nextCalled
      ensures keys == old(keys) && response == old(response) && aborted == old(aborted)
    {
      nextCalled := true;
    }
  }

  /**
   * The middleware on one request: a rejected request is answered with its
   * error's status and aborted, with no key set and without reaching the
   * handler; an accepted one gets the claim keys and goes on.
   */
  method Authenticate(c: Context, parseToken: string -> Result<Claims, AppError>)
    modifies c
    ensures match Decide(c.header, parseToken)
      case Reject(e) =>
        && c.response == Some(Response(e.statusCode, e)) && c.aborted
        && c.keys == old(c.keys) && c.nextCalled == old(c.nextCalled)
      case Accept(claims) =>
        && c.keys == ClaimKeys(old(c.keys), claims) && c.nextCalled
        && c.response == old(c.response) && c.aborted == old(c.aborted)
  {
    var authHeader := c.header;
    if authHeader == "" {
      c.AbortWith(ErrUnauthorized);
      return;
    }
    var tokenString := "";
    if |authHeader| > 7 && authHeader[..7] == BearerPrefix {
      tokenString := authHeader[7..];
    } else {
      var e := NewAppError(StatusUnauthorized, "Invalid authorization header format", [WithCode("INVALID_AUTH_HEADER")]);
      c.AbortWith(e);
      return;
    }
    var claims := parseToken(tokenString);
    if claims.Err? {
      c.AbortWith(claims.error);
      return;
    }
    c.Set("userID", claims.value.userId);
    c.Set("email", claims.value.email);
    if claims.value.companyId != "" {
      c.Set("companyID", claims.value.companyId);
    }
    c.Next();
  }
}
