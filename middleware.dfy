/** src/middleware/error.middleware.ts: the application's last handler turns
    the error that reached it into one JSON response. */
module ErrorMiddleware {
  import opened Types

  const InternalServerError := "Internal server error"

  /** `errorHandler(err, req, res, next)`: an ApiError keeps its status and
      message; anything else becomes a bare 500. Logging is not modelled. */
  function ErrorHandler(err: Error): (r: Response)
    ensures r.body.status == "error" && r.cookie == NoCookie && r.body.content.Message?
    ensures err.ApiError? ==> r.statusCode == err.statusCode && r.body.content.message == err.message
    ensures !err.ApiError? ==> r.statusCode == 500 && r.body.content.message == InternalServerError
  {
    if err.ApiError? then
      Response(err.statusCode, NoCookie, Body("error", Message(err.message)))
    else
      Response(500, NoCookie, Body("error", Message(InternalServerError)))
  }

  /** The message of an error that is not an ApiError never reaches the client:
      two such errors get the same response. */
  lemma InternalErrorsIndistinguishable(e1: Error, e2: Error)
    requires !e1.ApiError? && !e2.ApiError?
    ensures ErrorHandler(e1) == ErrorHandler(e2)
  {
  }
}

/** src/middleware/auth.middleware.ts: the bearer-token guard. */
module AuthMiddleware {
  import opened Types
  import JsString
  import Jwt

  const BearerPrefix := "Bearer "

  /** The one error every failure of the guard passes to `next`. */
  const Unauthorized := ApiError(401, "Invalid or expired token")

  /** `authHeader.split(" ")[1]` once `authHeader?.startsWith("Bearer ")`
      holds; None where the guard throws "No token provided". */
  function BearerToken(header: Option<string>): (r: Option<string>)
    ensures r.Some? <==> header.Some? && JsString.StartsWith(header.value, BearerPrefix)
    ensures r.Some? ==> ' ' !in r.value
  {
    if header.None? || !JsString.StartsWith(header.value, BearerPrefix) then None
    else
      assert header.value[6] == ' ';
      Some(JsString.Split(header.value, ' ')[1])
  }

  /** `authenticate`: Ok(payload) when `next()` is called with `req.user` set
      to the payload, Err(e) when `next(e)` is called. Only the access secret
      is used, and the user store is not consulted. */
  function Authenticate(header: Option<string>, accessSecret: string): (r: Result<TokenPayload, Error>)
    ensures r.Err? ==> r.error == Unauthorized
    ensures r.Ok? <==> BearerToken(header).Some? && Jwt.Verify(BearerToken(header).value, accessSecret).Some?
    ensures r.Ok? ==> Jwt.Verify(BearerToken(header).value, accessSecret) == Some(r.value)
  {
    match BearerToken(header)
    case None => Err(Unauthorized)
    case Some(token) =>
      match Jwt.Verify(token, accessSecret)
      case None => Err(Unauthorized)
      case Some(payload) => Ok(payload)
  }

  /** A header without the exact, case-sensitive "Bearer " prefix yields no
      token. */
  lemma NoPrefixNoToken(header: string, accessSecret: string)
    requires !JsString.StartsWith(header, BearerPrefix)
    ensures BearerToken(Some(header)) == None
    ensures Authenticate(Some(header), accessSecret) == Err(Unauthorized)
  {
  }

  /** The token is the second space-separated field: `"Bearer " + t` yields t
      when t has no space. */
  lemma {:induction false} BearerTokenOf(token: string)
    requires ' ' !in token
    ensures BearerToken(Some(BearerPrefix + token)) == Some(token)
  {
    BearerSplit(token);
    JsString.SplitWithoutSeparator(token, ' ');
  }

  /** `"Bearer " + rest` splits into "Bearer" and the fields of rest. */
  lemma BearerSplit(rest: string)
    ensures JsString.Split(BearerPrefix + rest, ' ') == ["Bearer"] + JsString.Split(rest, ' ')
  {
    assert BearerPrefix + rest == "Bearer" + [' '] + rest;
    JsString.SplitAfterField("Bearer", rest, ' ');
  }

  /** The token is the first space-separated field after the prefix: with a
      further space ("Bearer a b") the rest is dropped, and with a second
      space right after the prefix ("Bearer  x") the token is empty. */
  lemma {:induction false} TokenIsFirstFieldAfterPrefix(a: string, b: string)
    requires ' ' !in a
    ensures BearerToken(Some(BearerPrefix + a + [' '] + b)) == Some(a)
  {
    assert BearerPrefix + a + [' '] + b == BearerPrefix + (a + [' '] + b);
    BearerSplit(a + [' '] + b);
    JsString.SplitAfterField(a, b, ' ');
  }

  /** The scheme name is case-sensitive. */
  lemma LowerCaseSchemeRefused()
    ensures BearerToken(Some("bearer x")) == None
  {
    assert "bearer x"[..7] != BearerPrefix by { assert "bearer x"[0] != BearerPrefix[0]; }
  }

  /** An access token signed under the guard's secret is admitted with the
      payload it was signed with. */
  lemma {:induction false} AdmitsAccessToken(payload: TokenPayload, accessSecret: string, expiresIn: Option<string>, token: string)
    requires Jwt.Sign(payload, Some(accessSecret), expiresIn) == Ok(token)
    ensures Authenticate(Some(BearerPrefix + token), accessSecret) == Ok(payload)
  {
    BearerTokenOf(token);
    Jwt.VerifySign(payload, accessSecret, expiresIn, token);
  }

  /** A token signed under any other secret, the refresh secret included, is
      refused. */
  lemma {:induction false} RefusesOtherSecret(payload: TokenPayload, secret: string, expiresIn: Option<string>, token: string, accessSecret: string)
    requires Jwt.Sign(payload, Some(secret), expiresIn) == Ok(token)
    requires secret != accessSecret
    ensures Authenticate(Some(BearerPrefix + token), accessSecret) == Err(Unauthorized)
  {
    BearerTokenOf(token);
    Jwt.VerifyOtherSecret(payload, secret, expiresIn, token, accessSecret);
  }
}

/** src/middleware/validate.middleware.ts: run a schema over the request and
    report to `next`. */
module ValidateMiddleware {
  import opened Types
  import AuthSchema

  /** The argument of one `next` call: `next()` or `next(err)`. */
  datatype NextArg = NoArg | WithError(error: Error)

  /** The `next` calls, in order, for one parse outcome. A ZodError is
      reported twice (the 400 ApiError, then, with no `return` in between,
      the ZodError itself). A ZodError without issues would make
      `errors[0].message` throw inside the catch block: no call at all. */
  function Validate(parsed: AuthSchema.ParseResult): (calls: seq<NextArg>)
    ensures parsed.Parsed? ==> calls == [NoArg]
    ensures parsed.Thrown? && parsed.error.ZodError? && |parsed.error.issues| > 0 ==>
      calls == [WithError(ApiError(400, parsed.error.issues[0].message)), WithError(parsed.error)]
    ensures parsed.Thrown? && !parsed.error.ZodError? ==> calls == [WithError(parsed.error)]
  {
    match parsed
    case Parsed => [NoArg]
    case Thrown(e) =>
      if e.ZodError? then
        if |e.issues| == 0 then []
        else [WithError(ApiError(400, e.issues[0].message)), WithError(e)]
      else [WithError(e)]
  }

  /** `validate(schema)(req, res, next)`: the parser sees `{body, query,
      params}` of the request. */
  function ValidateRequest(schema: AuthSchema.Schema, req: Request): (calls: seq<NextArg>)
    ensures calls == [NoArg] <==> AuthSchema.Parse(schema, AuthSchema.ParseInput(req.body, req.query, req.params)).Parsed?
    ensures calls != [NoArg] ==>
      |calls| == 2 && calls[0].WithError? && calls[0].error.ApiError? && calls[0].error.statusCode == 400
  {
    Validate(AuthSchema.Parse(schema, AuthSchema.ParseInput(req.body, req.query, req.params)))
  }
}
