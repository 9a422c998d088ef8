/** src/routes/auth.routes.ts with the application-level error handler behind
    it: each route's middleware chain, run to the response the client gets.

      POST /register  validate(registerSchema) -> register
      POST /login     validate(loginSchema)    -> login
      POST /logout    authenticate             -> logout
      GET  /profile   authenticate             -> getProfile

    An error passed to `next` skips the rest of the chain and reaches
    `errorHandler`. After a validation error `validate` calls `next` a second
    time; the response was already produced by the first call, and the model
    follows only that one. */
module AuthRoutes {
  import opened Types
  import JsString
  import Bcrypt
  import Jwt
  import AuthSchema
  import ValidateMiddleware
  import AuthMiddleware
  import ErrorMiddleware
  import AuthController

  datatype Route = RegisterRoute | LoginRoute | LogoutRoute | ProfileRoute

  /** What reaches the client from a handler's ending: nothing when it returned
      silently, its own response, or the error handler's response. */
  function Deliver(h: Handled): Option<Response>
  {
    match h
    case Returned => None
    case Sent(r) => Some(r)
    case Forwarded(e) => Some(ErrorMiddleware.ErrorHandler(e))
  }

  /** The response produced by the first `next` call of a chain that did not
      proceed. */
  function FirstError(calls: seq<ValidateMiddleware.NextArg>): Option<Response>
  {
    if |calls| > 0 && calls[0].WithError? then Some(ErrorMiddleware.ErrorHandler(calls[0].error)) else None
  }

  function Input(req: Request): AuthSchema.ParseInput
  {
    AuthSchema.ParseInput(req.body, req.query, req.params)
  }

  /** One request on one route: the store afterwards and the response, if
      any. `draws` are a registration's clock readings and salt, `cfg` the
      secrets the controller reads, `accessSecret` the one the guard reads. */
  function Serve(route: Route, req: Request, users: seq<User>, draws: AuthController.Draws,
                 cfg: AuthController.JwtConfig, accessSecret: string): (seq<User>, Option<Response>)
  {
    match route
    case RegisterRoute =>
      var calls := ValidateMiddleware.ValidateRequest(AuthSchema.RegisterSchema, req);
      if calls == [ValidateMiddleware.NoArg] then
        AuthSchema.RegisterParse(Input(req));
        var (users', out) := AuthController.RegisterStep(
          users, req.body["email"], req.body["password"], req.body["name"], draws, cfg);
        (users', Deliver(out))
      else (users, FirstError(calls))
    case LoginRoute =>
      var calls := ValidateMiddleware.ValidateRequest(AuthSchema.LoginSchema, req);
      if calls == [ValidateMiddleware.NoArg] then
        AuthSchema.LoginParse(Input(req));
        (users, Deliver(AuthController.LoginStep(users, req.body["email"], req.body["password"], cfg)))
      else (users, FirstError(calls))
    case LogoutRoute =>
      (match AuthMiddleware.Authenticate(req.authorization, accessSecret)
       case Err(e) => (users, Some(ErrorMiddleware.ErrorHandler(e)))
       case Ok(_) => (users, Some(AuthController.Logout())))
    case ProfileRoute =>
      match AuthMiddleware.Authenticate(req.authorization, accessSecret)
      case Err(e) => (users, Some(ErrorMiddleware.ErrorHandler(e)))
      case Ok(payload) => (users, Deliver(AuthController.ProfileStep(users, Some(payload))))
  }

  const UnauthorizedResponse := Response(401, NoCookie, Body("error", Message("Invalid or expired token")))

  /** Every failure of the guard reaches the client as the same 401, and the
      protected handler does not run. */
  lemma GuardFailureIs401(route: Route, req: Request, users: seq<User>, draws: AuthController.Draws,
                          cfg: AuthController.JwtConfig, accessSecret: string)
    requires route == LogoutRoute || route == ProfileRoute
    requires AuthMiddleware.Authenticate(req.authorization, accessSecret).Err?
    ensures Serve(route, req, users, draws, cfg, accessSecret) == (users, Some(UnauthorizedResponse))
  {
  }

  /** getProfile answers only behind a token that verifies under the access
      secret, and then with a stored record carrying the token's user id. No
      protected route changes the store. */
  lemma ProfileNeedsVerifiedToken(req: Request, users: seq<User>, draws: AuthController.Draws,
                                  cfg: AuthController.JwtConfig, accessSecret: string)
    ensures Serve(ProfileRoute, req, users, draws, cfg, accessSecret).0 == users
    ensures Serve(LogoutRoute, req, users, draws, cfg, accessSecret).0 == users
    ensures var resp := Serve(ProfileRoute, req, users, draws, cfg, accessSecret).1;
      resp.Some? && resp.value.statusCode == 200 ==>
        && AuthMiddleware.BearerToken(req.authorization).Some?
        && var payload := Jwt.Verify(AuthMiddleware.BearerToken(req.authorization).value, accessSecret);
           && payload.Some?
           && resp.value.body.content.ProfileData?
           && resp.value.body.content.user in users
           && resp.value.body.content.user.id == payload.value.userId
  {
    var auth := AuthMiddleware.Authenticate(req.authorization, accessSecret);
    if auth.Ok? {
      AuthController.ProfileFindsFirstId(users, Some(auth.value));
    }
  }

  /** Behind a verified token whose user id names no stored record,
      getProfile returns without answering: no response, store unchanged. */
  lemma ProfileUnknownIdNoResponse(req: Request, users: seq<User>, draws: AuthController.Draws,
                                   cfg: AuthController.JwtConfig, accessSecret: string, payload: TokenPayload)
    requires AuthMiddleware.Authenticate(req.authorization, accessSecret) == Ok(payload)
    requires forall i :: 0 <= i < |users| ==> users[i].id != payload.userId
    ensures Serve(ProfileRoute, req, users, draws, cfg, accessSecret) == (users, None)
  {
    AuthController.ProfileFindsFirstId(users, Some(payload));
  }

  /** Register input that breaks a schema rule never reaches the controller:
      the store is unchanged and the client gets a 400 whose message is one
      of the schema's messages. */
  lemma InvalidRegisterIs400(req: Request, users: seq<User>, draws: AuthController.Draws,
                             cfg: AuthController.JwtConfig, accessSecret: string)
    requires !AuthSchema.ValidRegisterBody(req.body)
    ensures var (users', resp) := Serve(RegisterRoute, req, users, draws, cfg, accessSecret);
      && users' == users
      && resp.Some? && resp.value.statusCode == 400 && resp.value.body.status == "error"
      && resp.value.body.content.message in
           {AuthSchema.EmailRequired, AuthSchema.EmailInvalid, AuthSchema.PasswordRequired,
            AuthSchema.PasswordTooShort, AuthSchema.PasswordTooWeak, AuthSchema.NameRequired,
            AuthSchema.NameTooShort}
  {
    AuthSchema.RegisterParse(Input(req));
    AuthSchema.IssuesComeFromRules(AuthSchema.RegisterSchema, Input(req), 0);
  }

  /** With the secrets the controller reads absent, a valid registration
      still stores the record, and the client gets a 500. */
  lemma UnsignedRegisterStoresAnd500(req: Request, users: seq<User>, draws: AuthController.Draws,
                                     cfg: AuthController.JwtConfig, accessSecret: string)
    requires AuthSchema.ValidRegisterBody(req.body)
    requires !AuthController.HasEmail(users, req.body["email"])
    requires !AuthController.Signable(cfg)
    ensures var (users', resp) := Serve(RegisterRoute, req, users, draws, cfg, accessSecret);
      && |users'| == |users| + 1
      && users'[..|users|] == users
      && users'[|users|].email == req.body["email"]
      && resp == Some(Response(500, NoCookie, Body("error", Message(ErrorMiddleware.InternalServerError))))
  {
    AuthSchema.RegisterParse(Input(req));
    AuthController.RegisterNewEmail(users, req.body["email"], req.body["password"], req.body["name"], draws, cfg);
  }

  /** The right credentials while a controller secret is missing: the
      signing error reaches the catch block, and the client gets the generic
      500. */
  lemma UnsignedLoginIs500(req: Request, users: seq<User>, draws: AuthController.Draws,
                           cfg: AuthController.JwtConfig, accessSecret: string)
    requires AuthSchema.ValidLoginBody(req.body)
    requires AuthController.HasEmail(users, req.body["email"])
    requires Bcrypt.Compare(req.body["password"],
                            AuthController.FindUser(users, AuthController.ByEmail(req.body["email"])).value.password)
    requires !AuthController.Signable(cfg)
    ensures Serve(LoginRoute, req, users, draws, cfg, accessSecret)
         == (users, Some(Response(500, NoCookie, Body("error", Message(ErrorMiddleware.InternalServerError)))))
  {
    AuthSchema.LoginParse(Input(req));
  }

  /** Behind a verified token, logout answers with its fixed response. */
  lemma LogoutAdmitted(req: Request, users: seq<User>, draws: AuthController.Draws,
                       cfg: AuthController.JwtConfig, accessSecret: string)
    requires AuthMiddleware.Authenticate(req.authorization, accessSecret).Ok?
    ensures Serve(LogoutRoute, req, users, draws, cfg, accessSecret) == (users, Some(AuthController.Logout()))
  {
  }

  /** A login that names an unknown email, or the wrong password, gets no
      response at all: the ApiError is built and dropped. */
  lemma FailedLoginGetsNoResponse(req: Request, users: seq<User>, draws: AuthController.Draws,
                                  cfg: AuthController.JwtConfig, accessSecret: string)
    requires AuthSchema.ValidLoginBody(req.body)
    requires !AuthController.HasEmail(users, req.body["email"])
             || !Bcrypt.Compare(req.body["password"],
                                AuthController.FindUser(users, AuthController.ByEmail(req.body["email"])).value.password)
    ensures Serve(LoginRoute, req, users, draws, cfg, accessSecret) == (users, None)
  {
    AuthSchema.LoginParse(Input(req));
    AuthController.LoginFailures(users, req.body["email"], req.body["password"], cfg);
  }

  function LoginBody(email: string, password: string): map<string, string>
  {
    map["email" := email, "password" := password]
  }

  /** A valid registration of a new email: one record appended at the end
      and a 201 carrying that record. */
  lemma RegisterRouteNewEmail(req: Request, users: seq<User>, draws: AuthController.Draws,
                              cfg: AuthController.JwtConfig, accessSecret: string)
    requires AuthSchema.ValidRegisterBody(req.body)
    requires !AuthController.HasEmail(users, req.body["email"])
    requires AuthController.Signable(cfg)
    ensures var (users', resp) := Serve(RegisterRoute, req, users, draws, cfg, accessSecret);
      && |users'| == |users| + 1 && users'[..|users|] == users
      && users'[|users|].id == JsString.Decimal(draws.nowMillis)
      && users'[|users|].email == req.body["email"]
      && users'[|users|].password == Bcrypt.Hash(req.body["password"], draws.salt)
      && resp.Some? && resp.value.statusCode == 201
      && resp.value.body.content == AuthData(users'[|users|], resp.value.body.content.accessToken)
      && resp.value.body.content.accessToken
         == AuthController.GenerateTokens(TokenPayload(users'[|users|].id, req.body["email"]), cfg).value.accessToken
      && resp == Some(AuthController.AuthResponse(201, users'[|users|],
           AuthController.GenerateTokens(TokenPayload(users'[|users|].id, req.body["email"]), cfg).value))
  {
    AuthSchema.RegisterParse(Input(req));
    AuthController.RegisterNewEmail(users, req.body["email"], req.body["password"], req.body["name"], draws, cfg);
  }

  /** Registering an email that is already stored changes nothing and sends
      nothing. */
  lemma RegisterRouteTakenEmail(req: Request, users: seq<User>, draws: AuthController.Draws,
                                cfg: AuthController.JwtConfig, accessSecret: string)
    requires AuthSchema.ValidRegisterBody(req.body)
    requires AuthController.HasEmail(users, req.body["email"])
    ensures Serve(RegisterRoute, req, users, draws, cfg, accessSecret) == (users, None)
  {
    AuthSchema.RegisterParse(Input(req));
    AuthController.RegisterTakenEmail(users, req.body["email"], req.body["password"], req.body["name"], draws, cfg);
  }

  /** After a registration, logging in with the same email and password
      answers 200 with the new record. */
  lemma {:induction false} LoginAfterRegister(req: Request, users: seq<User>, draws: AuthController.Draws,
                                              cfg: AuthController.JwtConfig, accessSecret: string, loginReq: Request)
    requires AuthSchema.ValidRegisterBody(req.body)
    requires !AuthController.HasEmail(users, req.body["email"])
    requires AuthController.Signable(cfg)
    requires loginReq.body == LoginBody(req.body["email"], req.body["password"])
    ensures var users' := Serve(RegisterRoute, req, users, draws, cfg, accessSecret).0;
      var login := Serve(LoginRoute, loginReq, users', draws, cfg, accessSecret);
      && login.0 == users'
      && login.1.Some? && login.1.value.statusCode == 200
      && login.1.value.body.content.AuthData? && login.1.value.body.content.user == users'[|users|]
  {
    var email, password, name := req.body["email"], req.body["password"], req.body["name"];
    AuthSchema.RegisterParse(Input(req));
    AuthSchema.LoginParse(Input(loginReq));
    AuthController.RegisterNewEmail(users, email, password, name, draws, cfg);
    AuthController.RegisterThenLogin(users, email, password, name, draws, cfg);
  }

  /** The access token a registration returns (see RegisterRouteNewEmail)
      opens getProfile on a record with the new id: the new record itself when no earlier record has that
      id (ids come from the clock and may repeat). */
  lemma {:induction false} ProfileAfterRegister(req: Request, users: seq<User>, draws: AuthController.Draws,
                                                cfg: AuthController.JwtConfig, accessSecret: string, tokens: AuthTokens,
                                                profileReq: Request)
    requires AuthSchema.ValidRegisterBody(req.body)
    requires !AuthController.HasEmail(users, req.body["email"])
    requires cfg.accessSecret == Some(accessSecret)
    requires AuthController.GenerateTokens(TokenPayload(JsString.Decimal(draws.nowMillis), req.body["email"]), cfg)
      == Ok(tokens)
    requires profileReq.authorization == Some(AuthMiddleware.BearerPrefix + tokens.accessToken)
    ensures var users' := Serve(RegisterRoute, req, users, draws, cfg, accessSecret).0;
      var profile := Serve(ProfileRoute, profileReq, users', draws, cfg, accessSecret).1;
      && |users'| == |users| + 1
      && profile.Some? && profile.value.statusCode == 200
      && profile.value.body.content.ProfileData?
      && profile.value.body.content.user.id == users'[|users|].id
      && ((forall j :: 0 <= j < |users| ==> users[j].id != users'[|users|].id) ==>
            profile.value.body.content.user == users'[|users|])
  {
    RegisterRouteNewEmail(req, users, draws, cfg, accessSecret);
    var users' := Serve(RegisterRoute, req, users, draws, cfg, accessSecret).0;
    var payload := TokenPayload(users'[|users|].id, req.body["email"]);
    AuthMiddleware.AdmitsAccessToken(payload, accessSecret, cfg.accessExpiry, tokens.accessToken);
    ProfileOfStoredId(users', |users|, profileReq, draws, cfg, accessSecret, payload);
  }

  /** Behind a token whose payload names the id of record i, getProfile
      answers with a record of that id, record i itself when no earlier record
      has it. */
  lemma ProfileOfStoredId(users: seq<User>, i: nat, req: Request, draws: AuthController.Draws,
                          cfg: AuthController.JwtConfig, accessSecret: string, payload: TokenPayload)
    requires i < |users| && users[i].id == payload.userId
    requires AuthMiddleware.Authenticate(req.authorization, accessSecret) == Ok(payload)
    ensures var profile := Serve(ProfileRoute, req, users, draws, cfg, accessSecret).1;
      && profile.Some? && profile.value.statusCode == 200
      && profile.value.body.content.ProfileData?
      && profile.value.body.content.user.id == payload.userId
      && ((forall j :: 0 <= j < i ==> users[j].id != payload.userId) ==>
            profile.value.body.content.user == users[i])
  {
    AuthController.ProfileFindsFirstId(users, Some(payload));
    var out := AuthController.ProfileStep(users, Some(payload));
    var k :| 0 <= k < |users| && users[k] == out.response.body.content.user
             && users[k].id == payload.userId
             && forall j :: 0 <= j < k ==> users[j].id != payload.userId;
    assert !(i < k);
  }
}
