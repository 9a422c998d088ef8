/** src/controllers/auth.controller.ts: the module-level user array and the
    register / login / getProfile / logout handlers.

    The handlers' failure branches build an ApiError and `return` without
    throwing it: they end with no response and no `next` call (`Returned`).
    The handlers read `config.jwt.ACCESS_SECRET` and friends, which are
    parameters here and may be absent; `jwt.sign` then throws and the catch
    block forwards the error. */
module AuthController {
  import opened Types
  import JsString
  import Bcrypt
  import Jwt

  const RefreshCookie := "refreshToken"

  /** `maxAge: 7 * 24 * 60 * 60 * 1000`, seven days in milliseconds. */
  const RefreshMaxAge: int := 7 * 24 * 60 * 60 * 1000

  /** The four `config.jwt.*` values the controller reads. */
  datatype JwtConfig = JwtConfig(
    accessSecret: Option<string>,
    accessExpiry: Option<string>,
    refreshSecret: Option<string>,
    refreshExpiry: Option<string>)

  /** Both secrets present and non-empty, so `jwt.sign` does not throw. */
  predicate Signable(cfg: JwtConfig)
  {
    cfg.accessSecret.Some? && cfg.accessSecret.value != ""
    && cfg.refreshSecret.Some? && cfg.refreshSecret.value != ""
  }

  /** The inputs a registration draws from the clock and from bcrypt's
      random source: `Date.now()` for the id, the two `new Date()` calls,
      and the salt. */
  datatype Draws = Draws(nowMillis: nat, createdAt: Millis, updatedAt: Millis, salt: Bcrypt.Salt)

  /** `generateTokens(payload)`: the same payload signed twice, first under
      the access secret and expiry, then under the refresh ones. */
  function GenerateTokens(payload: TokenPayload, cfg: JwtConfig): (r: Result<AuthTokens, Error>)
    ensures r.Ok? <==> Signable(cfg)
    ensures r.Ok? ==>
      && Jwt.Sign(payload, cfg.accessSecret, cfg.accessExpiry) == Ok(r.value.accessToken)
      && Jwt.Sign(payload, cfg.refreshSecret, cfg.refreshExpiry) == Ok(r.value.refreshToken)
  {
    match Jwt.Sign(payload, cfg.accessSecret, cfg.accessExpiry)
    case Err(e) => Err(e)
    case Ok(accessToken) =>
      match Jwt.Sign(payload, cfg.refreshSecret, cfg.refreshExpiry)
      case Err(e) => Err(e)
      case Ok(refreshToken) => Ok(AuthTokens(accessToken, refreshToken))
  }

  /** Both tokens carry the payload: each verifies under its own secret; the
      refresh token does not verify under a different access secret. */
  lemma {:induction false} TokensCarryPayload(payload: TokenPayload, cfg: JwtConfig)
    requires Signable(cfg)
    ensures GenerateTokens(payload, cfg).Ok?
    ensures var t := GenerateTokens(payload, cfg).value;
      && Jwt.Verify(t.accessToken, cfg.accessSecret.value) == Some(payload)
      && Jwt.Verify(t.refreshToken, cfg.refreshSecret.value) == Some(payload)
      && (cfg.accessSecret != cfg.refreshSecret ==> Jwt.Verify(t.refreshToken, cfg.accessSecret.value) == None)
  {
    var t := GenerateTokens(payload, cfg).value;
    Jwt.VerifySign(payload, cfg.accessSecret.value, cfg.accessExpiry, t.accessToken);
    Jwt.VerifySign(payload, cfg.refreshSecret.value, cfg.refreshExpiry, t.refreshToken);
    if cfg.accessSecret != cfg.refreshSecret {
      Jwt.VerifyOtherSecret(payload, cfg.refreshSecret.value, cfg.refreshExpiry, t.refreshToken, cfg.accessSecret.value);
    }
  }

  /** What a `find` callback compares: `user.email === email`, or
      `u.id === req.user?.userId` (never true when `req.user` is unset). */
  datatype Key = ByEmail(email: string) | ById(userId: Option<string>)

  predicate Matches(u: User, key: Key)
  {
    match key
    case ByEmail(e) => u.email == e
    case ById(id) => id == Some(u.id)
  }

  /** The index `find` stops at: the first match. */
  function FirstMatch(users: seq<User>, key: Key): (r: Option<nat>)
    ensures r.Some? ==> r.value < |users| && Matches(users[r.value], key)
    ensures r.Some? ==> forall j :: 0 <= j < r.value ==> !Matches(users[j], key)
    ensures r.None? <==> forall j :: 0 <= j < |users| ==> !Matches(users[j], key)
  {
    if users == [] then None
    else if Matches(users[0], key) then Some(0)
    else
      match FirstMatch(users[1..], key)
      case None => None
      case Some(i) => Some(i + 1)
  }

  /** `users.find(...)`. */
  function FindUser(users: seq<User>, key: Key): (r: Option<User>)
    ensures r.Some? <==> exists i :: 0 <= i < |users| && Matches(users[i], key)
    ensures r.Some? ==> r.value in users && Matches(r.value, key)
  {
    match FirstMatch(users, key)
    case None => None
    case Some(i) => Some(users[i])
  }

  predicate HasEmail(users: seq<User>, email: string)
  {
    exists i :: 0 <= i < |users| && users[i].email == email
  }

  /** No two records share an email. */
  predicate DistinctEmails(users: seq<User>)
  {
    forall i, j :: 0 <= i < j < |users| ==> users[i].email != users[j].email
  }

  function AuthResponse(status: int, user: User, tokens: AuthTokens): (r: Response)
    ensures r.cookie == SetCookie("refreshToken", tokens.refreshToken, 604800000)
    ensures r.body == Body("success", AuthData(user, tokens.accessToken))
  {
    Response(status, SetCookie(RefreshCookie, tokens.refreshToken, RefreshMaxAge),
             Body("success", AuthData(user, tokens.accessToken)))
  }

  /** `register` on store `users`: the new store and how the handler ends. */
  function RegisterStep(users: seq<User>, email: string, password: string, name: string,
                        draws: Draws, cfg: JwtConfig): (seq<User>, Handled)
  {
    if FindUser(users, ByEmail(email)).Some? then (users, Returned)
    else
      var user := User(JsString.Decimal(draws.nowMillis), email, Bcrypt.Hash(password, draws.salt), name,
                       draws.createdAt, draws.updatedAt);
      var users' := users + [user];
      match GenerateTokens(TokenPayload(user.id, user.email), cfg)
      case Err(e) => (users', Forwarded(e))
      case Ok(tokens) => (users', Sent(AuthResponse(201, user, tokens)))
  }

  /** `login` on store `users`. */
  function LoginStep(users: seq<User>, email: string, password: string, cfg: JwtConfig): Handled
  {
    match FindUser(users, ByEmail(email))
    case None => Returned
    case Some(user) =>
      if !Bcrypt.Compare(password, user.password) then Returned
      else
        match GenerateTokens(TokenPayload(user.id, user.email), cfg)
        case Err(e) => Forwarded(e)
        case Ok(tokens) => Sent(AuthResponse(200, user, tokens))
  }

  /** `getProfile` on store `users`, given `req.user`. */
  function ProfileStep(users: seq<User>, reqUser: Option<TokenPayload>): Handled
  {
    var userId := if reqUser.Some? then Some(reqUser.value.userId) else None;
    match FindUser(users, ById(userId))
    case None => Returned
    case Some(user) => Sent(Response(200, NoCookie, Body("success", ProfileData(user))))
  }

  /** `logout`: clear the refresh cookie and answer 200. */
  function Logout(): (r: Response)
    ensures r.statusCode == 200 && r.cookie == ClearCookie(RefreshCookie)
    ensures r.body == Body("success", Message("Logged out successfully"))
  {
    Response(200, ClearCookie(RefreshCookie), Body("success", Message("Logged out successfully")))
  }

  /** A new email: exactly one record is appended, holding the email, the
      name and the digest of the password; the handler answers 201 with that
      record and the access token, and sets the refresh cookie for seven days
      (or forwards the signing error when a secret is missing). */
  lemma RegisterNewEmail(users: seq<User>, email: string, password: string, name: string,
                         draws: Draws, cfg: JwtConfig)
    requires !HasEmail(users, email)
    ensures var (users', out) := RegisterStep(users, email, password, name, draws, cfg);
      && |users'| == |users| + 1
      && users'[..|users|] == users
      && users'[|users|] == User(JsString.Decimal(draws.nowMillis), email, Bcrypt.Hash(password, draws.salt), name,
                                 draws.createdAt, draws.updatedAt)
      && (Signable(cfg) ==>
            out == Sent(AuthResponse(201, users'[|users|], GenerateTokens(TokenPayload(users'[|users|].id, email), cfg).value)))
      && (!Signable(cfg) ==> out.Forwarded?)
  {
    var (users', _) := RegisterStep(users, email, password, name, draws, cfg);
    assert users'[..|users|] == users;
  }

  /** An email already present (exact, case-sensitive): nothing changes and
      nothing is sent. */
  lemma RegisterTakenEmail(users: seq<User>, email: string, password: string, name: string,
                           draws: Draws, cfg: JwtConfig)
    requires HasEmail(users, email)
    ensures RegisterStep(users, email, password, name, draws, cfg) == (users, Returned)
  {
  }

  /** Registration keeps emails pairwise distinct. */
  lemma RegisterKeepsEmailsDistinct(users: seq<User>, email: string, password: string, name: string,
                                    draws: Draws, cfg: JwtConfig)
    requires DistinctEmails(users)
    ensures DistinctEmails(RegisterStep(users, email, password, name, draws, cfg).0)
  {
    if !HasEmail(users, email) {
      RegisterNewEmail(users, email, password, name, draws, cfg);
    }
  }

  /** Login fails silently on an unknown email and on a wrong password: no
      tokens, no response. */
  lemma LoginFailures(users: seq<User>, email: string, password: string, cfg: JwtConfig)
    requires !HasEmail(users, email)
             || !Bcrypt.Compare(password, FindUser(users, ByEmail(email)).value.password)
    ensures LoginStep(users, email, password, cfg) == Returned
  {
    if FirstMatch(users, ByEmail(email)).Some? {
      var i := FirstMatch(users, ByEmail(email)).value;
      assert users[i].email == email;
    }
  }

  /** After registering a new email, logging in with the same email and
      password finds the new record and its digest matches, whatever the
      secrets; with both secrets the login issues tokens for its id and
      email, without them it forwards the signing error. */
  lemma {:induction false} RegisterThenLogin(users: seq<User>, email: string, password: string, name: string,
                                             draws: Draws, cfg: JwtConfig)
    requires !HasEmail(users, email)
    ensures var (users', _) := RegisterStep(users, email, password, name, draws, cfg);
      && |users'| == |users| + 1
      && var user := users'[|users|];
         && FindUser(users', ByEmail(email)) == Some(user)
         && Bcrypt.Compare(password, user.password)
         && (Signable(cfg) ==>
               LoginStep(users', email, password, cfg)
               == Sent(AuthResponse(200, user, GenerateTokens(TokenPayload(user.id, email), cfg).value)))
         && (!Signable(cfg) ==> LoginStep(users', email, password, cfg).Forwarded?)
  {
    RegisterNewEmail(users, email, password, name, draws, cfg);
    var (users', _) := RegisterStep(users, email, password, name, draws, cfg);
    FindAppended(users, users', ByEmail(email));
    Bcrypt.CompareHash(password, draws.salt);
  }

  /** A key no record of `users` matches finds the record appended after them. */
  lemma FindAppended(users: seq<User>, users': seq<User>, key: Key)
    requires |users'| == |users| + 1 && users'[..|users|] == users
    requires forall j :: 0 <= j < |users| ==> !Matches(users[j], key)
    requires Matches(users'[|users|], key)
    ensures FindUser(users', key) == Some(users'[|users|])
  {
    var r := FirstMatch(users', key);
    assert forall j :: 0 <= j < |users| ==> users'[j] == users[j];
  }

  /** getProfile answers with the first record whose id is the token's user
      id, and ends silently when there is none (or no `req.user`). */
  lemma ProfileFindsFirstId(users: seq<User>, reqUser: Option<TokenPayload>)
    ensures var out := ProfileStep(users, reqUser);
      out.Sent? <==> reqUser.Some? && exists i :: 0 <= i < |users| && users[i].id == reqUser.value.userId
    ensures var out := ProfileStep(users, reqUser);
      out.Sent? ==>
        && out.response.statusCode == 200
        && out.response.body.content.ProfileData?
        && exists i :: 0 <= i < |users| && users[i] == out.response.body.content.user
                                       && users[i].id == reqUser.value.userId
                                       && forall j :: 0 <= j < i ==> users[j].id != reqUser.value.userId
    ensures var out := ProfileStep(users, reqUser); !out.Sent? ==> out == Returned
  {
    var userId := if reqUser.Some? then Some(reqUser.value.userId) else None;
    var r := FirstMatch(users, ById(userId));
    if reqUser.Some? && exists i :: 0 <= i < |users| && users[i].id == reqUser.value.userId {
      var i :| 0 <= i < |users| && users[i].id == reqUser.value.userId;
      assert Matches(users[i], ById(userId));
    }
  }

  /** The in-memory `users` array and the handlers that read and append to it. */
  class UserStore {
    var users: seq<User>

    ghost predicate Valid()
      reads this
    {
      DistinctEmails(users)
    }

    /** `const users: User[] = []`. */
    constructor ()
      ensures users == [] && Valid()
    {
      users := [];
    }

    /** `users.find(...)`: a scan from the front that stops at the first match. */
    method Find(key: Key) returns (found: Option<User>)
      ensures found == FindUser(users, key)
    {
      var i := 0;
      while i < |users|
        invariant 0 <= i <= |users|
        invariant forall j :: 0 <= j < i ==> !Matches(users[j], key)
      {
        if Matches(users[i], key) {
          assert FirstMatch(users, key) == Some(i);
          return Some(users[i]);
        }
        i := i + 1;
      }
      return None;
    }

    method Register(email: string, password: string, name: string, draws: Draws, cfg: JwtConfig)
      returns (out: Handled)
      requires Valid()
      modifies this
      ensures Valid()
      ensures (users, out) == RegisterStep(old(users), email, password, name, draws, cfg)
    {
      var existing := Find(ByEmail(email));
      if existing.Some? {
        return Returned;
      }
      RegisterKeepsEmailsDistinct(users, email, password, name, draws, cfg);
      var hashed := Bcrypt.Hash(password, draws.salt);
      var user := User(JsString.Decimal(draws.nowMillis), email, hashed, name, draws.createdAt, draws.updatedAt);
      users := users + [user];
      var tokens := GenerateTokens(TokenPayload(user.id, user.email), cfg);
      if tokens.Err? {
        return Forwarded(tokens.error);
      }
      return Sent(AuthResponse(201, user, tokens.value));
    }

    /** Reads the store and leaves it as it was. */
    method Login(email: string, password: string, cfg: JwtConfig) returns (out: Handled)
      ensures out == LoginStep(users, email, password, cfg)
    {
      var user := Find(ByEmail(email));
      if user.None? {
        return Returned;
      }
      var isValidPassword := Bcrypt.Compare(password, user.value.password);
      if !isValidPassword {
        return Returned;
      }
      var tokens := GenerateTokens(TokenPayload(user.value.id, user.value.email), cfg);
      if tokens.Err? {
        return Forwarded(tokens.error);
      }
      return Sent(AuthResponse(200, user.value, tokens.value));
    }

    /** Reads the store and leaves it as it was. */
    method GetProfile(reqUser: Option<TokenPayload>) returns (out: Handled)
      ensures out == ProfileStep(users, reqUser)
    {
      var userId := if reqUser.Some? then Some(reqUser.value.userId) else None;
      var user := Find(ById(userId));
      if user.None? {
        return Returned;
      }
      return Sent(Response(200, NoCookie, Body("success", ProfileData(user.value))));
    }
  }
}
