/** The records of src/types/index.ts, the error values the middleware passes to
    `next`, and the shape of requests and responses as the handlers see them. */
module Types {

  datatype Option<+T> = None | Some(value: T)

  datatype Result<+T, +E> = Ok(value: T) | Err(error: E)

  /** A JavaScript `Date`, as milliseconds since the epoch. */
  type Millis = nat

  /** A stored user record; `password` holds the bcrypt digest. */
  datatype User = User(
    id: string,
    email: string,
    password: string,
    name: string,
    createdAt: Millis,
    updatedAt: Millis)

  /** The public projection the types file declares; no handler uses it. */
  datatype UserResponse = UserResponse(id: string, email: string, name: string)

  /** The claims signed into both tokens. */
  datatype TokenPayload = TokenPayload(userId: string, email: string)

  datatype AuthTokens = AuthTokens(accessToken: string, refreshToken: string)

  /** One entry of a ZodError's `errors` array. */
  datatype Issue = Issue(path: string, message: string)

  /** What reaches `next(err)`: an ApiError(statusCode, message), a ZodError
      with its issues, or any other thrown Error. */
  datatype Error =
    | ApiError(statusCode: int, message: string)
    | ZodError(issues: seq<Issue>)
    | JsError(message: string)

  /** The parts of an Express request the core reads. A missing body field or
      header is a key that is absent / `None`. */
  datatype Request = Request(
    body: map<string, string>,
    query: map<string, string>,
    params: map<string, string>,
    authorization: Option<string>)

  /** What goes under `data` (or `message`) in a JSON response body. */
  datatype Content =
    | AuthData(user: User, accessToken: string)
    | ProfileData(user: User)
    | Message(message: string)

  /** A JSON body `{status, data}` or `{status, message}`. */
  datatype Body = Body(status: string, content: Content)

  /** The cookie a response sets or clears, if any. */
  datatype CookieOp =
    | NoCookie
    | SetCookie(name: string, value: string, maxAge: int)
    | ClearCookie(name: string)

  datatype Response = Response(statusCode: int, cookie: CookieOp, body: Body)

  /** How an async controller handler ends: it returns without responding, it
      sends a response, or its catch block passes an error to `next`. */
  datatype Handled =
    | Returned
    | Sent(response: Response)
    | Forwarded(error: Error)
}
