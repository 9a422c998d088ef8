/** Stand-in for bcryptjs: `hash(password, 10)` and `compare(password, digest)`.
    The digest is self-describing, as a bcrypt digest is: a fixed prefix with the
    cost, then the salt, then a checksum of salt and password. The checksum is
    a plain polynomial fingerprint (not injective, no one-wayness); the model
    relies only on `Compare(p, Hash(p, salt))`. */
module Bcrypt {
  import JsString

  /** `$2a$` followed by the cost factor 10 that the controller passes. */
  const Prefix: string := "$2a$10$"

  const SaltLength: nat := 22

  /** bcrypt draws a fresh random salt per call; here it is an input. */
  type Salt = s: string | |s| == SaltLength witness "......................"

  const Modulus: nat := 0x1_0000_0000_0000_0000

  function Fingerprint(s: string): nat
  {
    if s == [] then 0 else (Fingerprint(s[..|s| - 1]) * 131 + s[|s| - 1] as nat) % Modulus
  }

  /** `bcrypt.hash(password, 10)` with the salt it drew. */
  function Hash(password: string, salt: Salt): (digest: string)
    ensures JsString.StartsWith(digest, Prefix)
    ensures |digest| > |Prefix| + SaltLength
    ensures digest[|Prefix|..|Prefix| + SaltLength] == salt
  {
    Prefix + salt + JsString.Decimal(Fingerprint(salt + password))
  }

  /** `bcrypt.compare(password, digest)`: read the salt back out of the
      digest and hash again. A digest of the wrong shape never matches. */
  predicate Compare(password: string, digest: string)
  {
    && |digest| > |Prefix| + SaltLength
    && digest[..|Prefix|] == Prefix
    && digest == Hash(password, digest[|Prefix|..|Prefix| + SaltLength])
  }

  /** A password always matches its own digest, whatever salt was drawn. */
  lemma CompareHash(password: string, salt: Salt)
    ensures Compare(password, Hash(password, salt))
  {
  }
}

/** Stand-in for jsonwebtoken's `sign` and `verify`. A token is four
    '.'-separated segments: user id, email, expiry, and a signature segment.
    Field text is escaped so that it never holds '.' or ' ' (as base64url never
    does). The signature segment is a MAC of the first three segments under
    the secret; the model takes a MAC that is injective in the secret, which
    captures "verifies under the signing secret and under no other" and
    "altered segments fail", but not unforgeability. Expiry is carried in the
    token and not checked: there is no clock in this model. */
module Jwt {
  import opened Types
  import JsString

  function EscapeChar(c: char): (e: string)
    ensures '.' !in e && ' ' !in e
  {
    if c == '~' then "~~" else if c == '.' then "~d" else if c == ' ' then "~s" else [c]
  }

  function Escape(s: string): (e: string)
    ensures '.' !in e && ' ' !in e
  {
    if s == [] then [] else EscapeChar(s[0]) + Escape(s[1..])
  }

  function Unescape(e: string): Option<string>
  {
    if e == [] then Some([])
    else if e[0] == '~' then
      if |e| < 2 then None
      else
        var c := if e[1] == '~' then Some('~')
                 else if e[1] == 'd' then Some('.')
                 else if e[1] == 's' then Some(' ')
                 else None;
        match (c, Unescape(e[2..]))
        case (Some(ch), Some(rest)) => Some([ch] + rest)
        case _ => None
    else
      match Unescape(e[1..])
      case Some(rest) => Some([e[0]] + rest)
      case None => None
  }

  lemma {:induction false} UnescapeEscape(s: string)
    ensures Unescape(Escape(s)) == Some(s)
  {
    if s != [] {
      UnescapeEscape(s[1..]);
      UnescapeEscapeChar(s[0], Escape(s[1..]), s[1..]);
      assert [s[0]] + s[1..] == s;
    }
  }

  /** Unescaping reads one escaped character back off the front. */
  lemma UnescapeEscapeChar(c: char, e: string, rest: string)
    requires Unescape(e) == Some(rest)
    ensures Unescape(EscapeChar(c) + e) == Some([c] + rest)
  {
    var f := EscapeChar(c) + e;
    if c == '~' || c == '.' || c == ' ' {
      assert f[0] == '~' && f[2..] == e;
    } else {
      assert f[0] == c && f[1..] == e;
    }
  }

  lemma EscapeInjective(a: string, b: string)
    requires Escape(a) == Escape(b)
    ensures a == b
  {
    UnescapeEscape(a);
    UnescapeEscape(b);
  }

  function ExpirySegment(expiresIn: Option<string>): string
  {
    match expiresIn
    case Some(x) => Escape(x)
    case None => ""
  }

  /** The signed part: the three segments before the signature. */
  function SignedPart(userId: string, email: string, expiry: string): string
  {
    userId + "." + email + "." + expiry
  }

  function Mac(secret: string, signed: string): (m: string)
    ensures '.' !in m && ' ' !in m
  {
    Escape(signed + "#" + secret)
  }

  lemma MacInjective(secret1: string, secret2: string, signed: string)
    requires Mac(secret1, signed) == Mac(secret2, signed)
    ensures secret1 == secret2
  {
    EscapeInjective(signed + "#" + secret1, signed + "#" + secret2);
    var n := |signed| + 1;
    assert (signed + "#" + secret1)[n..] == secret1;
    assert (signed + "#" + secret2)[n..] == secret2;
  }

  /** `jwt.sign(payload, secret, {expiresIn})`, which throws when the secret
      is absent or empty. */
  function Sign(payload: TokenPayload, secret: Option<string>, expiresIn: Option<string>): (r: Result<string, Error>)
    ensures r.Ok? <==> secret.Some? && secret.value != ""
    ensures r.Ok? ==> ' ' !in r.value
  {
    if secret.None? || secret.value == "" then
      Err(JsError("secretOrPrivateKey must have a value"))
    else
      var signed := SignedPart(Escape(payload.userId), Escape(payload.email), ExpirySegment(expiresIn));
      Ok(signed + "." + Mac(secret.value, signed))
  }

  /** `jwt.verify(token, secret)`: the decoded payload, or None where the
      library throws (malformed token, bad signature, empty secret). */
  function Verify(token: string, secret: string): (r: Option<TokenPayload>)
    ensures r.Some? ==> secret != "" && |JsString.Split(token, '.')| == 4
    ensures r.Some? ==> var f := JsString.Split(token, '.'); f[3] == Mac(secret, SignedPart(f[0], f[1], f[2]))
  {
    var f := JsString.Split(token, '.');
    if secret == "" || |f| != 4 then None
    else if f[3] != Mac(secret, SignedPart(f[0], f[1], f[2])) then None
    else
      match (Unescape(f[0]), Unescape(f[1]))
      case (Some(userId), Some(email)) => Some(TokenPayload(userId, email))
      case _ => None
  }

  lemma SplitSigned(payload: TokenPayload, secret: string, expiresIn: Option<string>, token: string)
    requires Sign(payload, Some(secret), expiresIn) == Ok(token)
    ensures JsString.Split(token, '.') ==
      [Escape(payload.userId), Escape(payload.email), ExpirySegment(expiresIn),
       Mac(secret, SignedPart(Escape(payload.userId), Escape(payload.email), ExpirySegment(expiresIn)))]
  {
    var u, e, x := Escape(payload.userId), Escape(payload.email), ExpirySegment(expiresIn);
    var m := Mac(secret, SignedPart(u, e, x));
    assert token == SignedPart(u, e, x) + "." + m;
    SplitFourSegments(u, e, x, m);
  }

  /** Four segments without '.' joined by '.' split back into themselves. */
  lemma SplitFourSegments(u: string, e: string, x: string, m: string)
    requires '.' !in u && '.' !in e && '.' !in x && '.' !in m
    ensures JsString.Split(SignedPart(u, e, x) + "." + m, '.') == [u, e, x, m]
  {
    assert SignedPart(u, e, x) + "." + m == u + ['.'] + (e + ['.'] + (x + ['.'] + m));
    JsString.SplitWithoutSeparator(m, '.');
    JsString.SplitAfterField(x, m, '.');
    JsString.SplitAfterField(e, x + ['.'] + m, '.');
    JsString.SplitAfterField(u, e + ['.'] + (x + ['.'] + m), '.');
  }

  /** A token verifies, under the secret that signed it, to the payload it was
      signed with. */
  lemma {:induction false} VerifySign(payload: TokenPayload, secret: string, expiresIn: Option<string>, token: string)
    requires Sign(payload, Some(secret), expiresIn) == Ok(token)
    ensures Verify(token, secret) == Some(payload)
  {
    SplitSigned(payload, secret, expiresIn, token);
    UnescapeEscape(payload.userId);
    UnescapeEscape(payload.email);
  }

  /** ... and under no other secret. */
  lemma {:induction false} VerifyOtherSecret(payload: TokenPayload, secret: string, expiresIn: Option<string>, token: string, other: string)
    requires Sign(payload, Some(secret), expiresIn) == Ok(token)
    requires other != secret
    ensures Verify(token, other) == None
  {
    SplitSigned(payload, secret, expiresIn, token);
    var signed := SignedPart(Escape(payload.userId), Escape(payload.email), ExpirySegment(expiresIn));
    if other != "" && Mac(other, signed) == Mac(secret, signed) {
      MacInjective(other, secret, signed);
    }
  }
}
