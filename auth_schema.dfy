/** The request schemas of src/schemas/auth.schema.ts and what zod's `parse`
    reports for them: no issue, or a ZodError listing every failed rule. */
module AuthSchema {
  import opened Types

  const EmailRequired := "Email is required"
  const EmailInvalid := "Invalid email format"
  const PasswordRequired := "Password is required"
  const PasswordTooShort := "Password must be at least 8 characters"
  const PasswordTooWeak :=
    "Password must contain at least one uppercase letter, one lowercase letter, one number and one special character"
  const NameRequired := "Name is required"
  const NameTooShort := "Name must be at least 2 characters"

  /** The character classes the password regex names: [a-z], [A-Z], \d (ASCII
      digits, since the regex has no `u` flag) and [@$!%*?&]. */
  datatype CharClass = Lower | Upper | Digit | Special

  predicate InClass(c: char, k: CharClass)
  {
    match k
    case Lower => 'a' <= c <= 'z'
    case Upper => 'A' <= c <= 'Z'
    case Digit => '0' <= c <= '9'
    case Special => c in "@$!%*?&"
  }

  /** [A-Za-z\d@$!%*?&] */
  predicate InAlphabet(c: char)
  {
    InClass(c, Lower) || InClass(c, Upper) || InClass(c, Digit) || InClass(c, Special)
  }

  /** The characters JavaScript's `.` does not match. */
  predicate IsLineTerminator(c: char)
  {
    c == '\n' || c == '\r' || c == '\U{2028}' || c == '\U{2029}'
  }

  /** `(?=.*[k])` at the start of the input: some character of class k is
      preceded only by characters `.` matches. */
  predicate LookaheadFinds(s: string, k: CharClass)
  {
    exists i :: 0 <= i < |s| && InClass(s[i], k) && forall j :: 0 <= j < i ==> !IsLineTerminator(s[j])
  }

  /** The password regex, read literally: four lookaheads, then
      [A-Za-z\d@$!%*?&]{8,} anchored at both ends. */
  predicate PasswordRegexMatches(s: string)
  {
    && LookaheadFinds(s, Lower)
    && LookaheadFinds(s, Upper)
    && LookaheadFinds(s, Digit)
    && LookaheadFinds(s, Special)
    && |s| >= 8
    && forall i :: 0 <= i < |s| ==> InAlphabet(s[i])
  }

  predicate Contains(s: string, k: CharClass)
  {
    exists i :: 0 <= i < |s| && InClass(s[i], k)
  }

  /** The password rule in plain words: at least 8 characters, one of each
      class, and nothing outside the alphabet. */
  predicate StrongPassword(s: string)
  {
    && |s| >= 8
    && Contains(s, Lower) && Contains(s, Upper) && Contains(s, Digit) && Contains(s, Special)
    && forall i :: 0 <= i < |s| ==> InAlphabet(s[i])
  }

  /** The literal regex and the plain-words rule accept the same passwords. */
  lemma RegexIsStrongPassword(s: string)
    ensures PasswordRegexMatches(s) <==> StrongPassword(s)
  {
    if PasswordRegexMatches(s) {
      forall k: CharClass ensures Contains(s, k) {
        LookaheadContains(s, k);
      }
    }
    if StrongPassword(s) {
      forall k: CharClass ensures LookaheadFinds(s, k) {
        ContainsLookahead(s, k);
      }
    }
  }

  lemma LookaheadContains(s: string, k: CharClass)
    requires LookaheadFinds(s, k)
    ensures Contains(s, k)
  {
    var i :| 0 <= i < |s| && InClass(s[i], k) && forall j :: 0 <= j < i ==> !IsLineTerminator(s[j]);
  }

  /** Within the alphabet there is no line terminator for `.` to stop at. */
  lemma ContainsLookahead(s: string, k: CharClass)
    requires Contains(s, k)
    requires forall i :: 0 <= i < |s| ==> InAlphabet(s[i])
    ensures LookaheadFinds(s, k)
  {
    var i :| 0 <= i < |s| && InClass(s[i], k);
    forall j | 0 <= j < i ensures !IsLineTerminator(s[j]) {
      assert InAlphabet(s[j]);
    }
  }

  /** A character outside the alphabet rejects a password whatever else
      holds of it. */
  lemma ForeignCharacterRejects(s: string, i: nat)
    requires i < |s| && !InAlphabet(s[i])
    ensures !PasswordRegexMatches(s)
  {
  }

  /** The password of the repository's test user is rejected: '#' is not in
      the alphabet. */
  lemma TestUserPasswordRejected()
    ensures !PasswordRegexMatches("Test123!@#")
  {
    ForeignCharacterRejects("Test123!@#", 9);
  }

  lemma StrongPasswordExample()
    ensures PasswordRegexMatches("Aa1!aaaa")
  {
    var s := "Aa1!aaaa";
    assert InClass(s[0], Upper) && InClass(s[1], Lower) && InClass(s[2], Digit) && InClass(s[3], Special);
    assert StrongPassword(s);
    RegexIsStrongPassword(s);
  }

  /** Stand-in for zod's `.email()`, whose pattern is library behaviour: a
      non-empty local part, one '@', and a '.' somewhere after it. */
  predicate EmailShaped(e: string)
  {
    exists i :: 0 < i < |e| - 1 && e[i] == '@' && '@' !in e[..i] && '@' !in e[i + 1..] && '.' in e[i + 1..]
  }

  /** The address the repository's test rejects. */
  lemma InvalidEmailRejected()
    ensures !EmailShaped("invalid-email")
  {
    var e := "invalid-email";
    assert forall i :: 0 <= i < |e| ==> e[i] != '@';
  }

  /** A non-empty local part, one '@', and a domain holding a '.'. */
  lemma EmailShapedOf(local: string, domain: string, tld: string)
    requires local != [] && '@' !in local && '@' !in domain && '@' !in tld
    ensures EmailShaped(local + "@" + domain + "." + tld)
  {
    var e := local + "@" + domain + "." + tld;
    var i := |local|;
    assert e[..i] == local && e[i] == '@';
    assert e[i + 1..] == domain + "." + tld;
    assert e[i + 1..][|domain|] == '.';
  }

  lemma TestEmailAccepted()
    ensures EmailShaped("test@example.com")
  {
    assert "test@example.com" == "test" + "@" + "example" + "." + "com";
    EmailShapedOf("test", "example", "com");
  }

  /** `req.body[key]`, absent when the key is missing. */
  function Field(body: map<string, string>, key: string): Option<string>
  {
    if key in body then Some(body[key]) else None
  }

  function EmailIssues(v: Option<string>): seq<Issue>
  {
    match v
    case None => [Issue("body.email", EmailRequired)]
    case Some(e) => if EmailShaped(e) then [] else [Issue("body.email", EmailInvalid)]
  }

  /** passwordSchema: `.min(8)` and `.regex(...)` both report (zod does not
      stop at the first failed check of a string). */
  function PasswordIssues(v: Option<string>): seq<Issue>
  {
    match v
    case None => [Issue("body.password", PasswordRequired)]
    case Some(p) =>
      (if |p| < 8 then [Issue("body.password", PasswordTooShort)] else [])
      + (if PasswordRegexMatches(p) then [] else [Issue("body.password", PasswordTooWeak)])
  }

  function NameIssues(v: Option<string>): seq<Issue>
  {
    match v
    case None => [Issue("body.name", NameRequired)]
    case Some(n) => if |n| < 2 then [Issue("body.name", NameTooShort)] else []
  }

  /** The login password: `.min(1)` only, no complexity rule. */
  function LoginPasswordIssues(v: Option<string>): seq<Issue>
  {
    match v
    case None => [Issue("body.password", PasswordRequired)]
    case Some(p) => if |p| < 1 then [Issue("body.password", PasswordRequired)] else []
  }

  datatype Schema = RegisterSchema | LoginSchema

  /** The object `validate` hands to the parser. */
  datatype ParseInput = ParseInput(
    body: map<string, string>,
    query: map<string, string>,
    params: map<string, string>)

  /** All issues, field by field in declaration order. Only `body` is read:
      the schemas declare no `query` or `params` keys. */
  function Issues(schema: Schema, input: ParseInput): seq<Issue>
  {
    match schema
    case RegisterSchema =>
      EmailIssues(Field(input.body, "email"))
      + PasswordIssues(Field(input.body, "password"))
      + NameIssues(Field(input.body, "name"))
    case LoginSchema =>
      EmailIssues(Field(input.body, "email"))
      + LoginPasswordIssues(Field(input.body, "password"))
  }

  /** `schema.parseAsync(input)`: resolves, or throws a ZodError. */
  datatype ParseResult = Parsed | Thrown(error: Error)

  function Parse(schema: Schema, input: ParseInput): (r: ParseResult)
    ensures r.Thrown? ==> r.error.ZodError? && |r.error.issues| > 0
  {
    var issues := Issues(schema, input);
    if issues == [] then Parsed else Thrown(ZodError(issues))
  }

  predicate ValidRegisterBody(body: map<string, string>)
  {
    && "email" in body && EmailShaped(body["email"])
    && "password" in body && StrongPassword(body["password"])
    && "name" in body && |body["name"]| >= 2
  }

  predicate ValidLoginBody(body: map<string, string>)
  {
    && "email" in body && EmailShaped(body["email"])
    && "password" in body && |body["password"]| >= 1
  }

  /** Register input passes exactly when all three fields are present and
      meet their rules. */
  lemma RegisterParse(input: ParseInput)
    ensures Parse(RegisterSchema, input) == Parsed <==> ValidRegisterBody(input.body)
  {
    if "password" in input.body {
      RegexIsStrongPassword(input.body["password"]);
    }
  }

  /** Login input passes exactly when email and a non-empty password are
      present; the password has no complexity rule. */
  lemma LoginParse(input: ParseInput)
    ensures Parse(LoginSchema, input) == Parsed <==> ValidLoginBody(input.body)
  {
  }

  /** Every reported issue carries one of the schema's own messages (that no
      issue is reported for valid input is RegisterParse and LoginParse). */
  lemma IssuesComeFromRules(schema: Schema, input: ParseInput, k: nat)
    requires k < |Issues(schema, input)|
    ensures Issues(schema, input)[k].message in
      {EmailRequired, EmailInvalid, PasswordRequired, PasswordTooShort, PasswordTooWeak, NameRequired, NameTooShort}
  {
  }
}
