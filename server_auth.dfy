/**
 * Teacher authentication in the activities service (src/app.py): the
 * credential table built from the teachers file, the credential check of
 * POST /login, and `_require_teacher`, the bearer-token guard that both
 * mutating endpoints run before anything else.
 *
 * The JWT library is foreign code: signing and verifying a token are
 * function-typed parameters (`Encoder`, `Decoder`) and nothing is assumed
 * about them beyond what a lemma states as its premise.
 */
module ServerAuth {
  import opened Common

  /** An `HTTPException`: the status code and the detail text the client receives. */
  datatype HttpError = HttpError(status: int, detail: string)

  /** What a handler produces: its response body, or the `HTTPException` it raises. */
  datatype Result<T> = Ok(value: T) | Err(error: HttpError)

  const MissingAuthorization := HttpError(401, "Missing or invalid authorization")
  const InvalidToken := HttpError(401, "Invalid token")
  const TeacherRequired := HttpError(403, "Forbidden: teacher role required")
  const InvalidCredentials := HttpError(401, "Invalid credentials")

  /** The claims of a decoded token (string-valued claims only). */
  type Claims = map<string, string>

  /** `jwt.decode` with the service's secret and HS256: the claims, or `None` where it raises `InvalidTokenError`. */
  type Decoder = string -> Option<Claims>

  /** `jwt.encode` with the service's secret and HS256. */
  type Encoder = Claims -> string

  /** The prefix `_require_teacher` looks for, compared case-insensitively. */
  const BearerPrefix := "bearer "

  /**
   * Lower-casing as `str.lower` does it for the characters that matter here:
   * no character outside ASCII lower-cases to a letter of "bearer" or to a space.
   */
  function AsciiLower(c: char): char
  {
    if 'A' <= c <= 'Z' then (c as int + 32) as char else c
  }

  /** `authorization.lower().startswith("bearer ")`. */
  predicate HasBearerPrefix(h: string)
  {
    |h| >= |BearerPrefix| && forall i :: 0 <= i < |BearerPrefix| ==> AsciiLower(h[i]) == BearerPrefix[i]
  }

  /** `s.split(" ", 1)[1]`: the text after the first space; `None` where Python raises `IndexError`. */
  function AfterFirstSpace(s: string): Option<string>
  {
    if s == [] then None
    else if s[0] == ' ' then Some(s[1..])
    else AfterFirstSpace(s[1..])
  }

  /** Splitting at the first space yields everything after position `k` when `k` holds the first space. */
  lemma {:induction false} AfterFirstSpaceAt(s: string, k: nat)
    requires k < |s| && s[k] == ' '
    requires forall i :: 0 <= i < k ==> s[i] != ' '
    ensures AfterFirstSpace(s) == Some(s[k + 1..])
  {
    if k > 0 {
      AfterFirstSpaceAt(s[1..], k - 1);
      assert s[1..][k..] == s[k + 1..];
    }
  }

  /** Under a bearer prefix the first space is the prefix's own, so the token is everything after the prefix. */
  lemma BearerTokenFollowsPrefix(h: string)
    requires HasBearerPrefix(h)
    ensures AfterFirstSpace(h) == Some(h[|BearerPrefix|..])
  {
    forall i | 0 <= i < 6
      ensures h[i] != ' '
    {
      assert AsciiLower(h[i]) == BearerPrefix[i];
    }
    assert AsciiLower(h[6]) == ' ';
    AfterFirstSpaceAt(h, 6);
  }

  /** Whether decoded claims carry `role == "teacher"` (`payload.get("role") == "teacher"`). */
  predicate IsTeacher(claims: Claims)
  {
    "role" in claims && claims["role"] == "teacher"
  }

  /**
   * `_require_teacher`: checks the Authorization header and returns the
   * token's claims. A missing, empty or non-Bearer header is refused with 401
   * before the token is looked at; a token the decoder rejects gives 401; a
   * valid token without the teacher role gives 403.
   */
  function Authorize(authorization: Option<string>, decode: Decoder): (r: Result<Claims>)
    ensures (authorization.None? || !HasBearerPrefix(authorization.value)) ==> r == Err(MissingAuthorization)
    ensures authorization.Some? && HasBearerPrefix(authorization.value) ==>
              var token := authorization.value[|BearerPrefix|..];
              && (decode(token).None? ==> r == Err(InvalidToken))
              && (decode(token).Some? && !IsTeacher(decode(token).value) ==> r == Err(TeacherRequired))
              && (decode(token).Some? && IsTeacher(decode(token).value) ==> r == Ok(decode(token).value))
    ensures r.Ok? <==> authorization.Some? && HasBearerPrefix(authorization.value)
                       && decode(authorization.value[|BearerPrefix|..]).Some?
                       && IsTeacher(decode(authorization.value[|BearerPrefix|..]).value)
  {
    if authorization.None? || authorization.value == "" || !HasBearerPrefix(authorization.value) then
      Err(MissingAuthorization)
    else
      BearerTokenFollowsPrefix(authorization.value);
      var token := AfterFirstSpace(authorization.value).value;
      match decode(token)
      case None => Err(InvalidToken)
      case Some(payload) =>
        if !IsTeacher(payload) then Err(TeacherRequired) else Ok(payload)
  }

  /** The header value a client sends for a token, and the one `Authorize` expects. */
  function BearerHeader(token: string): string
  {
    "Bearer " + token
  }

  /** The header the client builds passes the prefix check, and the guard recovers exactly the token. */
  lemma BearerHeaderYieldsToken(token: string)
    ensures HasBearerPrefix(BearerHeader(token))
    ensures BearerHeader(token)[|BearerPrefix|..] == token
  {
    var h := BearerHeader(token);
    assert h[..7] == "Bearer ";
  }

  /** One record of the teachers file. */
  datatype TeacherRecord = TeacherRecord(username: string, password: string)

  /** No later record carries the username of record `i`. */
  predicate LastOfName(records: seq<TeacherRecord>, i: int)
    requires 0 <= i < |records|
  {
    forall j :: i < j < |records| ==> records[j].username != records[i].username
  }

  /**
   * The comprehension `{t["username"]: t["password"] for t in teachers}` of
   * `_load_teachers`: every username in the file is a key, and where a
   * username repeats the last record wins.
   */
  function TeacherMap(records: seq<TeacherRecord>): (m: map<string, string>)
    ensures m.Keys == set r | r in records :: r.username
    ensures forall i :: 0 <= i < |records| && LastOfName(records, i) ==> m[records[i].username] == records[i].password
  {
    if records == [] then map[]
    else
      var init, last := records[..|records| - 1], records[|records| - 1];
      UsernamesOfSnoc(records);
      LastOfNameInPrefix(records);
      TeacherMap(init)[last.username := last.password]
  }

  /** The usernames of a list are those of all but its last record, plus the last record's. */
  lemma UsernamesOfSnoc(records: seq<TeacherRecord>)
    requires records != []
    ensures (set r | r in records :: r.username)
            == (set r | r in records[..|records| - 1] :: r.username) + {records[|records| - 1].username}
  {
    assert records == records[..|records| - 1] + [records[|records| - 1]];
  }

  /** A record that is last of its name in a list is last of its name before the list's final record, and named differently. */
  lemma LastOfNameInPrefix(records: seq<TeacherRecord>)
    requires records != []
    ensures forall i :: 0 <= i < |records| - 1 && LastOfName(records, i) ==>
              && records[i] == records[..|records| - 1][i]
              && LastOfName(records[..|records| - 1], i)
              && records[i].username != records[|records| - 1].username
  {
  }

  /** The claims `teacher_login` signs (the expiry claim is not modelled). */
  function LoginClaims(username: string): Claims
  {
    map["sub" := username, "role" := "teacher"]
  }

  /** The body of a successful POST /login. */
  datatype LoginGrant = LoginGrant(token: string, role: string, username: string)

  /**
   * The credential check of `teacher_login`: an unknown username, a stored
   * password that is empty (falsy) or a password that differs gives 401
   * "Invalid credentials"; otherwise a token with the teacher role is issued.
   */
  function Login(teachers: map<string, string>, username: string, password: string, encode: Encoder): (r: Result<LoginGrant>)
    ensures r.Ok? <==> username in teachers && teachers[username] != "" && teachers[username] == password
    ensures r.Err? ==> r.error == InvalidCredentials
    ensures r.Ok? ==> r.value.username == username && r.value.role == "teacher"
                      && r.value.token == encode(LoginClaims(username))
  {
    var pwd := if username in teachers then Some(teachers[username]) else None;
    if pwd.None? || pwd.value == "" || pwd.value != password then Err(InvalidCredentials)
    else Ok(LoginGrant(encode(LoginClaims(username)), "teacher", username))
  }

  /** An empty stored password locks its teacher out, whatever password is offered. */
  lemma EmptyPasswordNeverLogsIn(teachers: map<string, string>, username: string, password: string, encode: Encoder)
    requires username in teachers && teachers[username] == ""
    ensures Login(teachers, username, password, encode) == Err(InvalidCredentials)
  {
  }

  /**
   * A token issued by a successful login authorizes its bearer as a teacher,
   * provided the JWT library decodes what it signed.
   */
  lemma {:induction false} LoginGrantAuthorizes(teachers: map<string, string>, username: string, password: string,
                                               encode: Encoder, decode: Decoder)
    requires Login(teachers, username, password, encode).Ok?
    requires decode(encode(LoginClaims(username))) == Some(LoginClaims(username))
    ensures Authorize(Some(BearerHeader(Login(teachers, username, password, encode).value.token)), decode)
            == Ok(LoginClaims(username))
  {
    BearerHeaderYieldsToken(Login(teachers, username, password, encode).value.token);
  }
}
