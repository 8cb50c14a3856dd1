/** The admin credential check and the session token of lib/auth.ts, with the
    two routes that wrap them (app/api/auth/login/route.ts and
    app/api/auth/verify/route.ts).

    A token is the base64 of the UTF-8 text `"<epoch-ms>-<random>"`. It is
    valid while less than 24 hours have passed since the time written in
    front of the first `-`. The clock (`Date.now()`) and the text of
    `Math.random()` are parameters. */
module Auth {
  import opened Wrappers
  import JsString
  import Base64

  /** The environment variables `ADMIN_USERNAME` and `ADMIN_PASSWORD`. */
  datatype Environment = Environment(adminUsername: Option<string>, adminPassword: Option<string>)

  /** `process.env.X || fallback`: an unset or empty variable gives the fallback. */
  function OrDefault(v: Option<string>, fallback: string): (r: string)
    ensures (v.None? || v.value == "") ==> r == fallback
    ensures (v.Some? && v.value != "") ==> r == v.value
  {
    if v.Some? && v.value != "" then v.value else fallback
  }

  function AdminUsername(env: Environment): string {
    OrDefault(env.adminUsername, "admin")
  }

  function AdminPassword(env: Environment): string {
    OrDefault(env.adminPassword, "admin123")
  }

  /** `verifyCredentials`: both strings equal the configured pair, which is
      admin/admin123 unless the environment sets it. */
  function VerifyCredentials(env: Environment, username: string, password: string): (ok: bool)
    ensures ok <==> username == AdminUsername(env) && password == AdminPassword(env)
    ensures env.adminUsername.None? && env.adminPassword.None? ==>
      (ok <==> username == "admin" && password == "admin123")
  {
    username == AdminUsername(env) && password == AdminPassword(env)
  }

  /** 24 hours in milliseconds. */
  const SessionLifetime: int := 24 * 60 * 60 * 1000

  /** The text inside a token created at `now`. */
  function SessionText(now: nat, random: string): string {
    JsString.DecimalText(now) + "-" + random
  }

  /** The text in front of the first `-` of what the token decodes to
      (`decoded.split('-')[0]`). */
  function Timestamp(token: string): (t: string)
    ensures '-' !in t
    ensures JsString.IsPrefix(t, Base64.Utf8Decode(Base64.Decode(token)))
  {
    JsString.Split(Base64.Utf8Decode(Base64.Decode(token)), '-')[0]
  }

  /** `createSession()`, with the clock reading and the text of the random
      number passed in. */
  function CreateSession(now: nat, random: string): (token: string)
    ensures Timestamp(token) == JsString.DecimalText(now)
  {
    TimestampOfCreated(now, random);
    Base64.Encode(Base64.Utf8Encode(SessionText(now, random)))
  }

  /** Whatever the random part, the token decodes to the creation time
      written in decimal, followed by `-`. */
  lemma TimestampOfCreated(now: nat, random: string)
    ensures Timestamp(Base64.Encode(Base64.Utf8Encode(SessionText(now, random)))) == JsString.DecimalText(now)
  {
    var d := JsString.DecimalText(now);
    var bytes := Base64.Utf8Encode(SessionText(now, random));
    Base64.DecodeEncode(bytes);
    Base64.Utf8RoundTrip(SessionText(now, random));
    assert SessionText(now, random) == d + ['-'] + random;
    JsString.FirstPiece(d, '-', random);
  }

  /** `verifySession(token)` at clock reading `now`: the age is `now` minus
      `parseInt` of the timestamp; a `NaN` age fails the comparison. Every
      step is total, so the `catch` branch is never taken for a string. */
  function VerifySession(token: string, now: int): (valid: bool)
    ensures JsString.ParseInt(Timestamp(token)).None? ==> !valid
    ensures valid ==> now - JsString.ParseInt(Timestamp(token)).value < SessionLifetime
  {
    match JsString.ParseInt(Timestamp(token))
    case None => false
    case Some(t) => now - t < SessionLifetime
  }

  /** A token created at `t` is accepted at `now` exactly when less than 24
      hours separate them, whatever its random part. */
  lemma SessionValidity(t: nat, random: string, now: int)
    ensures VerifySession(CreateSession(t, random), now) <==> now - t < SessionLifetime
  {
    JsString.ParseDecimal(t);
  }

  /** Accepted at issue, still accepted one minute before the 24 hours are
      up, rejected at exactly 24 hours and after. */
  lemma SessionExpiry(t: nat, random: string)
    ensures VerifySession(CreateSession(t, random), t)
    ensures VerifySession(CreateSession(t, random), t + SessionLifetime - 60 * 1000)
    ensures !VerifySession(CreateSession(t, random), t + SessionLifetime)
    ensures !VerifySession(CreateSession(t, random), t + SessionLifetime + 60 * 1000)
  {
    SessionValidity(t, random, t);
    SessionValidity(t, random, t + SessionLifetime - 60 * 1000);
    SessionValidity(t, random, t + SessionLifetime);
    SessionValidity(t, random, t + SessionLifetime + 60 * 1000);
  }

  /** A token stamped later than the clock has a negative age and is accepted. */
  lemma FutureTimestampAccepted(t: nat, random: string, now: int)
    requires now < t
    ensures VerifySession(CreateSession(t, random), now)
  {
    SessionValidity(t, random, now);
  }

  /** A recent time in decimal with no `-` and no random part at all is
      accepted too: nothing requires the separator. */
  lemma NoSeparatorAccepted(t: nat)
    ensures VerifySession(Base64.Encode(Base64.Utf8Encode(JsString.DecimalText(t))), t)
  {
    var d := JsString.DecimalText(t);
    Base64.DecodeEncode(Base64.Utf8Encode(d));
    Base64.Utf8RoundTrip(d);
    JsString.SplitWithout(d, '-');
    JsString.ParseDecimal(t);
  }

  /** `parseInt` skips leading whitespace, and U+00A0 (a two-byte UTF-8
      sequence) is whitespace to it: a recent time written after a
      no-break space, with no `-`, is accepted. */
  lemma NoBreakSpaceAccepted(t: nat)
    ensures VerifySession(Base64.Encode(Base64.Utf8Encode(['\U{A0}'] + JsString.DecimalText(t))), t)
  {
    var d := ['\U{A0}'] + JsString.DecimalText(t);
    Base64.DecodeEncode(Base64.Utf8Encode(d));
    Base64.Utf8RoundTrip(d);
    JsString.SplitWithout(d, '-');
    JsString.ParseIntSkipsWhitespace('\U{A0}', JsString.DecimalText(t));
    JsString.ParseDecimal(t);
  }

  // ---------------------------------------------------------------- routes

  /** The fields of a login body; `None` is a missing field. */
  datatype LoginBody = LoginBody(username: Option<string>, password: Option<string>)

  datatype LoginResponse = LoginResponse(status: int, success: bool, token: Option<string>)

  /** A string field is falsy when it is missing or empty. */
  predicate Falsy(v: Option<string>) {
    v.None? || v.value == ""
  }

  /** POST /api/auth/login: 400 when a field is missing or empty, 401 for
      wrong credentials, a fresh token otherwise; a body that is not JSON
      (`None`) gives 500. */
  function Login(body: Option<LoginBody>, env: Environment, now: nat, random: string): (r: LoginResponse)
    ensures body.None? ==> r.status == 500
    ensures r.success <==> r.status == 200
    ensures r.token.Some? <==> r.success
    ensures r.success <==>
      body.Some? && !Falsy(body.value.username) && !Falsy(body.value.password)
      && VerifyCredentials(env, body.value.username.value, body.value.password.value)
    ensures body.Some? && (Falsy(body.value.username) || Falsy(body.value.password)) ==> r.status == 400
    ensures (body.Some? && !Falsy(body.value.username) && !Falsy(body.value.password)
             && !VerifyCredentials(env, body.value.username.value, body.value.password.value)) ==> r.status == 401
    ensures r.success ==> VerifySession(r.token.value, now)
  {
    match body
    case None => LoginResponse(500, false, None)
    case Some(b) =>
      if Falsy(b.username) || Falsy(b.password) then LoginResponse(400, false, None)
      else if VerifyCredentials(env, b.username.value, b.password.value) then
        SessionValidity(now, random, now);
        LoginResponse(200, true, Some(CreateSession(now, random)))
      else LoginResponse(401, false, None)
  }

  datatype VerifyResponse = VerifyResponse(status: int, valid: bool)

  /** POST /api/auth/verify: 400 without a token, otherwise 200 with the
      verdict of `verifySession`; a body that is not JSON gives 500. */
  function VerifyRoute(body: Option<Option<string>>, now: int): (r: VerifyResponse)
    ensures r.valid ==> r.status == 200
    ensures body.None? ==> r.status == 500
    ensures body.Some? && Falsy(body.value) ==> r.status == 400
    ensures body.Some? && !Falsy(body.value) ==> r == VerifyResponse(200, VerifySession(body.value.value, now))
  {
    match body
    case None => VerifyResponse(500, false)
    case Some(token) =>
      if Falsy(token) then VerifyResponse(400, false)
      else VerifyResponse(200, VerifySession(token.value, now))
  }
}
