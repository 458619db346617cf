/** The reset-code lifecycle of Back_End/controllers/passwordController.js:
    issue a 6-digit code that lives 15 minutes, check it without side effects,
    and consume it once to set a new password. `Math.random()` is the `draw`
    parameter, `Date.now()` the `now` parameter (milliseconds), and whether
    the mail went out is `mailOk`. */
module PasswordReset {
  import opened Common
  import opened Users

  /** 15 minutes in milliseconds. */
  const CodeLifetime: int := 15 * 60 * 1000

  /** `Math.floor(100000 + Math.random() * 900000).toString()`, where `draw`
      is `Math.floor(Math.random() * 900000)`: any whole number below 900000. */
  function GenerateVerificationCode(draw: nat): (code: string)
    requires draw < 900000
    ensures |code| == 6 && code[0] != '0'
    ensures forall i :: 0 <= i < |code| ==> IsDigit(code[i])
    ensures ParseNat(code) == 100000 + draw
  {
    var n := 100000 + draw;
    assert Pow10(5) == 100000 && Pow10(6) == 1000000;
    NatToStringLength(n, 5);
    ParseNatToString(n);
    NatToString(n)
  }

  // ---------------------------------------------------------------------------
  // sendVerificationCode
  // ---------------------------------------------------------------------------

  datatype SendResponse = CodeSent | EmailRequired | NoAccount | MailFailed

  function SendStatusCode(r: SendResponse): int {
    match r
    case CodeSent => 200
    case EmailRequired => 400
    case NoAccount => 404
    case MailFailed => 500
  }

  /** `UPDATE usuario SET reset_token = ?, reset_token_expires = ?` on one row. */
  function Issue(u: User, code: string, expires: int): (v: User)
    ensures v.resetToken == Some(code) && v.resetExpires == Some(expires)
    ensures v.(resetToken := u.resetToken, resetExpires := u.resetExpires) == u
  {
    u.(resetToken := Some(code), resetExpires := Some(expires))
  }

  /** The update and the mail for the account with e-mail `key`. The code is
      stored before the mail is sent, so a failed mail still leaves it in place. */
  function SendFor(users: seq<User>, key: string, code: string, expires: int, mailOk: bool)
    : (SendResponse, seq<User>)
  {
    match FindByEmail(users, key)
    case None => (NoAccount, users)
    case Some(k) => (if mailOk then CodeSent else MailFailed, users[k := Issue(users[k], code, expires)])
  }

  /** POST /api/forgot-password: the e-mail is trimmed and lowercased. */
  function SendVerificationCodeSpec(users: seq<User>, correo: Option<string>, draw: nat, now: int,
                                    mailOk: bool): (SendResponse, seq<User>)
    requires draw < 900000
  {
    if Missing(correo) then (EmailRequired, users)
    else SendFor(users, NormalizeEmail(correo.value), GenerateVerificationCode(draw), now + CodeLifetime, mailOk)
  }

  /** Only the account with that e-mail gets the code, whether or not the
      mail goes out; nothing else in the table changes. */
  lemma SendTouchesOneUser(users: seq<User>, key: string, code: string, expires: int, mailOk: bool)
    ensures var (resp, users') := SendFor(users, key, code, expires, mailOk);
      SameKeys(users, users') &&
      (resp == NoAccount <==> FindByEmail(users, key).None?) &&
      (resp == MailFailed <==> FindByEmail(users, key).Some? && !mailOk) &&
      resp != EmailRequired &&
      (resp == NoAccount ==> users' == users) &&
      (resp != NoAccount ==>
        var k := FindByEmail(users, key).value;
        (forall j :: 0 <= j < |users| && j != k ==> users'[j] == users[j]) &&
        users'[k] == Issue(users[k], code, expires))
  {
    var found := FindByEmail(users, key);
    if found.Some? {
      var users' := users[found.value := Issue(users[found.value], code, expires)];
      assert SameKeys(users, users');
    }
  }

  // ---------------------------------------------------------------------------
  // verifyCode
  // ---------------------------------------------------------------------------

  datatype VerifyResponse = Verified | VerifyMissing | VerifyNotFound | NoActiveCode | CodeExpired | WrongCode

  /** The checks on the account with e-mail `key` and the trimmed code typed. */
  function VerifyFor(users: seq<User>, key: string, typed: string, now: int): VerifyResponse {
    match FindByEmail(users, key)
    case None => VerifyNotFound
    case Some(k) =>
      var u := users[k];
      if Missing(u.resetToken) || u.resetExpires.None? then NoActiveCode
      else if now > u.resetExpires.value then CodeExpired
      else if u.resetToken.value != typed then WrongCode
      else Verified
  }

  /** POST /api/verify-code: a read-only check of missing fields,
      unknown account, no active code, a code past its expiry, a code that
      differs from the stored one, in that order. */
  function VerifyCode(users: seq<User>, correo: Option<string>, codigo: Option<string>, now: int): VerifyResponse {
    if Missing(correo) || Missing(codigo) then VerifyMissing
    else VerifyFor(users, NormalizeEmail(correo.value), Trim(codigo.value), now)
  }

  /** A code just sent verifies up to and including its expiry instant and
      not a millisecond later; any other code is wrong while it lives. */
  lemma SendThenVerify(users: seq<User>, key: string, code: string, now: int, mailOk: bool,
                       typed: string, later: int)
    requires FindByEmail(users, key).Some? && code != []
    ensures var users' := SendFor(users, key, code, now + CodeLifetime, mailOk).1;
      VerifyFor(users', key, typed, later) ==
      (if later > now + CodeLifetime then CodeExpired else if typed == code then Verified else WrongCode)
  {
    var users' := SendFor(users, key, code, now + CodeLifetime, mailOk).1;
    SendTouchesOneUser(users, key, code, now + CodeLifetime, mailOk);
    SameKeysLookups(users, users', key, 0);
  }

  // ---------------------------------------------------------------------------
  // resetPassword
  // ---------------------------------------------------------------------------

  datatype ResetResponse = PasswordReset | ResetMissing | TooShort | ResetNotFound | InvalidCode | ResetExpired

  function ResetStatusCode(r: ResetResponse): int {
    match r
    case PasswordReset => 200
    case ResetNotFound => 404
    case _ => 400
  }

  /** `new Date(reset_token_expires)`: a null expiry is the epoch. */
  function ExpiryOf(u: User): int {
    if u.resetExpires.Some? then u.resetExpires.value else 0
  }

  /** `UPDATE usuario SET password = ?, reset_token = NULL, reset_token_expires = NULL`. */
  function Consume(u: User, nueva: string): (v: User)
    ensures Matches(nueva, v.password) && v.resetToken.None? && v.resetExpires.None?
    ensures v.(password := u.password, resetToken := u.resetToken, resetExpires := u.resetExpires) == u
  {
    u.(password := Hashed(nueva), resetToken := None, resetExpires := None)
  }

  /** The code check and the update on the account with e-mail `key`. */
  function ResetFor(users: seq<User>, key: string, typed: string, nueva: string, now: int)
    : (ResetResponse, seq<User>)
  {
    match FindByEmail(users, key)
    case None => (ResetNotFound, users)
    case Some(k) =>
      var u := users[k];
      if Missing(u.resetToken) || u.resetToken.value != typed then (InvalidCode, users)
      else if now > ExpiryOf(u) then (ResetExpired, users)
      else (PasswordReset, users[k := Consume(u, nueva)])
  }

  /** POST /api/reset-password: missing fields, then a password under 6
      characters, before any lookup. */
  function ResetPasswordSpec(users: seq<User>, correo: Option<string>, codigo: Option<string>,
                             nueva: Option<string>, now: int): (ResetResponse, seq<User>)
  {
    if Missing(correo) || Missing(codigo) || Missing(nueva) then (ResetMissing, users)
    else if |nueva.value| < 6 then (TooShort, users)
    else ResetFor(users, NormalizeEmail(correo.value), Trim(codigo.value), nueva.value, now)
  }

  /** A reset succeeds exactly when the account has an active code equal to the
      one typed and it has not expired; it then consumes the code of that
      account alone. Otherwise the table is unchanged. */
  lemma ResetEffect(users: seq<User>, key: string, typed: string, nueva: string, now: int)
    ensures var (resp, users') := ResetFor(users, key, typed, nueva, now);
      SameKeys(users, users') &&
      (resp == PasswordReset <==>
        FindByEmail(users, key).Some? &&
        var u := users[FindByEmail(users, key).value];
        !Missing(u.resetToken) && u.resetToken.value == typed && now <= ExpiryOf(u)) &&
      (resp != PasswordReset ==> users' == users) &&
      (resp == PasswordReset ==>
        var k := FindByEmail(users, key).value;
        (forall j :: 0 <= j < |users| && j != k ==> users'[j] == users[j]) &&
        users'[k] == Consume(users[k], nueva))
  {
    var found := FindByEmail(users, key);
    if found.Some? {
      var users' := users[found.value := Consume(users[found.value], nueva)];
      assert SameKeys(users, users');
    }
  }

  /** Whatever `verifyCode` accepts, `resetPassword` accepts for the same
      account and code at the same instant (given a long enough password). */
  lemma VerifiedCodeResets(users: seq<User>, key: string, typed: string, nueva: string, now: int)
    requires VerifyFor(users, key, typed, now) == Verified
    ensures ResetFor(users, key, typed, nueva, now).0 == PasswordReset
  {
    var k := FindByEmail(users, key).value;
    assert users[k].resetExpires.Some? && now <= ExpiryOf(users[k]);
  }

  /** A code is consumed once: after a successful reset, no code at all is
      accepted for that account, by either endpoint, until a new one is sent. */
  lemma CodeConsumedOnce(users: seq<User>, key: string, typed: string, nueva: string, now: int,
                         typed2: string, nueva2: string, later: int)
    requires ResetFor(users, key, typed, nueva, now).0 == PasswordReset
    ensures var users' := ResetFor(users, key, typed, nueva, now).1;
      ResetFor(users', key, typed2, nueva2, later) == (InvalidCode, users') &&
      VerifyFor(users', key, typed2, later) == NoActiveCode
  {
    var users' := ResetFor(users, key, typed, nueva, now).1;
    ResetEffect(users, key, typed, nueva, now);
    SameKeysLookups(users, users', key, 0);
  }
}
