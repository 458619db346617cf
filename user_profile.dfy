/** The signed-in user's own account (Back_End/controllers/userProfileController.js):
    change password, update e-mail and phone, and soft-delete the account. The
    user id is the `id` claim that the authentication middleware put on the request. */
module UserProfile {
  import opened Common
  import opened Users

  /** `/[a-zA-Z]/.test(s)`. */
  predicate HasLetter(s: string) {
    exists i :: 0 <= i < |s| && ('a' <= s[i] <= 'z' || 'A' <= s[i] <= 'Z')
  }

  /** `/[0-9]/.test(s)`. */
  predicate HasDigit(s: string) {
    exists i :: 0 <= i < |s| && IsDigit(s[i])
  }

  // ---------------------------------------------------------------------------
  // changePassword
  // ---------------------------------------------------------------------------

  datatype ChangeResponse = PasswordChanged | BothRequired | TooShort | NeedsLetterAndDigit
                          | ChangeNotFound | WrongCurrent | SameAsCurrent

  function ChangeStatusCode(r: ChangeResponse): int {
    match r
    case PasswordChanged => 200
    case ChangeNotFound => 404
    case _ => 400
  }

  /** The rules a new password must meet before any lookup. */
  function NewPasswordRule(oldPassword: Option<string>, newPassword: Option<string>): (r: Option<ChangeResponse>)
    ensures r.None? <==> !Missing(oldPassword) && !Missing(newPassword) && |newPassword.value| >= 8 &&
                         HasLetter(newPassword.value) && HasDigit(newPassword.value)
  {
    if Missing(oldPassword) || Missing(newPassword) then Some(BothRequired)
    else if |newPassword.value| < 8 then Some(TooShort)
    else if !HasLetter(newPassword.value) || !HasDigit(newPassword.value) then Some(NeedsLetterAndDigit)
    else None
  }

  function ChangePasswordSpec(users: seq<User>, userId: int, oldPassword: Option<string>,
                              newPassword: Option<string>): (ChangeResponse, seq<User>)
  {
    match NewPasswordRule(oldPassword, newPassword)
    case Some(e) => (e, users)
    case None =>
      match FindById(users, userId)
      case None => (ChangeNotFound, users)
      case Some(k) =>
        if !Matches(oldPassword.value, users[k].password) then (WrongCurrent, users)
        else if Matches(newPassword.value, users[k].password) then (SameAsCurrent, users)
        else (PasswordChanged, users[k := users[k].(password := Hashed(newPassword.value))])
  }

  /** A change succeeds exactly when the new password is valid, the account
      exists, the old password matches and the new one does not; then only that
      account's password changes, the new one opens it and the old one no
      longer does. */
  lemma ChangePasswordEffect(users: seq<User>, userId: int, oldPassword: Option<string>, newPassword: Option<string>)
    ensures var (resp, users') := ChangePasswordSpec(users, userId, oldPassword, newPassword);
      SameKeys(users, users') &&
      (resp == PasswordChanged <==>
        NewPasswordRule(oldPassword, newPassword).None? && FindById(users, userId).Some? &&
        Matches(oldPassword.value, users[FindById(users, userId).value].password) &&
        !Matches(newPassword.value, users[FindById(users, userId).value].password)) &&
      (resp != PasswordChanged ==> users' == users) &&
      (resp == PasswordChanged ==>
        var k := FindById(users, userId).value;
        (forall j :: 0 <= j < |users| && j != k ==> users'[j] == users[j]) &&
        users'[k].(password := users[k].password) == users[k] &&
        Matches(newPassword.value, users'[k].password) && !Matches(oldPassword.value, users'[k].password))
  {
    var (resp, users') := ChangePasswordSpec(users, userId, oldPassword, newPassword);
    if resp == PasswordChanged {
      assert SameKeys(users, users');
    }
  }

  /** Once changed, the old password cannot be used to change it again. */
  lemma OldPasswordRetired(users: seq<User>, userId: int, oldPassword: Option<string>, newPassword: Option<string>,
                           again: Option<string>)
    requires ChangePasswordSpec(users, userId, oldPassword, newPassword).0 == PasswordChanged
    requires NewPasswordRule(oldPassword, again).None?
    ensures var users' := ChangePasswordSpec(users, userId, oldPassword, newPassword).1;
      ChangePasswordSpec(users', userId, oldPassword, again).0 == WrongCurrent
  {
    var users' := ChangePasswordSpec(users, userId, oldPassword, newPassword).1;
    ChangePasswordEffect(users, userId, oldPassword, newPassword);
    SameKeysLookups(users, users', "", userId);
  }

  // ---------------------------------------------------------------------------
  // updateProfile
  // ---------------------------------------------------------------------------

  datatype ProfileResponse = ProfileUpdated(correo: string, telefono: Option<string>)
                           | EmailRequired | BadEmail | EmailInUse | ProfileServerError

  function ProfileStatusCode(r: ProfileResponse): int {
    match r
    case ProfileUpdated(_, _) => 200
    case ProfileServerError => 500
    case _ => 400
  }

  /** `telefono?.trim() || null`. */
  function PhoneOf(telefono: Option<string>): (r: Option<string>)
    ensures r.Some? ==> r.value != []
  {
    if telefono.None? || Trim(telefono.value) == [] then None else Some(Trim(telefono.value))
  }

  /** The write for an e-mail that passed the format check. When no row has
      the id, the update matches nothing and reading the row back fails. */
  function ProfileFor(users: seq<User>, userId: int, correo: string, telefono: Option<string>)
    : (ProfileResponse, seq<User>)
  {
    if EmailUsedByOther(users, correo, userId) then (EmailInUse, users)
    else match FindById(users, userId)
      case None => (ProfileServerError, users)
      case Some(k) =>
        var u := users[k].(correo := correo, telefono := telefono);
        (ProfileUpdated(u.correo, u.telefono), users[k := u])
  }

  /** PUT /api/users/profile/update. A string the pattern accepts has no
      blanks, so `correo.trim()` is `correo` itself. */
  function UpdateProfileSpec(users: seq<User>, userId: int, correo: Option<string>, telefono: Option<string>)
    : (ProfileResponse, seq<User>)
  {
    if correo.None? || IsBlank(correo.value) then (EmailRequired, users)
    else if !EmailPattern(correo.value) then (BadEmail, users)
    else
      EmailPatternTrimmed(correo.value);
      ProfileFor(users, userId, Trim(correo.value), PhoneOf(telefono))
  }

  /** The update touches only the e-mail and phone of the caller's own row, and
      refuses an e-mail held by anyone else, so e-mails stay unique. */
  lemma ProfileKeepsTable(users: seq<User>, nextId: int, userId: int, correo: string, telefono: Option<string>)
    requires TableOk(users, nextId)
    ensures var (resp, users') := ProfileFor(users, userId, correo, telefono);
      TableOk(users', nextId) && |users'| == |users| &&
      (resp.ProfileUpdated? <==> !EmailUsedByOther(users, correo, userId) && FindById(users, userId).Some?) &&
      (!resp.ProfileUpdated? ==> users' == users) &&
      (resp.ProfileUpdated? ==>
        var k := FindById(users, userId).value;
        (forall j :: 0 <= j < |users| && j != k ==> users'[j] == users[j]) &&
        users'[k] == users[k].(correo := correo, telefono := telefono))
  {
    var (resp, users') := ProfileFor(users, userId, correo, telefono);
    if resp.ProfileUpdated? {
      var k := FindById(users, userId).value;
      forall i, j | 0 <= i < j < |users'| ensures users'[i].correo != users'[j].correo {
        if i == k {
          assert users'[j] == users[j];
        } else if j == k {
          assert users'[i] == users[i];
        }
      }
    }
  }

  // ---------------------------------------------------------------------------
  // deleteAccount
  // ---------------------------------------------------------------------------

  datatype DeleteResponse = AccountDeleted | PasswordRequired | DeleteNotFound | WrongPassword

  function DeleteStatusCode(r: DeleteResponse): int {
    match r
    case AccountDeleted => 200
    case DeleteNotFound => 404
    case _ => 400
  }

  /** DELETE /api/users/profile/delete: a soft delete. */
  function DeleteAccountSpec(users: seq<User>, userId: int, password: Option<string>): (DeleteResponse, seq<User>) {
    if Missing(password) then (PasswordRequired, users)
    else match FindById(users, userId)
      case None => (DeleteNotFound, users)
      case Some(k) =>
        if !Matches(password.value, users[k].password) then (WrongPassword, users)
        else (AccountDeleted, users[k := users[k].(activo := 0)])
  }

  /** The account is deactivated only with its own password, and no row is
      removed: the caller's row keeps everything but `activo`, which becomes 0. */
  lemma DeleteAccountIsSoft(users: seq<User>, userId: int, password: Option<string>)
    ensures var (resp, users') := DeleteAccountSpec(users, userId, password);
      SameKeys(users, users') &&
      (resp == AccountDeleted <==> !Missing(password) && FindById(users, userId).Some? &&
                                   Matches(password.value, users[FindById(users, userId).value].password)) &&
      (resp != AccountDeleted ==> users' == users) &&
      (resp == AccountDeleted ==>
        var k := FindById(users, userId).value;
        (forall j :: 0 <= j < |users| && j != k ==> users'[j] == users[j]) &&
        users'[k].activo == 0 && users'[k].(activo := users[k].activo) == users[k])
  {
    var (resp, users') := DeleteAccountSpec(users, userId, password);
    if resp == AccountDeleted {
      assert SameKeys(users, users');
    }
  }
}
