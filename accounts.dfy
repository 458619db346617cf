/** The `usuario` table as an object the account handlers update in place
    (userController.js, userProfileController.js, passwordController.js). Each
    method's postcondition ties its response and the new table to the
    handler's specification, and every handler keeps the table's keys: ids
    distinct and below the next auto-increment value, e-mails unique. */
module Accounts {
  import opened Common
  import opened Schema
  import opened Users
  import PasswordReset
  import UserProfile
  import UserAdmin

  class UserTable {
    var users: seq<User>
    var nextId: int

    predicate Valid()
      reads this
    {
      TableOk(users, nextId)
    }

    constructor (rows: seq<User>, next: int)
      requires TableOk(rows, next)
      ensures Valid() && users == rows && nextId == next
    {
      users, nextId := rows, next;
    }

    /** An update that leaves every id and e-mail in place keeps the keys. */
    method SetKeepingKeys(users': seq<User>)
      requires Valid() && SameKeys(users, users')
      modifies this
      ensures Valid() && users == users' && nextId == old(nextId)
    {
      SameKeysTableOk(users, users', nextId);
      users := users';
    }

    /** The duplicate check and the insert shared by `createUser` and `registerUser`. */
    method Insert(row: User) returns (resp: UserAdmin.AdminResult)
      requires Valid()
      modifies this
      ensures Valid()
      ensures (resp, users, nextId) == UserAdmin.InsertUser(old(users), old(nextId), row)
    {
      UserAdmin.InsertKeepsTable(users, nextId, row);
      if FindByEmail(users, row.correo).Some? {
        return UserAdmin.EmailTaken;
      }
      resp := UserAdmin.Created(nextId);
      users := users + [row.(idUsuario := nextId)];
      nextId := nextId + 1;
    }

    /** POST /api/users. */
    method CreateUser(f: UserAdmin.UserForm) returns (resp: UserAdmin.AdminResult)
      requires Valid()
      modifies this
      ensures Valid()
      ensures (resp, users, nextId) == UserAdmin.CreateUserSpec(old(users), old(nextId), f)
    {
      var problem := UserAdmin.CheckForm(f);
      if problem.Some? {
        return UserAdmin.Rejected(problem.value);
      }
      resp := Insert(UserAdmin.NewUserRow(f, nextId));
    }

    /** POST /api/users/register. */
    method RegisterUser(nombre: Option<string>, correo: Option<string>, password: Option<string>,
                        defaults: UserAdmin.ColumnDefaults) returns (resp: UserAdmin.AdminResult)
      requires Valid()
      modifies this
      ensures Valid()
      ensures (resp, users, nextId) == UserAdmin.RegisterUserSpec(old(users), old(nextId), nombre, correo, password, defaults)
    {
      if Missing(nombre) || Missing(correo) || Missing(password) {
        return UserAdmin.Rejected(UserAdmin.FieldsRequired);
      }
      if !EmailPattern(correo.value) {
        return UserAdmin.Rejected(UserAdmin.BadEmail);
      }
      if |password.value| < 6 {
        return UserAdmin.Rejected(UserAdmin.PasswordTooShort);
      }
      resp := Insert(User(nextId, Trim(nombre.value), NormalizeEmail(correo.value), None, None,
                          Hashed(password.value), defaults.rol, defaults.activo, None, None, None));
    }

    /** The existence and e-mail checks of `updateUser` and its write. */
    method Edit(id: int, edit: UserAdmin.UserEdit) returns (resp: UserAdmin.AdminResult)
      requires Valid()
      modifies this
      ensures Valid() && nextId == old(nextId)
      ensures (resp, users) == UserAdmin.UpdateFor(old(users), id, edit)
    {
      UserAdmin.UpdateKeepsTable(users, nextId, id, edit);
      var k := FindById(users, id);
      if k.None? {
        return UserAdmin.UserNotFound;
      }
      if EmailUsedByOther(users, edit.correo, id) {
        return UserAdmin.EmailTaken;
      }
      users := users[k.value := UserAdmin.ApplyEdit(users[k.value], edit)];
      resp := UserAdmin.Updated;
    }

    /** PUT /api/users/:id. */
    method UpdateUser(id: int, f: UserAdmin.UserForm) returns (resp: UserAdmin.AdminResult)
      requires Valid()
      modifies this
      ensures Valid() && nextId == old(nextId)
      ensures (resp, users) == UserAdmin.UpdateUserSpec(old(users), id, f)
    {
      var problem := UserAdmin.CheckForm(f);
      if problem.Some? {
        return UserAdmin.Rejected(problem.value);
      }
      resp := Edit(id, UserAdmin.EditOf(f));
    }

    /** DELETE /api/users/:id, given the `pedido` table. */
    method DeleteUser(pedidos: seq<Order>, id: int) returns (resp: UserAdmin.AdminResult)
      requires Valid()
      modifies this
      ensures Valid() && nextId == old(nextId)
      ensures (resp, users) == UserAdmin.DeleteUserSpec(old(users), pedidos, id)
    {
      UserAdmin.DeleteUserIsSoft(users, pedidos, id);
      var k := FindById(users, id);
      if k.None? {
        return UserAdmin.UserNotFound;
      }
      var n := UserAdmin.OpenOrders(pedidos, id);
      if n > 0 {
        return UserAdmin.ActiveOrders(n);
      }
      resp := UserAdmin.Deactivated(users[k.value].nombre);
      SetKeepingKeys(users[k.value := users[k.value].(activo := 0)]);
    }

    /** POST /api/users/login. */
    method LoginUser(correo: Option<string>, password: Option<string>, now: int)
      returns (resp: UserAdmin.LoginResponse)
      requires Valid()
      modifies this
      ensures Valid() && nextId == old(nextId)
      ensures (resp, users) == UserAdmin.LoginUserSpec(old(users), correo, password, now)
    {
      if Missing(correo) || Missing(password) {
        return UserAdmin.CredentialsRequired;
      }
      var key := NormalizeEmail(correo.value);
      UserAdmin.LoginEffect(users, key, password.value, now);
      var k := FindByEmail(users, key);
      if k.None? {
        return UserAdmin.UnknownEmail;
      }
      var u := users[k.value];
      if u.activo == 0 {
        return UserAdmin.InactiveUser;
      }
      if !Matches(password.value, u.password) {
        return UserAdmin.WrongPassword;
      }
      SetKeepingKeys(users[k.value := u.(ultimoAcceso := Some(now))]);
      resp := UserAdmin.LoggedIn(UserAdmin.Claims(u.idUsuario, u.nombre, u.correo, u.rol));
    }

    /** PUT /api/users/profile/password, for the signed-in user. */
    method ChangePassword(userId: int, oldPassword: Option<string>, newPassword: Option<string>)
      returns (resp: UserProfile.ChangeResponse)
      requires Valid()
      modifies this
      ensures Valid() && nextId == old(nextId)
      ensures (resp, users) == UserProfile.ChangePasswordSpec(old(users), userId, oldPassword, newPassword)
    {
      UserProfile.ChangePasswordEffect(users, userId, oldPassword, newPassword);
      var rule := UserProfile.NewPasswordRule(oldPassword, newPassword);
      if rule.Some? {
        return rule.value;
      }
      var k := FindById(users, userId);
      if k.None? {
        return UserProfile.ChangeNotFound;
      }
      var u := users[k.value];
      if !Matches(oldPassword.value, u.password) {
        return UserProfile.WrongCurrent;
      }
      if Matches(newPassword.value, u.password) {
        return UserProfile.SameAsCurrent;
      }
      SetKeepingKeys(users[k.value := u.(password := Hashed(newPassword.value))]);
      resp := UserProfile.PasswordChanged;
    }

    /** PUT /api/users/profile/update, for the signed-in user. */
    method UpdateProfile(userId: int, correo: Option<string>, telefono: Option<string>)
      returns (resp: UserProfile.ProfileResponse)
      requires Valid()
      modifies this
      ensures Valid() && nextId == old(nextId)
      ensures (resp, users) == UserProfile.UpdateProfileSpec(old(users), userId, correo, telefono)
    {
      if correo.None? || IsBlank(correo.value) {
        return UserProfile.EmailRequired;
      }
      if !EmailPattern(correo.value) {
        return UserProfile.BadEmail;
      }
      var email := Trim(correo.value);
      var phone := UserProfile.PhoneOf(telefono);
      UserProfile.ProfileKeepsTable(users, nextId, userId, email, phone);
      var out := UserProfile.ProfileFor(users, userId, email, phone);
      resp, users := out.0, out.1;
    }

    /** DELETE /api/users/profile/delete, for the signed-in user. */
    method DeleteAccount(userId: int, password: Option<string>) returns (resp: UserProfile.DeleteResponse)
      requires Valid()
      modifies this
      ensures Valid() && nextId == old(nextId)
      ensures (resp, users) == UserProfile.DeleteAccountSpec(old(users), userId, password)
    {
      UserProfile.DeleteAccountIsSoft(users, userId, password);
      if Missing(password) {
        return UserProfile.PasswordRequired;
      }
      var k := FindById(users, userId);
      if k.None? {
        return UserProfile.DeleteNotFound;
      }
      if !Matches(password.value, users[k.value].password) {
        return UserProfile.WrongPassword;
      }
      SetKeepingKeys(users[k.value := users[k.value].(activo := 0)]);
      resp := UserProfile.AccountDeleted;
    }

    /** POST /api/forgot-password. */
    method SendVerificationCode(correo: Option<string>, draw: nat, now: int, mailOk: bool)
      returns (resp: PasswordReset.SendResponse)
      requires Valid() && draw < 900000
      modifies this
      ensures Valid() && nextId == old(nextId)
      ensures (resp, users) == PasswordReset.SendVerificationCodeSpec(old(users), correo, draw, now, mailOk)
    {
      if Missing(correo) {
        return PasswordReset.EmailRequired;
      }
      var key := NormalizeEmail(correo.value);
      var code := PasswordReset.GenerateVerificationCode(draw);
      var expires := now + PasswordReset.CodeLifetime;
      PasswordReset.SendTouchesOneUser(users, key, code, expires, mailOk);
      var k := FindByEmail(users, key);
      if k.None? {
        return PasswordReset.NoAccount;
      }
      SetKeepingKeys(users[k.value := PasswordReset.Issue(users[k.value], code, expires)]);
      resp := if mailOk then PasswordReset.CodeSent else PasswordReset.MailFailed;
    }

    /** POST /api/verify-code: reads the table and writes nothing. */
    method VerifyCode(correo: Option<string>, codigo: Option<string>, now: int)
      returns (resp: PasswordReset.VerifyResponse)
      ensures resp == PasswordReset.VerifyCode(users, correo, codigo, now)
    {
      if Missing(correo) || Missing(codigo) {
        return PasswordReset.VerifyMissing;
      }
      var key, typed := NormalizeEmail(correo.value), Trim(codigo.value);
      assert PasswordReset.VerifyCode(users, correo, codigo, now) == PasswordReset.VerifyFor(users, key, typed, now);
      var k := FindByEmail(users, key);
      if k.None? {
        return PasswordReset.VerifyNotFound;
      }
      var u := users[k.value];
      if Missing(u.resetToken) || u.resetExpires.None? {
        return PasswordReset.NoActiveCode;
      }
      if now > u.resetExpires.value {
        return PasswordReset.CodeExpired;
      }
      if u.resetToken.value != typed {
        return PasswordReset.WrongCode;
      }
      resp := PasswordReset.Verified;
    }

    /** POST /api/reset-password. */
    method ResetPassword(correo: Option<string>, codigo: Option<string>, nueva: Option<string>, now: int)
      returns (resp: PasswordReset.ResetResponse)
      requires Valid()
      modifies this
      ensures Valid() && nextId == old(nextId)
      ensures (resp, users) == PasswordReset.ResetPasswordSpec(old(users), correo, codigo, nueva, now)
    {
      if Missing(correo) || Missing(codigo) || Missing(nueva) {
        return PasswordReset.ResetMissing;
      }
      if |nueva.value| < 6 {
        return PasswordReset.TooShort;
      }
      var key, typed := NormalizeEmail(correo.value), Trim(codigo.value);
      PasswordReset.ResetEffect(users, key, typed, nueva.value, now);
      var k := FindByEmail(users, key);
      if k.None? {
        return PasswordReset.ResetNotFound;
      }
      var u := users[k.value];
      if Missing(u.resetToken) || u.resetToken.value != typed {
        return PasswordReset.InvalidCode;
      }
      if now > PasswordReset.ExpiryOf(u) {
        return PasswordReset.ResetExpired;
      }
      SetKeepingKeys(users[k.value := PasswordReset.Consume(u, nueva.value)]);
      resp := PasswordReset.PasswordReset;
    }
  }
}
