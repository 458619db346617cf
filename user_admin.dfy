/** The administrator's user management and the public sign-up and sign-in of
    Back_End/controllers/userController.js. Deleting a user is a soft delete
    that only clears `activo`, and an inactive user cannot sign in. */
module UserAdmin {
  import opened Common
  import opened Schema
  import opened Users

  // ---------------------------------------------------------------------------
  // The listing: name split and avatar
  // ---------------------------------------------------------------------------

  /** `nombre.split(' ')`: the first piece, and the other pieces joined back with spaces. */
  function SplitName(nombre: string): (string, string) {
    (BeforeFirstSpace(nombre), AfterFirstSpace(nombre))
  }

  /** The first character, or nothing for an empty string (`charAt(0)`). */
  function Initial(s: string): (r: string)
    ensures |r| <= 1 && r <= s && (r == [] <==> s == [])
  {
    if s == [] then [] else [s[0]]
  }

  /** `(firstName.charAt(0) + lastName.charAt(0)).toUpperCase()`. */
  function Avatar(first: string, last: string): (r: string)
    ensures |r| == |Initial(first)| + |Initial(last)| && |r| <= 2
    ensures first != [] ==> r[0] == UpperChar(first[0])
    ensures last != [] ==> r[|r| - 1] == UpperChar(last[0])
  {
    ToUpper(Initial(first) + Initial(last))
  }

  /** Splitting never loses text: a name with a space is the first piece, a
      space and the rest; a name without one is all first name. */
  lemma SplitNameJoin(nombre: string)
    ensures var (first, last) := SplitName(nombre);
      ' ' !in first &&
      (if ' ' in nombre then first + " " + last == nombre else first == nombre && last == [])
  {
    match FirstSpace(nombre)
    case None =>
    case Some(k) =>
      assert nombre == nombre[..k] + [nombre[k]] + nombre[k + 1..];
  }

  lemma FirstSpaceAfter(first: string, last: string)
    requires ' ' !in first
    ensures FirstSpace(first + " " + last) == Some(|first|)
  {
    var s := first + " " + last;
    assert s[|first|] == ' ';
  }

  /** The name stored by `createUser` and `updateUser` splits back into the
      first and last name typed, when the first name is one word and the last
      name has no blanks at its ends; so the listing shows what was entered. */
  lemma NameRoundTrip(first: string, last: string)
    requires first != [] && NoWhite(first)
    requires last != [] && !IsWhite(last[0]) && !IsWhite(last[|last| - 1])
    ensures SplitName(Trim(first + " " + last)) == (first, last)
    ensures Avatar(SplitName(Trim(first + " " + last)).0, SplitName(Trim(first + " " + last)).1) == Avatar(first, last)
  {
    var s := first + " " + last;
    assert s[0] == first[0] && s[|s| - 1] == last[|last| - 1];
    assert TrimStart(s) == s;
    assert TrimEnd(s) == s;
    assert ' ' !in first;
    FirstSpaceAfter(first, last);
    assert s[..|first|] == first && s[|first| + 1..] == last;
  }

  /** A row of `getAllUsers` as the user table shows it. */
  datatype Listed = Listed(id: int, firstName: string, lastName: string, email: string,
                           phone: Option<string>, location: Option<string>, status: string, avatar: string)

  function ListUser(u: User): (l: Listed)
    ensures l.status == "active" <==> u.activo == 1
    ensures l.status == "active" || l.status == "inactive"
    ensures l.id == u.idUsuario && l.email == u.correo
    ensures l.firstName + l.lastName <= u.nombre || l.firstName + " " + l.lastName == u.nombre
    ensures l.avatar == Avatar(l.firstName, l.lastName)
  {
    var (first, last) := SplitName(u.nombre);
    SplitNameJoin(u.nombre);
    Listed(u.idUsuario, first, last, u.correo, u.telefono, u.direccion,
           if u.activo == 1 then "active" else "inactive", Avatar(first, last))
  }

  // ---------------------------------------------------------------------------
  // Results shared by the handlers
  // ---------------------------------------------------------------------------

  datatype Invalid = FirstNameRequired | LastNameRequired | EmailRequired | BadEmail
                   | FieldsRequired | PasswordTooShort

  datatype AdminResult = Created(id: int) | Updated | Deactivated(nombre: string)
                       | Rejected(why: Invalid) | EmailTaken | UserNotFound | ActiveOrders(count: nat)

  function AdminStatusCode(r: AdminResult): int {
    match r
    case Created(_) => 201
    case Updated => 200
    case Deactivated(_) => 200
    case Rejected(_) => 400
    case EmailTaken => 409
    case UserNotFound => 404
    case ActiveOrders(_) => 409
  }

  /** The body sent by the user form. */
  datatype UserForm = UserForm(firstName: Option<string>, lastName: Option<string>, email: Option<string>,
                               phone: Option<string>, location: Option<string>, status: Option<string>,
                               rol: Option<string>, password: Option<string>)

  /** The checks `createUser` and `updateUser` share, in their order. */
  function CheckForm(f: UserForm): (r: Option<Invalid>)
    ensures r.None? <==> !Blank(f.firstName) && !Blank(f.lastName) && !Blank(f.email) && EmailPattern(f.email.value)
  {
    if Blank(f.firstName) then Some(FirstNameRequired)
    else if Blank(f.lastName) then Some(LastNameRequired)
    else if Blank(f.email) then Some(EmailRequired)
    else if !EmailPattern(f.email.value) then Some(BadEmail)
    else None
  }

  predicate FormComplete(f: UserForm) {
    f.firstName.Some? && f.lastName.Some? && f.email.Some?
  }

  /** `` `${firstName} ${lastName}`.trim() ``. */
  function FullName(f: UserForm): string
    requires FormComplete(f)
  {
    Trim(f.firstName.value + " " + f.lastName.value)
  }

  /** `status === 'active' ? 1 : 0`. */
  function ActiveFlag(status: Option<string>): (a: int)
    ensures a == 1 <==> status == Some("active")
    ensures a == 0 || a == 1
  {
    if status == Some("active") then 1 else 0
  }

  /** `x || fallback` on an optional string. */
  function OrDefault(s: Option<string>, fallback: string): (r: string)
    ensures r == fallback <==> s.None? || s.value == [] || s.value == fallback
    ensures r != fallback ==> s == Some(r)
  {
    if s.Some? && s.value != [] then s.value else fallback
  }

  // ---------------------------------------------------------------------------
  // createUser and registerUser: one insert path
  // ---------------------------------------------------------------------------

  /** The row `createUser` inserts: the e-mail trimmed and lowercased, the role
      `cliente` and the password `default_password` when none is given. */
  function NewUserRow(f: UserForm, id: int): (u: User)
    requires FormComplete(f)
    ensures u.idUsuario == id && u.correo == NormalizeEmail(f.email.value)
    ensures u.rol == Some(OrDefault(f.rol, "cliente")) && u.activo == ActiveFlag(f.status)
    ensures u.password == Hashed(OrDefault(f.password, "default_password"))
    ensures u.resetToken.None? && u.resetExpires.None? && u.ultimoAcceso.None?
  {
    User(id, FullName(f), NormalizeEmail(f.email.value), TextOrNull(f.phone), TextOrNull(f.location),
         Hashed(OrDefault(f.password, "default_password")), Some(OrDefault(f.rol, "cliente")),
         ActiveFlag(f.status), None, None, None)
  }

  /** The duplicate check and the insert; the new row takes the next id. */
  function InsertUser(users: seq<User>, nextId: int, row: User): (AdminResult, seq<User>, int) {
    if FindByEmail(users, row.correo).Some? then (EmailTaken, users, nextId)
    else (Created(nextId), users + [row.(idUsuario := nextId)], nextId + 1)
  }

  /** POST /api/users. */
  function CreateUserSpec(users: seq<User>, nextId: int, f: UserForm): (AdminResult, seq<User>, int) {
    match CheckForm(f)
    case Some(e) => (Rejected(e), users, nextId)
    case None => InsertUser(users, nextId, NewUserRow(f, nextId))
  }

  /** The insert happens exactly when no row holds the e-mail; it appends one
      row with the next id and keeps the table's keys. */
  lemma InsertKeepsTable(users: seq<User>, nextId: int, row: User)
    requires TableOk(users, nextId)
    ensures var (resp, users', nextId') := InsertUser(users, nextId, row);
      TableOk(users', nextId') &&
      (resp == Created(nextId) <==> FindByEmail(users, row.correo).None?) &&
      (resp.Created? ==> users' == users + [row.(idUsuario := nextId)] && nextId' == nextId + 1) &&
      (!resp.Created? ==> resp == EmailTaken && users' == users && nextId' == nextId)
  {
    if FindByEmail(users, row.correo).None? {
      InsertTableOk(users, nextId, row.(idUsuario := nextId));
    }
  }

  /** The defaults `registerUser` leaves to the schema: the role and `activo`
      columns are not in its insert. */
  datatype ColumnDefaults = ColumnDefaults(rol: Option<string>, activo: int)

  /** POST /api/users/register: all three fields, the e-mail pattern and a
      6-character password, in that order, then the same duplicate check. */
  function RegisterUserSpec(users: seq<User>, nextId: int, nombre: Option<string>, correo: Option<string>,
                            password: Option<string>, defaults: ColumnDefaults): (AdminResult, seq<User>, int)
  {
    if Missing(nombre) || Missing(correo) || Missing(password) then (Rejected(FieldsRequired), users, nextId)
    else if !EmailPattern(correo.value) then (Rejected(BadEmail), users, nextId)
    else if |password.value| < 6 then (Rejected(PasswordTooShort), users, nextId)
    else InsertUser(users, nextId, User(nextId, Trim(nombre.value), NormalizeEmail(correo.value), None, None,
                                        Hashed(password.value), defaults.rol, defaults.activo, None, None, None))
  }

  // ---------------------------------------------------------------------------
  // updateUser
  // ---------------------------------------------------------------------------

  /** The columns `updateUser` sets; `password` is None when the form leaves the
      stored hash alone. */
  datatype UserEdit = UserEdit(nombre: string, correo: string, telefono: Option<string>,
                               direccion: Option<string>, rol: Option<string>, activo: int,
                               password: Option<Hash>)

  /** `rol` is written as sent, so an absent role becomes null. The password is
      rehashed only when a non-blank one is sent. */
  function EditOf(f: UserForm): (e: UserEdit)
    requires FormComplete(f)
    ensures e.correo == NormalizeEmail(f.email.value) && e.rol == f.rol && e.activo == ActiveFlag(f.status)
    ensures e.password.Some? <==> !Blank(f.password)
    ensures e.password.Some? ==> e.password.value == Hashed(f.password.value)
  {
    UserEdit(FullName(f), NormalizeEmail(f.email.value), TextOrNull(f.phone), TextOrNull(f.location), f.rol,
             ActiveFlag(f.status), if Blank(f.password) then None else Some(Hashed(f.password.value)))
  }

  function ApplyEdit(u: User, e: UserEdit): User {
    u.(nombre := e.nombre, correo := e.correo, telefono := e.telefono, direccion := e.direccion,
       rol := e.rol, activo := e.activo,
       password := if e.password.Some? then e.password.value else u.password)
  }

  /** The existence check, then the e-mail check against every other id. */
  function UpdateFor(users: seq<User>, id: int, e: UserEdit): (AdminResult, seq<User>) {
    match FindById(users, id)
    case None => (UserNotFound, users)
    case Some(k) =>
      if EmailUsedByOther(users, e.correo, id) then (EmailTaken, users)
      else (Updated, users[k := ApplyEdit(users[k], e)])
  }

  /** PUT /api/users/:id. */
  function UpdateUserSpec(users: seq<User>, id: int, f: UserForm): (AdminResult, seq<User>) {
    match CheckForm(f)
    case Some(e) => (Rejected(e), users)
    case None => UpdateFor(users, id, EditOf(f))
  }

  /** An update succeeds exactly when the user exists and no other user holds
      the e-mail; it rewrites that row alone, keeps its id and reset code, keeps
      the password unless a new one is given, and keeps the table's keys. */
  lemma UpdateKeepsTable(users: seq<User>, nextId: int, id: int, e: UserEdit)
    requires TableOk(users, nextId)
    ensures var (resp, users') := UpdateFor(users, id, e);
      TableOk(users', nextId) && |users'| == |users| &&
      (resp == Updated <==> FindById(users, id).Some? && !EmailUsedByOther(users, e.correo, id)) &&
      (resp != Updated ==> users' == users) &&
      (resp == Updated ==>
        var k := FindById(users, id).value;
        (forall j :: 0 <= j < |users| && j != k ==> users'[j] == users[j]) &&
        users'[k].idUsuario == id && users'[k].correo == e.correo &&
        users'[k].resetToken == users[k].resetToken && users'[k].ultimoAcceso == users[k].ultimoAcceso &&
        (e.password.None? ==> users'[k].password == users[k].password))
  {
    var (resp, users') := UpdateFor(users, id, e);
    if resp == Updated {
      var k := FindById(users, id).value;
      forall i, j | 0 <= i < j < |users'| ensures users'[i].correo != users'[j].correo {
        if i == k {
          assert users'[j] == users[j];
        } else if j == k {
          assert users'[i] == users[i];
        }
      }
    }
  }

  // ---------------------------------------------------------------------------
  // deleteUser
  // ---------------------------------------------------------------------------

  /** An order of this user that is still `pendiente` or `en_preparacion`. */
  predicate OpenOrderOf(o: Order, id: int) {
    o.idUsuario == Some(id) && (o.estado == Pendiente || o.estado == EnPreparacion)
  }

  /** `SELECT COUNT(*) … WHERE idUsuario = ? AND estado IN ('pendiente', 'en_preparacion')`. */
  function OpenOrders(pedidos: seq<Order>, id: int): (n: nat)
    ensures n <= |pedidos|
  {
    if pedidos == [] then 0
    else OpenOrders(pedidos[..|pedidos| - 1], id) + (if OpenOrderOf(pedidos[|pedidos| - 1], id) then 1 else 0)
  }

  lemma {:induction false} OpenOrdersZero(pedidos: seq<Order>, id: int)
    ensures OpenOrders(pedidos, id) == 0 <==> forall i :: 0 <= i < |pedidos| ==> !OpenOrderOf(pedidos[i], id)
    decreases |pedidos|
  {
    if pedidos != [] {
      var pre := pedidos[..|pedidos| - 1];
      OpenOrdersZero(pre, id);
      assert forall i :: 0 <= i < |pre| ==> pre[i] == pedidos[i];
    }
  }

  /** DELETE /api/users/:id: a soft delete refused while the user has open orders. */
  function DeleteUserSpec(users: seq<User>, pedidos: seq<Order>, id: int): (AdminResult, seq<User>) {
    match FindById(users, id)
    case None => (UserNotFound, users)
    case Some(k) =>
      var n := OpenOrders(pedidos, id);
      if n > 0 then (ActiveOrders(n), users)
      else (Deactivated(users[k].nombre), users[k := users[k].(activo := 0)])
  }

  /** The user is deactivated exactly when it exists and none of its orders is
      pending or in preparation; only its `activo` changes and no row goes away. */
  lemma DeleteUserIsSoft(users: seq<User>, pedidos: seq<Order>, id: int)
    ensures var (resp, users') := DeleteUserSpec(users, pedidos, id);
      SameKeys(users, users') &&
      (resp.Deactivated? <==> FindById(users, id).Some? &&
                              forall i :: 0 <= i < |pedidos| ==> !OpenOrderOf(pedidos[i], id)) &&
      (!resp.Deactivated? ==> users' == users) &&
      (resp.Deactivated? ==>
        var k := FindById(users, id).value;
        (forall j :: 0 <= j < |users| && j != k ==> users'[j] == users[j]) &&
        users'[k] == users[k].(activo := 0))
  {
    OpenOrdersZero(pedidos, id);
    var (resp, users') := DeleteUserSpec(users, pedidos, id);
    if resp.Deactivated? {
      assert SameKeys(users, users');
    }
  }

  // ---------------------------------------------------------------------------
  // loginUser
  // ---------------------------------------------------------------------------

  /** The claims signed into the token. */
  datatype Claims = Claims(id: int, nombre: string, correo: string, rol: Option<string>)

  datatype LoginResponse = LoggedIn(claims: Claims) | CredentialsRequired | UnknownEmail
                         | InactiveUser | WrongPassword

  function LoginStatusCode(r: LoginResponse): int {
    match r
    case LoggedIn(_) => 200
    case CredentialsRequired => 400
    case UnknownEmail => 404
    case InactiveUser => 403
    case WrongPassword => 401
  }

  /** The lookup by the normalised e-mail and the three checks, in order; a
      successful sign-in stamps `ultimo_acceso`. Only `activo === 0` blocks. */
  function LoginFor(users: seq<User>, key: string, password: string, now: int): (LoginResponse, seq<User>) {
    match FindByEmail(users, key)
    case None => (UnknownEmail, users)
    case Some(k) =>
      var u := users[k];
      if u.activo == 0 then (InactiveUser, users)
      else if !Matches(password, u.password) then (WrongPassword, users)
      else (LoggedIn(Claims(u.idUsuario, u.nombre, u.correo, u.rol)), users[k := u.(ultimoAcceso := Some(now))])
  }

  /** POST /api/users/login. */
  function LoginUserSpec(users: seq<User>, correo: Option<string>, password: Option<string>, now: int)
    : (LoginResponse, seq<User>)
  {
    if Missing(correo) || Missing(password) then (CredentialsRequired, users)
    else LoginFor(users, NormalizeEmail(correo.value), password.value, now)
  }

  /** The outcome of each check in order, and a sign-in changes nothing but the
      last-access time of that user. */
  lemma LoginEffect(users: seq<User>, key: string, password: string, now: int)
    ensures var (resp, users') := LoginFor(users, key, password, now);
      SameKeys(users, users') &&
      (resp == UnknownEmail <==> FindByEmail(users, key).None?) &&
      (resp == InactiveUser <==> FindByEmail(users, key).Some? && users[FindByEmail(users, key).value].activo == 0) &&
      (resp == WrongPassword <==> FindByEmail(users, key).Some? && users[FindByEmail(users, key).value].activo != 0 &&
                                  !Matches(password, users[FindByEmail(users, key).value].password)) &&
      (!resp.LoggedIn? ==> users' == users) &&
      (resp.LoggedIn? ==>
        var k := FindByEmail(users, key).value;
        resp.claims.id == users[k].idUsuario && resp.claims.correo == key &&
        (forall j :: 0 <= j < |users| && j != k ==> users'[j] == users[j]) &&
        users'[k] == users[k].(ultimoAcceso := Some(now)))
  {
    var (resp, users') := LoginFor(users, key, password, now);
    if resp.LoggedIn? {
      assert SameKeys(users, users');
    }
  }

  /** A user the administrator deactivated cannot sign in, whatever password. */
  lemma DeactivatedCannotLogIn(users: seq<User>, nextId: int, pedidos: seq<Order>, id: int,
                               password: string, now: int)
    requires TableOk(users, nextId)
    requires DeleteUserSpec(users, pedidos, id).0.Deactivated?
    ensures var users' := DeleteUserSpec(users, pedidos, id).1;
      var k := FindById(users, id).value;
      LoginFor(users', users[k].correo, password, now).0 == InactiveUser
  {
    var users' := DeleteUserSpec(users, pedidos, id).1;
    var k := FindById(users, id).value;
    DeleteUserIsSoft(users, pedidos, id);
    SameKeysLookups(users, users', users[k].correo, id);
    assert FindByEmail(users, users[k].correo) == Some(k);
  }

  /** A user just created can sign in with the password it was given exactly
      when it was created active (for `createUser`, when the form said `active`). */
  lemma CreatedUserCanLogIn(users: seq<User>, nextId: int, row: User, password: string, now: int)
    requires InsertUser(users, nextId, row).0.Created?
    ensures var users' := InsertUser(users, nextId, row).1;
      var resp := LoginFor(users', row.correo, password, now).0;
      (resp.LoggedIn? <==> row.activo != 0 && Matches(password, row.password)) &&
      (resp.LoggedIn? ==> resp.claims.id == nextId)
  {
    var users' := InsertUser(users, nextId, row).1;
    assert users'[|users|].correo == row.correo;
    assert FindByEmail(users', row.correo) == Some(|users|);
  }
}
