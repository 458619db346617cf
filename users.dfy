/** The `usuario` table shared by the account controllers
    (passwordController.js, userProfileController.js, userController.js):
    the row, the password-hash abstraction and the lookups by e-mail and id. */
module Users {
  import opened Common

  /** `!x` on a body string: absent or empty. */
  predicate Missing(s: Option<string>) {
    s.None? || s.value == []
  }

  /** `bcrypt.hash(p, 10)`, seen only through `bcrypt.compare`. */
  datatype Hash = Hashed(secret: string)

  /** `bcrypt.compare(plain, h)`. */
  predicate Matches(plain: string, h: Hash) {
    h.secret == plain
  }

  /** A `usuario` row; times are milliseconds since the epoch. */
  datatype User = User(idUsuario: int, nombre: string, correo: string,
                       telefono: Option<string>, direccion: Option<string>,
                       password: Hash, rol: Option<string>, activo: int,
                       resetToken: Option<string>, resetExpires: Option<int>,
                       ultimoAcceso: Option<int>)

  /** `SELECT … FROM usuario WHERE correo = ?` then `rows[0]`. */
  function FindByEmail(users: seq<User>, key: string): (r: Option<nat>)
    ensures r.Some? ==> r.value < |users| && users[r.value].correo == key &&
                        forall j :: 0 <= j < r.value ==> users[j].correo != key
    ensures r.None? ==> forall j :: 0 <= j < |users| ==> users[j].correo != key
  {
    if users == [] then None
    else if users[0].correo == key then Some(0)
    else match FindByEmail(users[1..], key)
      case None => None
      case Some(k) => Some(k + 1)
  }

  /** `SELECT … FROM usuario WHERE idUsuario = ?` then `rows[0]`. */
  function FindById(users: seq<User>, id: int): (r: Option<nat>)
    ensures r.Some? ==> r.value < |users| && users[r.value].idUsuario == id &&
                        forall j :: 0 <= j < r.value ==> users[j].idUsuario != id
    ensures r.None? ==> forall j :: 0 <= j < |users| ==> users[j].idUsuario != id
  {
    if users == [] then None
    else if users[0].idUsuario == id then Some(0)
    else match FindById(users[1..], id)
      case None => None
      case Some(k) => Some(k + 1)
  }

  /** `SELECT … WHERE correo = ? AND idUsuario != ?` returns a row. */
  predicate EmailUsedByOther(users: seq<User>, key: string, id: int) {
    exists j :: 0 <= j < |users| && users[j].correo == key && users[j].idUsuario != id
  }

  /** The keys of the table: ids are distinct and below the next auto-increment
      value, and no two rows share an e-mail. */
  predicate TableOk(users: seq<User>, nextId: int) {
    (forall i :: 0 <= i < |users| ==> users[i].idUsuario < nextId) &&
    (forall i, j :: 0 <= i < j < |users| ==> users[i].idUsuario != users[j].idUsuario) &&
    (forall i, j :: 0 <= i < j < |users| ==> users[i].correo != users[j].correo)
  }

  /** Two tables with the same ids and e-mails row by row. */
  predicate SameKeys(a: seq<User>, b: seq<User>) {
    |a| == |b| && forall i :: 0 <= i < |a| ==> a[i].idUsuario == b[i].idUsuario && a[i].correo == b[i].correo
  }

  /** An update that leaves ids and e-mails alone finds the same rows. */
  lemma SameKeysLookups(a: seq<User>, b: seq<User>, key: string, id: int)
    requires SameKeys(a, b)
    ensures FindByEmail(a, key) == FindByEmail(b, key)
    ensures FindById(a, id) == FindById(b, id)
  {
    var ea, eb := FindByEmail(a, key), FindByEmail(b, key);
    if ea.Some? && eb.Some? {
      assert !(ea.value < eb.value) && !(eb.value < ea.value);
    }
    var ia, ib := FindById(a, id), FindById(b, id);
    if ia.Some? && ib.Some? {
      assert !(ia.value < ib.value) && !(ib.value < ia.value);
    }
  }

  lemma SameKeysTableOk(a: seq<User>, b: seq<User>, nextId: int)
    requires SameKeys(a, b) && TableOk(a, nextId)
    ensures TableOk(b, nextId)
  {
  }

  /** Appending a row with a fresh id and an unused e-mail keeps the keys. */
  lemma InsertTableOk(users: seq<User>, nextId: int, u: User)
    requires TableOk(users, nextId)
    requires u.idUsuario == nextId && FindByEmail(users, u.correo).None?
    ensures TableOk(users + [u], nextId + 1)
  {
  }

  /** In a table with distinct ids, the row found by id is the only one with it. */
  lemma FindByIdUnique(users: seq<User>, nextId: int, id: int, j: nat)
    requires TableOk(users, nextId) && j < |users| && users[j].idUsuario == id
    ensures FindById(users, id) == Some(j)
  {
  }
}
