/** The menu administration of Back_End/controllers/menuController.js: the
    validation and defaults shared by create and update, the lookups of the
    category and menu by name, the unique product name, the soft delete that
    only clears `disponible`, and the mapping of a row to the listing.
    Prices are integer minor units; `especial_dia` arrives as its truthiness. */
module Menu {
  import opened Common

  /** A `producto` row as the menu controller reads and writes it. */
  datatype MenuProduct = MenuProduct(idProducto: int, nombre: string, descripcion: Option<string>,
                                     precio: int, idCategoria: int, idMenu: int, disponible: int,
                                     stockLimite: int, especialDia: int, imagenUrl: Option<string>)

  datatype Category = Category(id: int, nombre: string)
  datatype MenuRow = MenuRow(idMenu: int, nombre: string)

  /** The body of create and update. `price` and `stock_limite` are JSON numbers. */
  datatype ProductForm = ProductForm(name: Option<string>, description: Option<string>,
                                     category: Option<string>, menu: Option<string>,
                                     price: Option<int>, status: Option<string>, image: Option<string>,
                                     stockLimite: Option<int>, especialDia: bool)

  datatype FormError = NameRequired | NameTooShort | PriceRequired | PriceNotPositive
                     | MenuRequired | NegativeStockLimit

  datatype MenuResult = ProductCreated(id: int) | ProductUpdated | ProductDeactivated(nombre: string)
                      | Invalid(why: FormError) | CategoryNotFound | MenuNotFound | NameTaken
                      | ProductNotFound

  function MenuStatusCode(r: MenuResult): int {
    match r
    case ProductCreated(_) => 201
    case ProductUpdated => 200
    case ProductDeactivated(_) => 200
    case Invalid(_) => 400
    case CategoryNotFound => 404
    case MenuNotFound => 404
    case NameTaken => 409
    case ProductNotFound => 404
  }

  /** A JSON number is falsy when absent or 0. */
  predicate TruthyNumber(n: Option<int>) {
    n.Some? && n.value != 0
  }

  /** The checks create and update share, in their order. */
  function CheckProduct(f: ProductForm): (r: Option<FormError>)
    ensures r.None? <==> !Blank(f.name) && |Trim(f.name.value)| >= 3 && TruthyNumber(f.price) &&
                         f.price.value > 0 && !Blank(f.menu) &&
                         !(TruthyNumber(f.stockLimite) && f.stockLimite.value < 0)
  {
    if Blank(f.name) then Some(NameRequired)
    else if |Trim(f.name.value)| < 3 then Some(NameTooShort)
    else if !TruthyNumber(f.price) then Some(PriceRequired)
    else if f.price.value <= 0 then Some(PriceNotPositive)
    else if Blank(f.menu) then Some(MenuRequired)
    else if TruthyNumber(f.stockLimite) && f.stockLimite.value < 0 then Some(NegativeStockLimit)
    else None
  }

  /** The columns the form sets, with its defaults: `disponible` is 1 only for
      status `Activo`, a missing or zero stock limit becomes 10, `especial_dia`
      is 0 or 1, and an absent or empty description or image is null. */
  datatype Fields = Fields(nombre: string, descripcion: Option<string>, precio: int, disponible: int,
                           stockLimite: int, especialDia: int, imagenUrl: Option<string>)

  function TrimOrNull(s: Option<string>): (r: Option<string>)
    ensures r.None? <==> s.None? || s.value == []
    ensures r.Some? ==> r.value == Trim(s.value) && Trim(r.value) == r.value
  {
    if s.None? || s.value == [] then None
    else
      TrimIdempotent(s.value);
      Some(Trim(s.value))
  }

  function FieldsOf(f: ProductForm): (x: Fields)
    requires CheckProduct(f).None?
    ensures x.disponible == 1 <==> f.status == Some("Activo")
    ensures x.disponible == 0 || x.disponible == 1
    ensures x.stockLimite == (if TruthyNumber(f.stockLimite) then f.stockLimite.value else 10)
    ensures x.stockLimite > 0
    ensures x.especialDia == (if f.especialDia then 1 else 0)
    ensures x.precio == f.price.value && x.precio > 0
    ensures |x.nombre| >= 3
    ensures x.nombre == Trim(f.name.value) && Trim(x.nombre) == x.nombre
    ensures x.descripcion == TrimOrNull(f.description) && x.imagenUrl == TrimOrNull(f.image)
  {
    TrimIdempotent(f.name.value);
    Fields(Trim(f.name.value), TrimOrNull(f.description), f.price.value,
           if f.status == Some("Activo") then 1 else 0,
           if TruthyNumber(f.stockLimite) then f.stockLimite.value else 10,
           if f.especialDia then 1 else 0, TrimOrNull(f.image))
  }

  // ---------------------------------------------------------------------------
  // Lookups
  // ---------------------------------------------------------------------------

  /** `SELECT id FROM categoria WHERE nombre = ?` then `rows[0].id`; a missing
      name is bound as NULL and matches nothing. */
  function CategoryId(cs: seq<Category>, name: Option<string>): (r: Option<int>)
    ensures r.Some? ==> name.Some? && exists i :: 0 <= i < |cs| && cs[i].nombre == name.value && cs[i].id == r.value
    ensures r.None? ==> name.None? || forall i :: 0 <= i < |cs| ==> cs[i].nombre != name.value
  {
    if name.None? || cs == [] then None
    else if cs[0].nombre == name.value then Some(cs[0].id)
    else CategoryId(cs[1..], name)
  }

  /** `SELECT idMenu FROM menu WHERE nombre = ?` then `rows[0].idMenu`. */
  function MenuId(ms: seq<MenuRow>, name: string): (r: Option<int>)
    ensures r.Some? ==> exists i :: 0 <= i < |ms| && ms[i].nombre == name && ms[i].idMenu == r.value
    ensures r.None? ==> forall i :: 0 <= i < |ms| ==> ms[i].nombre != name
  {
    if ms == [] then None
    else if ms[0].nombre == name then Some(ms[0].idMenu)
    else MenuId(ms[1..], name)
  }

  /** The index of the product with the id, if any. */
  function FindProductIndex(ps: seq<MenuProduct>, id: int): (r: Option<nat>)
    ensures r.Some? ==> r.value < |ps| && ps[r.value].idProducto == id
    ensures r.None? ==> forall i :: 0 <= i < |ps| ==> ps[i].idProducto != id
  {
    if ps == [] then None
    else if ps[0].idProducto == id then Some(0)
    else match FindProductIndex(ps[1..], id)
      case None => None
      case Some(k) => Some(k + 1)
  }

  /** `SELECT idProducto FROM producto WHERE nombre = ? [AND idProducto != ?]`. */
  predicate NameUsed(ps: seq<MenuProduct>, nombre: string, except: Option<int>) {
    exists i :: 0 <= i < |ps| && ps[i].nombre == nombre && (except.None? || ps[i].idProducto != except.value)
  }

  /** The keys of `producto`: ids distinct and below the next id, names distinct. */
  predicate CatalogOk(ps: seq<MenuProduct>, nextId: int) {
    (forall i :: 0 <= i < |ps| ==> ps[i].idProducto < nextId) &&
    (forall i, j :: 0 <= i < j < |ps| ==> ps[i].idProducto != ps[j].idProducto && ps[i].nombre != ps[j].nombre)
  }

  // ---------------------------------------------------------------------------
  // createMenuItem
  // ---------------------------------------------------------------------------

  /** The lookups and the insert, once the form is valid: category, then menu
      (by its trimmed name), then the product name. */
  function CreateFor(ps: seq<MenuProduct>, nextId: int, cs: seq<Category>, ms: seq<MenuRow>,
                     category: Option<string>, menu: string, x: Fields): (MenuResult, seq<MenuProduct>, int)
  {
    match CategoryId(cs, category)
    case None => (CategoryNotFound, ps, nextId)
    case Some(idCategoria) =>
      match MenuId(ms, menu)
      case None => (MenuNotFound, ps, nextId)
      case Some(idMenu) =>
        if NameUsed(ps, x.nombre, None) then (NameTaken, ps, nextId)
        else (ProductCreated(nextId),
              ps + [MenuProduct(nextId, x.nombre, x.descripcion, x.precio, idCategoria, idMenu, x.disponible,
                                x.stockLimite, x.especialDia, x.imagenUrl)],
              nextId + 1)
  }

  /** POST /api/menu. */
  function CreateMenuItemSpec(ps: seq<MenuProduct>, nextId: int, cs: seq<Category>, ms: seq<MenuRow>,
                              f: ProductForm): (MenuResult, seq<MenuProduct>, int)
  {
    match CheckProduct(f)
    case Some(e) => (Invalid(e), ps, nextId)
    case None => CreateFor(ps, nextId, cs, ms, f.category, Trim(f.menu.value), FieldsOf(f))
  }

  /** A product is created exactly when the category and menu exist and no
      product has the name; it is appended with the next id and the keys hold. */
  lemma CreateKeepsCatalog(ps: seq<MenuProduct>, nextId: int, cs: seq<Category>, ms: seq<MenuRow>,
                           category: Option<string>, menu: string, x: Fields)
    requires CatalogOk(ps, nextId)
    ensures var (resp, ps', nextId') := CreateFor(ps, nextId, cs, ms, category, menu, x);
      CatalogOk(ps', nextId') &&
      (resp.ProductCreated? <==> CategoryId(cs, category).Some? && MenuId(ms, menu).Some? &&
                                 !NameUsed(ps, x.nombre, None)) &&
      (!resp.ProductCreated? ==> ps' == ps && nextId' == nextId) &&
      (resp.ProductCreated? ==> resp.id == nextId && nextId' == nextId + 1 && |ps'| == |ps| + 1 &&
                                ps'[..|ps|] == ps && ps'[|ps|].nombre == x.nombre)
  {
    var (resp, ps', nextId') := CreateFor(ps, nextId, cs, ms, category, menu, x);
    if resp.ProductCreated? {
      assert ps'[..|ps|] == ps;
      forall i, j | 0 <= i < j < |ps'|
        ensures ps'[i].idProducto != ps'[j].idProducto && ps'[i].nombre != ps'[j].nombre
      {
        if j == |ps| {
          assert ps'[i] == ps[i];
        }
      }
    }
  }

  // ---------------------------------------------------------------------------
  // updateMenuItem
  // ---------------------------------------------------------------------------

  /** Existence, then the name among the other products, then category and menu. */
  function UpdateFor(ps: seq<MenuProduct>, id: int, cs: seq<Category>, ms: seq<MenuRow>,
                     category: Option<string>, menu: string, x: Fields): (MenuResult, seq<MenuProduct>)
  {
    match FindProductIndex(ps, id)
    case None => (ProductNotFound, ps)
    case Some(k) =>
      if NameUsed(ps, x.nombre, Some(id)) then (NameTaken, ps)
      else match CategoryId(cs, category)
        case None => (CategoryNotFound, ps)
        case Some(idCategoria) =>
          match MenuId(ms, menu)
          case None => (MenuNotFound, ps)
          case Some(idMenu) =>
            (ProductUpdated, ps[k := MenuProduct(id, x.nombre, x.descripcion, x.precio, idCategoria, idMenu,
                                                 x.disponible, x.stockLimite, x.especialDia, x.imagenUrl)])
  }

  /** PUT /api/menu/:id. */
  function UpdateMenuItemSpec(ps: seq<MenuProduct>, id: int, cs: seq<Category>, ms: seq<MenuRow>,
                              f: ProductForm): (MenuResult, seq<MenuProduct>)
  {
    match CheckProduct(f)
    case Some(e) => (Invalid(e), ps)
    case None => UpdateFor(ps, id, cs, ms, f.category, Trim(f.menu.value), FieldsOf(f))
  }

  /** An update rewrites only the product with the id, keeps the id, may keep
      its own name, refuses a name another product holds, and keeps the keys. */
  lemma UpdateKeepsCatalog(ps: seq<MenuProduct>, nextId: int, id: int, cs: seq<Category>, ms: seq<MenuRow>,
                           category: Option<string>, menu: string, x: Fields)
    requires CatalogOk(ps, nextId)
    ensures var (resp, ps') := UpdateFor(ps, id, cs, ms, category, menu, x);
      CatalogOk(ps', nextId) && |ps'| == |ps| &&
      (resp == ProductUpdated <==> FindProductIndex(ps, id).Some? && !NameUsed(ps, x.nombre, Some(id)) &&
                                   CategoryId(cs, category).Some? && MenuId(ms, menu).Some?) &&
      (resp != ProductUpdated ==> ps' == ps) &&
      (resp == ProductUpdated ==>
        var k := FindProductIndex(ps, id).value;
        (forall j :: 0 <= j < |ps| && j != k ==> ps'[j] == ps[j]) &&
        ps'[k].idProducto == id && ps'[k].nombre == x.nombre)
  {
    var (resp, ps') := UpdateFor(ps, id, cs, ms, category, menu, x);
    if resp == ProductUpdated {
      var k := FindProductIndex(ps, id).value;
      forall i, j | 0 <= i < j < |ps'|
        ensures ps'[i].idProducto != ps'[j].idProducto && ps'[i].nombre != ps'[j].nombre
      {
        if i == k {
          assert ps'[j] == ps[j];
        } else if j == k {
          assert ps'[i] == ps[i];
        }
      }
    }
  }

  // ---------------------------------------------------------------------------
  // deleteMenuItem
  // ---------------------------------------------------------------------------

  /** DELETE /api/menu/:id: a soft delete. */
  function DeleteMenuItemSpec(ps: seq<MenuProduct>, id: int): (MenuResult, seq<MenuProduct>) {
    match FindProductIndex(ps, id)
    case None => (ProductNotFound, ps)
    case Some(k) => (ProductDeactivated(ps[k].nombre), ps[k := ps[k].(disponible := 0)])
  }

  /** Deleting removes no row: it fails only for an unknown id, and otherwise
      the product keeps everything but `disponible`, which becomes 0. */
  lemma DeleteIsSoft(ps: seq<MenuProduct>, nextId: int, id: int)
    requires CatalogOk(ps, nextId)
    ensures var (resp, ps') := DeleteMenuItemSpec(ps, id);
      CatalogOk(ps', nextId) && |ps'| == |ps| &&
      (resp.ProductDeactivated? <==> exists i :: 0 <= i < |ps| && ps[i].idProducto == id) &&
      (!resp.ProductDeactivated? ==> ps' == ps) &&
      (forall j :: 0 <= j < |ps| ==>
        ps'[j].(disponible := ps[j].disponible) == ps[j] && (ps[j].idProducto == id ==> ps'[j].disponible == 0))
  {
    var (resp, ps') := DeleteMenuItemSpec(ps, id);
  }

  // ---------------------------------------------------------------------------
  // getAllMenuItems
  // ---------------------------------------------------------------------------

  /** One entry of the menu listing, joined with its category and menu names. */
  datatype MenuItem = MenuItem(id: int, name: string, description: string, price: int, status: string,
                               stockLimite: int, especialDia: bool, category: string, menu: string,
                               image: Option<string>)

  /** The listing's mapping: status `Activo` only for `disponible === 1`, a
      stock limit of 0 shown as 10, `especial_dia === 1` as a boolean. */
  function ListItem(p: MenuProduct, categoria: string, menu: string): (m: MenuItem)
    ensures m.status == "Activo" <==> p.disponible == 1
    ensures m.status == "Activo" || m.status == "Inactivo"
    ensures m.stockLimite == (if p.stockLimite == 0 then 10 else p.stockLimite)
    ensures m.especialDia <==> p.especialDia == 1
    ensures m.id == p.idProducto && m.name == p.nombre && m.price == p.precio
  {
    MenuItem(p.idProducto, p.nombre, if p.descripcion.Some? then p.descripcion.value else "", p.precio,
             if p.disponible == 1 then "Activo" else "Inactivo",
             if p.stockLimite == 0 then 10 else p.stockLimite, p.especialDia == 1, categoria, menu,
             TextOrNullText(p.imagenUrl))
  }

  /** `x || null` on a stored text column. */
  function TextOrNullText(s: Option<string>): (r: Option<string>)
    ensures r.Some? <==> s.Some? && s.value != []
  {
    if s.Some? && s.value != [] then s else None
  }

  /** What the listing shows for a product just created is what was stored:
      its name and price, `Activo` exactly when `disponible` is 1, and the
      stock limit itself, which the form's defaults keep above 0. With the
      ensures of FieldsOf this ties the listing back to the form. */
  lemma CreatedThenListed(ps: seq<MenuProduct>, nextId: int, cs: seq<Category>, ms: seq<MenuRow>,
                          category: Option<string>, menuName: string, x: Fields, categoria: string, menu: string)
    requires x.stockLimite > 0
    requires CreateFor(ps, nextId, cs, ms, category, menuName, x).0.ProductCreated?
    ensures var ps' := CreateFor(ps, nextId, cs, ms, category, menuName, x).1;
      |ps'| == |ps| + 1 &&
      var m := ListItem(ps'[|ps|], categoria, menu);
      m.id == nextId && m.name == x.nombre && m.price == x.precio &&
      (m.status == "Activo" <==> x.disponible == 1) && m.stockLimite == x.stockLimite &&
      (m.especialDia <==> x.especialDia == 1)
  {
  }

  /** A deactivated product is listed as `Inactivo`. */
  lemma DeletedListedInactive(ps: seq<MenuProduct>, id: int, categoria: string, menu: string)
    requires DeleteMenuItemSpec(ps, id).0.ProductDeactivated?
    ensures var ps' := DeleteMenuItemSpec(ps, id).1;
      ListItem(ps'[FindProductIndex(ps, id).value], categoria, menu).status == "Inactivo"
  {
  }

  // ---------------------------------------------------------------------------
  // The table as an object
  // ---------------------------------------------------------------------------

  class MenuCatalog {
    var productos: seq<MenuProduct>
    var categorias: seq<Category>
    var menus: seq<MenuRow>
    var nextId: int

    predicate Valid()
      reads this
    {
      CatalogOk(productos, nextId)
    }

    constructor (ps: seq<MenuProduct>, cs: seq<Category>, ms: seq<MenuRow>, next: int)
      requires CatalogOk(ps, next)
      ensures Valid() && productos == ps && categorias == cs && menus == ms && nextId == next
    {
      productos, categorias, menus, nextId := ps, cs, ms, next;
    }

    method Insert(category: Option<string>, menu: string, x: Fields) returns (resp: MenuResult)
      requires Valid()
      modifies this
      ensures Valid() && categorias == old(categorias) && menus == old(menus)
      ensures (resp, productos, nextId) == CreateFor(old(productos), old(nextId), categorias, menus, category, menu, x)
    {
      CreateKeepsCatalog(productos, nextId, categorias, menus, category, menu, x);
      var idCategoria := CategoryId(categorias, category);
      if idCategoria.None? {
        return CategoryNotFound;
      }
      var idMenu := MenuId(menus, menu);
      if idMenu.None? {
        return MenuNotFound;
      }
      if NameUsed(productos, x.nombre, None) {
        return NameTaken;
      }
      productos := productos + [MenuProduct(nextId, x.nombre, x.descripcion, x.precio, idCategoria.value,
                                            idMenu.value, x.disponible, x.stockLimite, x.especialDia, x.imagenUrl)];
      resp := ProductCreated(nextId);
      nextId := nextId + 1;
    }

    /** POST /api/menu. */
    method CreateMenuItem(f: ProductForm) returns (resp: MenuResult)
      requires Valid()
      modifies this
      ensures Valid() && categorias == old(categorias) && menus == old(menus)
      ensures (resp, productos, nextId) == CreateMenuItemSpec(old(productos), old(nextId), categorias, menus, f)
    {
      var problem := CheckProduct(f);
      if problem.Some? {
        return Invalid(problem.value);
      }
      resp := Insert(f.category, Trim(f.menu.value), FieldsOf(f));
    }

    method Rewrite(id: int, category: Option<string>, menu: string, x: Fields) returns (resp: MenuResult)
      requires Valid()
      modifies this
      ensures Valid() && categorias == old(categorias) && menus == old(menus) && nextId == old(nextId)
      ensures (resp, productos) == UpdateFor(old(productos), id, categorias, menus, category, menu, x)
    {
      UpdateKeepsCatalog(productos, nextId, id, categorias, menus, category, menu, x);
      var k := FindProductIndex(productos, id);
      if k.None? {
        return ProductNotFound;
      }
      if NameUsed(productos, x.nombre, Some(id)) {
        return NameTaken;
      }
      var idCategoria := CategoryId(categorias, category);
      if idCategoria.None? {
        return CategoryNotFound;
      }
      var idMenu := MenuId(menus, menu);
      if idMenu.None? {
        return MenuNotFound;
      }
      productos := productos[k.value := MenuProduct(id, x.nombre, x.descripcion, x.precio, idCategoria.value,
                                                    idMenu.value, x.disponible, x.stockLimite, x.especialDia,
                                                    x.imagenUrl)];
      resp := ProductUpdated;
    }

    /** PUT /api/menu/:id. */
    method UpdateMenuItem(id: int, f: ProductForm) returns (resp: MenuResult)
      requires Valid()
      modifies this
      ensures Valid() && categorias == old(categorias) && menus == old(menus) && nextId == old(nextId)
      ensures (resp, productos) == UpdateMenuItemSpec(old(productos), id, categorias, menus, f)
    {
      var problem := CheckProduct(f);
      if problem.Some? {
        return Invalid(problem.value);
      }
      resp := Rewrite(id, f.category, Trim(f.menu.value), FieldsOf(f));
    }

    /** DELETE /api/menu/:id. */
    method DeleteMenuItem(id: int) returns (resp: MenuResult)
      requires Valid()
      modifies this
      ensures Valid() && categorias == old(categorias) && menus == old(menus) && nextId == old(nextId)
      ensures (resp, productos) == DeleteMenuItemSpec(old(productos), id)
    {
      DeleteIsSoft(productos, nextId, id);
      var k := FindProductIndex(productos, id);
      if k.None? {
        return ProductNotFound;
      }
      resp := ProductDeactivated(productos[k.value].nombre);
      productos := productos[k.value := productos[k.value].(disponible := 0)];
    }
  }
}
