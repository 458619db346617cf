/** `registrarVenta` (Back_End/controllers/manualSaleController.js): the
    table-sale endpoint. It validates the cart, requires an available table,
    checks every line against the stock read at the start of the transaction,
    prices the order from the catalogue plus the active customization extras,
    writes the order, its lines and its customization rows, decrements stock and
    marks the table `ocupada`; any failure leaves every table as it was. */
module TableSales {
  import opened Common
  import opened Schema

  datatype SaleLine = SaleLine(idProducto: int, cantidad: real, personalizaciones: seq<int>)

  /** The request body. `idSede` and `idUsuario` default to 1 when absent. */
  datatype SaleRequest = SaleRequest(idMesa: Option<int>, idSede: Option<int>,
                                     idUsuario: Option<int>, productos: Option<seq<SaleLine>>,
                                     observaciones: Option<string>)

  datatype SaleResponse =
    | SaleCreated(idPedido: int, total: int, idMesa: int, numeroMesa: int,
                  cantidadProductos: nat, cantidadItems: int)
    | MesaRequired
    | CartEmpty
    | InvalidProducts
    | MesaNotFound
    | MesaNoDisponible(numero: int)
    | ProductNotFound(idProducto: int)
    | InsufficientStock(producto: string, disponible: int, solicitado: int)

  function SaleStatusCode(r: SaleResponse): int {
    match r
    case SaleCreated(_, _, _, _, _, _) => 201
    case MesaNotFound => 404
    case MesaNoDisponible(_) => 409
    case _ => 400
  }

  /** `Number.isInteger(x)`. */
  predicate IsWholeNumber(x: real) {
    x.Floor as real == x
  }

  /** `p.idProducto && p.cantidad && Number.isInteger(p.cantidad) && p.cantidad > 0`. */
  predicate ValidSaleLine(l: SaleLine) {
    l.idProducto != 0 && l.cantidad != 0.0 && IsWholeNumber(l.cantidad) && l.cantidad > 0.0
  }

  predicate ValidSaleLines(ls: seq<SaleLine>) {
    forall i :: 0 <= i < |ls| ==> ValidSaleLine(ls[i])
  }

  /** The quantity of a validated line as the integer it is. */
  function Qty(l: SaleLine): int {
    l.cantidad.Floor
  }

  /** One row of `inventario ⋈ producto` at the sede. */
  datatype StockEntry = StockEntry(idProducto: int, nombre: string, precio: int, stock: int)

  /** `stockData.find(s => s.idProducto === prod)`. */
  function FindStock(inv: seq<InvRow>, productos: seq<Product>, sede: int, prod: int): (r: Option<StockEntry>)
    ensures r.Some? ==> FirstInv(inv, prod, sede).Some? && FindProduct(productos, prod).Some? &&
                        r.value.stock == inv[FirstInv(inv, prod, sede).value].stock
  {
    match (FirstInv(inv, prod, sede), FindProduct(productos, prod))
    case (Some(k), Some(p)) => Some(StockEntry(prod, p.nombre, p.precio, inv[k].stock))
    case _ => None
  }

  /** How the stock of a product is judged against the cart. */
  datatype StockRule =
    | PerLine     // each line alone against the stock read before the order
    | PerProduct  // all lines of the same product together

  /** Σ Qty over the lines of product `prod`. */
  function CartQtyOf(ls: seq<SaleLine>, prod: int): int {
    if ls == [] then 0
    else CartQtyOf(ls[..|ls| - 1], prod) + (if ls[|ls| - 1].idProducto == prod then Qty(ls[|ls| - 1]) else 0)
  }

  /** The quantity a line is checked against the stock with, under each rule. */
  function Demand(ls: seq<SaleLine>, i: nat, rule: StockRule): int
    requires i < |ls|
  {
    match rule
    case PerLine => Qty(ls[i])
    case PerProduct => CartQtyOf(ls, ls[i].idProducto)
  }

  /** The first failure of the stock-validation loop over lines `ls[..n]`, if any. */
  function StockProblem(inv: seq<InvRow>, productos: seq<Product>, sede: int,
                        ls: seq<SaleLine>, n: nat, rule: StockRule): (r: Option<SaleResponse>)
    requires n <= |ls|
    ensures r.Some? ==> r.value.ProductNotFound? || r.value.InsufficientStock?
  {
    if n == 0 then None
    else match StockProblem(inv, productos, sede, ls, n - 1, rule)
      case Some(e) => Some(e)
      case None =>
        match FindStock(inv, productos, sede, ls[n - 1].idProducto)
        case None => Some(ProductNotFound(ls[n - 1].idProducto))
        case Some(e) =>
          if e.stock < Demand(ls, n - 1, rule) then Some(InsufficientStock(e.nombre, e.stock, Qty(ls[n - 1])))
          else None
  }

  /** Σ costoExtra over the active customization rows whose id the line lists
      (`WHERE idPersonalizacion IN (?) AND activo = 1`). */
  function ExtraCost(custs: seq<Customization>, ids: seq<int>): int {
    if custs == [] then 0
    else
      var c := custs[|custs| - 1];
      ExtraCost(custs[..|custs| - 1], ids) + (if c.activo && c.idPersonalizacion in ids then c.costoExtra else 0)
  }

  /** What one line adds to the order total. */
  function LineAmount(db: Db, sede: int, l: SaleLine): int {
    match FindStock(db.inventario, db.productos, sede, l.idProducto)
    case None => 0
    case Some(e) => e.precio * Qty(l) + ExtraCost(db.personalizaciones, l.personalizaciones) * Qty(l)
  }

  /** `totalPedido` after the first `n` lines. */
  function SaleTotal(db: Db, sede: int, ls: seq<SaleLine>, n: nat): int
    requires n <= |ls|
  {
    if n == 0 then 0 else SaleTotal(db, sede, ls, n - 1) + LineAmount(db, sede, ls[n - 1])
  }

  /** The `pedido_producto` rows of the first `n` lines. */
  function SaleLines(db: Db, sede: int, id: int, ls: seq<SaleLine>, n: nat): seq<OrderLine>
    requires n <= |ls|
  {
    if n == 0 then []
    else
      var l := ls[n - 1];
      var price := match FindStock(db.inventario, db.productos, sede, l.idProducto)
        case Some(e) => e.precio case None => 0;
      SaleLines(db, sede, id, ls, n - 1) + [OrderLine(id, l.idProducto, Qty(l), Given(price))]
  }

  /** One `pedido_personalizacion` row per listed customization id. */
  function PersRowsOf(id: int, l: SaleLine): (r: seq<OrderCustomization>)
    ensures |r| == |l.personalizaciones|
    ensures forall j :: 0 <= j < |r| ==>
      r[j] == OrderCustomization(id, l.idProducto, l.personalizaciones[j])
  {
    seq(|l.personalizaciones|, j requires 0 <= j < |l.personalizaciones| =>
      OrderCustomization(id, l.idProducto, l.personalizaciones[j]))
  }

  function SalePers(id: int, ls: seq<SaleLine>, n: nat): seq<OrderCustomization>
    requires n <= |ls|
  {
    if n == 0 then [] else SalePers(id, ls, n - 1) + PersRowsOf(id, ls[n - 1])
  }

  /** The inventory after the decrements of the first `n` lines. */
  function SaleInventory(inv: seq<InvRow>, sede: int, ls: seq<SaleLine>, n: nat): (r: seq<InvRow>)
    requires n <= |ls|
    ensures |r| == |inv|
  {
    if n == 0 then inv
    else DecrementStock(SaleInventory(inv, sede, ls, n - 1), ls[n - 1].idProducto, sede, Qty(ls[n - 1]))
  }

  /** `productos.reduce((sum, p) => sum + p.cantidad, 0)`. */
  function ItemCount(ls: seq<SaleLine>): int {
    if ls == [] then 0 else ItemCount(ls[..|ls| - 1]) + Qty(ls[|ls| - 1])
  }

  function SedeOf(req: SaleRequest): int {
    if req.idSede.Some? then req.idSede.value else 1
  }

  function UsuarioOf(req: SaleRequest): int {
    if req.idUsuario.Some? then req.idUsuario.value else 1
  }

  /** The handler under a stock rule: the response and the committed state.
      `PerLine` is what the controller does. */
  function RegistrarVentaSpec(db: Db, req: SaleRequest, now: int, rule: StockRule): (SaleResponse, Db) {
    if !Truthy(req.idMesa) then (MesaRequired, db)
    else if req.productos.None? || req.productos.value == [] then (CartEmpty, db)
    else if !ValidSaleLines(req.productos.value) then (InvalidProducts, db)
    else
      var ls := req.productos.value;
      match FindMesa(db.mesas, req.idMesa.value)
      case None => (MesaNotFound, db)
      case Some(m) =>
        if m.estado != "disponible" then (MesaNoDisponible(m.numero), db)
        else
          match StockProblem(db.inventario, db.productos, SedeOf(req), ls, |ls|, rule)
          case Some(e) => (e, db)
          case None => SaleCommit(db, req, now, m)
  }

  /** The writes of a sale that passed every check. */
  function SaleCommit(db: Db, req: SaleRequest, now: int, m: Mesa): (SaleResponse, Db)
    requires req.idMesa.Some? && req.productos.Some?
  {
    var ls := req.productos.value;
    var idMesa := req.idMesa.value;
    var sede := SedeOf(req);
    var id := db.nextPedido;
    var total := SaleTotal(db, sede, ls, |ls|);
    var order := Order(id, Some(UsuarioOf(req)), Some(idMesa), now, Pendiente, total, sede,
                       req.observaciones, Some("mesa"));
    (SaleCreated(id, total, idMesa, m.numero, |ls|, ItemCount(ls)),
     db.(pedidos := db.pedidos + [order],
         lineas := db.lineas + SaleLines(db, sede, id, ls, |ls|),
         pedidoPers := db.pedidoPers + SalePers(id, ls, |ls|),
         inventario := SaleInventory(db.inventario, sede, ls, |ls|),
         mesas := SetMesaEstado(db.mesas, idMesa, "ocupada"),
         nextPedido := id + 1))
  }

  /** What a successful sale implies: every check passed and the commit happened. */
  lemma SaleCreatedCase(db: Db, req: SaleRequest, now: int, rule: StockRule)
    requires RegistrarVentaSpec(db, req, now, rule).0.SaleCreated?
    ensures Truthy(req.idMesa) && req.productos.Some? && req.productos.value != []
    ensures ValidSaleLines(req.productos.value)
    ensures FindMesa(db.mesas, req.idMesa.value).Some?
    ensures FindMesa(db.mesas, req.idMesa.value).value.estado == "disponible"
    ensures StockProblem(db.inventario, db.productos, SedeOf(req), req.productos.value,
                         |req.productos.value|, rule).None?
    ensures RegistrarVentaSpec(db, req, now, rule) ==
            SaleCommit(db, req, now, FindMesa(db.mesas, req.idMesa.value).value)
  {
  }

  // ---------------------------------------------------------------------------
  // Properties
  // ---------------------------------------------------------------------------

  /** The input checks come first, in this order, and write nothing. */
  lemma SaleInputChecks(db: Db, req: SaleRequest, now: int, rule: StockRule)
    ensures !Truthy(req.idMesa) ==> RegistrarVentaSpec(db, req, now, rule) == (MesaRequired, db)
    ensures Truthy(req.idMesa) && (req.productos.None? || req.productos == Some([])) ==>
      RegistrarVentaSpec(db, req, now, rule) == (CartEmpty, db)
    ensures Truthy(req.idMesa) && req.productos.Some? && req.productos.value != [] &&
      (exists i :: 0 <= i < |req.productos.value| && !ValidSaleLine(req.productos.value[i]))
      ==> RegistrarVentaSpec(db, req, now, rule) == (InvalidProducts, db)
  {
  }

  /** The table gate: an unknown table is 404, a table that is not `disponible` 409. */
  lemma SaleTableGate(db: Db, req: SaleRequest, now: int, rule: StockRule)
    requires Truthy(req.idMesa) && req.productos.Some? && req.productos.value != []
    requires ValidSaleLines(req.productos.value)
    ensures (forall m :: m in db.mesas ==> m.idMesa != req.idMesa.value) ==>
      RegistrarVentaSpec(db, req, now, rule) == (MesaNotFound, db)
    ensures FindMesa(db.mesas, req.idMesa.value).Some? && FindMesa(db.mesas, req.idMesa.value).value.estado != "disponible" ==>
      RegistrarVentaSpec(db, req, now, rule) == (MesaNoDisponible(FindMesa(db.mesas, req.idMesa.value).value.numero), db)
  {
  }

  /** All or nothing: a refused sale leaves every table as it was; a successful
      one adds one pending `mesa` order with the computed total. */
  lemma SaleAllOrNothing(db: Db, req: SaleRequest, now: int, rule: StockRule)
    ensures var (resp, db') := RegistrarVentaSpec(db, req, now, rule);
      (!resp.SaleCreated? ==> db' == db) &&
      (resp.SaleCreated? ==>
        Truthy(req.idMesa) && req.productos.Some? && ValidSaleLines(req.productos.value) &&
        resp.idPedido == db.nextPedido && db'.nextPedido == db.nextPedido + 1 &&
        |db'.pedidos| == |db.pedidos| + 1 && db'.pedidos[..|db.pedidos|] == db.pedidos &&
        db'.pedidos[|db.pedidos|].estado == Pendiente &&
        db'.pedidos[|db.pedidos|].total == resp.total &&
        db'.pedidos[|db.pedidos|].tipo == Some("mesa") &&
        db'.pedidos[|db.pedidos|].idPedido == resp.idPedido &&
        db'.pedidos[|db.pedidos|].idUsuario == Some(UsuarioOf(req)) &&
        db'.pedidos[|db.pedidos|].idMesa == Some(req.idMesa.value) &&
        db'.pedidos[|db.pedidos|].observaciones == req.observaciones &&
        resp.total == SaleTotal(db, SedeOf(req), req.productos.value, |req.productos.value|) &&
        db'.pagos == db.pagos && db'.productos == db.productos)
  {
    var (resp, db') := RegistrarVentaSpec(db, req, now, rule);
    if resp.SaleCreated? {
      SaleCreatedCase(db, req, now, rule);
      assert db'.pedidos[..|db.pedidos|] == db.pedidos;
    }
  }

  /** The writes of a sale keep the key of `pedido`. */
  lemma SaleCommitKeepsOrderIds(db: Db, req: SaleRequest, now: int, m: Mesa)
    requires req.idMesa.Some? && req.productos.Some?
    requires OrderIdsOk(db)
    ensures OrderIdsOk(SaleCommit(db, req, now, m).1)
  {
    var db' := SaleCommit(db, req, now, m).1;
    AppendOrderKeepsIds(db, db', db'.pedidos[|db.pedidos|]);
  }

  /** The stock gate, both directions: the validation loop passes exactly when
      every line's product has a row at the sede whose stock covers the line's demand. */
  lemma {:induction false} StockProblemNone(inv: seq<InvRow>, productos: seq<Product>, sede: int,
                                            ls: seq<SaleLine>, n: nat, rule: StockRule)
    requires n <= |ls|
    ensures StockProblem(inv, productos, sede, ls, n, rule).None? <==>
      forall i :: 0 <= i < n ==>
        FindStock(inv, productos, sede, ls[i].idProducto).Some? &&
        FindStock(inv, productos, sede, ls[i].idProducto).value.stock >= Demand(ls, i, rule)
  {
    if n > 0 {
      StockProblemNone(inv, productos, sede, ls, n - 1, rule);
    }
  }

  /** A successful sale went through the table and stock gates: the table
      existed and was `disponible`, and it is `ocupada` afterwards. */
  lemma SaleOccupiesTable(db: Db, req: SaleRequest, now: int, rule: StockRule)
    requires RegistrarVentaSpec(db, req, now, rule).0.SaleCreated?
    ensures var db' := RegistrarVentaSpec(db, req, now, rule).1;
      var id := req.idMesa.value;
      FindMesa(db.mesas, id).Some? && FindMesa(db.mesas, id).value.estado == "disponible" &&
      FindMesa(db'.mesas, id) == Some(FindMesa(db.mesas, id).value.(estado := "ocupada"))
  {
    SaleCreatedCase(db, req, now, rule);
    FindMesaSet(db.mesas, req.idMesa.value, "ocupada");
  }

  lemma {:induction false} FindMesaSet(mesas: seq<Mesa>, id: int, e: string)
    ensures FindMesa(mesas, id).Some? ==>
      FindMesa(SetMesaEstado(mesas, id, e), id) == Some(FindMesa(mesas, id).value.(estado := e))
  {
    if mesas != [] && mesas[0].idMesa != id {
      FindMesaSet(mesas[1..], id, e);
      assert SetMesaEstado(mesas, id, e)[1..] == SetMesaEstado(mesas[1..], id, e);
    }
  }

  /** Each inventory row loses exactly the quantity the lines order of its
      product when it is at the sale's sede, and is otherwise untouched. */
  lemma {:induction false} SaleInventoryAt(inv: seq<InvRow>, sede: int, ls: seq<SaleLine>, n: nat, k: nat)
    requires n <= |ls| && k < |inv|
    ensures |SaleInventory(inv, sede, ls, n)| == |inv|
    ensures SaleInventory(inv, sede, ls, n)[k] ==
      inv[k].(stock := inv[k].stock - if inv[k].idSede == sede then CartQtyOf(ls[..n], inv[k].idProducto) else 0)
  {
    if n > 0 {
      SaleInventoryAt(inv, sede, ls, n - 1, k);
      assert ls[..n][..n - 1] == ls[..n - 1];
    }
  }

  /** The order's lines: one per cart line, in cart order, priced from the catalogue. */
  lemma {:induction false} SaleLinesAt(db: Db, sede: int, id: int, ls: seq<SaleLine>, n: nat)
    requires n <= |ls|
    ensures |SaleLines(db, sede, id, ls, n)| == n
    ensures forall i :: 0 <= i < n ==>
      var e := FindStock(db.inventario, db.productos, sede, ls[i].idProducto);
      SaleLines(db, sede, id, ls, n)[i] ==
        OrderLine(id, ls[i].idProducto, Qty(ls[i]), Given(if e.Some? then e.value.precio else 0))
  {
    if n > 0 {
      SaleLinesAt(db, sede, id, ls, n - 1);
    }
  }

  /** One customization row per selected id across the cart. */
  lemma {:induction false} SalePersCount(id: int, ls: seq<SaleLine>, n: nat)
    requires n <= |ls|
    ensures |SalePers(id, ls, n)| == PersCount(ls[..n])
  {
    if n > 0 {
      SalePersCount(id, ls, n - 1);
      assert ls[..n][..n - 1] == ls[..n - 1];
    }
  }

  function PersCount(ls: seq<SaleLine>): nat {
    if ls == [] then 0 else PersCount(ls[..|ls| - 1]) + |ls[|ls| - 1].personalizaciones|
  }

  /** The extras of a line depend only on the SET of ids it lists: repeating an
      id does not charge it twice (SQL `IN`). */
  lemma {:induction false} ExtraCostBySet(custs: seq<Customization>, a: seq<int>, b: seq<int>)
    requires forall x :: x in a <==> x in b
    ensures ExtraCost(custs, a) == ExtraCost(custs, b)
  {
    if custs != [] {
      ExtraCostBySet(custs[..|custs| - 1], a, b);
    }
  }

  /** Inactive options never cost anything. */
  lemma {:induction false} ExtraCostOnlyActive(custs: seq<Customization>, ids: seq<int>)
    requires forall c :: c in custs ==> !c.activo
    ensures ExtraCost(custs, ids) == 0
  {
    if custs != [] {
      assert forall c :: c in custs[..|custs| - 1] ==> c in custs;
      ExtraCostOnlyActive(custs[..|custs| - 1], ids);
    }
  }

  /** With distinct product ids, a product's cart quantity is its one line's quantity. */
  lemma {:induction false} CartQtyDistinct(ls: seq<SaleLine>, i: nat)
    requires i < |ls|
    requires forall a, b :: 0 <= a < b < |ls| ==> ls[a].idProducto != ls[b].idProducto
    ensures CartQtyOf(ls, ls[i].idProducto) == Qty(ls[i])
  {
    var p := ls[i].idProducto;
    var pre := ls[..|ls| - 1];
    if i == |ls| - 1 {
      CartQtyAbsent(pre, p);
    } else {
      CartQtyDistinct(pre, i);
    }
  }

  lemma {:induction false} CartQtyAbsent(ls: seq<SaleLine>, p: int)
    requires forall a :: 0 <= a < |ls| ==> ls[a].idProducto != p
    ensures CartQtyOf(ls, p) == 0
  {
    if ls != [] {
      CartQtyAbsent(ls[..|ls| - 1], p);
    }
  }

  /** Stock stays non-negative under the per-product rule, for any cart: every
      row that was non-negative before a successful sale is non-negative after it. */
  lemma NoOversellPerProduct(db: Db, req: SaleRequest, now: int)
    requires InvKeyed(db.inventario)
    requires forall k :: 0 <= k < |db.inventario| ==> db.inventario[k].stock >= 0
    requires RegistrarVentaSpec(db, req, now, PerProduct).0.SaleCreated?
    ensures var db' := RegistrarVentaSpec(db, req, now, PerProduct).1;
      |db'.inventario| == |db.inventario| &&
      forall k :: 0 <= k < |db'.inventario| ==> db'.inventario[k].stock >= 0
  {
    NoOversellUnder(db, req, now, PerProduct);
  }

  /** Stock stays non-negative under the per-line rule the controller applies,
      provided no product appears on two lines of the cart. */
  lemma NoOversellPerLine(db: Db, req: SaleRequest, now: int)
    requires InvKeyed(db.inventario)
    requires forall k :: 0 <= k < |db.inventario| ==> db.inventario[k].stock >= 0
    requires req.productos.Some?
    requires forall a, b :: 0 <= a < b < |req.productos.value| ==>
      req.productos.value[a].idProducto != req.productos.value[b].idProducto
    requires RegistrarVentaSpec(db, req, now, PerLine).0.SaleCreated?
    ensures var db' := RegistrarVentaSpec(db, req, now, PerLine).1;
      |db'.inventario| == |db.inventario| &&
      forall k :: 0 <= k < |db'.inventario| ==> db'.inventario[k].stock >= 0
  {
    NoOversellUnder(db, req, now, PerLine);
  }

  lemma NoOversellUnder(db: Db, req: SaleRequest, now: int, rule: StockRule)
    requires InvKeyed(db.inventario)
    requires forall k :: 0 <= k < |db.inventario| ==> db.inventario[k].stock >= 0
    requires RegistrarVentaSpec(db, req, now, rule).0.SaleCreated?
    requires rule == PerLine ==>
      (req.productos.Some? &&
       forall a, b :: 0 <= a < b < |req.productos.value| ==>
         req.productos.value[a].idProducto != req.productos.value[b].idProducto)
    ensures var db' := RegistrarVentaSpec(db, req, now, rule).1;
      |db'.inventario| == |db.inventario| &&
      forall k :: 0 <= k < |db'.inventario| ==> db'.inventario[k].stock >= 0
  {
    var ls := req.productos.value;
    var sede := SedeOf(req);
    var inv := db.inventario;
    SaleCreatedCase(db, req, now, rule);
    StockProblemNone(inv, db.productos, sede, ls, |ls|, rule);
    var inv' := SaleInventory(inv, sede, ls, |ls|);
    assert RegistrarVentaSpec(db, req, now, rule).1.inventario == inv';
    forall k | 0 <= k < |inv|
      ensures inv'[k].stock >= 0
    {
      SaleInventoryAt(inv, sede, ls, |ls|, k);
      assert ls[..|ls|] == ls;
      var p := inv[k].idProducto;
      if inv[k].idSede == sede && CartQtyOf(ls, p) != 0 {
        LineOfExists(ls, p);
        var i :| 0 <= i < |ls| && ls[i].idProducto == p;
        var e := FindStock(inv, db.productos, sede, p);
        var j := FirstInv(inv, p, sede).value;
        assert j == k;
        if rule == PerLine {
          CartQtyDistinct(ls, i);
        }
        assert e.value.stock >= CartQtyOf(ls, p);
      }
    }
    SaleInventoryAt(inv, sede, ls, |ls|, 0);
  }

  /** A line naming a product whose cart quantity is not zero. */
  lemma {:induction false} LineOfExists(ls: seq<SaleLine>, p: int)
    requires CartQtyOf(ls, p) != 0
    ensures exists i :: 0 <= i < |ls| && ls[i].idProducto == p
  {
    if ls[|ls| - 1].idProducto != p {
      LineOfExists(ls[..|ls| - 1], p);
      var i :| 0 <= i < |ls| - 1 && ls[..|ls| - 1][i].idProducto == p;
      assert ls[i].idProducto == p;
    }
  }

  /** Under distinct product ids the two rules decide the same: per-line
      checking is only unsafe for carts that repeat a product. */
  lemma {:induction false} RulesAgreeOnDistinct(inv: seq<InvRow>, productos: seq<Product>, sede: int,
                                                ls: seq<SaleLine>)
    requires forall a, b :: 0 <= a < b < |ls| ==> ls[a].idProducto != ls[b].idProducto
    ensures StockProblem(inv, productos, sede, ls, |ls|, PerLine) ==
            StockProblem(inv, productos, sede, ls, |ls|, PerProduct)
  {
    forall i | 0 <= i < |ls| ensures Demand(ls, i, PerLine) == Demand(ls, i, PerProduct) {
      CartQtyDistinct(ls, i);
    }
    StockProblemSameDemand(inv, productos, sede, ls, |ls|);
  }

  lemma {:induction false} StockProblemSameDemand(inv: seq<InvRow>, productos: seq<Product>, sede: int,
                                                  ls: seq<SaleLine>, n: nat)
    requires n <= |ls|
    requires forall i :: 0 <= i < |ls| ==> Demand(ls, i, PerLine) == Demand(ls, i, PerProduct)
    ensures StockProblem(inv, productos, sede, ls, n, PerLine) ==
            StockProblem(inv, productos, sede, ls, n, PerProduct)
  {
    if n > 0 {
      StockProblemSameDemand(inv, productos, sede, ls, n - 1);
    }
  }

  // ---------------------------------------------------------------------------
  // A cart with the same product on two lines
  // ---------------------------------------------------------------------------

  /** One table, one product with one unit in stock at sede 1. */
  function OneUnitDb(): Db {
    Db([Mesa(5, 5, 1, "disponible")], [Product(7, "Perro", 10000)],
       [InvRow(1, 1, 7, 1, 5, 100)], [], [], [], [], [], 1)
  }

  /** The product twice: once customised, once plain (the cart keeps these apart). */
  function TwoLinesSameProduct(): SaleRequest {
    SaleRequest(Some(5), None, None, Some([SaleLine(7, 1.0, [3]), SaleLine(7, 1.0, [])]), None)
  }

  /** As written, each line passes the per-line check against the one unit, the
      sale commits, and the product's stock ends at -1. */
  lemma PerLineOversells()
    ensures var (resp, db') := RegistrarVentaSpec(OneUnitDb(), TwoLinesSameProduct(), 0, PerLine);
      resp.SaleCreated? && db'.inventario[0].stock == -1
  {
    var db := OneUnitDb();
    var ls := TwoLinesSameProduct().productos.value;
    assert ValidSaleLine(ls[0]) && ValidSaleLine(ls[1]);
    assert FindMesa(db.mesas, 5) == Some(db.mesas[0]);
    assert FindStock(db.inventario, db.productos, 1, 7) == Some(StockEntry(7, "Perro", 10000, 1));
    assert StockProblem(db.inventario, db.productos, 1, ls, 1, PerLine) == None;
    assert StockProblem(db.inventario, db.productos, 1, ls, 2, PerLine) == None;
    SaleInventoryAt(db.inventario, 1, ls, 2, 0);
    assert ls[..2] == ls;
    assert ls[..1] == [ls[0]];
    assert CartQtyOf(ls, 7) == 2;
  }

  /** Checked per product, the same cart is refused as INSUFFICIENT_STOCK and nothing is written. */
  lemma PerProductRefuses()
    ensures RegistrarVentaSpec(OneUnitDb(), TwoLinesSameProduct(), 0, PerProduct) ==
            (InsufficientStock("Perro", 1, 1), OneUnitDb())
  {
    var db := OneUnitDb();
    var ls := TwoLinesSameProduct().productos.value;
    assert ValidSaleLine(ls[0]) && ValidSaleLine(ls[1]);
    assert FindMesa(db.mesas, 5) == Some(db.mesas[0]);
    assert FindStock(db.inventario, db.productos, 1, 7) == Some(StockEntry(7, "Perro", 10000, 1));
    assert ls[..1] == [ls[0]];
    assert ls[..2] == ls;
    assert CartQtyOf(ls, 7) == 2;
    assert StockProblem(db.inventario, db.productos, 1, ls, 1, PerProduct) ==
      Some(InsufficientStock("Perro", 1, 1));
  }

  /** The validation loop stops at the first failing line. */
  lemma {:induction false} StockProblemSticks(inv: seq<InvRow>, productos: seq<Product>, sede: int,
                                              ls: seq<SaleLine>, n: nat, m: nat, rule: StockRule)
    requires n <= m <= |ls|
    requires StockProblem(inv, productos, sede, ls, n, rule).Some?
    ensures StockProblem(inv, productos, sede, ls, m, rule) == StockProblem(inv, productos, sede, ls, n, rule)
    decreases m - n
  {
    if m > n {
      StockProblemSticks(inv, productos, sede, ls, n, m - 1, rule);
    }
  }

  /** A line that lists no customization pays no extras. */
  lemma {:induction false} NoIdsNoExtra(custs: seq<Customization>, ids: seq<int>)
    requires ids == []
    ensures ExtraCost(custs, ids) == 0
  {
    if custs != [] {
      NoIdsNoExtra(custs[..|custs| - 1], ids);
    }
  }
}
