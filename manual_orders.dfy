/** `createManualOrder` (Back_End/controllers/orderController.js): the
    order-management modal's endpoint. It trusts the client's subtotals,
    decrements stock line by line, provisions an inventory row for a product
    that has none at the sede, and rolls the whole transaction back as soon as a
    line leaves its product's stock below zero. It never looks at, nor changes,
    the table's state. */
module ManualOrders {
  import opened Common
  import opened Schema

  datatype ManualLine = ManualLine(idProducto: int, cantidad: int, subtotal: int,
                                   precio: Option<int>, nombre: Option<string>)

  datatype ManualRequest = ManualRequest(idMesa: Option<int>, idUsuario: Option<int>,
                                         productos: Option<seq<ManualLine>>,
                                         observaciones: Option<string>)

  /** How the stock error names the product: `producto.nombre || producto.idProducto`. */
  datatype Label = ByName(nombre: string) | ById(id: int)

  datatype ManualResponse =
    | ManualCreated(idPedido: int, total: int)
    | NoTarget            // neither a table nor a customer
    | NoProducts          // an empty product list
    | ShortStock(producto: Label)
    | ManualServerError   // the body has no product list: reading its length throws

  function ManualStatusCode(r: ManualResponse): int {
    match r
    case ManualCreated(_, _) => 201
    case ManualServerError => 500
    case _ => 400
  }

  function Max(a: int, b: int): int { if a >= b then a else b }

  /** `productos.reduce((sum, p) => sum + p.subtotal, 0)`. */
  function SumSubtotals(ls: seq<ManualLine>): int {
    if ls == [] then 0 else SumSubtotals(ls[..|ls| - 1]) + ls[|ls| - 1].subtotal
  }

  /** Total quantity the lines order of one product. */
  function QtyOf(ls: seq<ManualLine>, prod: int): int {
    if ls == [] then 0
    else QtyOf(ls[..|ls| - 1], prod) + (if ls[|ls| - 1].idProducto == prod then ls[|ls| - 1].cantidad else 0)
  }

  /** Sede 1 unless the request names a table that exists. */
  function ManualSede(mesas: seq<Mesa>, idMesa: Option<int>): int {
    if Truthy(idMesa) && FindMesa(mesas, idMesa.value).Some? then FindMesa(mesas, idMesa.value).value.idSede
    else 1
  }

  /** `producto.precio || (producto.subtotal / producto.cantidad)`. */
  function UnitPriceOf(l: ManualLine): UnitPrice {
    if Truthy(l.precio) then Given(l.precio.value) else PerUnit(l.subtotal, l.cantidad)
  }

  function LabelOf(l: ManualLine): Label {
    if l.nombre.Some? && l.nombre.value != [] then ByName(l.nombre.value) else ById(l.idProducto)
  }

  /** The row the provisioning INSERT creates for a product with no inventory at the sede. */
  function Provision(sede: int, l: ManualLine): InvRow {
    InvRow(1, sede, l.idProducto, Max(0, 100 - l.cantidad), 5, 100)
  }

  /** The stock UPDATE for one line and, when it matched no row, the provisioning
      INSERT. The inventory's unique key is (idProducto, idSede), so the INSERT's
      ON DUPLICATE KEY branch cannot fire after an UPDATE that matched nothing. */
  function ManualDecrement(inv: seq<InvRow>, l: ManualLine, sede: int): seq<InvRow> {
    if FirstInv(inv, l.idProducto, sede).Some? then DecrementStock(inv, l.idProducto, sede, l.cantidad)
    else inv + [Provision(sede, l)]
  }

  /** The check after each line: the first row for (product, sede) is below zero. */
  predicate WentNegative(inv: seq<InvRow>, prod: int, sede: int) {
    FirstInv(inv, prod, sede).Some? && inv[FirstInv(inv, prod, sede).value].stock < 0
  }

  datatype LinesOutcome = LinesFailed(at: Label) | LinesDone(inv: seq<InvRow>, lines: seq<OrderLine>)

  /** The per-line loop over `ls`, in order: insert the line, decrement (or
      provision) stock, stop at the first line that leaves stock negative. */
  function ManualRun(inv: seq<InvRow>, lines: seq<OrderLine>, id: int, sede: int,
                     ls: seq<ManualLine>): LinesOutcome
  {
    if ls == [] then LinesDone(inv, lines)
    else match ManualRun(inv, lines, id, sede, ls[..|ls| - 1])
      case LinesFailed(a) => LinesFailed(a)
      case LinesDone(inv1, lines1) => ManualStep(inv1, lines1, id, sede, ls[|ls| - 1])
  }

  function ManualStep(inv: seq<InvRow>, lines: seq<OrderLine>, id: int, sede: int,
                      l: ManualLine): LinesOutcome
  {
    var inv1 := ManualDecrement(inv, l, sede);
    if WentNegative(inv1, l.idProducto, sede) then LinesFailed(LabelOf(l))
    else LinesDone(inv1, lines + [OrderLine(id, l.idProducto, l.cantidad, UnitPriceOf(l))])
  }

  /** The `pedido` row createManualOrder inserts. */
  function ManualOrderRow(db: Db, req: ManualRequest, ls: seq<ManualLine>, now: int): Order {
    Order(db.nextPedido, OrNull(req.idUsuario), OrNull(req.idMesa), now, Pendiente,
          SumSubtotals(ls), ManualSede(db.mesas, req.idMesa), TextOrNull(req.observaciones), None)
  }

  /** The whole handler: the response and the committed state (the old state on rollback). */
  function CreateManualOrderSpec(db: Db, req: ManualRequest, now: int): (ManualResponse, Db) {
    if req.productos.None? then (ManualServerError, db)
    else if !Truthy(req.idMesa) && !Truthy(req.idUsuario) then (NoTarget, db)
    else if req.productos.value == [] then (NoProducts, db)
    else
      var ls := req.productos.value;
      var order := ManualOrderRow(db, req, ls, now);
      match ManualRun(db.inventario, db.lineas, order.idPedido, order.idSede, ls)
      case LinesFailed(a) => (ShortStock(a), db)
      case LinesDone(inv, lines) =>
        (ManualCreated(order.idPedido, order.total),
         db.(pedidos := db.pedidos + [order], lineas := lines, inventario := inv,
             nextPedido := db.nextPedido + 1))
  }

  // ---------------------------------------------------------------------------
  // Properties
  // ---------------------------------------------------------------------------

  /** The request is refused without a write when it names neither a table nor a
      customer, or when its product list is empty; a missing list is a server error. */
  lemma ManualRejections(db: Db, req: ManualRequest, now: int)
    ensures req.productos.None? ==> CreateManualOrderSpec(db, req, now) == (ManualServerError, db)
    ensures req.productos.Some? && !Truthy(req.idMesa) && !Truthy(req.idUsuario) ==>
      CreateManualOrderSpec(db, req, now) == (NoTarget, db)
    ensures req.productos == Some([]) && (Truthy(req.idMesa) || Truthy(req.idUsuario)) ==>
      CreateManualOrderSpec(db, req, now) == (NoProducts, db)
  {
  }

  /** All or nothing: a failed request leaves every table as it was; a successful
      one adds exactly one `pedido` row, pending, carrying the sum of the
      client's subtotals and the sede of the named table (1 when there is none). */
  lemma ManualAllOrNothing(db: Db, req: ManualRequest, now: int)
    ensures var (resp, db') := CreateManualOrderSpec(db, req, now);
      (!resp.ManualCreated? ==> db' == db) &&
      (resp.ManualCreated? ==>
        req.productos.Some? && |req.productos.value| > 0 &&
        resp.idPedido == db.nextPedido && db'.nextPedido == db.nextPedido + 1 &&
        resp.total == SumSubtotals(req.productos.value) &&
        db'.pedidos == db.pedidos + [db'.pedidos[|db.pedidos|]] &&
        db'.pedidos[|db.pedidos|].estado == Pendiente &&
        db'.pedidos[|db.pedidos|].total == resp.total &&
        db'.pedidos[|db.pedidos|].idSede == ManualSede(db.mesas, req.idMesa) &&
        db'.pedidos[|db.pedidos|].idPedido == resp.idPedido &&
        db'.pedidos[|db.pedidos|].idUsuario == OrNull(req.idUsuario) &&
        db'.pedidos[|db.pedidos|].idMesa == OrNull(req.idMesa) &&
        db'.pedidos[|db.pedidos|].observaciones == TextOrNull(req.observaciones) &&
        db'.mesas == db.mesas && db'.pagos == db.pagos && db'.pedidoPers == db.pedidoPers)
  {
  }

  /** A manual order keeps the key of `pedido`. */
  lemma ManualKeepsOrderIds(db: Db, req: ManualRequest, now: int)
    requires OrderIdsOk(db)
    ensures OrderIdsOk(CreateManualOrderSpec(db, req, now).1)
  {
    var (resp, db') := CreateManualOrderSpec(db, req, now);
    ManualAllOrNothing(db, req, now);
    if resp.ManualCreated? {
      AppendOrderKeepsIds(db, db', db'.pedidos[|db.pedidos|]);
    }
  }

  /** The sede rule: 1 unless a truthy table id names an existing table. */
  lemma ManualSedeRule(mesas: seq<Mesa>, idMesa: Option<int>)
    ensures !Truthy(idMesa) ==> ManualSede(mesas, idMesa) == 1
    ensures Truthy(idMesa) && (forall m :: m in mesas ==> m.idMesa != idMesa.value) ==> ManualSede(mesas, idMesa) == 1
    ensures Truthy(idMesa) && (exists m :: m in mesas && m.idMesa == idMesa.value) ==>
      exists m :: m in mesas && m.idMesa == idMesa.value && ManualSede(mesas, idMesa) == m.idSede
  {
  }

  lemma SumSubtotalsAppend(ls: seq<ManualLine>, l: ManualLine)
    ensures SumSubtotals(ls + [l]) == SumSubtotals(ls) + l.subtotal
  {
    assert (ls + [l])[..|ls|] == ls;
  }

  lemma {:induction false} SumSubtotalsConcat(a: seq<ManualLine>, b: seq<ManualLine>)
    ensures SumSubtotals(a + b) == SumSubtotals(a) + SumSubtotals(b)
    decreases |b|
  {
    if b == [] {
      assert a + b == a;
    } else {
      var b0 := b[..|b| - 1];
      SumSubtotalsConcat(a, b0);
      assert a + b == (a + b0) + [b[|b| - 1]];
      SumSubtotalsAppend(a + b0, b[|b| - 1]);
      SumSubtotalsAppend(b0, b[|b| - 1]);
      assert b0 + [b[|b| - 1]] == b;
    }
  }

  /** Rows of other products or sedes keep their first-match index and contents
      under one line's decrement; the line's own product always has a row afterwards. */
  lemma ManualDecrementFirst(inv: seq<InvRow>, l: ManualLine, sede: int, p: int)
    ensures FirstInv(ManualDecrement(inv, l, sede), l.idProducto, sede).Some?
    ensures p != l.idProducto ==>
      FirstInv(ManualDecrement(inv, l, sede), p, sede) == FirstInv(inv, p, sede) &&
      (FirstInv(inv, p, sede).Some? ==>
        ManualDecrement(inv, l, sede)[FirstInv(inv, p, sede).value] == inv[FirstInv(inv, p, sede).value])
  {
    var inv1 := ManualDecrement(inv, l, sede);
    match FirstInv(inv, l.idProducto, sede)
    case Some(k) =>
      FirstInvAt(inv1, l.idProducto, sede, k);
      if p != l.idProducto {
        match FirstInv(inv, p, sede)
        case Some(j) => FirstInvAt(inv1, p, sede, j);
        case None => FirstInvNone(inv1, p, sede);
      }
    case None =>
      FirstInvAt(inv1, l.idProducto, sede, |inv|);
      if p != l.idProducto {
        match FirstInv(inv, p, sede)
        case Some(j) => FirstInvAt(inv1, p, sede, j);
        case None => FirstInvNone(inv1, p, sede);
      }
  }

  /** FirstInv is determined by its postcondition: the first matching index. */
  lemma FirstInvAt(inv: seq<InvRow>, p: int, s: int, k: nat)
    requires k < |inv| && inv[k].idProducto == p && inv[k].idSede == s
    requires forall j :: 0 <= j < k ==> !(inv[j].idProducto == p && inv[j].idSede == s)
    ensures FirstInv(inv, p, s) == Some(k)
  {
  }

  lemma FirstInvNone(inv: seq<InvRow>, p: int, s: int)
    requires forall j :: 0 <= j < |inv| ==> !(inv[j].idProducto == p && inv[j].idSede == s)
    ensures FirstInv(inv, p, s) == None
  {
  }

  /** No oversell on the first row: after a successful run, every product the
      lines name has a row at the sede and that row's stock is not negative. */
  lemma {:induction false} ManualRunNonNegative(inv: seq<InvRow>, lines: seq<OrderLine>, id: int,
                                                sede: int, ls: seq<ManualLine>)
    requires ManualRun(inv, lines, id, sede, ls).LinesDone?
    ensures var inv' := ManualRun(inv, lines, id, sede, ls).inv;
      forall i :: 0 <= i < |ls| ==>
        FirstInv(inv', ls[i].idProducto, sede).Some? &&
        inv'[FirstInv(inv', ls[i].idProducto, sede).value].stock >= 0
  {
    if ls != [] {
      var pre := ls[..|ls| - 1];
      var l := ls[|ls| - 1];
      ManualRunNonNegative(inv, lines, id, sede, pre);
      var inv1 := ManualRun(inv, lines, id, sede, pre).inv;
      var inv' := ManualDecrement(inv1, l, sede);
      assert ManualRun(inv, lines, id, sede, ls).inv == inv';
      forall i | 0 <= i < |ls|
        ensures FirstInv(inv', ls[i].idProducto, sede).Some? &&
                inv'[FirstInv(inv', ls[i].idProducto, sede).value].stock >= 0
      {
        ManualDecrementFirst(inv1, l, sede, ls[i].idProducto);
        if ls[i].idProducto != l.idProducto {
          assert ls[i] == pre[i];
        }
      }
    }
  }

  /** Each existing inventory row loses exactly the quantity the lines order of
      its product when it is at the order's sede, and is otherwise untouched;
      provisioned rows only ever come after the existing ones. */
  lemma {:induction false} ManualRunStock(inv: seq<InvRow>, lines: seq<OrderLine>, id: int,
                                          sede: int, ls: seq<ManualLine>, k: nat)
    requires ManualRun(inv, lines, id, sede, ls).LinesDone?
    requires k < |inv|
    ensures var inv' := ManualRun(inv, lines, id, sede, ls).inv;
      |inv'| >= |inv| &&
      inv'[k] == inv[k].(stock := inv[k].stock - if inv[k].idSede == sede then QtyOf(ls, inv[k].idProducto) else 0)
  {
    if ls != [] {
      var pre := ls[..|ls| - 1];
      var l := ls[|ls| - 1];
      ManualRunStock(inv, lines, id, sede, pre, k);
      var inv1 := ManualRun(inv, lines, id, sede, pre).inv;
      assert ManualRun(inv, lines, id, sede, ls).inv == ManualDecrement(inv1, l, sede);
    }
  }

  /** The order's lines: one per request line, in request order, carrying the
      product, the quantity and the unit-price rule. */
  lemma {:induction false} ManualRunLines(inv: seq<InvRow>, lines: seq<OrderLine>, id: int,
                                          sede: int, ls: seq<ManualLine>)
    requires ManualRun(inv, lines, id, sede, ls).LinesDone?
    ensures var out := ManualRun(inv, lines, id, sede, ls).lines;
      |out| == |lines| + |ls| && out[..|lines|] == lines &&
      forall i :: 0 <= i < |ls| ==>
        out[|lines| + i] == OrderLine(id, ls[i].idProducto, ls[i].cantidad, UnitPriceOf(ls[i]))
  {
    if ls != [] {
      var pre := ls[..|ls| - 1];
      ManualRunLines(inv, lines, id, sede, pre);
      var out1 := ManualRun(inv, lines, id, sede, pre).lines;
      var out := ManualRun(inv, lines, id, sede, ls).lines;
      assert out == out1 + [OrderLine(id, ls[|ls| - 1].idProducto, ls[|ls| - 1].cantidad, UnitPriceOf(ls[|ls| - 1]))];
      forall i | 0 <= i < |ls|
        ensures out[|lines| + i] == OrderLine(id, ls[i].idProducto, ls[i].cantidad, UnitPriceOf(ls[i]))
      {
        if i < |pre| {
          assert ls[i] == pre[i];
        }
      }
    }
  }

  /** A successful createManualOrder, end to end: the new lines, the stock of
      every pre-existing row, and no first row below zero for any ordered product. */
  lemma ManualSuccess(db: Db, req: ManualRequest, now: int)
    requires CreateManualOrderSpec(db, req, now).0.ManualCreated?
    ensures var db' := CreateManualOrderSpec(db, req, now).1;
      var ls := req.productos.value;
      var sede := ManualSede(db.mesas, req.idMesa);
      |db'.lineas| == |db.lineas| + |ls| && db'.lineas[..|db.lineas|] == db.lineas &&
      (forall i :: 0 <= i < |ls| ==>
        db'.lineas[|db.lineas| + i] == OrderLine(db.nextPedido, ls[i].idProducto, ls[i].cantidad, UnitPriceOf(ls[i]))) &&
      |db'.inventario| >= |db.inventario| &&
      (forall k :: 0 <= k < |db.inventario| ==>
        db'.inventario[k] == db.inventario[k].(stock := db.inventario[k].stock -
          if db.inventario[k].idSede == sede then QtyOf(ls, db.inventario[k].idProducto) else 0)) &&
      (forall i :: 0 <= i < |ls| ==>
        FirstInv(db'.inventario, ls[i].idProducto, sede).Some? &&
        db'.inventario[FirstInv(db'.inventario, ls[i].idProducto, sede).value].stock >= 0)
  {
    ManualCreatedRun(db, req, now);
    ManualRunSuccess(db.inventario, db.lineas, db.nextPedido, ManualSede(db.mesas, req.idMesa),
                     req.productos.value);
  }

  /** The per-line loop, when it completes: the lines it queues, the stock of
      every row it started from, and no first row left below zero. */
  lemma ManualRunSuccess(inv: seq<InvRow>, lines: seq<OrderLine>, id: int, sede: int, ls: seq<ManualLine>)
    requires ManualRun(inv, lines, id, sede, ls).LinesDone?
    ensures var out := ManualRun(inv, lines, id, sede, ls);
      |out.lines| == |lines| + |ls| && out.lines[..|lines|] == lines &&
      (forall i :: 0 <= i < |ls| ==>
        out.lines[|lines| + i] == OrderLine(id, ls[i].idProducto, ls[i].cantidad, UnitPriceOf(ls[i]))) &&
      |out.inv| >= |inv| &&
      (forall k :: 0 <= k < |inv| ==>
        out.inv[k] == inv[k].(stock := inv[k].stock -
          if inv[k].idSede == sede then QtyOf(ls, inv[k].idProducto) else 0)) &&
      (forall i :: 0 <= i < |ls| ==>
        FirstInv(out.inv, ls[i].idProducto, sede).Some? &&
        out.inv[FirstInv(out.inv, ls[i].idProducto, sede).value].stock >= 0)
  {
    var out := ManualRun(inv, lines, id, sede, ls);
    ManualRunLines(inv, lines, id, sede, ls);
    ManualRunNonNegative(inv, lines, id, sede, ls);
    forall k | 0 <= k < |inv|
      ensures |out.inv| >= |inv| &&
        out.inv[k] == inv[k].(stock := inv[k].stock -
          if inv[k].idSede == sede then QtyOf(ls, inv[k].idProducto) else 0)
    {
      ManualRunStock(inv, lines, id, sede, ls, k);
    }
    if |inv| == 0 {
      assert |out.inv| >= 0;
    }
  }

  /** A successful request committed the lines and stock of the per-line run. */
  lemma ManualCreatedRun(db: Db, req: ManualRequest, now: int)
    requires CreateManualOrderSpec(db, req, now).0.ManualCreated?
    ensures req.productos.Some? && req.productos.value != []
    ensures var out := ManualRun(db.inventario, db.lineas, db.nextPedido,
                                 ManualSede(db.mesas, req.idMesa), req.productos.value);
      var db' := CreateManualOrderSpec(db, req, now).1;
      out.LinesDone? && db'.lineas == out.lines && db'.inventario == out.inv
  {
    assert ManualOrderRow(db, req, req.productos.value, now).idSede == ManualSede(db.mesas, req.idMesa);
  }

  /** A single-line order for a product whose (unique) row at the sede holds
      less than the requested quantity is refused with the product named, and
      nothing is written. */
  lemma ManualShortStockRefused(db: Db, req: ManualRequest, now: int, k: nat)
    requires req.productos.Some? && |req.productos.value| == 1
    requires Truthy(req.idMesa) || Truthy(req.idUsuario)
    requires var l := req.productos.value[0];
      k < |db.inventario| && db.inventario[k].idProducto == l.idProducto &&
      db.inventario[k].idSede == ManualSede(db.mesas, req.idMesa) &&
      db.inventario[k].stock < l.cantidad
    requires InvKeyed(db.inventario)
    ensures CreateManualOrderSpec(db, req, now) == (ShortStock(LabelOf(req.productos.value[0])), db)
  {
    var ls := req.productos.value;
    var l := ls[0];
    var sede := ManualSede(db.mesas, req.idMesa);
    var id := db.nextPedido;
    assert ManualOrderRow(db, req, ls, now).idSede == sede;
    assert ls[..0] == [];
    assert ManualRun(db.inventario, db.lineas, id, sede, ls) == ManualStep(db.inventario, db.lineas, id, sede, l);
    forall j | 0 <= j < k
      ensures !(db.inventario[j].idProducto == l.idProducto && db.inventario[j].idSede == sede)
    {
    }
    FirstInvAt(db.inventario, l.idProducto, sede, k);
    var inv1 := DecrementStock(db.inventario, l.idProducto, sede, l.cantidad);
    assert ManualDecrement(db.inventario, l, sede) == inv1;
    FirstInvAt(inv1, l.idProducto, sede, k);
    assert WentNegative(inv1, l.idProducto, sede);
  }

  /** The loop stops at the first failing line: a failure on a prefix is the
      failure of the whole list. */
  lemma {:induction false} ManualRunStops(inv: seq<InvRow>, lines: seq<OrderLine>, id: int, sede: int,
                                          ls: seq<ManualLine>, n: nat)
    requires n <= |ls|
    requires ManualRun(inv, lines, id, sede, ls[..n]).LinesFailed?
    ensures ManualRun(inv, lines, id, sede, ls) == ManualRun(inv, lines, id, sede, ls[..n])
    decreases |ls| - n
  {
    if n == |ls| {
      assert ls[..n] == ls;
    } else {
      assert ls[..n + 1][..n] == ls[..n];
      ManualRunStops(inv, lines, id, sede, ls, n + 1);
    }
  }

  /** One more line: the run on `ls + [l]` is the run on `ls` followed by one step. */
  lemma ManualRunSnoc(inv: seq<InvRow>, lines: seq<OrderLine>, id: int, sede: int,
                      ls: seq<ManualLine>, l: ManualLine)
    ensures ManualRun(inv, lines, id, sede, ls + [l]) ==
      match ManualRun(inv, lines, id, sede, ls)
      case LinesFailed(a) => LinesFailed(a)
      case LinesDone(inv1, lines1) => ManualStep(inv1, lines1, id, sede, l)
  {
    assert (ls + [l])[..|ls|] == ls;
  }
}
