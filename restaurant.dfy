/** The database behind the order endpoints, as an object whose tables the
    handlers update in place. Every transactional handler either commits all
    of its writes or leaves every table as it was; each method's postcondition
    ties its response and the new tables to the handler's specification in
    ManualOrders, TableSales and OrderWorkflow, where the properties are proved. */
module Restaurant {
  import opened Common
  import opened Schema
  import opened ManualOrders
  import opened TableSales
  import opened OrderWorkflow

  /** One pass of the per-line loop of `createManualOrder`: queue the line's
      `pedido_producto` row, decrement (or provision) its stock, and fail when
      the first row for the product at the sede went below zero. */
  method ApplyManualLine(inv: seq<InvRow>, lines: seq<OrderLine>, id: int, sede: int,
                         l: ManualLine) returns (out: LinesOutcome)
    ensures out == ManualStep(inv, lines, id, sede, l)
  {
    var inv1: seq<InvRow>;
    if FirstInv(inv, l.idProducto, sede).Some? {
      inv1 := DecrementStock(inv, l.idProducto, sede, l.cantidad);
    } else {
      inv1 := inv + [Provision(sede, l)];
    }
    var check := FirstInv(inv1, l.idProducto, sede);
    if check.Some? && inv1[check.value].stock < 0 {
      return LinesFailed(LabelOf(l));
    }
    out := LinesDone(inv1, lines + [OrderLine(id, l.idProducto, l.cantidad, UnitPriceOf(l))]);
  }

  /** The per-line loop of `createManualOrder`, stopping at the first line
      that drives a stock negative. */
  method ApplyManualLines(inv0: seq<InvRow>, lines0: seq<OrderLine>, id: int, sede: int,
                          ls: seq<ManualLine>) returns (out: LinesOutcome)
    ensures out == ManualRun(inv0, lines0, id, sede, ls)
  {
    var inv, lines := inv0, lines0;
    var i := 0;
    while i < |ls|
      invariant 0 <= i <= |ls|
      invariant ManualRun(inv0, lines0, id, sede, ls[..i]) == LinesDone(inv, lines)
    {
      var step := ApplyManualLine(inv, lines, id, sede, ls[i]);
      assert ManualRun(inv0, lines0, id, sede, ls[..i + 1]) == step by {
        assert ls[..i + 1] == ls[..i] + [ls[i]];
        ManualRunSnoc(inv0, lines0, id, sede, ls[..i], ls[i]);
      }
      if step.LinesFailed? {
        ManualRunStops(inv0, lines0, id, sede, ls, i + 1);
        return step;
      }
      inv, lines := step.inv, step.lines;
      i := i + 1;
    }
    assert ls[..|ls|] == ls;
    out := LinesDone(inv, lines);
  }

  /** The stock-validation loop of `registrarVenta`: each line, alone, against
      the stock read before the order; the first failing line decides. */
  method CheckSaleStock(stockInv: seq<InvRow>, catalogue: seq<Product>, sede: int,
                        ls: seq<SaleLine>) returns (problem: Option<SaleResponse>)
    ensures problem == StockProblem(stockInv, catalogue, sede, ls, |ls|, PerLine)
  {
    var i := 0;
    while i < |ls|
      invariant 0 <= i <= |ls|
      invariant StockProblem(stockInv, catalogue, sede, ls, i, PerLine).None?
    {
      var stock := FindStock(stockInv, catalogue, sede, ls[i].idProducto);
      if stock.None? {
        StockProblemSticks(stockInv, catalogue, sede, ls, i + 1, |ls|, PerLine);
        return Some(ProductNotFound(ls[i].idProducto));
      }
      if stock.value.stock < Qty(ls[i]) {
        StockProblemSticks(stockInv, catalogue, sede, ls, i + 1, |ls|, PerLine);
        return Some(InsufficientStock(stock.value.nombre, stock.value.stock, Qty(ls[i])));
      }
      i := i + 1;
    }
    problem := None;
  }

  /** The pricing loop of `registrarVenta`: unit price times quantity, plus the
      surcharge of the line's active customizations times quantity. */
  method ComputeSaleTotal(db: Db, sede: int, ls: seq<SaleLine>) returns (totalPedido: int)
    requires StockProblem(db.inventario, db.productos, sede, ls, |ls|, PerLine).None?
    ensures totalPedido == SaleTotal(db, sede, ls, |ls|)
  {
    StockProblemNone(db.inventario, db.productos, sede, ls, |ls|, PerLine);
    totalPedido := 0;
    var i := 0;
    while i < |ls|
      invariant 0 <= i <= |ls|
      invariant totalPedido == SaleTotal(db, sede, ls, i)
    {
      var l := ls[i];
      var stock := FindStock(db.inventario, db.productos, sede, l.idProducto).value;
      var q := Qty(l);
      var extras := ExtraCost(db.personalizaciones, l.personalizaciones);
      var subtotal := stock.precio * q;
      if |l.personalizaciones| > 0 {
        subtotal := subtotal + extras * q;
      } else {
        assert extras == 0 by {
          NoIdsNoExtra(db.personalizaciones, l.personalizaciones);
        }
        assert extras * q == 0;
      }
      assert subtotal == LineAmount(db, sede, l);
      assert SaleTotal(db, sede, ls, i + 1) == SaleTotal(db, sede, ls, i) + LineAmount(db, sede, l);
      totalPedido := totalPedido + subtotal;
      i := i + 1;
    }
  }

  /** The insertion loop of `registrarVenta`: per line, its `pedido_producto`
      row, one `pedido_personalizacion` row per listed id, and the stock
      decrement. */
  method InsertSaleLines(db: Db, sede: int, id: int, ls: seq<SaleLine>)
    returns (lines: seq<OrderLine>, pers: seq<OrderCustomization>, inv: seq<InvRow>)
    ensures lines == db.lineas + SaleLines(db, sede, id, ls, |ls|)
    ensures pers == db.pedidoPers + SalePers(id, ls, |ls|)
    ensures inv == SaleInventory(db.inventario, sede, ls, |ls|)
  {
    lines, pers, inv := db.lineas, db.pedidoPers, db.inventario;
    var i := 0;
    while i < |ls|
      invariant 0 <= i <= |ls|
      invariant lines == db.lineas + SaleLines(db, sede, id, ls, i)
      invariant pers == db.pedidoPers + SalePers(id, ls, i)
      invariant inv == SaleInventory(db.inventario, sede, ls, i)
    {
      var l := ls[i];
      var precioUnitario := match FindStock(db.inventario, db.productos, sede, l.idProducto)
        case Some(e) => e.precio case None => 0;
      lines := lines + [OrderLine(id, l.idProducto, Qty(l), Given(precioUnitario))];
      var rows := InsertPers(id, l);
      pers := pers + rows;
      assert SalePers(id, ls, i + 1) == SalePers(id, ls, i) + PersRowsOf(id, l);
      inv := DecrementStock(inv, l.idProducto, sede, Qty(l));
      i := i + 1;
    }
  }

  /** The inner loop: one `pedido_personalizacion` insert per listed id. */
  method InsertPers(id: int, l: SaleLine) returns (rows: seq<OrderCustomization>)
    ensures rows == PersRowsOf(id, l)
  {
    rows := [];
    var j := 0;
    while j < |l.personalizaciones|
      invariant 0 <= j <= |l.personalizaciones|
      invariant rows == PersRowsOf(id, l)[..j]
    {
      rows := rows + [OrderCustomization(id, l.idProducto, l.personalizaciones[j])];
      j := j + 1;
      assert PersRowsOf(id, l)[..j] == PersRowsOf(id, l)[..j - 1] + [PersRowsOf(id, l)[j - 1]];
    }
    assert PersRowsOf(id, l)[..j] == PersRowsOf(id, l);
  }

  class RestaurantDb {
    var mesas: seq<Mesa>
    var productos: seq<Product>
    var inventario: seq<InvRow>
    var personalizaciones: seq<Customization>
    var pedidos: seq<Order>
    var lineas: seq<OrderLine>
    var pedidoPers: seq<OrderCustomization>
    var pagos: seq<Payment>
    var nextPedido: int

    /** The tables as one value. */
    function Snapshot(): Db
      reads this
    {
      Db(mesas, productos, inventario, personalizaciones, pedidos, lineas, pedidoPers, pagos, nextPedido)
    }

    /** The class invariant: the key of `pedido` holds. */
    predicate Valid()
      reads this
    {
      OrderIdsOk(Snapshot())
    }

    constructor (db: Db)
      requires OrderIdsOk(db)
      ensures Snapshot() == db
      ensures Valid()
    {
      mesas, productos, inventario := db.mesas, db.productos, db.inventario;
      personalizaciones, pedidos, lineas := db.personalizaciones, db.pedidos, db.lineas;
      pedidoPers, pagos, nextPedido := db.pedidoPers, db.pagos, db.nextPedido;
    }

    /** POST /api/pedidos/manual-create. */
    method CreateManualOrder(req: ManualRequest, now: int) returns (resp: ManualResponse)
      requires Valid()
      modifies this
      ensures (resp, Snapshot()) == CreateManualOrderSpec(old(Snapshot()), req, now)
      ensures Valid()
    {
      ManualKeepsOrderIds(Snapshot(), req, now);
      if req.productos.None? {
        return ManualServerError;
      }
      if !Truthy(req.idMesa) && !Truthy(req.idUsuario) {
        return NoTarget;
      }
      var ls := req.productos.value;
      if ls == [] {
        return NoProducts;
      }
      var total := SumSubtotals(ls);
      var sede := 1;
      if Truthy(req.idMesa) {
        var mesa := FindMesa(mesas, req.idMesa.value);
        if mesa.Some? {
          sede := mesa.value.idSede;
        }
      }
      var id := nextPedido;
      var order := Order(id, OrNull(req.idUsuario), OrNull(req.idMesa), now, Pendiente, total, sede,
                         TextOrNull(req.observaciones), None);
      assert order == ManualOrderRow(Snapshot(), req, ls, now);
      var out := ApplyManualLines(inventario, lineas, id, sede, ls);
      if out.LinesFailed? {
        return ShortStock(out.at);
      }
      pedidos := pedidos + [order];
      lineas := out.lines;
      inventario := out.inv;
      nextPedido := id + 1;
      resp := ManualCreated(id, total);
    }

    /** POST /api/manualSale/registrar. */
    method RegistrarVenta(req: SaleRequest, now: int) returns (resp: SaleResponse)
      requires Valid()
      modifies this
      ensures (resp, Snapshot()) == RegistrarVentaSpec(old(Snapshot()), req, now, PerLine)
      ensures Valid()
    {
      if !Truthy(req.idMesa) {
        return MesaRequired;
      }
      if req.productos.None? || req.productos.value == [] {
        return CartEmpty;
      }
      var ls := req.productos.value;
      if !ValidSaleLines(ls) {
        return InvalidProducts;
      }
      var idMesa := req.idMesa.value;
      var mesa := FindMesa(mesas, idMesa);
      if mesa.None? {
        return MesaNotFound;
      }
      if mesa.value.estado != "disponible" {
        return MesaNoDisponible(mesa.value.numero);
      }
      var problem := CheckSaleStock(inventario, productos, SedeOf(req), ls);
      if problem.Some? {
        return problem.value;
      }
      resp := CommitSale(req, now, mesa.value);
    }

    /** The writes of `registrarVenta` once every check has passed: the order,
        its lines and customizations, the decrements, and the table taken. */
    method CommitSale(req: SaleRequest, now: int, m: Mesa) returns (resp: SaleResponse)
      requires req.idMesa.Some? && req.productos.Some?
      requires StockProblem(inventario, productos, SedeOf(req), req.productos.value,
                            |req.productos.value|, PerLine).None?
      requires Valid()
      modifies this
      ensures (resp, Snapshot()) == SaleCommit(old(Snapshot()), req, now, m)
      ensures Valid()
    {
      SaleCommitKeepsOrderIds(Snapshot(), req, now, m);
      var db := Snapshot();
      var ls, idMesa, sede := req.productos.value, req.idMesa.value, SedeOf(req);
      var totalPedido := ComputeSaleTotal(db, sede, ls);
      var id := nextPedido;
      var order := Order(id, Some(UsuarioOf(req)), Some(idMesa), now, Pendiente, totalPedido,
                         sede, req.observaciones, Some("mesa"));
      var lines, pers, inv := InsertSaleLines(db, sede, id, ls);
      pedidos := pedidos + [order];
      nextPedido := id + 1;
      lineas, pedidoPers, inventario := lines, pers, inv;
      mesas := SetMesaEstado(mesas, idMesa, "ocupada");
      resp := SaleCreated(id, totalPedido, idMesa, m.numero, |ls|, ItemCount(ls));
    }

    /** PUT /api/pedidos/:idPedido/update-status. */
    method UpdateOrderStatus(idPedido: int, newStatus: string) returns (resp: StatusResponse)
      requires Valid()
      modifies this
      ensures (resp, pedidos) == UpdateOrderStatusSpec(old(pedidos), idPedido, newStatus)
      ensures Snapshot() == old(Snapshot()).(pedidos := pedidos)
      ensures Valid()
    {
      StatusKeepsOrderIds(Snapshot(), idPedido, newStatus);
      var status := ParseStatus(newStatus);
      if status.None? {
        return InvalidStatus;
      }
      if FindOrder(pedidos, idPedido).None? {
        return StatusOrderNotFound;
      }
      pedidos := SetOrderEstado(pedidos, idPedido, status.value);
      resp := StatusUpdated(status.value);
    }

    /** POST /api/pedidos/:idPedido/pay. */
    method ProcessPayment(idPedido: int, montoTotal: Option<int>) returns (resp: PayResponse)
      requires Valid()
      modifies this
      ensures (resp, Snapshot()) == ProcessPaymentSpec(old(Snapshot()), idPedido, montoTotal)
      ensures Valid()
    {
      PaymentKeepsOrderIds(Snapshot(), idPedido, montoTotal);
      if montoTotal.None? || montoTotal.value == 0 || montoTotal.value <= 0 {
        return InvalidAmount;
      }
      var monto := montoTotal.value;
      var k := FindOrder(pedidos, idPedido);
      if k.None? {
        return PayOrderNotFound;
      }
      var pedido := pedidos[k.value];
      if pedido.estado != Entregado {
        return NotDelivered;
      }
      if Abs(pedido.total - monto) > Tolerance {
        return AmountMismatch(pedido.total, monto);
      }
      if exists j :: 0 <= j < |pagos| && pagos[j].idPago == idPedido {
        return PayServerError;
      }
      pagos := pagos + [Payment(idPedido, idPedido, "efectivo", monto)];
      pedidos := SetOrderEstado(pedidos, idPedido, Pagado);
      resp := Paid(monto);
    }
  }
}
