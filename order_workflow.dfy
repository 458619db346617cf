/** The status workflow on the server (Back_End/controllers/orderController.js):
    `updateOrderStatus` sets any of the four statuses on an existing order,
    whatever its current one; `processPayment` closes a delivered order whose
    total matches the amount tendered, recording one cash payment. */
module OrderWorkflow {
  import opened Common
  import opened Schema

  datatype StatusResponse = StatusUpdated(newStatus: OrderStatus) | InvalidStatus | StatusOrderNotFound

  function StatusCode(r: StatusResponse): int {
    match r
    case StatusUpdated(_) => 200
    case InvalidStatus => 400
    case StatusOrderNotFound => 404
  }

  /** `updateOrderStatus`: the response and the new `pedido` table. */
  function UpdateOrderStatusSpec(pedidos: seq<Order>, idPedido: int, newStatus: string): (StatusResponse, seq<Order>) {
    match ParseStatus(newStatus)
    case None => (InvalidStatus, pedidos)
    case Some(s) =>
      if FindOrder(pedidos, idPedido).None? then (StatusOrderNotFound, pedidos)
      else (StatusUpdated(s), SetOrderEstado(pedidos, idPedido, s))
  }

  /** The response, both directions: refused exactly for a name outside the
      four statuses or an unknown order, and a refusal writes nothing. */
  lemma UpdateStatusOutcome(pedidos: seq<Order>, idPedido: int, newStatus: string)
    ensures var (resp, after) := UpdateOrderStatusSpec(pedidos, idPedido, newStatus);
      (resp == InvalidStatus <==> forall s: OrderStatus :: StatusName(s) != newStatus) &&
      (resp == StatusOrderNotFound <==>
        ParseStatus(newStatus).Some? && forall k :: 0 <= k < |pedidos| ==> pedidos[k].idPedido != idPedido) &&
      (!resp.StatusUpdated? ==> after == pedidos)
  {
  }

  /** Any status may follow any other: whenever the order exists and the name
      is one of the four, the order ends with exactly that status, every other
      column and every other order unchanged. */
  lemma UpdateStatusIgnoresCurrent(pedidos: seq<Order>, idPedido: int, s: OrderStatus, k: nat)
    requires k < |pedidos| && pedidos[k].idPedido == idPedido
    ensures var (resp, after) := UpdateOrderStatusSpec(pedidos, idPedido, StatusName(s));
      resp == StatusUpdated(s) && |after| == |pedidos| &&
      after[k] == pedidos[k].(estado := s) &&
      forall j :: 0 <= j < |pedidos| && pedidos[j].idPedido != idPedido ==> after[j] == pedidos[j]
  {
    ParseStatusName(s);
  }

  // ---------------------------------------------------------------------------
  // Payment
  // ---------------------------------------------------------------------------

  datatype PayResponse =
    | Paid(monto: int)
    | InvalidAmount
    | PayOrderNotFound
    | NotDelivered
    | AmountMismatch(totalEsperado: int, montoRecibido: int)
    | PayServerError   // the `pago` insert collides with an existing payment id

  function PayStatusCode(r: PayResponse): int {
    match r
    case Paid(_) => 200
    case PayOrderNotFound => 404
    case PayServerError => 500
    case _ => 400
  }

  function Abs(x: int): nat { if x < 0 then -x else x }

  /** The 0.01 tolerance of the amount check, in minor units. */
  const Tolerance: nat := 1

  predicate HasPayment(pagos: seq<Payment>, idPago: int) {
    exists j :: 0 <= j < |pagos| && pagos[j].idPago == idPago
  }

  /** `processPayment`: the response and the committed state. */
  function ProcessPaymentSpec(db: Db, idPedido: int, montoTotal: Option<int>): (PayResponse, Db) {
    if montoTotal.None? || montoTotal.value == 0 || montoTotal.value <= 0 then (InvalidAmount, db)
    else
      var monto := montoTotal.value;
      match FindOrder(db.pedidos, idPedido)
      case None => (PayOrderNotFound, db)
      case Some(k) =>
        var o := db.pedidos[k];
        if o.estado != Entregado then (NotDelivered, db)
        else if Abs(o.total - monto) > Tolerance then (AmountMismatch(o.total, monto), db)
        else if HasPayment(db.pagos, idPedido) then (PayServerError, db)
        else (Paid(monto),
              db.(pagos := db.pagos + [Payment(idPedido, idPedido, "efectivo", monto)],
                  pedidos := SetOrderEstado(db.pedidos, idPedido, Pagado)))
  }

  /** A payment goes through exactly when the amount is positive, the order
      exists and is `entregado`, the amount is within the tolerance of its
      total, and no payment already carries the order's id. */
  lemma PaymentAcceptedIff(db: Db, idPedido: int, montoTotal: Option<int>)
    ensures ProcessPaymentSpec(db, idPedido, montoTotal).0.Paid? <==>
      montoTotal.Some? && montoTotal.value > 0 &&
      FindOrder(db.pedidos, idPedido).Some? &&
      db.pedidos[FindOrder(db.pedidos, idPedido).value].estado == Entregado &&
      Abs(db.pedidos[FindOrder(db.pedidos, idPedido).value].total - montoTotal.value) <= Tolerance &&
      !HasPayment(db.pagos, idPedido)
  {
  }

  /** All or nothing: a refused payment writes nothing; an accepted one appends
      exactly one cash payment for the amount and marks the order `pagado`,
      leaving every other table as it was. */
  lemma PaymentEffect(db: Db, idPedido: int, montoTotal: Option<int>)
    ensures var (resp, db') := ProcessPaymentSpec(db, idPedido, montoTotal);
      (!resp.Paid? ==> db' == db) &&
      (resp.Paid? ==>
        resp.monto == montoTotal.value &&
        db'.pagos == db.pagos + [Payment(idPedido, idPedido, "efectivo", montoTotal.value)] &&
        db'.pedidos == SetOrderEstado(db.pedidos, idPedido, Pagado) &&
        db' == db.(pagos := db'.pagos, pedidos := db'.pedidos))
  {
  }

  /** The first-match index of an order survives a status update, and the row
      there now carries the new status. */
  lemma FindOrderAfterSet(pedidos: seq<Order>, idPedido: int, s: OrderStatus)
    ensures FindOrder(SetOrderEstado(pedidos, idPedido, s), idPedido) == FindOrder(pedidos, idPedido)
    ensures FindOrder(pedidos, idPedido).Some? ==>
      SetOrderEstado(pedidos, idPedido, s)[FindOrder(pedidos, idPedido).value].estado == s
  {
    var after := SetOrderEstado(pedidos, idPedido, s);
    assert forall j :: 0 <= j < |after| ==> after[j].idPedido == pedidos[j].idPedido;
    match FindOrder(pedidos, idPedido)
    case None =>
    case Some(k) =>
      var r := FindOrder(after, idPedido);
      assert after[k].idPedido == idPedido;
      assert r.Some?;
      assert r.value == k;
  }

  /** An order is paid at most once: after a successful payment a second one
      for the same order is refused, because the order is no longer `entregado`,
      and writes nothing. */
  lemma PayOnce(db: Db, idPedido: int, m1: Option<int>, m2: Option<int>)
    requires ProcessPaymentSpec(db, idPedido, m1).0.Paid?
    requires m2.Some? && m2.value > 0
    ensures var db1 := ProcessPaymentSpec(db, idPedido, m1).1;
      ProcessPaymentSpec(db1, idPedido, m2) == (NotDelivered, db1)
  {
    var db1 := ProcessPaymentSpec(db, idPedido, m1).1;
    FindOrderAfterSet(db.pedidos, idPedido, Pagado);
    var k := FindOrder(db.pedidos, idPedido).value;
    assert db1.pedidos[k].estado == Pagado;
  }

  /** A status update keeps the key of `pedido`. */
  lemma StatusKeepsOrderIds(db: Db, idPedido: int, newStatus: string)
    requires OrderIdsOk(db)
    ensures OrderIdsOk(db.(pedidos := UpdateOrderStatusSpec(db.pedidos, idPedido, newStatus).1))
  {
    var s := ParseStatus(newStatus);
    if s.Some? {
      SetOrderEstadoKeepsIds(db, idPedido, s.value);
    }
  }

  /** A payment keeps the key of `pedido`, and an accepted one changes the
      status of the paid order and of no other. */
  lemma PaymentKeepsOrderIds(db: Db, idPedido: int, montoTotal: Option<int>)
    requires OrderIdsOk(db)
    ensures OrderIdsOk(ProcessPaymentSpec(db, idPedido, montoTotal).1)
    ensures ProcessPaymentSpec(db, idPedido, montoTotal).0.Paid? ==>
      forall j :: 0 <= j < |db.pedidos| && j != FindOrder(db.pedidos, idPedido).value ==>
        ProcessPaymentSpec(db, idPedido, montoTotal).1.pedidos[j] == db.pedidos[j]
  {
    SetOrderEstadoKeepsIds(db, idPedido, Pagado);
  }
}
