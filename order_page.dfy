/** The order-management page (Front_End/src/Administrador/OrderManagementPage.jsx):
    the client-side status flow behind each order card's buttons, and the
    create-order modal's product list and submit checks. */
module OrderPage {
  import opened Common
  import opened Schema
  import opened ManualOrders
  import opened OrderWorkflow
  import opened StatusBoard

  // ---------------------------------------------------------------------------
  // Order cards
  // ---------------------------------------------------------------------------

  /** `getNextStatus`: the `statusFlow` table; `pagado` has no entry. */
  function NextStatus(s: OrderStatus): (r: Option<OrderStatus>)
    ensures r.Some? <==> s != Pagado
    ensures r.Some? ==> Rank(r.value) == Rank(s) + 1
  {
    match s
    case Pendiente => Some(EnPreparacion)
    case EnPreparacion => Some(Entregado)
    case Entregado => Some(Pagado)
    case Pagado => None
  }

  /** `order.estado !== 'pagado' && order.estado !== 'entregado'`. */
  predicate ShowsAdvance(s: OrderStatus) {
    s != Pagado && s != Entregado
  }

  /** `order.estado === 'entregado'`. */
  predicate ShowsPay(s: OrderStatus) {
    s == Entregado
  }

  /** The status `handleMoveToNext` asks for, if the card shows the button. */
  function AdvanceRequest(s: OrderStatus): Option<OrderStatus> {
    if ShowsAdvance(s) then NextStatus(s) else None
  }

  /** The two buttons never show together; the advance button moves an order
      one step along pendiente → en_preparacion → entregado and never to
      pagado, which only the pay button reaches. */
  lemma ButtonsAgree(s: OrderStatus)
    ensures !(ShowsAdvance(s) && ShowsPay(s))
    ensures AdvanceRequest(s).Some? <==> s == Pendiente || s == EnPreparacion
    ensures AdvanceRequest(s).Some? ==> AdvanceRequest(s).value != Pagado &&
                                        Rank(AdvanceRequest(s).value) == Rank(s) + 1
    ensures ShowsPay(s) <==> NextStatus(s) == Some(Pagado)
  {
  }

  /** Following the flow from any status reaches `pagado` in 4 − rank steps
      and stops there. */
  function Walk(s: OrderStatus, n: nat): Option<OrderStatus>
    decreases n
  {
    if n == 0 then Some(s)
    else match NextStatus(s)
      case None => None
      case Some(t) => Walk(t, n - 1)
  }

  lemma {:induction false} WalkReachesPagado(s: OrderStatus)
    ensures Walk(s, 4 - Rank(s)) == Some(Pagado)
    ensures NextStatus(Pagado).None?
    decreases 4 - Rank(s)
  {
    if s != Pagado {
      WalkReachesPagado(NextStatus(s).value);
    }
  }

  /** Every request the advance button sends is one `updateOrderStatus`
      accepts for an existing order, and it sets exactly that status. */
  lemma AdvanceAccepted(pedidos: seq<Order>, k: nat)
    requires k < |pedidos| && FindOrder(pedidos, pedidos[k].idPedido) == Some(k)
    requires AdvanceRequest(pedidos[k].estado).Some?
    ensures var t := AdvanceRequest(pedidos[k].estado).value;
      var (resp, after) := UpdateOrderStatusSpec(pedidos, pedidos[k].idPedido, StatusName(t));
      resp == StatusUpdated(t) && after[k].estado == t
  {
    ParseStatusName(AdvanceRequest(pedidos[k].estado).value);
  }

  /** `handlePay` sends the order's own total; for a delivered order with a
      positive total and no payment yet, the server accepts it. */
  lemma PayButtonAccepted(db: Db, k: nat)
    requires k < |db.pedidos| && FindOrder(db.pedidos, db.pedidos[k].idPedido) == Some(k)
    requires ShowsPay(db.pedidos[k].estado) && db.pedidos[k].total > 0
    requires !HasPayment(db.pagos, db.pedidos[k].idPedido)
    ensures ProcessPaymentSpec(db, db.pedidos[k].idPedido, Some(db.pedidos[k].total)).0 ==
            Paid(db.pedidos[k].total)
  {
  }

  // ---------------------------------------------------------------------------
  // CreateOrderModal
  // ---------------------------------------------------------------------------

  /** A product of the modal's list: `stock: item.stock || 0`. */
  datatype FormProduct = FormProduct(idProducto: int, nombre: string, precio: int, stock: int)

  /** The modal's product list holds lines in the body shape of `createManualOrder`. */
  function LineFor(p: FormProduct, cantidad: int): ManualLine {
    ManualLine(p.idProducto, cantidad, p.precio * cantidad, Some(p.precio), Some(p.nombre))
  }

  /** `handleAddProduct()`. */
  function AddProduct(ls: seq<ManualLine>, selected: Option<FormProduct>, cantidad: int): (r: seq<ManualLine>)
    ensures r != ls <==> selected.Some? && 0 < cantidad <= selected.value.stock
    ensures r != ls ==> r == ls + [LineFor(selected.value, cantidad)]
  {
    if selected.None? || cantidad <= 0 then ls
    else if cantidad > selected.value.stock then ls
    else
      assert |ls + [LineFor(selected.value, cantidad)]| != |ls|;
      ls + [LineFor(selected.value, cantidad)]
  }

  /** `productos.filter((_, i) => i !== index)`. */
  function RemoveAt(ls: seq<ManualLine>, index: int): seq<ManualLine> {
    if ls == [] then []
    else RemoveAt(ls[..|ls| - 1], index) + (if |ls| - 1 != index then [ls[|ls| - 1]] else [])
  }

  /** Exactly the line at the index goes, the rest keep their order; an index
      outside the list removes nothing. */
  lemma {:induction false} RemoveAtExact(ls: seq<ManualLine>, index: int)
    ensures 0 <= index < |ls| ==> RemoveAt(ls, index) == ls[..index] + ls[index + 1..]
    ensures !(0 <= index < |ls|) ==> RemoveAt(ls, index) == ls
    decreases |ls|
  {
    if ls != [] {
      var pre := ls[..|ls| - 1];
      RemoveAtExact(pre, index);
      if 0 <= index < |pre| {
        assert pre[..index] == ls[..index];
        assert pre[index + 1..] + [ls[|ls| - 1]] == ls[index + 1..];
      } else if index == |pre| {
        assert ls[..index] == pre;
      } else {
        assert pre + [ls[|ls| - 1]] == ls;
      }
    }
  }

  /** `calculateTotal()`: Σ subtotal over the list — the very sum the server
      stores as the order total. */
  function FormTotal(ls: seq<ManualLine>): (r: int)
    ensures r == SumSubtotals(ls)
  {
    if ls == [] then 0 else FormTotal(ls[..|ls| - 1]) + ls[|ls| - 1].subtotal
  }

  /** Every line the modal builds is a positive quantity within the stock shown,
      priced at price × quantity. */
  predicate FormLinesOk(ls: seq<ManualLine>) {
    forall i :: 0 <= i < |ls| ==>
      ls[i].cantidad > 0 && ls[i].precio.Some? && ls[i].subtotal == ls[i].precio.value * ls[i].cantidad
  }

  lemma AddKeepsFormLines(ls: seq<ManualLine>, selected: Option<FormProduct>, cantidad: int)
    requires FormLinesOk(ls)
    ensures FormLinesOk(AddProduct(ls, selected, cantidad))
    ensures FormTotal(AddProduct(ls, selected, cantidad)) ==
            FormTotal(ls) + (if AddProduct(ls, selected, cantidad) != ls
                             then selected.value.precio * cantidad else 0)
  {
    var r := AddProduct(ls, selected, cantidad);
    if r != ls {
      assert r[..|ls|] == ls;
    }
  }

  datatype OrderKind = ForTable | ForCustomer

  datatype SubmitOutcome = SelectTable | SelectCustomer | AddProducts | Submit(req: ManualRequest)

  /** `handleSubmit()`: `idMesa` and `idUsuario` are the selected ids (None for '');
      the notes are sent trimmed, or null when blank. */
  function HandleSubmit(kind: OrderKind, idMesa: Option<int>, idUsuario: Option<int>,
                        ls: seq<ManualLine>, observaciones: string): (r: SubmitOutcome)
    ensures r.Submit? ==> ls != [] && r.req.productos == Some(ls)
    ensures r.Submit? ==> (r.req.idMesa.Some? <==> kind == ForTable) &&
                          (r.req.idUsuario.Some? <==> kind == ForCustomer)
    ensures r.Submit? && kind == ForTable ==> r.req.idMesa == idMesa
    ensures r.Submit? && kind == ForCustomer ==> r.req.idUsuario == idUsuario
    ensures r == SelectTable <==> kind == ForTable && idMesa.None?
    ensures r == SelectCustomer <==> kind == ForCustomer && idUsuario.None?
    ensures r == AddProducts <==>
      ls == [] && (kind == ForTable ==> idMesa.Some?) && (kind == ForCustomer ==> idUsuario.Some?)
  {
    if kind == ForTable && idMesa.None? then SelectTable
    else if kind == ForCustomer && idUsuario.None? then SelectCustomer
    else if |ls| == 0 then AddProducts
    else
      Submit(ManualRequest(if kind == ForTable then idMesa else None,
                           if kind == ForCustomer then idUsuario else None,
                           Some(ls), if IsBlank(observaciones) then None else Some(Trim(observaciones))))
  }

  /** A submitted form names a table or a customer (never both) and a
      non-empty list, so `createManualOrder` does not refuse it for a missing
      target or an empty list when the selected id is not 0, and the total it
      stores is the total the modal showed. */
  lemma SubmitPassesServerChecks(kind: OrderKind, idMesa: Option<int>, idUsuario: Option<int>,
                                 ls: seq<ManualLine>, observaciones: string, db: Db, now: int)
    requires HandleSubmit(kind, idMesa, idUsuario, ls, observaciones).Submit?
    requires kind == ForTable ==> idMesa.value != 0
    requires kind == ForCustomer ==> idUsuario.value != 0
    ensures var req := HandleSubmit(kind, idMesa, idUsuario, ls, observaciones).req;
      var (resp, _) := CreateManualOrderSpec(db, req, now);
      resp != NoTarget && resp != NoProducts && resp != ManualServerError &&
      (resp.ManualCreated? ==> resp.total == FormTotal(ls))
  {
  }
}
