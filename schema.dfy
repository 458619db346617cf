/** The relational tables the order handlers read and write, as rows held in
    sequences, plus the single-statement UPDATEs and first-row lookups the
    handlers issue against them. A lookup returns the first matching row,
    which is what `rows[0]` and `Array.prototype.find` do with a result set. */
module Schema {
  import opened Common

  // ---------------------------------------------------------------------------
  // Order status (the `estado` column of `pedido`)
  // ---------------------------------------------------------------------------

  datatype OrderStatus = Pendiente | EnPreparacion | Entregado | Pagado

  function StatusName(s: OrderStatus): string {
    match s
    case Pendiente => "pendiente"
    case EnPreparacion => "en_preparacion"
    case Entregado => "entregado"
    case Pagado => "pagado"
  }

  /** `validStatuses.includes(name)` followed by reading the status back. */
  function ParseStatus(name: string): (r: Option<OrderStatus>)
    ensures r.Some? ==> StatusName(r.value) == name
    ensures r.None? <==> forall s: OrderStatus :: StatusName(s) != name
  {
    if name == "pendiente" then Some(Pendiente)
    else if name == "en_preparacion" then Some(EnPreparacion)
    else if name == "entregado" then Some(Entregado)
    else if name == "pagado" then Some(Pagado)
    else None
  }

  lemma ParseStatusName(s: OrderStatus)
    ensures ParseStatus(StatusName(s)) == Some(s)
  {
  }

  // ---------------------------------------------------------------------------
  // Rows
  // ---------------------------------------------------------------------------

  /** `mesa`: a dining table; `estado` is 'disponible', 'ocupada' or 'limpieza'. */
  datatype Mesa = Mesa(idMesa: int, numero: int, idSede: int, estado: string)

  /** `producto`; prices are in minor currency units. */
  datatype Product = Product(idProducto: int, nombre: string, precio: int)

  /** `inventario`: stock of one product at one sede. */
  datatype InvRow = InvRow(idInsumo: int, idSede: int, idProducto: int,
                           stock: int, minimo: int, maximo: int)

  /** `personalizacionproducto`: an optional extra with its surcharge. */
  datatype Customization = Customization(idPersonalizacion: int, nombre: string,
                                         categoria: Option<string>, costoExtra: int,
                                         activo: bool)

  /** The stored `precio_unitario`: either a price or the quotient `subtotal / cantidad`
      (kept as the pair, so a zero quantity is representable as JavaScript computes it). */
  datatype UnitPrice = Given(amount: int) | PerUnit(subtotal: int, cantidad: int)

  /** `pedido`. `tipo` is None where the insert leaves the schema default. */
  datatype Order = Order(idPedido: int, idUsuario: Option<int>, idMesa: Option<int>,
                         fecha: int, estado: OrderStatus, total: int, idSede: int,
                         observaciones: Option<string>, tipo: Option<string>)

  /** `pedido_producto`. */
  datatype OrderLine = OrderLine(idPedido: int, idProducto: int, cantidad: int,
                                 precioUnitario: UnitPrice)

  /** `pedido_personalizacion`. */
  datatype OrderCustomization = OrderCustomization(idPedido: int, idProducto: int,
                                                   idPersonalizacion: int)

  /** `pago`. */
  datatype Payment = Payment(idPago: int, idPedido: int, metodo: string, monto: int)

  /** A snapshot of every table the order handlers touch; `nextPedido` is the
      auto-increment counter of `pedido`. */
  datatype Db = Db(mesas: seq<Mesa>, productos: seq<Product>, inventario: seq<InvRow>,
                   personalizaciones: seq<Customization>, pedidos: seq<Order>,
                   lineas: seq<OrderLine>, pedidoPers: seq<OrderCustomization>,
                   pagos: seq<Payment>, nextPedido: int)

  /** JavaScript truthiness of an optional numeric id: absent and 0 are falsy. */
  predicate Truthy(x: Option<int>) {
    x.Some? && x.value != 0
  }

  /** `x || null` on an optional id. */
  function OrNull(x: Option<int>): (r: Option<int>)
    ensures r.Some? <==> Truthy(x)
    ensures r.Some? ==> r == x
  {
    if Truthy(x) then x else None
  }

  /** `s || null` on an optional string: the empty string becomes null. */
  function TextOrNull(s: Option<string>): (r: Option<string>)
    ensures r.Some? <==> s.Some? && s.value != []
    ensures r.Some? ==> r == s
  {
    if s.Some? && s.value != [] then s else None
  }

  // ---------------------------------------------------------------------------
  // Lookups
  // ---------------------------------------------------------------------------

  /** `SELECT … FROM mesa WHERE idMesa = ?` then `rows[0]`. */
  function FindMesa(mesas: seq<Mesa>, id: int): (r: Option<Mesa>)
    ensures r.Some? ==> r.value in mesas && r.value.idMesa == id
    ensures r.None? ==> forall m :: m in mesas ==> m.idMesa != id
  {
    if mesas == [] then None
    else if mesas[0].idMesa == id then Some(mesas[0])
    else FindMesa(mesas[1..], id)
  }

  /** Index of the first `pedido` row with the given id. */
  function FindOrder(pedidos: seq<Order>, id: int): (r: Option<nat>)
    ensures r.Some? ==> r.value < |pedidos| && pedidos[r.value].idPedido == id &&
                        forall j :: 0 <= j < r.value ==> pedidos[j].idPedido != id
    ensures r.None? ==> forall j :: 0 <= j < |pedidos| ==> pedidos[j].idPedido != id
  {
    if pedidos == [] then None
    else if pedidos[0].idPedido == id then Some(0)
    else match FindOrder(pedidos[1..], id)
      case None => None
      case Some(k) => Some(k + 1)
  }

  /** Index of the first `inventario` row for (product, sede). */
  function FirstInv(inv: seq<InvRow>, prod: int, sede: int): (r: Option<nat>)
    ensures r.Some? ==> r.value < |inv| && inv[r.value].idProducto == prod &&
                        inv[r.value].idSede == sede &&
                        forall j :: 0 <= j < r.value ==> !(inv[j].idProducto == prod && inv[j].idSede == sede)
    ensures r.None? ==> forall j :: 0 <= j < |inv| ==> !(inv[j].idProducto == prod && inv[j].idSede == sede)
  {
    if inv == [] then None
    else if inv[0].idProducto == prod && inv[0].idSede == sede then Some(0)
    else match FirstInv(inv[1..], prod, sede)
      case None => None
      case Some(k) => Some(k + 1)
  }

  /** `SELECT … FROM producto WHERE idProducto = ?` then `rows[0]`. */
  function FindProduct(ps: seq<Product>, id: int): (r: Option<Product>)
    ensures r.Some? ==> r.value in ps && r.value.idProducto == id
    ensures r.None? ==> forall p :: p in ps ==> p.idProducto != id
  {
    if ps == [] then None
    else if ps[0].idProducto == id then Some(ps[0])
    else FindProduct(ps[1..], id)
  }

  /** The inventory is keyed by (idProducto, idSede): no two rows share a key. */
  predicate InvKeyed(inv: seq<InvRow>) {
    forall i, j :: 0 <= i < j < |inv| ==>
      !(inv[i].idProducto == inv[j].idProducto && inv[i].idSede == inv[j].idSede)
  }

  // ---------------------------------------------------------------------------
  // Single-statement updates
  // ---------------------------------------------------------------------------

  function DecRow(r: InvRow, prod: int, sede: int, q: int): InvRow {
    if r.idProducto == prod && r.idSede == sede then r.(stock := r.stock - q) else r
  }

  /** `UPDATE inventario SET stockDisponible = stockDisponible - q
      WHERE idProducto = prod AND idSede = sede`. */
  function DecrementStock(inv: seq<InvRow>, prod: int, sede: int, q: int): (r: seq<InvRow>)
    ensures |r| == |inv|
    ensures forall k :: 0 <= k < |inv| ==> r[k] == DecRow(inv[k], prod, sede, q)
  {
    seq(|inv|, k requires 0 <= k < |inv| => DecRow(inv[k], prod, sede, q))
  }

  /** `UPDATE mesa SET estado = e WHERE idMesa = id`. */
  function SetMesaEstado(mesas: seq<Mesa>, id: int, e: string): (r: seq<Mesa>)
    ensures |r| == |mesas|
    ensures forall k :: 0 <= k < |mesas| ==>
      r[k] == if mesas[k].idMesa == id then mesas[k].(estado := e) else mesas[k]
  {
    seq(|mesas|, k requires 0 <= k < |mesas| =>
      if mesas[k].idMesa == id then mesas[k].(estado := e) else mesas[k])
  }

  /** `UPDATE pedido SET estado = s WHERE idPedido = id`. */
  function SetOrderEstado(pedidos: seq<Order>, id: int, s: OrderStatus): (r: seq<Order>)
    ensures |r| == |pedidos|
    ensures forall k :: 0 <= k < |pedidos| ==>
      r[k] == if pedidos[k].idPedido == id then pedidos[k].(estado := s) else pedidos[k]
  {
    seq(|pedidos|, k requires 0 <= k < |pedidos| =>
      if pedidos[k].idPedido == id then pedidos[k].(estado := s) else pedidos[k])
  }

  /** The auto-increment key of `pedido`: every order id was handed out by
      the counter, and no two orders share one. */
  predicate OrderIdsOk(db: Db) {
    (forall i :: 0 <= i < |db.pedidos| ==> db.pedidos[i].idPedido < db.nextPedido) &&
    (forall i, j :: 0 <= i < j < |db.pedidos| ==> db.pedidos[i].idPedido != db.pedidos[j].idPedido)
  }

  /** Inserting an order under the counter's id and advancing the counter keeps
      the key. */
  lemma AppendOrderKeepsIds(db: Db, db': Db, o: Order)
    requires OrderIdsOk(db)
    requires o.idPedido == db.nextPedido
    requires db'.pedidos == db.pedidos + [o] && db'.nextPedido == db.nextPedido + 1
    ensures OrderIdsOk(db')
  {
    forall i, j | 0 <= i < j < |db'.pedidos| ensures db'.pedidos[i].idPedido != db'.pedidos[j].idPedido {
      if j < |db.pedidos| {
        assert db'.pedidos[i] == db.pedidos[i] && db'.pedidos[j] == db.pedidos[j];
      } else {
        assert db'.pedidos[i] == db.pedidos[i];
      }
    }
  }

  /** A status update keeps every id, so it keeps the key; and under the key it
      touches the one order found and no other. */
  lemma SetOrderEstadoKeepsIds(db: Db, id: int, s: OrderStatus)
    requires OrderIdsOk(db)
    ensures OrderIdsOk(db.(pedidos := SetOrderEstado(db.pedidos, id, s)))
    ensures FindOrder(db.pedidos, id).Some? ==>
      forall j :: 0 <= j < |db.pedidos| && j != FindOrder(db.pedidos, id).value ==>
        SetOrderEstado(db.pedidos, id, s)[j] == db.pedidos[j]
  {
    var after := SetOrderEstado(db.pedidos, id, s);
    assert forall k :: 0 <= k < |after| ==> after[k].idPedido == db.pedidos[k].idPedido;
    if FindOrder(db.pedidos, id).Some? {
      var k := FindOrder(db.pedidos, id).value;
      forall j | 0 <= j < |db.pedidos| && j != k ensures after[j] == db.pedidos[j] {
        if j < k {
        } else {
          assert db.pedidos[k].idPedido != db.pedidos[j].idPedido;
        }
      }
    }
  }
}
