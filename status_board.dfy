/** The kitchen status board (Back_End/controllers/orderController.js,
    `getStatusBoard`): the orders, sorted by status priority and then newest
    first, are decorated one by one with their products, table and customer,
    and then split into one group per status. */
module StatusBoard {
  import opened Common
  import opened Schema

  /** One row of `pedido LEFT JOIN mesa LEFT JOIN usuario`; the joined columns
      are None where the join found no row. */
  datatype BoardRow = BoardRow(idPedido: int, idUsuario: Option<int>, idMesa: Option<int>,
                               fecha: int, estado: OrderStatus, total: int,
                               observaciones: Option<string>,
                               mesaNumero: Option<int>, mesaEstado: Option<string>,
                               usuarioNombre: Option<string>, usuarioCorreo: Option<string>)

  /** One row of `pedido_producto INNER JOIN producto`. */
  datatype BoardItem = BoardItem(cantidad: int, precioUnitario: UnitPrice,
                                 idProducto: int, nombre: string, precio: int)

  datatype MesaInfo = MesaInfo(numero: Option<int>, estado: Option<string>)

  datatype UserInfo = UserInfo(nombre: Option<string>, correo: Option<string>)

  /** An order as sent to the board, the temporary join columns removed. */
  datatype BoardOrder = BoardOrder(idPedido: int, idUsuario: Option<int>, idMesa: Option<int>,
                                   fecha: int, estado: OrderStatus, total: int,
                                   observaciones: Option<string>, productos: seq<BoardItem>,
                                   mesa: Option<MesaInfo>, usuario: Option<UserInfo>)

  datatype Board = Board(pendiente: seq<BoardOrder>, enPreparacion: seq<BoardOrder>,
                         entregado: seq<BoardOrder>, pagado: seq<BoardOrder>)

  /** The `CASE p.estado WHEN … THEN n` priority of the ORDER BY. */
  function Rank(s: OrderStatus): nat {
    match s
    case Pendiente => 1
    case EnPreparacion => 2
    case Entregado => 3
    case Pagado => 4
  }

  /** `ORDER BY <priority>, p.fecha DESC`: a comes no later than b. */
  predicate Before(ra: nat, fa: int, rb: nat, fb: int) {
    ra < rb || (ra == rb && fa >= fb)
  }

  predicate RowsOrdered(rows: seq<BoardRow>) {
    forall i, j :: 0 <= i < j < |rows| ==>
      Before(Rank(rows[i].estado), rows[i].fecha, Rank(rows[j].estado), rows[j].fecha)
  }

  predicate Ordered(os: seq<BoardOrder>) {
    forall i, j :: 0 <= i < j < |os| ==>
      Before(Rank(os[i].estado), os[i].fecha, Rank(os[j].estado), os[j].fecha)
  }

  // ---------------------------------------------------------------------------
  // Decoration
  // ---------------------------------------------------------------------------

  /** The per-order product query: the order's lines joined with the catalogue
      (a line whose product is missing drops out of the INNER JOIN). */
  function ItemsOf(id: int, lineas: seq<OrderLine>, productos: seq<Product>): seq<BoardItem> {
    if lineas == [] then []
    else
      var l := lineas[|lineas| - 1];
      var rest := ItemsOf(id, lineas[..|lineas| - 1], productos);
      if l.idPedido != id then rest
      else match FindProduct(productos, l.idProducto)
        case None => rest
        case Some(p) => rest + [BoardItem(l.cantidad, l.precioUnitario, p.idProducto, p.nombre, p.precio)]
  }

  /** One pass of the decoration loop. */
  function Decorate(row: BoardRow, lineas: seq<OrderLine>, productos: seq<Product>): BoardOrder {
    BoardOrder(row.idPedido, row.idUsuario, row.idMesa, row.fecha, row.estado, row.total,
               row.observaciones, ItemsOf(row.idPedido, lineas, productos),
               if Truthy(row.idMesa) then Some(MesaInfo(row.mesaNumero, row.mesaEstado)) else None,
               if Truthy(row.idUsuario) then Some(UserInfo(row.usuarioNombre, row.usuarioCorreo)) else None)
  }

  function DecorateAll(rows: seq<BoardRow>, lineas: seq<OrderLine>, productos: seq<Product>): seq<BoardOrder> {
    seq(|rows|, i requires 0 <= i < |rows| => Decorate(rows[i], lineas, productos))
  }

  // ---------------------------------------------------------------------------
  // Grouping
  // ---------------------------------------------------------------------------

  /** `pedidos.filter(p => p.estado === s)`. */
  function Group(os: seq<BoardOrder>, s: OrderStatus): seq<BoardOrder> {
    if os == [] then []
    else Group(os[..|os| - 1], s) + (if os[|os| - 1].estado == s then [os[|os| - 1]] else [])
  }

  function StatusBoardOf(os: seq<BoardOrder>): Board {
    Board(Group(os, Pendiente), Group(os, EnPreparacion), Group(os, Entregado), Group(os, Pagado))
  }

  function GroupOf(b: Board, s: OrderStatus): seq<BoardOrder> {
    match s
    case Pendiente => b.pendiente
    case EnPreparacion => b.enPreparacion
    case Entregado => b.entregado
    case Pagado => b.pagado
  }

  /** GET /api/pedidos/status-board, from the sorted query result on. */
  method GetStatusBoard(rows: seq<BoardRow>, lineas: seq<OrderLine>, productos: seq<Product>)
    returns (board: Board)
    ensures board == StatusBoardOf(DecorateAll(rows, lineas, productos))
  {
    var pedidos: seq<BoardOrder> := [];
    var i := 0;
    while i < |rows|
      invariant 0 <= i <= |rows|
      invariant pedidos == DecorateAll(rows[..i], lineas, productos)
    {
      var row := rows[i];
      var items := ItemsOf(row.idPedido, lineas, productos);
      var mesa: Option<MesaInfo> := None;
      if Truthy(row.idMesa) {
        mesa := Some(MesaInfo(row.mesaNumero, row.mesaEstado));
      }
      var usuario: Option<UserInfo> := None;
      if Truthy(row.idUsuario) {
        usuario := Some(UserInfo(row.usuarioNombre, row.usuarioCorreo));
      }
      pedidos := pedidos + [BoardOrder(row.idPedido, row.idUsuario, row.idMesa, row.fecha, row.estado,
                                       row.total, row.observaciones, items, mesa, usuario)];
      i := i + 1;
    }
    assert rows[..i] == rows;
    board := StatusBoardOf(pedidos);
  }

  // ---------------------------------------------------------------------------
  // Properties
  // ---------------------------------------------------------------------------

  /** Decoration keeps each order's identity, status and date, attaches the
      table exactly when the order names one and the customer exactly when it
      names one. */
  lemma DecorateKeeps(rows: seq<BoardRow>, lineas: seq<OrderLine>, productos: seq<Product>)
    ensures var os := DecorateAll(rows, lineas, productos);
      |os| == |rows| &&
      forall i :: 0 <= i < |rows| ==>
        os[i].idPedido == rows[i].idPedido && os[i].estado == rows[i].estado &&
        os[i].fecha == rows[i].fecha && os[i].total == rows[i].total &&
        (os[i].mesa.Some? <==> Truthy(rows[i].idMesa)) &&
        (os[i].usuario.Some? <==> Truthy(rows[i].idUsuario))
  {
  }

  /** Every listed product comes from one of the order's own lines, with that
      line's quantity and stored unit price. */
  lemma {:induction false} ItemsOfSound(id: int, lineas: seq<OrderLine>, productos: seq<Product>)
    ensures forall it :: it in ItemsOf(id, lineas, productos) ==>
      (exists k :: 0 <= k < |lineas| && lineas[k].idPedido == id &&
        lineas[k].idProducto == it.idProducto && lineas[k].cantidad == it.cantidad &&
        lineas[k].precioUnitario == it.precioUnitario)
    decreases |lineas|
  {
    if lineas != [] {
      var pre := lineas[..|lineas| - 1];
      ItemsOfSound(id, pre, productos);
      var items := ItemsOf(id, lineas, productos);
      forall it | it in items
        ensures exists k :: (0 <= k < |lineas| && lineas[k].idPedido == id &&
          lineas[k].idProducto == it.idProducto && lineas[k].cantidad == it.cantidad &&
          lineas[k].precioUnitario == it.precioUnitario)
      {
        if it in ItemsOf(id, pre, productos) {
          var k :| 0 <= k < |pre| && pre[k].idPedido == id &&
            pre[k].idProducto == it.idProducto && pre[k].cantidad == it.cantidad &&
            pre[k].precioUnitario == it.precioUnitario;
          assert lineas[k] == pre[k];
        } else {
          assert lineas[|lineas| - 1].idProducto == it.idProducto;
        }
      }
    }
  }

  /** Every line of the order whose product is in the catalogue is listed. */
  lemma {:induction false} ItemsOfComplete(id: int, lineas: seq<OrderLine>, productos: seq<Product>, k: nat)
    requires k < |lineas| && lineas[k].idPedido == id
    requires FindProduct(productos, lineas[k].idProducto).Some?
    ensures exists it :: (it in ItemsOf(id, lineas, productos) &&
      it.idProducto == lineas[k].idProducto && it.cantidad == lineas[k].cantidad)
    decreases |lineas|
  {
    var pre := lineas[..|lineas| - 1];
    var items := ItemsOf(id, lineas, productos);
    if k < |pre| {
      ItemsOfComplete(id, pre, productos, k);
      var it :| it in ItemsOf(id, pre, productos) &&
        it.idProducto == pre[k].idProducto && it.cantidad == pre[k].cantidad;
      assert it in items;
    } else {
      assert items[|items| - 1] in items;
    }
  }

  /** Every order is in the group named by its status and in no other. */
  lemma {:induction false} GroupMembership(os: seq<BoardOrder>, s: OrderStatus)
    ensures forall x :: x in Group(os, s) <==> x in os && x.estado == s
    decreases |os|
  {
    if os != [] {
      var pre := os[..|os| - 1];
      GroupMembership(pre, s);
      assert os == pre + [os[|os| - 1]];
    }
  }

  /** The four groups together hold as many orders as the query returned. */
  lemma {:induction false} GroupsCount(os: seq<BoardOrder>)
    ensures |Group(os, Pendiente)| + |Group(os, EnPreparacion)| +
            |Group(os, Entregado)| + |Group(os, Pagado)| == |os|
    decreases |os|
  {
    if os != [] {
      GroupsCount(os[..|os| - 1]);
    }
  }

  /** Dropping the last order keeps the list sorted, and no earlier order has a
      later status than the last one. */
  lemma OrderedPrefix(os: seq<BoardOrder>)
    requires os != [] && Ordered(os)
    ensures Ordered(os[..|os| - 1])
    ensures forall i :: 0 <= i < |os| - 1 ==> Rank(os[i].estado) <= Rank(os[|os| - 1].estado)
  {
    var pre := os[..|os| - 1];
    forall i, j | 0 <= i < j < |pre|
      ensures Before(Rank(pre[i].estado), pre[i].fecha, Rank(pre[j].estado), pre[j].fecha)
    {
      assert pre[i] == os[i] && pre[j] == os[j];
    }
  }

  /** Filtering keeps the query's order, so within a group the orders remain
      priority first and then newest first. */
  lemma {:induction false} GroupOrdered(os: seq<BoardOrder>, s: OrderStatus)
    requires Ordered(os)
    ensures Ordered(Group(os, s))
    decreases |os|
  {
    if os != [] {
      var pre := os[..|os| - 1];
      var x := os[|os| - 1];
      OrderedPrefix(os);
      GroupOrdered(pre, s);
      if x.estado == s {
        var g := Group(pre, s);
        GroupMembership(pre, s);
        forall y | y in g
          ensures Before(Rank(y.estado), y.fecha, Rank(x.estado), x.fecha)
        {
          var i :| 0 <= i < |pre| && pre[i] == y;
          assert os[i] == y;
        }
        var g' := g + [x];
        forall i, j | 0 <= i < j < |g'|
          ensures Before(Rank(g'[i].estado), g'[i].fecha, Rank(g'[j].estado), g'[j].fecha)
        {
          if j == |g| {
            assert g'[i] in g;
          }
        }
      }
    }
  }

  /** Within a group the orders are newest first. */
  lemma GroupNewestFirst(rows: seq<BoardRow>, lineas: seq<OrderLine>, productos: seq<Product>, s: OrderStatus)
    requires RowsOrdered(rows)
    ensures var g := GroupOf(GetStatusBoardSpec(rows, lineas, productos), s);
      forall i, j :: 0 <= i < j < |g| ==> g[i].estado == s && g[i].fecha >= g[j].fecha
  {
    var os := DecorateAll(rows, lineas, productos);
    assert Ordered(os);
    GroupOrdered(os, s);
    GroupMembership(os, s);
    var g := Group(os, s);
    assert GroupOf(StatusBoardOf(os), s) == g;
    forall i, j | 0 <= i < j < |g|
      ensures g[i].estado == s && g[i].fecha >= g[j].fecha
    {
      assert g[i] in g && g[j] in g;
    }
  }

  function GetStatusBoardSpec(rows: seq<BoardRow>, lineas: seq<OrderLine>, productos: seq<Product>): Board {
    StatusBoardOf(DecorateAll(rows, lineas, productos))
  }

  /** A group is empty when no order carries its status. */
  lemma {:induction false} GroupEmpty(os: seq<BoardOrder>, s: OrderStatus)
    requires forall i :: 0 <= i < |os| ==> os[i].estado != s
    ensures Group(os, s) == []
    decreases |os|
  {
    if os != [] {
      GroupEmpty(os[..|os| - 1], s);
    }
  }

  /** Appending one order extends only its own group. */
  lemma GroupSnoc(pre: seq<BoardOrder>, x: BoardOrder, s: OrderStatus)
    ensures Group(pre + [x], s) == Group(pre, s) + (if x.estado == s then [x] else [])
  {
    assert (pre + [x])[..|pre|] == pre;
  }

  /** Since the query sorts by status priority first, reading the four groups
      in priority order gives back exactly the sorted list. */
  lemma {:induction false} GroupsConcat(os: seq<BoardOrder>)
    requires Ordered(os)
    ensures Group(os, Pendiente) + Group(os, EnPreparacion) + Group(os, Entregado) + Group(os, Pagado) == os
    decreases |os|
  {
    if os != [] {
      var pre := os[..|os| - 1];
      var x := os[|os| - 1];
      OrderedPrefix(os);
      GroupsConcat(pre);
      assert os == pre + [x];
      GroupsSnoc(pre, x);
    }
  }

  /** The inductive step of GroupsConcat: an order whose status is the latest
      so far lands at the end of the concatenated groups. */
  lemma GroupsSnoc(pre: seq<BoardOrder>, x: BoardOrder)
    requires forall i :: 0 <= i < |pre| ==> Rank(pre[i].estado) <= Rank(x.estado)
    ensures var os := pre + [x];
      Group(os, Pendiente) + Group(os, EnPreparacion) + Group(os, Entregado) + Group(os, Pagado) ==
      Group(pre, Pendiente) + Group(pre, EnPreparacion) + Group(pre, Entregado) + Group(pre, Pagado) + [x]
  {
    var os := pre + [x];
    var k := Rank(x.estado);
    GroupSnoc(pre, x, Pendiente);
    GroupSnoc(pre, x, EnPreparacion);
    GroupSnoc(pre, x, Entregado);
    GroupSnoc(pre, x, Pagado);
    if k < 4 {
      GroupEmpty(pre, Pagado);
    }
    if k < 3 {
      GroupEmpty(pre, Entregado);
    }
    if k < 2 {
      GroupEmpty(pre, EnPreparacion);
    }
    ConcatStep(Group(pre, Pendiente), Group(pre, EnPreparacion), Group(pre, Entregado), Group(pre, Pagado),
               Group(os, Pendiente), Group(os, EnPreparacion), Group(os, Entregado), Group(os, Pagado), x, k);
  }

  /** Four blocks, the `k`-th extended by x while all later ones are empty:
      the concatenation is extended by x. */
  lemma ConcatStep<T>(p: seq<T>, e: seq<T>, d: seq<T>, g: seq<T>,
                      p': seq<T>, e': seq<T>, d': seq<T>, g': seq<T>, x: T, k: nat)
    requires 1 <= k <= 4
    requires p' == if k == 1 then p + [x] else p
    requires e' == if k == 2 then e + [x] else e
    requires d' == if k == 3 then d + [x] else d
    requires g' == if k == 4 then g + [x] else g
    requires k < 2 ==> e == []
    requires k < 3 ==> d == []
    requires k < 4 ==> g == []
    ensures p' + e' + d' + g' == p + e + d + g + [x]
  {
  }

  /** The board of a sorted query result: each status's group holds exactly the
      orders of that status, and the groups in priority order are the whole list. */
  lemma BoardPartition(rows: seq<BoardRow>, lineas: seq<OrderLine>, productos: seq<Product>)
    requires RowsOrdered(rows)
    ensures var b := GetStatusBoardSpec(rows, lineas, productos);
      var os := DecorateAll(rows, lineas, productos);
      (forall s, x :: x in GroupOf(b, s) <==> x in os && x.estado == s) &&
      b.pendiente + b.enPreparacion + b.entregado + b.pagado == os
  {
    var os := DecorateAll(rows, lineas, productos);
    var b := GetStatusBoardSpec(rows, lineas, productos);
    forall s: OrderStatus ensures forall x :: x in GroupOf(b, s) <==> x in os && x.estado == s {
      GroupMembership(os, s);
    }
    assert Ordered(os);
    GroupsConcat(os);
  }
}
