/** The cart of the table-sale screen (Front_End/src/Administrador/ManualSale.jsx).
    Every handler builds a new cart from the old one; here each is a function
    from cart to cart. The cart id of a new line (`Date.now()`) and the answer
    of the confirmation dialog are parameters. */
module ClientCart {
  import opened Common
  import opened Schema
  import opened TableSales

  /** A product card: the catalogue price and the stock at sede 1. */
  datatype CatalogProduct = CatalogProduct(idProducto: int, nombre: string, precio: int, stock: int)

  /** One cart line. `personalizaciones` holds the selected option rows as the
      server sent them; None is `null` (nothing selected). */
  datatype CartItem = CartItem(id: int, idProducto: int, nombre: string, precio: int,
                               cantidad: int, stockDisponible: int,
                               personalizaciones: Option<seq<Customization>>,
                               notas: Option<string>)

  /** Lines the handlers can produce: a positive quantity of a real product. */
  predicate CartOk(cart: seq<CartItem>) {
    forall i :: 0 <= i < |cart| ==> cart[i].cantidad >= 1 && cart[i].idProducto != 0
  }

  /** Σ cantidad: the "Items" count of the confirmation dialog. */
  function Units(cart: seq<CartItem>): int {
    if cart == [] then 0 else Units(cart[..|cart| - 1]) + cart[|cart| - 1].cantidad
  }

  // ---------------------------------------------------------------------------
  // agregarAlCarrito
  // ---------------------------------------------------------------------------

  /** `carrito.find(item => item.idProducto === prod && !item.personalizaciones)`:
      the first line of the product with no customization selected. */
  function FirstPlain(cart: seq<CartItem>, prod: int): (r: Option<nat>)
    ensures r.Some? ==> r.value < |cart| && cart[r.value].idProducto == prod &&
                        cart[r.value].personalizaciones.None? &&
                        forall j :: 0 <= j < r.value ==>
                          !(cart[j].idProducto == prod && cart[j].personalizaciones.None?)
    ensures r.None? ==> forall j :: 0 <= j < |cart| ==>
                          !(cart[j].idProducto == prod && cart[j].personalizaciones.None?)
  {
    if cart == [] then None
    else if cart[0].idProducto == prod && cart[0].personalizaciones.None? then Some(0)
    else match FirstPlain(cart[1..], prod)
      case None => None
      case Some(k) => Some(k + 1)
  }

  function NewItem(p: CatalogProduct, now: int): CartItem {
    CartItem(now, p.idProducto, p.nombre, p.precio, 1, p.stock, None, None)
  }

  /** `agregarAlCarrito(producto)`. */
  function Agregar(cart: seq<CartItem>, p: CatalogProduct, now: int): (r: seq<CartItem>)
    ensures p.stock <= 0 ==> r == cart
    ensures p.stock > 0 && FirstPlain(cart, p.idProducto).None? ==> r == cart + [NewItem(p, now)]
    ensures p.stock > 0 && FirstPlain(cart, p.idProducto).Some? ==>
      var k := FirstPlain(cart, p.idProducto).value;
      |r| == |cart| &&
      (cart[k].cantidad >= p.stock ==> r == cart) &&
      (cart[k].cantidad < p.stock ==>
        r[k] == cart[k].(cantidad := cart[k].cantidad + 1) &&
        forall j :: 0 <= j < |cart| && j != k ==> r[j] == cart[j])
  {
    if p.stock <= 0 then cart
    else match FirstPlain(cart, p.idProducto)
      case Some(k) =>
        if cart[k].cantidad >= p.stock then cart
        else cart[k := cart[k].(cantidad := cart[k].cantidad + 1)]
      case None => cart + [NewItem(p, now)]
  }

  lemma {:induction false} UnitsSet(cart: seq<CartItem>, k: nat, x: CartItem)
    requires k < |cart|
    ensures Units(cart[k := x]) == Units(cart) - cart[k].cantidad + x.cantidad
    decreases |cart|
  {
    var c' := cart[k := x];
    assert c'[..|c'| - 1] == if k < |cart| - 1 then cart[..|cart| - 1][k := x] else cart[..|cart| - 1];
    if k < |cart| - 1 {
      UnitsSet(cart[..|cart| - 1], k, x);
    }
  }

  lemma UnitsAppend(cart: seq<CartItem>, x: CartItem)
    ensures Units(cart + [x]) == Units(cart) + x.cantidad
  {
    assert (cart + [x])[..|cart|] == cart;
  }

  /** Adding a product adds exactly one unit, or leaves the cart as it was; it
      adds one exactly when there is stock and the product's plain line (if
      any) is still below that stock. */
  lemma AgregarOneUnit(cart: seq<CartItem>, p: CatalogProduct, now: int)
    ensures var r := Agregar(cart, p, now);
      (r == cart || Units(r) == Units(cart) + 1) &&
      (Units(r) == Units(cart) + 1 <==>
        p.stock > 0 &&
        (FirstPlain(cart, p.idProducto).None? ||
         cart[FirstPlain(cart, p.idProducto).value].cantidad < p.stock))
  {
    if p.stock > 0 {
      match FirstPlain(cart, p.idProducto)
      case Some(k) =>
        if cart[k].cantidad < p.stock {
          UnitsSet(cart, k, cart[k].(cantidad := cart[k].cantidad + 1));
        }
      case None =>
        UnitsAppend(cart, NewItem(p, now));
    }
  }

  /** Adding never takes a plain line past the stock shown on the card, and
      keeps every line a positive quantity of a real product. */
  lemma AgregarBounded(cart: seq<CartItem>, p: CatalogProduct, now: int)
    requires CartOk(cart) && p.idProducto != 0
    ensures var r := Agregar(cart, p, now);
      CartOk(r) &&
      forall j :: 0 <= j < |r| && r[j] != (if j < |cart| then cart[j] else r[j]) ==>
        r[j].idProducto == p.idProducto && r[j].cantidad <= p.stock
  {
  }

  // ---------------------------------------------------------------------------
  // eliminarDelCarrito, modificarCantidad
  // ---------------------------------------------------------------------------

  /** `carrito.filter(item => item.id !== id)`. */
  function Eliminar(cart: seq<CartItem>, id: int): (r: seq<CartItem>)
    ensures |r| <= |cart|
  {
    if cart == [] then []
    else
      var x := cart[|cart| - 1];
      Eliminar(cart[..|cart| - 1], id) + (if x.id != id then [x] else [])
  }

  /** Removing drops exactly the lines with that id. */
  lemma {:induction false} EliminarExact(cart: seq<CartItem>, id: int)
    ensures forall x :: x in Eliminar(cart, id) <==> x in cart && x.id != id
    decreases |cart|
  {
    if cart != [] {
      var pre := cart[..|cart| - 1];
      EliminarExact(pre, id);
      assert cart == pre + [cart[|cart| - 1]];
    }
  }

  /** Removing keeps the others in order: it distributes over concatenation. */
  lemma {:induction false} EliminarConcat(a: seq<CartItem>, b: seq<CartItem>, id: int)
    ensures Eliminar(a + b, id) == Eliminar(a, id) + Eliminar(b, id)
    decreases |b|
  {
    if b == [] {
      assert a + b == a;
    } else {
      var b' := b[..|b| - 1];
      assert (a + b)[..|a + b| - 1] == a + b';
      EliminarConcat(a, b', id);
    }
  }

  /** A cart with no line of that id is left as it was. */
  lemma {:induction false} EliminarAbsent(cart: seq<CartItem>, id: int)
    requires forall i :: 0 <= i < |cart| ==> cart[i].id != id
    ensures Eliminar(cart, id) == cart
    decreases |cart|
  {
    if cart != [] {
      var pre := cart[..|cart| - 1];
      assert forall i :: 0 <= i < |pre| ==> pre[i] == cart[i];
      EliminarAbsent(pre, id);
      assert cart == pre + [cart[|cart| - 1]];
    }
  }

  /** `modificarCantidad(item, nuevaCantidad)`. */
  function ModificarCantidad(cart: seq<CartItem>, item: CartItem, nueva: int): (r: seq<CartItem>)
    ensures nueva <= 0 ==> r == Eliminar(cart, item.id)
    ensures nueva > item.stockDisponible && nueva > 0 ==> r == cart
    ensures 0 < nueva <= item.stockDisponible ==>
      |r| == |cart| &&
      forall j :: 0 <= j < |cart| ==>
        (cart[j].id == item.id ==> r[j] == cart[j].(cantidad := nueva)) &&
        (cart[j].id != item.id ==> r[j] == cart[j])
  {
    if nueva <= 0 then Eliminar(cart, item.id)
    else if nueva > item.stockDisponible then cart
    else (seq(|cart|, j requires 0 <= j < |cart| =>
            if cart[j].id == item.id then cart[j].(cantidad := nueva) else cart[j]))
  }

  /** Changing a quantity keeps every line a positive quantity of a real
      product, and a changed line never exceeds the stock recorded on it. */
  lemma ModificarKeepsCart(cart: seq<CartItem>, item: CartItem, nueva: int)
    requires CartOk(cart)
    ensures CartOk(ModificarCantidad(cart, item, nueva))
    ensures forall x :: x in ModificarCantidad(cart, item, nueva) && x !in cart ==>
      x.id == item.id && 0 < x.cantidad <= item.stockDisponible
  {
    var r := ModificarCantidad(cart, item, nueva);
    if nueva <= 0 {
      EliminarExact(cart, item.id);
      forall i | 0 <= i < |r| ensures r[i].cantidad >= 1 && r[i].idProducto != 0 {
        assert r[i] in r;
      }
    }
  }

  // ---------------------------------------------------------------------------
  // calcularTotal
  // ---------------------------------------------------------------------------

  /** `parseFloat(pers.precio_adicional) || 0` on an option row: the rows the
      server sends carry `costoExtra` and no `precio_adicional`, so the parse
      gives NaN and the fallback 0. */
  function PrecioAdicional(o: Customization): int {
    0
  }

  /** Σ `precio_adicional` over the selected options: nothing, whatever the
      selection, since every term is the fallback 0. */
  function SumPrecioAdicional(sel: seq<Customization>): (r: int)
    ensures r == 0
  {
    if sel == [] then 0 else SumPrecioAdicional(sel[..|sel| - 1]) + PrecioAdicional(sel[|sel| - 1])
  }

  /** Σ costoExtra over the selected options. */
  function SumCostoExtra(sel: seq<Customization>): int {
    if sel == [] then 0 else SumCostoExtra(sel[..|sel| - 1]) + sel[|sel| - 1].costoExtra
  }

  /** `calcularTotal` as written: Σ (precio + Σ precio_adicional) × cantidad. */
  function CalcularTotal(cart: seq<CartItem>): int {
    if cart == [] then 0
    else
      var item := cart[|cart| - 1];
      var extras := if item.personalizaciones.Some? && |item.personalizaciones.value| > 0
                    then SumPrecioAdicional(item.personalizaciones.value) else 0;
      CalcularTotal(cart[..|cart| - 1]) + (item.precio + extras) * item.cantidad
  }

  /** `calcularTotal` reading the field the option rows do carry. */
  function CalcularTotalFixed(cart: seq<CartItem>): int {
    if cart == [] then 0
    else CalcularTotalFixed(cart[..|cart| - 1]) + FixedLineAmount(cart[|cart| - 1])
  }

  /** What one line adds to the corrected total, as a function of the line. */
  function FixedLineAmount(item: CartItem): int {
    var extras := if item.personalizaciones.Some? && |item.personalizaciones.value| > 0
                  then SumCostoExtra(item.personalizaciones.value) else 0;
    (item.precio + extras) * item.cantidad
  }

  /** Σ precio × cantidad: the cart priced without any customization. */
  function BaseTotal(cart: seq<CartItem>): int {
    if cart == [] then 0
    else BaseTotal(cart[..|cart| - 1]) + cart[|cart| - 1].precio * cart[|cart| - 1].cantidad
  }

  /** As written, the total ignores every customization surcharge. */
  lemma {:induction false} TotalIgnoresExtras(cart: seq<CartItem>)
    ensures CalcularTotal(cart) == BaseTotal(cart)
    decreases |cart|
  {
    if cart != [] {
      TotalIgnoresExtras(cart[..|cart| - 1]);
    }
  }

  /** A one-line cart: a 10000 hot dog with one 2000 extra selected. */
  function ExtraOption(): Customization {
    Customization(3, "Queso extra", Some("Adiciones"), 2000, true)
  }

  function CartWithExtra(): seq<CartItem> {
    [CartItem(1, 7, "Perro", 10000, 1, 5, Some([ExtraOption()]), None)]
  }

  /** The discrepancy: the screen shows 10000 where 12000 is charged. */
  lemma TotalMissesExtra()
    ensures CalcularTotal(CartWithExtra()) == 10000
    ensures CalcularTotalFixed(CartWithExtra()) == 12000
  {
    var c := CartWithExtra();
    assert c[..0] == [];
    assert SumCostoExtra([ExtraOption()]) == 2000 by {
      assert [ExtraOption()][..0] == [];
    }
  }

  // ---------------------------------------------------------------------------
  // Customization modal
  // ---------------------------------------------------------------------------

  predicate Selected(sel: seq<Customization>, id: int) {
    exists i :: 0 <= i < |sel| && sel[i].idPersonalizacion == id
  }

  /** `selected.filter(p => p.idPersonalizacion !== id)`. */
  function Unselect(sel: seq<Customization>, id: int): (r: seq<Customization>)
    ensures forall x :: x in r <==> x in sel && x.idPersonalizacion != id
  {
    if sel == [] then []
    else
      var pre := sel[..|sel| - 1];
      var x := sel[|sel| - 1];
      assert sel == pre + [x];
      Unselect(pre, id) + (if x.idPersonalizacion != id then [x] else [])
  }

  /** `togglePersonalizacion(pers)`. */
  function Toggle(sel: seq<Customization>, o: Customization): (r: seq<Customization>)
    ensures Selected(r, o.idPersonalizacion) <==> !Selected(sel, o.idPersonalizacion)
    ensures forall id :: id != o.idPersonalizacion ==> (Selected(r, id) <==> Selected(sel, id))
  {
    if Selected(sel, o.idPersonalizacion) then
      var r := Unselect(sel, o.idPersonalizacion);
      assert forall id :: Selected(r, id) ==> Selected(sel, id) by {
        forall id | Selected(r, id) ensures Selected(sel, id) {
          var i :| 0 <= i < |r| && r[i].idPersonalizacion == id;
          assert r[i] in r;
        }
      }
      assert forall id :: id != o.idPersonalizacion && Selected(sel, id) ==> Selected(r, id) by {
        forall id | id != o.idPersonalizacion && Selected(sel, id) ensures Selected(r, id) {
          var i :| 0 <= i < |sel| && sel[i].idPersonalizacion == id;
          assert sel[i] in sel;
        }
      }
      assert !Selected(r, o.idPersonalizacion);
      r
    else
      var r := sel + [o];
      assert r[|sel|].idPersonalizacion == o.idPersonalizacion;
      assert forall id :: Selected(sel, id) ==> Selected(r, id) by {
        forall id | Selected(sel, id) ensures Selected(r, id) {
          var i :| 0 <= i < |sel| && sel[i].idPersonalizacion == id;
          assert r[i] == sel[i];
        }
      }
      r
  }

  /** Toggling the same option twice gives back the same selection of options;
      when it was not selected, the very same list. */
  lemma ToggleTwice(sel: seq<Customization>, o: Customization)
    ensures forall id :: Selected(Toggle(Toggle(sel, o), o), id) <==> Selected(sel, id)
    ensures !Selected(sel, o.idPersonalizacion) ==> Toggle(Toggle(sel, o), o) == sel
  {
    if !Selected(sel, o.idPersonalizacion) {
      var r := sel + [o];
      assert Selected(r, o.idPersonalizacion) by {
        assert r[|sel|] == o;
      }
      UnselectAbsent(sel, o.idPersonalizacion);
      UnselectSnoc(sel, o);
    }
  }

  lemma {:induction false} UnselectAbsent(sel: seq<Customization>, id: int)
    requires !Selected(sel, id)
    ensures Unselect(sel, id) == sel
    decreases |sel|
  {
    if sel != [] {
      var pre, x := sel[..|sel| - 1], sel[|sel| - 1];
      assert !Selected(pre, id) by {
        forall i | 0 <= i < |pre|
          ensures pre[i].idPersonalizacion != id
        {
          assert pre[i] == sel[i];
        }
      }
      UnselectAbsent(pre, id);
      assert x.idPersonalizacion != id by {
        assert sel[|sel| - 1] == x;
      }
      assert sel == pre + [x];
    }
  }

  lemma UnselectSnoc(sel: seq<Customization>, o: Customization)
    ensures Unselect(sel + [o], o.idPersonalizacion) == Unselect(sel, o.idPersonalizacion)
  {
    assert (sel + [o])[..|sel|] == sel;
  }

  /** The selection never holds one option twice. */
  predicate DistinctIds(sel: seq<Customization>) {
    forall i, j :: 0 <= i < j < |sel| ==> sel[i].idPersonalizacion != sel[j].idPersonalizacion
  }

  lemma {:induction false} UnselectDistinct(sel: seq<Customization>, id: int)
    requires DistinctIds(sel)
    ensures DistinctIds(Unselect(sel, id))
    decreases |sel|
  {
    if sel != [] {
      var pre := sel[..|sel| - 1];
      var x := sel[|sel| - 1];
      UnselectDistinct(pre, id);
      var u := Unselect(pre, id);
      forall y | y in u ensures y.idPersonalizacion != x.idPersonalizacion {
        var i :| 0 <= i < |pre| && pre[i] == y;
        assert sel[i] == y;
      }
      if x.idPersonalizacion != id {
        var r := u + [x];
        forall i, j | 0 <= i < j < |r| ensures r[i].idPersonalizacion != r[j].idPersonalizacion {
          if j == |u| {
            assert r[i] in u;
          }
        }
      }
    }
  }

  /** Toggling keeps the selection free of repeats. */
  lemma ToggleDistinct(sel: seq<Customization>, o: Customization)
    requires DistinctIds(sel)
    ensures DistinctIds(Toggle(sel, o))
  {
    if Selected(sel, o.idPersonalizacion) {
      UnselectDistinct(sel, o.idPersonalizacion);
    } else {
      var r := sel + [o];
      forall i, j | 0 <= i < j < |r| ensures r[i].idPersonalizacion != r[j].idPersonalizacion {
        if j == |sel| {
          assert sel[i].idPersonalizacion != o.idPersonalizacion;
        }
      }
    }
  }

  /** The stored notes: `notas.trim() || null`. */
  function NotesOf(notas: string): (r: Option<string>)
    ensures r.None? <==> IsBlank(notas)
    ensures r.Some? ==> r.value == Trim(notas)
  {
    if Trim(notas) == [] then None else Some(Trim(notas))
  }

  /** `guardarPersonalizacion()`; `editing` is the line the modal was opened on. */
  function Guardar(cart: seq<CartItem>, editing: Option<CartItem>, sel: seq<Customization>,
                   notas: string): (r: seq<CartItem>)
    ensures editing.None? ==> r == cart
    ensures |r| == |cart|
    ensures editing.Some? ==> forall j :: 0 <= j < |cart| ==>
      (cart[j].id != editing.value.id ==> r[j] == cart[j]) &&
      (cart[j].id == editing.value.id ==>
        r[j] == cart[j].(personalizaciones := if |sel| > 0 then Some(sel) else None,
                         notas := NotesOf(notas)))
  {
    if editing.None? then cart
    else (seq(|cart|, j requires 0 <= j < |cart| =>
            if cart[j].id == editing.value.id
            then cart[j].(personalizaciones := if |sel| > 0 then Some(sel) else None, notas := NotesOf(notas))
            else cart[j]))
  }

  /** Saving touches only the selection and the notes of the edited line:
      every other field, and so the item count, is as it was, and the edited
      line never holds an empty selection or blank notes. */
  lemma GuardarKeepsUnits(cart: seq<CartItem>, editing: Option<CartItem>,
                          sel: seq<Customization>, notas: string)
    ensures var r := Guardar(cart, editing, sel, notas);
      Units(r) == Units(cart) &&
      forall j :: 0 <= j < |cart| ==>
        r[j].(personalizaciones := cart[j].personalizaciones, notas := cart[j].notas) == cart[j] &&
        (r[j] != cart[j] ==>
          (r[j].personalizaciones.None? || |r[j].personalizaciones.value| > 0) &&
          (r[j].notas.None? || !IsBlank(r[j].notas.value)))
  {
    if editing.Some? && !IsBlank(notas) {
      TrimIdempotent(notas);
    }
    GuardarUnits(cart, editing, sel, notas);
  }

  /** Saving keeps every quantity, so the item count is unchanged. */
  lemma {:induction false} GuardarUnits(cart: seq<CartItem>, editing: Option<CartItem>,
                                        sel: seq<Customization>, notas: string)
    ensures Units(Guardar(cart, editing, sel, notas)) == Units(cart)
    decreases |cart|
  {
    if cart != [] && editing.Some? {
      var pre := cart[..|cart| - 1];
      GuardarUnits(pre, editing, sel, notas);
      var r := Guardar(cart, editing, sel, notas);
      assert r[..|r| - 1] == Guardar(pre, editing, sel, notas);
      assert r[|r| - 1].cantidad == cart[|cart| - 1].cantidad;
    }
  }

  // ---------------------------------------------------------------------------
  // confirmarPedido
  // ---------------------------------------------------------------------------

  datatype ConfirmOutcome = NeedTable | EmptyCart | Cancelled | Send(req: SaleRequest)

  function OptionIds(sel: seq<Customization>): (r: seq<int>)
    ensures |r| == |sel| && forall i :: 0 <= i < |sel| ==> r[i] == sel[i].idPersonalizacion
  {
    seq(|sel|, i requires 0 <= i < |sel| => sel[i].idPersonalizacion)
  }

  /** `productosFormateados`: product, quantity and the selected option ids. */
  function Payload(cart: seq<CartItem>): (r: seq<SaleLine>)
    ensures |r| == |cart|
  {
    seq(|cart|, i requires 0 <= i < |cart| =>
      SaleLine(cart[i].idProducto, cart[i].cantidad as real,
               if cart[i].personalizaciones.Some? then OptionIds(cart[i].personalizaciones.value) else []))
  }

  /** `confirmarPedido()`: `mesa` is the selected table (None for ''), and
      `confirmed` the answer to the dialog. */
  function Confirmar(mesa: Option<int>, cart: seq<CartItem>, confirmed: bool): ConfirmOutcome {
    if mesa.None? then NeedTable
    else if cart == [] then EmptyCart
    else if !confirmed then Cancelled
    else Send(SaleRequest(mesa, Some(1), Some(1), Some(Payload(cart)), None))
  }

  /** Nothing is sent without a table and a non-empty cart; what is sent from a
      well-formed cart passes every input check of `registrarVenta`. */
  lemma ConfirmSendsValid(mesa: Option<int>, cart: seq<CartItem>, confirmed: bool, db: Db, now: int)
    requires CartOk(cart)
    ensures Confirmar(mesa, cart, confirmed).Send? ==> mesa.Some? && cart != [] && confirmed
    ensures Confirmar(mesa, cart, confirmed).Send? && mesa.value != 0 ==>
      var resp := RegistrarVentaSpec(db, Confirmar(mesa, cart, confirmed).req, now, PerLine).0;
      resp != MesaRequired && resp != CartEmpty && resp != InvalidProducts
  {
    if Confirmar(mesa, cart, confirmed).Send? && mesa.value != 0 {
      var ls := Payload(cart);
      assert ValidSaleLines(ls) by {
        forall i | 0 <= i < |ls| ensures ValidSaleLine(ls[i]) {
          assert ls[i].cantidad == cart[i].cantidad as real;
          assert (cart[i].cantidad as real).Floor == cart[i].cantidad;
        }
      }
      assert ls != [] by {
        assert |ls| == |cart|;
      }
    }
  }

  // ---------------------------------------------------------------------------
  // The corrected total agrees with the server
  // ---------------------------------------------------------------------------

  predicate UniqueOptionIds(custs: seq<Customization>) {
    forall i, j :: 0 <= i < j < |custs| ==> custs[i].idPersonalizacion != custs[j].idPersonalizacion
  }

  lemma {:induction false} ExtraCostFresh(custs: seq<Customization>, ids: seq<int>, x: int)
    requires forall i :: 0 <= i < |custs| ==> custs[i].idPersonalizacion != x
    ensures ExtraCost(custs, ids + [x]) == ExtraCost(custs, ids)
    decreases |custs|
  {
    if custs != [] {
      ExtraCostFresh(custs[..|custs| - 1], ids, x);
    }
  }

  lemma {:induction false} ExtraCostAdd(custs: seq<Customization>, ids: seq<int>, o: Customization)
    requires o in custs && o.activo && o.idPersonalizacion !in ids
    requires UniqueOptionIds(custs)
    ensures ExtraCost(custs, ids + [o.idPersonalizacion]) == ExtraCost(custs, ids) + o.costoExtra
    decreases |custs|
  {
    var pre := custs[..|custs| - 1];
    var c := custs[|custs| - 1];
    assert custs == pre + [c];
    if c == o {
      ExtraCostFresh(pre, ids, o.idPersonalizacion);
    } else {
      assert o in pre;
      var k :| 0 <= k < |pre| && pre[k] == o;
      assert c.idPersonalizacion != o.idPersonalizacion by {
        assert custs[k] == o;
      }
      ExtraCostAdd(pre, ids, o);
    }
  }

  /** For a repeat-free selection of active option rows, Σ costoExtra is what
      the server's `IN (…) AND activo = 1` query adds up. */
  lemma {:induction false} SelectionExtraMatches(custs: seq<Customization>, sel: seq<Customization>)
    requires UniqueOptionIds(custs) && DistinctIds(sel)
    requires forall o :: o in sel ==> o in custs && o.activo
    ensures SumCostoExtra(sel) == ExtraCost(custs, OptionIds(sel))
    decreases |sel|
  {
    if sel == [] {
      NoIdsNoExtra(custs, OptionIds(sel));
    } else {
      var pre := sel[..|sel| - 1];
      var o := sel[|sel| - 1];
      assert DistinctIds(pre);
      SelectionExtraMatches(custs, pre);
      assert OptionIds(sel) == OptionIds(pre) + [o.idPersonalizacion];
      assert o.idPersonalizacion !in OptionIds(pre);
      ExtraCostAdd(custs, OptionIds(pre), o);
    }
  }

  /** Selections the modal can produce from the options the server sent. */
  predicate SelectionsFrom(cart: seq<CartItem>, custs: seq<Customization>) {
    forall i :: 0 <= i < |cart| && cart[i].personalizaciones.Some? ==>
      DistinctIds(cart[i].personalizaciones.value) &&
      forall o :: o in cart[i].personalizaciones.value ==> o in custs && o.activo
  }

  /** Cart prices are the catalogue prices the server reads at sede 1. */
  predicate PricesFrom(cart: seq<CartItem>, db: Db) {
    forall i :: 0 <= i < |cart| ==>
      FindStock(db.inventario, db.productos, 1, cart[i].idProducto).Some? &&
      FindStock(db.inventario, db.productos, 1, cart[i].idProducto).value.precio == cart[i].precio
  }

  /** One line: the corrected screen amount is the server's line amount. */
  lemma FixedLineMatches(item: CartItem, l: SaleLine, db: Db)
    requires l == SaleLine(item.idProducto, item.cantidad as real,
                           if item.personalizaciones.Some? then OptionIds(item.personalizaciones.value) else [])
    requires FindStock(db.inventario, db.productos, 1, item.idProducto).Some?
    requires FindStock(db.inventario, db.productos, 1, item.idProducto).value.precio == item.precio
    requires item.personalizaciones.Some? ==>
      DistinctIds(item.personalizaciones.value) &&
      forall o :: o in item.personalizaciones.value ==> o in db.personalizaciones && o.activo
    requires UniqueOptionIds(db.personalizaciones)
    ensures FixedLineAmount(item) == LineAmount(db, 1, l)
  {
    var q, p := item.cantidad, item.precio;
    var extras := if item.personalizaciones.Some? && |item.personalizaciones.value| > 0
                  then SumCostoExtra(item.personalizaciones.value) else 0;
    assert FixedLineAmount(item) == p * q + extras * q by {
      assert FixedLineAmount(item) == (p + extras) * q;
      assert (p + extras) * q == p * q + extras * q;
    }
    assert Qty(l) == q by {
      assert (q as real).Floor == q;
    }
    assert extras == ExtraCost(db.personalizaciones, l.personalizaciones) by {
      if item.personalizaciones.Some? {
        SelectionExtraMatches(db.personalizaciones, item.personalizaciones.value);
        if |item.personalizaciones.value| == 0 {
          NoIdsNoExtra(db.personalizaciones, l.personalizaciones);
        }
      } else {
        NoIdsNoExtra(db.personalizaciones, l.personalizaciones);
      }
    }
    assert LineAmount(db, 1, l) == p * q + extras * q;
  }

  lemma {:induction false} FixedTotalPrefix(cart: seq<CartItem>, db: Db, n: nat)
    requires n <= |cart|
    requires PricesFrom(cart, db) && SelectionsFrom(cart, db.personalizaciones)
    requires UniqueOptionIds(db.personalizaciones)
    ensures CalcularTotalFixed(cart[..n]) == SaleTotal(db, 1, Payload(cart), n)
    decreases n
  {
    if n > 0 {
      FixedTotalPrefix(cart, db, n - 1);
      assert cart[..n][..n - 1] == cart[..n - 1] && cart[..n][n - 1] == cart[n - 1];
      FixedLineMatchesAt(cart, db, n - 1);
    }
  }

  /** The line at index i of a cart drawn from the database. */
  lemma FixedLineMatchesAt(cart: seq<CartItem>, db: Db, i: nat)
    requires i < |cart|
    requires PricesFrom(cart, db) && SelectionsFrom(cart, db.personalizaciones)
    requires UniqueOptionIds(db.personalizaciones)
    ensures FixedLineAmount(cart[i]) == LineAmount(db, 1, Payload(cart)[i])
  {
    var item := cart[i];
    assert FindStock(db.inventario, db.productos, 1, item.idProducto).Some?;
    assert item.personalizaciones.Some? ==>
      DistinctIds(item.personalizaciones.value) &&
      forall o :: o in item.personalizaciones.value ==> o in db.personalizaciones && o.activo;
    FixedLineMatches(item, Payload(cart)[i], db);
  }

  /** With the field name corrected, the total the screen shows is the total
      `registrarVenta` stores for the payload it sends (sede 1), provided the
      prices and options on screen are the ones in the database. */
  lemma FixedTotalMatchesServer(cart: seq<CartItem>, db: Db)
    requires PricesFrom(cart, db) && SelectionsFrom(cart, db.personalizaciones)
    requires UniqueOptionIds(db.personalizaciones)
    ensures CalcularTotalFixed(cart) == SaleTotal(db, 1, Payload(cart), |cart|)
  {
    FixedTotalPrefix(cart, db, |cart|);
    assert cart[..|cart|] == cart;
  }
}
