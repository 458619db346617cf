/** The movement ledger `inventario_general`, written by `recordInventoryMovement`
    (Back_End/controllers/inventoryController.js) and `addInventoryHistory`
    (Back_End/controllers/inventoryHistoryController.js), with the history
    filter and the summary counts. Quantities are numbers in the body, so a
    `real`; text fields may be absent. */
module InventoryLedger {
  import opened Common

  datatype Movement = Movement(idMovimiento: int, nombre: string, cantidad: real, tipo: string,
                               motivo: string, observaciones: Option<string>, idSede: int, fecha: int)

  datatype MovementRequest = MovementRequest(nombre: Option<string>, cantidad: Option<real>,
                                             tipo: Option<string>, motivo: Option<string>,
                                             observaciones: Option<string>, idSede: Option<int>)

  datatype MovementError = MissingFields | BadType | BadReason | BadQuantity

  datatype MovementResponse = Recorded(id: int) | Rejected(err: MovementError)

  function MovementStatusCode(r: MovementResponse): int {
    if r.Recorded? then 201 else 400
  }

  /** The reasons `recordInventoryMovement` accepts. */
  const MovementReasons: seq<string> := ["compra", "venta/consumo", "merma/desperdicio", "ajuste_conteo"]

  /** The reasons `addInventoryHistory` accepts: the same four and `desperdicio`. */
  const HistoryReasons: seq<string> := MovementReasons + ["desperdicio"]

  predicate TextGiven(s: Option<string>) {
    s.Some? && s.value != []
  }

  predicate ValidType(t: string) {
    t == "entrada" || t == "salida"
  }

  /** The validation chain both handlers share, in their order: a falsy field,
      then the type, then the reason, then a quantity ≤ 0. */
  function Validate(req: MovementRequest, reasons: seq<string>): (e: Option<MovementError>)
    ensures e.None? <==> TextGiven(req.nombre) && req.cantidad.Some? && req.cantidad.value > 0.0 &&
                         TextGiven(req.tipo) && ValidType(req.tipo.value) &&
                         TextGiven(req.motivo) && req.motivo.value in reasons
    ensures e == Some(MissingFields) <==>
      !TextGiven(req.nombre) || req.cantidad.None? || req.cantidad == Some(0.0) ||
      !TextGiven(req.tipo) || !TextGiven(req.motivo)
  {
    if !TextGiven(req.nombre) || req.cantidad.None? || req.cantidad.value == 0.0 ||
       !TextGiven(req.tipo) || !TextGiven(req.motivo) then Some(MissingFields)
    else if !ValidType(req.tipo.value) then Some(BadType)
    else if req.motivo.value !in reasons then Some(BadReason)
    else if req.cantidad.value <= 0.0 then Some(BadQuantity)
    else None
  }

  /** The `INSERT INTO inventario_general`: absent or empty notes become null,
      an absent or 0 `idSede` becomes 1, the date is the server clock. */
  function NewMovement(id: int, req: MovementRequest, now: int): Movement
    requires Validate(req, HistoryReasons).None?
  {
    Movement(id, req.nombre.value, req.cantidad.value, req.tipo.value, req.motivo.value,
             if TextGiven(req.observaciones) then req.observaciones else None,
             if req.idSede.Some? && req.idSede.value != 0 then req.idSede.value else 1, now)
  }

  /** Either handler: the response, the ledger afterwards and the next id. */
  function RecordSpec(rows: seq<Movement>, nextId: int, req: MovementRequest, reasons: seq<string>, now: int)
    : (seq<Movement>, int, MovementResponse)
    requires reasons == MovementReasons || reasons == HistoryReasons
  {
    match Validate(req, reasons)
    case Some(e) => (rows, nextId, Rejected(e))
    case None => (rows + [NewMovement(nextId, req, now)], nextId + 1, Recorded(nextId))
  }

  /** Every row of the ledger has a valid type and a positive quantity. */
  predicate LedgerOk(rows: seq<Movement>) {
    forall i :: 0 <= i < |rows| ==> ValidType(rows[i].tipo) && rows[i].cantidad > 0.0
  }

  /** A rejected movement leaves the ledger alone; an accepted one appends
      exactly one row carrying the request's fields, with defaults for the
      sede and the notes, and never touches the rows already there. */
  lemma RecordAppendsOne(rows: seq<Movement>, nextId: int, req: MovementRequest, reasons: seq<string>, now: int)
    requires reasons == MovementReasons || reasons == HistoryReasons
    ensures var (rows', next', resp) := RecordSpec(rows, nextId, req, reasons, now);
      (resp.Rejected? <==> Validate(req, reasons).Some?) &&
      (resp.Rejected? ==> rows' == rows && next' == nextId) &&
      (resp.Recorded? ==>
        |rows'| == |rows| + 1 && rows'[..|rows|] == rows && resp.id == nextId &&
        var m := rows'[|rows|];
        Some(m.nombre) == req.nombre && Some(m.cantidad) == req.cantidad && m.cantidad > 0.0 &&
        Some(m.tipo) == req.tipo && ValidType(m.tipo) && Some(m.motivo) == req.motivo &&
        m.motivo in reasons && m.fecha == now && m.idMovimiento == nextId && next' == nextId + 1 &&
        m.observaciones == (if TextGiven(req.observaciones) then req.observaciones else None) &&
        (req.idSede.None? || req.idSede.value == 0 ==> m.idSede == 1) &&
        (req.idSede.Some? && req.idSede.value != 0 ==> m.idSede == req.idSede.value))
  {
    if Validate(req, reasons).None? {
      var rows' := RecordSpec(rows, nextId, req, reasons, now).0;
      assert rows'[..|rows|] == rows;
    }
  }

  /** Both handlers keep every ledger row typed and positive. */
  lemma RecordKeepsLedgerOk(rows: seq<Movement>, nextId: int, req: MovementRequest, reasons: seq<string>, now: int)
    requires reasons == MovementReasons || reasons == HistoryReasons
    requires LedgerOk(rows)
    ensures LedgerOk(RecordSpec(rows, nextId, req, reasons, now).0)
  {
  }

  /** Whatever `recordInventoryMovement` accepts, `addInventoryHistory` accepts
      too; `desperdicio` alone separates them. */
  lemma HistoryAcceptsMore(req: MovementRequest)
    ensures Validate(req, MovementReasons).None? ==> Validate(req, HistoryReasons).None?
    ensures req.motivo == Some("desperdicio") && Validate(req, HistoryReasons).None? ==>
            Validate(req, MovementReasons) == Some(BadReason)
  {
  }

  /** The ledger as a table that the two handlers append to. */
  class Ledger {
    var rows: seq<Movement>
    var nextId: int

    /** Every row is typed and positive, and every id is below the next one
        the table's auto-increment hands out. */
    predicate Valid()
      reads this
    {
      LedgerOk(rows) && forall i :: 0 <= i < |rows| ==> rows[i].idMovimiento < nextId
    }

    constructor (rows0: seq<Movement>, nextId0: int)
      requires LedgerOk(rows0)
      requires forall i :: 0 <= i < |rows0| ==> rows0[i].idMovimiento < nextId0
      ensures rows == rows0 && nextId == nextId0
      ensures Valid()
    {
      rows := rows0;
      nextId := nextId0;
    }

    /** POST /api/inventory/movement. */
    method RecordInventoryMovement(req: MovementRequest, now: int) returns (resp: MovementResponse)
      requires Valid()
      modifies this
      ensures (rows, nextId, resp) == RecordSpec(old(rows), old(nextId), req, MovementReasons, now)
      ensures Valid()
    {
      var e := Validate(req, MovementReasons);
      if e.Some? {
        return Rejected(e.value);
      }
      rows := rows + [NewMovement(nextId, req, now)];
      resp := Recorded(nextId);
      nextId := nextId + 1;
    }

    /** POST /api/inventoryHistory. */
    method AddInventoryHistory(req: MovementRequest, now: int) returns (resp: MovementResponse)
      requires Valid()
      modifies this
      ensures (rows, nextId, resp) == RecordSpec(old(rows), old(nextId), req, HistoryReasons, now)
      ensures Valid()
    {
      var e := Validate(req, HistoryReasons);
      if e.Some? {
        return Rejected(e.value);
      }
      rows := rows + [NewMovement(nextId, req, now)];
      resp := Recorded(nextId);
      nextId := nextId + 1;
    }
  }

  // ---------------------------------------------------------------------------
  // getInventoryHistoryByDate
  // ---------------------------------------------------------------------------

  /** The query-string criteria; every one is text and optional. */
  datatype HistoryFilter = HistoryFilter(fechaInicio: Option<string>, fechaFin: Option<string>,
                                         tipo: Option<string>, idSede: Option<string>)

  /** The query text as pieces: SQL text, which holds no `?`, and the `?`
      placeholders between them. */
  datatype Piece = Sql(text: string) | Placeholder

  const BaseQuery: seq<Piece> := [Sql("SELECT idMovimiento, nombre_insumo, cantidad_movida, tipo_movimiento, motivo_detalle, observaciones, fecha_movimiento, idSede FROM inventario_general WHERE 1=1")]

  function Placeholders(q: seq<Piece>): nat {
    if q == [] then 0 else Placeholders(q[..|q| - 1]) + (if q[|q| - 1].Placeholder? then 1 else 0)
  }

  lemma {:induction false} PlaceholdersAppend(a: seq<Piece>, b: seq<Piece>)
    ensures Placeholders(a + b) == Placeholders(a) + Placeholders(b)
    decreases |b|
  {
    if b == [] {
      assert a + b == a;
    } else {
      PlaceholdersAppend(a, b[..|b| - 1]);
      assert (a + b)[..|a + b| - 1] == a + b[..|b| - 1];
    }
  }

  /** ` AND <column> <op> ?`. */
  function Clause(condition: string): seq<Piece> {
    [Sql(" AND " + condition + " "), Placeholder]
  }

  /** The parameters the criteria supply, in the order the clauses are added:
      one per truthy criterion, the type only when it is entrada or salida. */
  function FilterParams(f: HistoryFilter): seq<string> {
    (if TextGiven(f.fechaInicio) then [f.fechaInicio.value] else []) +
    (if TextGiven(f.fechaFin) then [f.fechaFin.value] else []) +
    (if TextGiven(f.tipo) && ValidType(f.tipo.value) then [f.tipo.value] else []) +
    (if TextGiven(f.idSede) then [f.idSede.value] else [])
  }

  /** The `query +=` / `params.push` steps. */
  method BuildHistoryQuery(f: HistoryFilter) returns (query: seq<Piece>, params: seq<string>)
    ensures Placeholders(query) == |params|
    ensures params == FilterParams(f)
  {
    assert Placeholders(BaseQuery) == 0 by {
      assert BaseQuery[..0] == [];
    }
    var p1 := if TextGiven(f.fechaInicio) then [f.fechaInicio.value] else [];
    var p2 := if TextGiven(f.fechaFin) then [f.fechaFin.value] else [];
    var p3 := if TextGiven(f.tipo) && ValidType(f.tipo.value) then [f.tipo.value] else [];
    var p4 := if TextGiven(f.idSede) then [f.idSede.value] else [];
    query, params := AddCriterion(BaseQuery, [], TextGiven(f.fechaInicio), "fecha_movimiento >=", ValueOf(f.fechaInicio));
    assert params == p1;
    query, params := AddCriterion(query, params, TextGiven(f.fechaFin), "fecha_movimiento <=", ValueOf(f.fechaFin));
    assert params == p1 + p2;
    query, params := AddCriterion(query, params, TextGiven(f.tipo) && ValidType(f.tipo.value), "tipo_movimiento =", ValueOf(f.tipo));
    assert params == p1 + p2 + p3;
    query, params := AddCriterion(query, params, TextGiven(f.idSede), "idSede =", ValueOf(f.idSede));
    assert params == p1 + p2 + p3 + p4;
    var order := [Sql(" ORDER BY fecha_movimiento DESC")];
    assert Placeholders(order) == 0 by {
      assert order[..0] == [];
    }
    PlaceholdersAppend(query, order);
    query := query + order;
  }

  function ValueOf(o: Option<string>): string {
    if o.Some? then o.value else ""
  }

  /** One `if (criterion) { query += …; params.push(…) }` step. */
  method AddCriterion(query: seq<Piece>, params: seq<string>, given: bool, condition: string, value: string)
    returns (query': seq<Piece>, params': seq<string>)
    requires Placeholders(query) == |params|
    ensures Placeholders(query') == |params'|
    ensures params' == params + (if given then [value] else [])
  {
    if given {
      AddClause(query, condition);
      query' := query + Clause(condition);
      params' := params + [value];
    } else {
      query', params' := query, params;
    }
  }

  /** Every clause brings exactly one placeholder. */
  lemma AddClause(q: seq<Piece>, condition: string)
    ensures Placeholders(q + Clause(condition)) == Placeholders(q) + 1
  {
    var c := Clause(condition);
    PlaceholdersAppend(q, c);
    assert c[..|c| - 1] == [c[0]];
    assert [c[0]][..0] == [];
    assert Placeholders([c[0]]) == 0;
  }

  /** A type other than entrada or salida adds no clause: it filters nothing. */
  lemma UnknownTypeIgnored(f: HistoryFilter, t: string)
    requires !ValidType(t)
    ensures FilterParams(f.(tipo := Some(t))) == FilterParams(f.(tipo := None))
  {
  }

  // ---------------------------------------------------------------------------
  // getInventorySummary
  // ---------------------------------------------------------------------------

  /** The summary row: `COUNT(*)` and the four `SUM(CASE …)`, each NULL over
      an empty ledger. */
  datatype Summary = Summary(totalMovimientos: nat, totalEntradas: Option<nat>, totalSalidas: Option<nat>,
                             cantidadEntradas: Option<real>, cantidadSalidas: Option<real>)

  function CountType(rows: seq<Movement>, t: string): (n: nat)
    ensures n <= |rows|
  {
    if rows == [] then 0 else CountType(rows[..|rows| - 1], t) + (if rows[|rows| - 1].tipo == t then 1 else 0)
  }

  function SumType(rows: seq<Movement>, t: string): real {
    if rows == [] then 0.0 else SumType(rows[..|rows| - 1], t) + (if rows[|rows| - 1].tipo == t then rows[|rows| - 1].cantidad else 0.0)
  }

  function GetInventorySummary(rows: seq<Movement>): Summary {
    var n := |rows|;
    Summary(n, SqlSum(n, CountType(rows, "entrada")), SqlSum(n, CountType(rows, "salida")),
            SqlSum(n, SumType(rows, "entrada")), SqlSum(n, SumType(rows, "salida")))
  }

  /** Over an empty ledger every sum is NULL. Otherwise, on a ledger the
      handlers have kept valid, every movement is an entrada or a salida, so
      the total splits exactly, and the quantity sums are non-negative. */
  lemma SummarySplits(rows: seq<Movement>)
    requires LedgerOk(rows)
    ensures var s := GetInventorySummary(rows);
      s.totalMovimientos == |rows| &&
      (rows == [] ==> s.totalEntradas.None? && s.totalSalidas.None? &&
                      s.cantidadEntradas.None? && s.cantidadSalidas.None?) &&
      (rows != [] ==>
        s.totalEntradas.Some? && s.totalSalidas.Some? &&
        s.cantidadEntradas.Some? && s.cantidadSalidas.Some? &&
        s.totalMovimientos == s.totalEntradas.value + s.totalSalidas.value &&
        s.cantidadEntradas.value >= 0.0 && s.cantidadSalidas.value >= 0.0)
  {
    TypesSplit(rows);
  }

  /** On a valid ledger the per-type counts add up to every row, and the
      per-type quantity sums are non-negative. */
  lemma {:induction false} TypesSplit(rows: seq<Movement>)
    requires LedgerOk(rows)
    ensures |rows| == CountType(rows, "entrada") + CountType(rows, "salida")
    ensures SumType(rows, "entrada") >= 0.0 && SumType(rows, "salida") >= 0.0
    decreases |rows|
  {
    if rows != [] {
      var pre := rows[..|rows| - 1];
      assert LedgerOk(pre) by {
        forall i | 0 <= i < |pre| ensures ValidType(pre[i].tipo) && pre[i].cantidad > 0.0 {
          assert pre[i] == rows[i];
        }
      }
      TypesSplit(pre);
      assert ValidType(rows[|rows| - 1].tipo);
    }
  }
}
