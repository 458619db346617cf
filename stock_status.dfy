/** The stock view of Back_End/controllers/inventoryController.js: the four-way
    stock status, the stats cards, the filtered lists and the search guard.
    Stock and minimum are whole units, so `stock <= minimo * 0.5` is
    `2 * stock <= minimo`. */
module StockStatus {
  import opened Common

  /** A row of `vista_stock_actual`. */
  datatype StockRow = StockRow(nombre: string, unidad: string, stock: int, minimo: int, idSede: int)

  datatype Level = EnStock | StockBajo | StockCritico | Agotado

  function LevelName(l: Level): string {
    match l
    case EnStock => "En Stock"
    case StockBajo => "Stock Bajo"
    case StockCritico => "Stock Crítico"
    case Agotado => "Agotado"
  }

  /** The `CASE` of `getInventory` and `searchInsumo`: the first matching arm wins. */
  function Classify(stock: int, minimo: int): (l: Level)
    ensures l == Agotado <==> stock == 0
    ensures l == StockCritico <==> stock != 0 && 2 * stock <= minimo
    ensures l == StockBajo <==> stock != 0 && 2 * stock > minimo && stock <= minimo
    ensures l == EnStock <==> stock != 0 && 2 * stock > minimo && stock > minimo
    ensures stock >= 0 ==> (l == EnStock <==> stock > 0 && stock > minimo)
  {
    if stock == 0 then Agotado
    else if 2 * stock <= minimo then StockCritico
    else if stock <= minimo then StockBajo
    else EnStock
  }

  // ---------------------------------------------------------------------------
  // getInventoryStats
  // ---------------------------------------------------------------------------

  /** The conditions inside each `SUM(CASE …)` of the stats query. */
  predicate InStockCase(r: StockRow) { r.stock > r.minimo }
  predicate BajoCase(r: StockRow) { r.stock <= r.minimo && 2 * r.stock > r.minimo }
  predicate CriticoCase(r: StockRow) { 2 * r.stock <= r.minimo && r.stock > 0 }
  predicate AgotadoCase(r: StockRow) { r.stock == 0 }
  predicate AtencionCase(r: StockRow) { r.stock <= r.minimo && r.stock > 0 }

  /** The stats row: `COUNT(*)` and the five `SUM(CASE …)`, each NULL over an
      empty view. */
  datatype Stats = Stats(totalInsumos: nat, enStock: Option<nat>, stockBajo: Option<nat>,
                         stockCritico: Option<nat>, agotado: Option<nat>,
                         requiereAtencion: Option<nat>)

  /** `SUM(CASE WHEN … THEN 1 ELSE 0 END)` for each of the five conditions. */
  function CountIf(rows: seq<StockRow>, which: Level, atencion: bool): (n: nat)
    ensures n <= |rows|
  {
    if rows == [] then 0
    else
      var r := rows[|rows| - 1];
      var hit := if atencion then AtencionCase(r) else
                   match which
                   case EnStock => InStockCase(r)
                   case StockBajo => BajoCase(r)
                   case StockCritico => CriticoCase(r)
                   case Agotado => AgotadoCase(r);
      CountIf(rows[..|rows| - 1], which, atencion) + (if hit then 1 else 0)
  }

  function GetInventoryStats(rows: seq<StockRow>): Stats {
    var n := |rows|;
    Stats(n, SqlSum(n, CountIf(rows, EnStock, false)), SqlSum(n, CountIf(rows, StockBajo, false)),
          SqlSum(n, CountIf(rows, StockCritico, false)), SqlSum(n, CountIf(rows, Agotado, false)),
          SqlSum(n, CountIf(rows, EnStock, true)))
  }

  /** How many rows the `CASE` of `getInventory` labels l. */
  function CountLevel(rows: seq<StockRow>, l: Level): (n: nat)
    ensures n <= |rows|
  {
    if rows == [] then 0
    else CountLevel(rows[..|rows| - 1], l) +
         (if Classify(rows[|rows| - 1].stock, rows[|rows| - 1].minimo) == l then 1 else 0)
  }

  predicate NonNegative(rows: seq<StockRow>) {
    forall i :: 0 <= i < |rows| ==> rows[i].stock >= 0 && rows[i].minimo >= 0
  }

  /** Over an empty view every card but the total is NULL. Otherwise, with no
      negative stock or minimum, each stats card counts exactly the rows the
      list view labels with that status. */
  lemma StatsMatchLevels(rows: seq<StockRow>)
    requires NonNegative(rows)
    ensures GetInventoryStats(rows).totalInsumos == |rows|
    ensures rows == [] ==> GetInventoryStats(rows) == Stats(0, None, None, None, None, None)
    ensures rows != [] ==>
      var s := GetInventoryStats(rows);
      s.enStock == Some(CountLevel(rows, EnStock)) && s.stockBajo == Some(CountLevel(rows, StockBajo)) &&
      s.stockCritico == Some(CountLevel(rows, StockCritico)) && s.agotado == Some(CountLevel(rows, Agotado))
  {
    CountsMatchLevels(rows);
  }

  /** With no negative stock or minimum, each `SUM(CASE …)` condition holds on
      exactly the rows the list view's `CASE` labels with the same level. */
  lemma {:induction false} CountsMatchLevels(rows: seq<StockRow>)
    requires NonNegative(rows)
    ensures CountIf(rows, EnStock, false) == CountLevel(rows, EnStock) &&
            CountIf(rows, StockBajo, false) == CountLevel(rows, StockBajo) &&
            CountIf(rows, StockCritico, false) == CountLevel(rows, StockCritico) &&
            CountIf(rows, Agotado, false) == CountLevel(rows, Agotado)
    decreases |rows|
  {
    if rows != [] {
      var pre := rows[..|rows| - 1];
      assert NonNegative(pre) by {
        forall i | 0 <= i < |pre| ensures pre[i].stock >= 0 && pre[i].minimo >= 0 {
          assert pre[i] == rows[i];
        }
      }
      CountsMatchLevels(pre);
      assert rows[|rows| - 1].stock >= 0 && rows[|rows| - 1].minimo >= 0;
    }
  }

  /** The four levels partition the rows. */
  lemma {:induction false} LevelsPartition(rows: seq<StockRow>)
    ensures CountLevel(rows, EnStock) + CountLevel(rows, StockBajo) +
            CountLevel(rows, StockCritico) + CountLevel(rows, Agotado) == |rows|
    decreases |rows|
  {
    if rows != [] {
      LevelsPartition(rows[..|rows| - 1]);
    }
  }

  /** The `requiere_atencion` card is the low plus the critical card, whatever
      the values, and NULL with them over an empty view. */
  lemma AttentionCard(rows: seq<StockRow>)
    ensures var s := GetInventoryStats(rows);
      (rows == [] ==> s.requiereAtencion.None?) &&
      (rows != [] ==> s.stockBajo.Some? && s.stockCritico.Some? &&
                      s.requiereAtencion == Some(s.stockBajo.value + s.stockCritico.value))
  {
    AttentionIsLowPlusCritical(rows);
  }

  /** `requiere_atencion` equals bajo + crítico whatever the values. */
  lemma {:induction false} AttentionIsLowPlusCritical(rows: seq<StockRow>)
    ensures CountIf(rows, EnStock, true) == CountIf(rows, StockBajo, false) + CountIf(rows, StockCritico, false)
    decreases |rows|
  {
    if rows != [] {
      AttentionIsLowPlusCritical(rows[..|rows| - 1]);
    }
  }

  /** A row with no stock and a negative minimum is counted both as in stock
      and as sold out, so the cards no longer add up to the total. */
  lemma NegativeMinimumCountsTwice()
    ensures var rows := [StockRow("sal", "kg", 0, -2, 1)];
      var s := GetInventoryStats(rows);
      s.enStock == Some(1) && s.agotado == Some(1) &&
      s.enStock.value + s.stockBajo.value + s.stockCritico.value + s.agotado.value == s.totalInsumos + 1
  {
    var rows := [StockRow("sal", "kg", 0, -2, 1)];
    assert rows[..0] == [];
  }

  // ---------------------------------------------------------------------------
  // Filtered lists
  // ---------------------------------------------------------------------------

  /** `WHERE stock_disponible > stock_minimo_insumo` (in-stock list), in view order. */
  function InStockList(rows: seq<StockRow>): seq<StockRow> {
    if rows == [] then []
    else InStockList(rows[..|rows| - 1]) +
         (if InStockCase(rows[|rows| - 1]) then [rows[|rows| - 1]] else [])
  }

  /** `WHERE stock_disponible <= stock_minimo_insumo AND stock_disponible > 0`,
      each row labelled by the list's own two-arm `CASE`, in view order. */
  function LowStockRows(rows: seq<StockRow>): seq<(StockRow, Level)> {
    if rows == [] then []
    else
      var r := rows[|rows| - 1];
      LowStockRows(rows[..|rows| - 1]) +
      (if AtencionCase(r) then [(r, if 2 * r.stock <= r.minimo then StockCritico else StockBajo)] else [])
  }

  /** `ORDER BY stock_disponible ASC`: no entry has more stock than one after it. */
  predicate StockAscending(s: seq<(StockRow, Level)>) {
    forall i, j :: 0 <= i < j < |s| ==> s[i].0.stock <= s[j].0.stock
  }

  /** Insert `e` in front of the first entry with more stock, so that entries
      with equal stock keep the order they arrived in. */
  function InsertByStock(s: seq<(StockRow, Level)>, e: (StockRow, Level)): (r: seq<(StockRow, Level)>)
    ensures multiset(r) == multiset(s) + multiset{e}
    ensures |r| == |s| + 1
  {
    if s == [] then [e]
    else if e.0.stock < s[0].0.stock then [e] + s
    else
      assert s == [s[0]] + s[1..];
      [s[0]] + InsertByStock(s[1..], e)
  }

  lemma {:induction false} InsertByStockSorted(s: seq<(StockRow, Level)>, e: (StockRow, Level))
    requires StockAscending(s)
    ensures StockAscending(InsertByStock(s, e))
    decreases |s|
  {
    if s != [] && e.0.stock >= s[0].0.stock {
      InsertByStockSorted(s[1..], e);
      var r := InsertByStock(s, e);
      var t := InsertByStock(s[1..], e);
      assert r == [s[0]] + t;
      forall j | 1 <= j < |r| ensures r[0].0.stock <= r[j].0.stock {
        assert r[j] in multiset(t);
        assert r[j] in multiset(s[1..]) + multiset{e};
        if r[j] in multiset(s[1..]) {
          var k :| 0 <= k < |s[1..]| && s[1..][k] == r[j];
          assert s[1 + k] == r[j];
        }
      }
    } else if s != [] {
      var r := InsertByStock(s, e);
      assert r == [e] + s;
      forall i, j | 0 <= i < j < |r| ensures r[i].0.stock <= r[j].0.stock {
        if i > 0 {
          assert r[i] == s[i - 1] && r[j] == s[j - 1];
        } else {
          assert r[j] == s[j - 1];
          assert s[0].0.stock <= s[j - 1].0.stock || j - 1 == 0;
        }
      }
    }
  }

  /** The database's sort of the low-stock rows, as a stable insertion sort. */
  function SortByStock(s: seq<(StockRow, Level)>): (r: seq<(StockRow, Level)>)
    ensures multiset(r) == multiset(s) && |r| == |s|
  {
    if s == [] then [] else
      var pre := s[..|s| - 1];
      assert s == pre + [s[|s| - 1]];
      InsertByStock(SortByStock(pre), s[|s| - 1])
  }

  lemma {:induction false} SortByStockSorted(s: seq<(StockRow, Level)>)
    ensures StockAscending(SortByStock(s))
    decreases |s|
  {
    if s != [] {
      SortByStockSorted(s[..|s| - 1]);
      InsertByStockSorted(SortByStock(s[..|s| - 1]), s[|s| - 1]);
    }
  }

  /** GET /api/inventory/low-stock: the labelled rows, least stock first. */
  function LowStockList(rows: seq<StockRow>): seq<(StockRow, Level)> {
    SortByStock(LowStockRows(rows))
  }

  /** `WHERE stock_disponible = 0` (out-of-stock list), in view order. */
  function OutOfStockList(rows: seq<StockRow>): seq<StockRow> {
    if rows == [] then []
    else OutOfStockList(rows[..|rows| - 1]) +
         (if AgotadoCase(rows[|rows| - 1]) then [rows[|rows| - 1]] else [])
  }

  lemma {:induction false} InStockListExact(rows: seq<StockRow>)
    ensures forall r :: r in InStockList(rows) <==> r in rows && r.stock > r.minimo
    decreases |rows|
  {
    if rows != [] {
      InStockListExact(rows[..|rows| - 1]);
      assert rows == rows[..|rows| - 1] + [rows[|rows| - 1]];
    }
  }

  lemma {:induction false} OutOfStockListExact(rows: seq<StockRow>)
    ensures forall r :: r in OutOfStockList(rows) <==> r in rows && r.stock == 0
    decreases |rows|
  {
    if rows != [] {
      OutOfStockListExact(rows[..|rows| - 1]);
      assert rows == rows[..|rows| - 1] + [rows[|rows| - 1]];
    }
  }

  /** The filter keeps exactly the rows with 0 < stock ≤ minimum, and its
      label is the one the full `CASE` gives them. */
  lemma {:induction false} LowStockRowsExact(rows: seq<StockRow>)
    ensures forall r, l :: (r, l) in LowStockRows(rows) <==>
      r in rows && 0 < r.stock <= r.minimo && l == Classify(r.stock, r.minimo)
    decreases |rows|
  {
    if rows != [] {
      LowStockRowsExact(rows[..|rows| - 1]);
      assert rows == rows[..|rows| - 1] + [rows[|rows| - 1]];
    }
  }

  /** The low-stock list is a permutation of the filtered, labelled rows, in
      ascending stock, and so holds exactly the rows with 0 < stock ≤ minimum. */
  lemma LowStockListExact(rows: seq<StockRow>)
    ensures multiset(LowStockList(rows)) == multiset(LowStockRows(rows))
    ensures StockAscending(LowStockList(rows))
    ensures forall r, l :: (r, l) in LowStockList(rows) <==>
      r in rows && 0 < r.stock <= r.minimo && l == Classify(r.stock, r.minimo)
  {
    LowStockRowsExact(rows);
    SortByStockSorted(LowStockRows(rows));
    var s := LowStockList(rows);
    var t := LowStockRows(rows);
    assert forall e :: e in s <==> e in multiset(s);
    assert forall e :: e in t <==> e in multiset(t);
  }

  // ---------------------------------------------------------------------------
  // searchInsumo
  // ---------------------------------------------------------------------------

  datatype SearchResult = MissingQuery | Found(rows: seq<(StockRow, Level)>)

  function SearchStatusCode(r: SearchResult): int {
    if r.MissingQuery? then 400 else 200
  }

  /** `WHERE nombre_insumo LIKE '%q%'`, labelled by the full `CASE`. */
  function Matching(rows: seq<StockRow>, q: string): seq<(StockRow, Level)> {
    if rows == [] then []
    else
      var r := rows[|rows| - 1];
      Matching(rows[..|rows| - 1], q) + (if Contains(r.nombre, q) then [(r, Classify(r.stock, r.minimo))] else [])
  }

  /** GET /api/inventory/search?q=…: an absent, empty or whitespace-only query is
      refused before any lookup. */
  function SearchInsumo(rows: seq<StockRow>, q: Option<string>): (r: SearchResult)
    ensures r.MissingQuery? <==> q.None? || IsBlank(q.value)
  {
    if q.None? || q.value == [] || Trim(q.value) == [] then MissingQuery
    else Found(Matching(rows, q.value))
  }

  lemma {:induction false} SearchExact(rows: seq<StockRow>, q: string)
    requires !IsBlank(q)
    ensures SearchInsumo(rows, Some(q)).Found?
    ensures forall r, l :: (r, l) in SearchInsumo(rows, Some(q)).rows <==>
      r in rows && Contains(r.nombre, q) && l == Classify(r.stock, r.minimo)
    decreases |rows|
  {
    if rows != [] {
      SearchExact(rows[..|rows| - 1], q);
      assert rows == rows[..|rows| - 1] + [rows[|rows| - 1]];
    }
  }
}
