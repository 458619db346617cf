/** The read-only lookups of the table-sale screen
    (Back_End/controllers/manualSaleController.js): the tables of sede 1 with
    their counts, and the active customization options grouped by category. */
module SaleCatalog {
  import opened Common
  import opened Schema

  // ---------------------------------------------------------------------------
  // getMesas
  // ---------------------------------------------------------------------------

  /** The `WHERE idSede = 1` of the query; the rows are put in order by
      `SortMesas` afterwards. */
  function MesasOfSede1(mesas: seq<Mesa>): seq<Mesa> {
    if mesas == [] then []
    else MesasOfSede1(mesas[..|mesas| - 1]) +
         (if mesas[|mesas| - 1].idSede == 1 then [mesas[|mesas| - 1]] else [])
  }


  /** The first key of `ORDER BY CASE estado … END, numero`: disponible 1,
      ocupada 2, limpieza 3, and any other state NULL, which sorts before
      every number in ascending order. */
  function EstadoRank(estado: string): int {
    if estado == "disponible" then 1
    else if estado == "ocupada" then 2
    else if estado == "limpieza" then 3
    else 0
  }

  /** `a` comes strictly before `b` under the query's ORDER BY. */
  predicate MesaBefore(a: Mesa, b: Mesa) {
    EstadoRank(a.estado) < EstadoRank(b.estado) ||
    (EstadoRank(a.estado) == EstadoRank(b.estado) && a.numero < b.numero)
  }

  /** No table is listed after one it comes before. */
  predicate MesasSorted(s: seq<Mesa>) {
    forall i, j :: 0 <= i < j < |s| ==> !MesaBefore(s[j], s[i])
  }

  /** Insert `m` in front of the first table it comes before. */
  function InsertMesa(s: seq<Mesa>, m: Mesa): (r: seq<Mesa>)
    ensures multiset(r) == multiset(s) + multiset{m}
    ensures |r| == |s| + 1
  {
    if s == [] then [m]
    else if MesaBefore(m, s[0]) then [m] + s
    else
      assert s == [s[0]] + s[1..];
      [s[0]] + InsertMesa(s[1..], m)
  }

  lemma {:induction false} InsertMesaSorted(s: seq<Mesa>, m: Mesa)
    requires MesasSorted(s)
    ensures MesasSorted(InsertMesa(s, m))
    decreases |s|
  {
    if s != [] && !MesaBefore(m, s[0]) {
      InsertMesaSorted(s[1..], m);
      var r := InsertMesa(s, m);
      var t := InsertMesa(s[1..], m);
      assert r == [s[0]] + t;
      forall j | 1 <= j < |r| ensures !MesaBefore(r[j], r[0]) {
        assert r[j] in multiset(t);
        assert r[j] in multiset(s[1..]) + multiset{m};
        if r[j] in multiset(s[1..]) {
          var k :| 0 <= k < |s[1..]| && s[1..][k] == r[j];
          assert s[1 + k] == r[j];
        }
      }
    } else if s != [] {
      var r := InsertMesa(s, m);
      assert r == [m] + s;
      forall i, j | 0 <= i < j < |r| ensures !MesaBefore(r[j], r[i]) {
        if i > 0 {
          assert r[i] == s[i - 1] && r[j] == s[j - 1];
        } else {
          assert r[j] == s[j - 1];
          assert !MesaBefore(s[j - 1], s[0]) || j - 1 == 0;
        }
      }
    }
  }

  /** The database's sort of the filtered rows, as an insertion sort. */
  function SortMesas(s: seq<Mesa>): (r: seq<Mesa>)
    ensures multiset(r) == multiset(s) && |r| == |s|
  {
    if s == [] then [] else
      var pre := s[..|s| - 1];
      assert s == pre + [s[|s| - 1]];
      InsertMesa(SortMesas(pre), s[|s| - 1])
  }

  lemma {:induction false} SortMesasSorted(s: seq<Mesa>)
    ensures MesasSorted(SortMesas(s))
    decreases |s|
  {
    if s != [] {
      SortMesasSorted(s[..|s| - 1]);
      InsertMesaSorted(SortMesas(s[..|s| - 1]), s[|s| - 1]);
    }
  }

  /** `mesas.filter(m => m.estado === 'disponible')`. */
  function Available(ms: seq<Mesa>): seq<Mesa> {
    if ms == [] then []
    else Available(ms[..|ms| - 1]) +
         (if ms[|ms| - 1].estado == "disponible" then [ms[|ms| - 1]] else [])
  }

  datatype MesasResponse = MesasResponse(data: seq<Mesa>, total: nat, disponibles: nat)

  /** GET /api/manualSale/mesas: the tables of sede 1 in the query's order. */
  function GetMesas(mesas: seq<Mesa>): (r: MesasResponse)
    ensures r.total == |r.data| && r.disponibles <= r.total
    ensures forall m :: m in r.data <==> m in mesas && m.idSede == 1
    ensures multiset(r.data) == multiset(MesasOfSede1(mesas))
    ensures MesasSorted(r.data)
    ensures forall m :: m in Available(r.data) <==> m in r.data && m.estado == "disponible"
  {
    var data := SortMesas(MesasOfSede1(mesas));
    MesasOfSede1Exact(mesas);
    SortMesasSorted(MesasOfSede1(mesas));
    assert forall m :: m in data <==> m in multiset(data);
    AvailableBound(data);
    MesasResponse(data, |data|, |Available(data)|)
  }

  lemma {:induction false} MesasOfSede1Exact(mesas: seq<Mesa>)
    ensures forall m :: m in MesasOfSede1(mesas) <==> m in mesas && m.idSede == 1
    decreases |mesas|
  {
    if mesas != [] {
      MesasOfSede1Exact(mesas[..|mesas| - 1]);
      assert mesas == mesas[..|mesas| - 1] + [mesas[|mesas| - 1]];
    }
  }

  /** The available tables are exactly those whose state is `disponible`, and
      they are at most all of them. */
  lemma {:induction false} AvailableBound(ms: seq<Mesa>)
    ensures |Available(ms)| <= |ms|
    ensures forall m :: m in Available(ms) <==> m in ms && m.estado == "disponible"
    decreases |ms|
  {
    if ms != [] {
      AvailableBound(ms[..|ms| - 1]);
      assert ms == ms[..|ms| - 1] + [ms[|ms| - 1]];
    }
  }

  /** Every table counts as available exactly when all of them are `disponible`. */
  lemma {:induction false} AllAvailable(ms: seq<Mesa>)
    ensures |Available(ms)| == |ms| <==> forall i :: 0 <= i < |ms| ==> ms[i].estado == "disponible"
    decreases |ms|
  {
    if ms != [] {
      var pre := ms[..|ms| - 1];
      AllAvailable(pre);
      AvailableBound(pre);
      if forall i :: 0 <= i < |ms| ==> ms[i].estado == "disponible" {
        assert forall i :: 0 <= i < |pre| ==> pre[i].estado == "disponible" by {
          forall i | 0 <= i < |pre| ensures pre[i].estado == "disponible" {
            assert pre[i] == ms[i];
          }
        }
      } else {
        var i :| 0 <= i < |ms| && ms[i].estado != "disponible";
        if i < |pre| {
          assert pre[i] == ms[i];
        }
      }
    }
  }

  // ---------------------------------------------------------------------------
  // getPersonalizaciones
  // ---------------------------------------------------------------------------

  /** `SELECT … FROM personalizacionproducto WHERE activo = 1`, over the rows in
      the order the database returns them. */
  function ActiveOptions(custs: seq<Customization>): seq<Customization> {
    if custs == [] then []
    else ActiveOptions(custs[..|custs| - 1]) +
         (if custs[|custs| - 1].activo then [custs[|custs| - 1]] else [])
  }

  /** `p.categoria || 'Otras'`: a missing or empty category is filed under Otras. */
  function CategoryKey(c: Customization): string {
    if c.categoria.Some? && c.categoria.value != [] then c.categoria.value else "Otras"
  }

  /** The options filed under key k, in input order. */
  function WithKey(rows: seq<Customization>, k: string): seq<Customization> {
    if rows == [] then []
    else WithKey(rows[..|rows| - 1], k) +
         (if CategoryKey(rows[|rows| - 1]) == k then [rows[|rows| - 1]] else [])
  }

  function Keys(rows: seq<Customization>): set<string> {
    set i | 0 <= i < |rows| :: CategoryKey(rows[i])
  }

  /** The `reduce` that builds `agrupadas`: one entry per category key, each
      holding the options of that key in the order the query returned them. */
  method GroupOptions(rows: seq<Customization>) returns (agrupadas: map<string, seq<Customization>>)
    ensures agrupadas.Keys == Keys(rows)
    ensures forall k :: k in agrupadas ==> agrupadas[k] == WithKey(rows, k)
  {
    agrupadas := map[];
    var i := 0;
    while i < |rows|
      invariant 0 <= i <= |rows|
      invariant agrupadas.Keys == Keys(rows[..i])
      invariant forall k :: k in agrupadas ==> agrupadas[k] == WithKey(rows[..i], k)
      invariant forall k :: k !in agrupadas ==> WithKey(rows[..i], k) == []
    {
      var p := rows[i];
      var cat := CategoryKey(p);
      if cat !in agrupadas {
        agrupadas := agrupadas[cat := []];
      }
      agrupadas := agrupadas[cat := agrupadas[cat] + [p]];
      assert rows[..i + 1] == rows[..i] + [p];
      GroupSnoc(rows[..i], p);
      i := i + 1;
    }
    assert rows[..i] == rows;
  }

  /** Appending one option adds its key and extends only its own group. */
  lemma GroupSnoc(rows: seq<Customization>, c: Customization)
    ensures Keys(rows + [c]) == Keys(rows) + {CategoryKey(c)}
    ensures forall k :: WithKey(rows + [c], k) == WithKey(rows, k) + (if CategoryKey(c) == k then [c] else [])
  {
    var rows' := rows + [c];
    assert rows'[..|rows|] == rows;
    assert CategoryKey(rows'[|rows|]) in Keys(rows');
    forall k | k in Keys(rows') ensures k in Keys(rows) + {CategoryKey(c)} {
      var i :| 0 <= i < |rows'| && CategoryKey(rows'[i]) == k;
      if i < |rows| {
        assert rows'[i] == rows[i];
      }
    }
    forall k | k in Keys(rows) ensures k in Keys(rows') {
      var i :| 0 <= i < |rows| && CategoryKey(rows[i]) == k;
      assert rows'[i] == rows[i];
    }
  }

  datatype OptionsResponse = OptionsResponse(data: seq<Customization>,
                                             agrupadas: map<string, seq<Customization>>,
                                             total: nat)

  /** GET /api/manualSale/personalizaciones. */
  method GetPersonalizaciones(custs: seq<Customization>) returns (r: OptionsResponse)
    ensures r.data == ActiveOptions(custs) && r.total == |r.data|
    ensures r.agrupadas.Keys == Keys(r.data)
    ensures forall k :: k in r.agrupadas ==> r.agrupadas[k] == WithKey(r.data, k)
  {
    var rows := ActiveOptions(custs);
    var agrupadas := GroupOptions(rows);
    r := OptionsResponse(rows, agrupadas, |rows|);
  }

  /** Only active options are offered. */
  lemma {:induction false} ActiveOptionsExact(custs: seq<Customization>)
    ensures forall c :: c in ActiveOptions(custs) <==> c in custs && c.activo
    decreases |custs|
  {
    if custs != [] {
      ActiveOptionsExact(custs[..|custs| - 1]);
      assert custs == custs[..|custs| - 1] + [custs[|custs| - 1]];
    }
  }

  /** Each option is in the group of its own key and in no other; options
      without a category are under Otras. */
  lemma {:induction false} WithKeyExact(rows: seq<Customization>, k: string)
    ensures forall c :: c in WithKey(rows, k) <==> c in rows && CategoryKey(c) == k
    decreases |rows|
  {
    if rows != [] {
      WithKeyExact(rows[..|rows| - 1], k);
      assert rows == rows[..|rows| - 1] + [rows[|rows| - 1]];
    }
  }
}
