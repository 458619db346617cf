/** The report logic of Back_End/controllers/reportsController.js that runs
    in the server rather than in SQL: the order count per status with every
    status present, and the frequent-client report, which folds the per-month
    rows of the query into one entry per user, orders the entries by the
    number of frequent months and then by orders, and keeps the first 20.
    Money is integer minor units and dates are milliseconds. */
module Reports {
  import opened Common
  import opened Schema

  // ---------------------------------------------------------------------------
  // pedidosPorEstado
  // ---------------------------------------------------------------------------

  /** A row of `SELECT estado, COUNT(*) … GROUP BY estado`. */
  datatype StatusGroup = StatusGroup(estado: OrderStatus, cantidad: nat)

  /** The count the loop leaves for a status: the last group row for it, else 0. */
  function CountFor(groups: seq<StatusGroup>, s: OrderStatus): nat {
    if groups == [] then 0
    else if groups[|groups| - 1].estado == s then groups[|groups| - 1].cantidad
    else CountFor(groups[..|groups| - 1], s)
  }

  /** The statuses with their names, in the order of the object literal. */
  const AllStatuses: seq<OrderStatus> := [Pendiente, EnPreparacion, Entregado, Pagado]

  /** `pedidosEstado` starts with the four keys at 0 and each group row
      overwrites the count of its status. */
  method PedidosPorEstado(groups: seq<StatusGroup>) returns (m: map<string, nat>)
    ensures m.Keys == set s | s in AllStatuses :: StatusName(s)
    ensures forall s :: s in AllStatuses ==> m[StatusName(s)] == CountFor(groups, s)
  {
    m := map[StatusName(Pendiente) := 0, StatusName(EnPreparacion) := 0,
             StatusName(Entregado) := 0, StatusName(Pagado) := 0];
    var i := 0;
    while i < |groups|
      invariant 0 <= i <= |groups|
      invariant m.Keys == set s | s in AllStatuses :: StatusName(s)
      invariant forall s :: s in AllStatuses ==> m[StatusName(s)] == CountFor(groups[..i], s)
    {
      assert groups[..i + 1][..i] == groups[..i];
      m := m[StatusName(groups[i].estado) := groups[i].cantidad];
      i := i + 1;
      forall s | s in AllStatuses ensures m[StatusName(s)] == CountFor(groups[..i], s) {
        ParseStatusName(s);
        ParseStatusName(groups[i - 1].estado);
      }
    }
    assert groups[..i] == groups;
  }

  /** With one group row per status, as `GROUP BY` returns, each key holds the
      count of its row, and a status without orders shows 0. */
  lemma {:induction false} CountForDistinct(groups: seq<StatusGroup>, s: OrderStatus)
    requires forall i, j :: 0 <= i < j < |groups| ==> groups[i].estado != groups[j].estado
    ensures (forall i :: 0 <= i < |groups| ==> groups[i].estado != s) ==> CountFor(groups, s) == 0
    ensures forall i :: 0 <= i < |groups| && groups[i].estado == s ==> CountFor(groups, s) == groups[i].cantidad
    decreases |groups|
  {
    if groups != [] {
      var pre := groups[..|groups| - 1];
      CountForDistinct(pre, s);
      assert forall i :: 0 <= i < |pre| ==> pre[i] == groups[i];
    }
  }

  // ---------------------------------------------------------------------------
  // getFrequentClientsReport: the consolidation
  // ---------------------------------------------------------------------------

  /** A row of the frequent-clients query: one user in one month. */
  datatype MonthRow = MonthRow(idUsuario: int, nombre: string, correo: string, telefono: Option<string>,
                               totalPedidos: int, totalGastado: int, ultimaCompra: int, mes: string)

  /** One entry of the report. */
  datatype Client = Client(idUsuario: int, nombre: string, correo: string, telefono: Option<string>,
                           totalPedidos: int, totalGastado: int, ultimaCompra: int, mesesFrecuente: nat)

  /** `clientesMap.has(id)` / `get(id)`: the position of the user's entry; the
      map keeps first-insertion order. */
  function IndexOf(cs: seq<Client>, id: int): (r: Option<nat>)
    ensures r.Some? ==> r.value < |cs| && cs[r.value].idUsuario == id &&
                        forall j :: 0 <= j < r.value ==> cs[j].idUsuario != id
    ensures r.None? ==> forall j :: 0 <= j < |cs| ==> cs[j].idUsuario != id
  {
    if cs == [] then None
    else if cs[0].idUsuario == id then Some(0)
    else match IndexOf(cs[1..], id)
      case None => None
      case Some(k) => Some(k + 1)
  }

  /** The entry a user's first row creates, before the row is added to it. */
  function Fresh(r: MonthRow): Client {
    Client(r.idUsuario, r.nombre, r.correo, r.telefono, 0, 0, r.ultimaCompra, 0)
  }

  /** Adding a row: orders and spending are summed, the month is recorded, and
      the last purchase moves only to a strictly later date. */
  function Absorb(c: Client, r: MonthRow): Client {
    c.(totalPedidos := c.totalPedidos + r.totalPedidos, totalGastado := c.totalGastado + r.totalGastado,
       mesesFrecuente := c.mesesFrecuente + 1,
       ultimaCompra := if r.ultimaCompra > c.ultimaCompra then r.ultimaCompra else c.ultimaCompra)
  }

  /** One iteration of the `forEach`. */
  function AddRow(cs: seq<Client>, r: MonthRow): seq<Client> {
    match IndexOf(cs, r.idUsuario)
    case None => cs + [Absorb(Fresh(r), r)]
    case Some(k) => cs[k := Absorb(cs[k], r)]
  }

  /** The entries after the whole `forEach`. */
  function Clients(rows: seq<MonthRow>): seq<Client> {
    if rows == [] then [] else AddRow(Clients(rows[..|rows| - 1]), rows[|rows| - 1])
  }

  /** The consolidation loop over the query rows. */
  method Consolidate(rows: seq<MonthRow>) returns (cs: seq<Client>)
    ensures cs == Clients(rows)
  {
    cs := [];
    var i := 0;
    while i < |rows|
      invariant 0 <= i <= |rows|
      invariant cs == Clients(rows[..i])
    {
      var r := rows[i];
      assert rows[..i + 1][..i] == rows[..i];
      var k := IndexOf(cs, r.idUsuario);
      if k.None? {
        cs := cs + [Absorb(Fresh(r), r)];
      } else {
        cs := cs[k.value := Absorb(cs[k.value], r)];
      }
      i := i + 1;
    }
    assert rows[..i] == rows;
  }

  // The reference aggregates, per user, over the query rows.

  function SumPedidos(rows: seq<MonthRow>, u: int): int {
    if rows == [] then 0
    else SumPedidos(rows[..|rows| - 1], u) +
         (if rows[|rows| - 1].idUsuario == u then rows[|rows| - 1].totalPedidos else 0)
  }

  function SumGastado(rows: seq<MonthRow>, u: int): int {
    if rows == [] then 0
    else SumGastado(rows[..|rows| - 1], u) +
         (if rows[|rows| - 1].idUsuario == u then rows[|rows| - 1].totalGastado else 0)
  }

  function CountRows(rows: seq<MonthRow>, u: int): nat {
    if rows == [] then 0
    else CountRows(rows[..|rows| - 1], u) + (if rows[|rows| - 1].idUsuario == u then 1 else 0)
  }

  /** The latest purchase date among the user's rows, if it has any. */
  function LatestDate(rows: seq<MonthRow>, u: int): (r: Option<int>)
    ensures r.Some? <==> exists i :: 0 <= i < |rows| && rows[i].idUsuario == u
    ensures r.Some? ==> (forall i :: 0 <= i < |rows| && rows[i].idUsuario == u ==> rows[i].ultimaCompra <= r.value) &&
                        exists i :: 0 <= i < |rows| && rows[i].idUsuario == u && rows[i].ultimaCompra == r.value
  {
    if rows == [] then None
    else
      var pre := rows[..|rows| - 1];
      var last := rows[|rows| - 1];
      assert forall i :: 0 <= i < |pre| ==> pre[i] == rows[i];
      var before := LatestDate(pre, u);
      if last.idUsuario != u then before
      else if before.None? || last.ultimaCompra > before.value then Some(last.ultimaCompra)
      else before
  }

  /** What the entry of user u says, if u has one. */
  predicate Tallies(cs: seq<Client>, rows: seq<MonthRow>, u: int) {
    (IndexOf(cs, u).Some? <==> LatestDate(rows, u).Some?) &&
    (IndexOf(cs, u).None? ==> SumPedidos(rows, u) == 0 && SumGastado(rows, u) == 0 && CountRows(rows, u) == 0) &&
    (IndexOf(cs, u).Some? ==>
      var c := cs[IndexOf(cs, u).value];
      c.totalPedidos == SumPedidos(rows, u) && c.totalGastado == SumGastado(rows, u) &&
      c.mesesFrecuente == CountRows(rows, u) && c.ultimaCompra == LatestDate(rows, u).value)
  }

  predicate DistinctIds(cs: seq<Client>) {
    forall i, j :: 0 <= i < j < |cs| ==> cs[i].idUsuario != cs[j].idUsuario
  }

  lemma IndexAfterAppend(cs: seq<Client>, c: Client, u: int)
    ensures IndexOf(cs + [c], u) ==
      if IndexOf(cs, u).Some? then IndexOf(cs, u) else if c.idUsuario == u then Some(|cs|) else None
  {
    var cs' := cs + [c];
    var a, b := IndexOf(cs, u), IndexOf(cs', u);
    assert cs'[|cs|] == c;
    if a.Some? {
      assert cs'[a.value] == cs[a.value];
      assert b.Some? && !(b.value < a.value);
    } else if c.idUsuario == u {
      assert b.Some? && !(b.value < |cs|);
    }
  }

  lemma IndexAfterUpdate(cs: seq<Client>, k: nat, c: Client, u: int)
    requires k < |cs| && c.idUsuario == cs[k].idUsuario
    ensures IndexOf(cs[k := c], u) == IndexOf(cs, u)
  {
    var cs' := cs[k := c];
    assert forall j :: 0 <= j < |cs| ==> cs'[j].idUsuario == cs[j].idUsuario;
    var a, b := IndexOf(cs, u), IndexOf(cs', u);
    if a.Some? && b.Some? {
      assert !(b.value < a.value) && !(a.value < b.value);
    }
  }

  /** Finding a user after one row is added. */
  lemma IndexAfterAdd(cs: seq<Client>, r: MonthRow, u: int)
    ensures IndexOf(AddRow(cs, r), u) ==
      if IndexOf(cs, u).Some? then IndexOf(cs, u)
      else if r.idUsuario == u then Some(|cs|) else None
  {
    match IndexOf(cs, r.idUsuario)
    case None =>
      IndexAfterAppend(cs, Absorb(Fresh(r), r), u);
    case Some(k) =>
      IndexAfterUpdate(cs, k, Absorb(cs[k], r), u);
  }

  /** One step of the fold keeps every user's tally right. */
  lemma AddRowTallies(cs: seq<Client>, rows: seq<MonthRow>, r: MonthRow, u: int)
    requires Tallies(cs, rows, u)
    ensures Tallies(AddRow(cs, r), rows + [r], u)
  {
    var rows' := rows + [r];
    assert rows'[..|rows'| - 1] == rows && rows'[|rows'| - 1] == r;
    IndexAfterAdd(cs, r, u);
    var cs' := AddRow(cs, r);
    var k := IndexOf(cs, u);
    if r.idUsuario == u {
      if k.None? {
        assert cs' == cs + [Absorb(Fresh(r), r)];
      } else {
        assert cs' == cs[k.value := Absorb(cs[k.value], r)];
      }
    } else if k.Some? {
      var k2 := IndexOf(cs, r.idUsuario);
      assert cs'[k.value] == cs[k.value];
    }
  }

  lemma AddRowDistinct(cs: seq<Client>, r: MonthRow)
    requires DistinctIds(cs)
    ensures DistinctIds(AddRow(cs, r))
  {
  }

  /** The consolidation is right for every user: an entry exists exactly for
      the users with rows, there is one entry per user, and it holds the sum
      of their orders and spending, the number of their rows (months) and the
      latest of their purchase dates. */
  lemma {:induction false} ClientsTally(rows: seq<MonthRow>)
    ensures DistinctIds(Clients(rows))
    ensures forall u :: Tallies(Clients(rows), rows, u)
    decreases |rows|
  {
    if rows != [] {
      var pre := rows[..|rows| - 1];
      var r := rows[|rows| - 1];
      ClientsTally(pre);
      AddRowDistinct(Clients(pre), r);
      assert pre + [r] == rows;
      forall u ensures Tallies(Clients(rows), rows, u) {
        AddRowTallies(Clients(pre), pre, r, u);
      }
    }
  }

  // ---------------------------------------------------------------------------
  // getFrequentClientsReport: order and truncation
  // ---------------------------------------------------------------------------

  /** The comparator: more frequent months first, then more orders. */
  predicate Precedes(a: Client, b: Client) {
    a.mesesFrecuente > b.mesesFrecuente ||
    (a.mesesFrecuente == b.mesesFrecuente && a.totalPedidos > b.totalPedidos)
  }

  /** `a` may stand before `b` in the sorted array. */
  predicate RanksAtLeast(a: Client, b: Client) {
    !Precedes(b, a)
  }

  predicate Sorted(s: seq<Client>) {
    forall i, j :: 0 <= i < j < |s| ==> RanksAtLeast(s[i], s[j])
  }

  /** Insert `c` after every entry it does not strictly precede, as a stable
      sort treats a later equal element. */
  function Insert(s: seq<Client>, c: Client): (r: seq<Client>)
    ensures multiset(r) == multiset(s) + multiset{c}
    ensures |r| == |s| + 1
  {
    if s == [] then [c]
    else if Precedes(c, s[0]) then [c] + s
    else
      assert s == [s[0]] + s[1..];
      [s[0]] + Insert(s[1..], c)
  }

  lemma {:induction false} InsertSorted(s: seq<Client>, c: Client)
    requires Sorted(s)
    ensures Sorted(Insert(s, c))
    decreases |s|
  {
    if s != [] && !Precedes(c, s[0]) {
      InsertSorted(s[1..], c);
      var r := Insert(s, c);
      var t := Insert(s[1..], c);
      assert r == [s[0]] + t;
      forall j | 1 <= j < |r| ensures RanksAtLeast(r[0], r[j]) {
        assert r[j] in multiset(t);
        assert r[j] in multiset(s[1..]) + multiset{c};
        if r[j] in multiset(s[1..]) {
          var m :| 0 <= m < |s[1..]| && s[1..][m] == r[j];
          assert s[1 + m] == r[j];
        }
      }
    }
  }

  /** `Array.prototype.sort` with the comparator; the sort is stable. */
  function SortClients(s: seq<Client>): (r: seq<Client>)
    ensures multiset(r) == multiset(s) && |r| == |s|
  {
    if s == [] then [] else
      var pre := s[..|s| - 1];
      assert s == pre + [s[|s| - 1]];
      Insert(SortClients(pre), s[|s| - 1])
  }

  lemma {:induction false} SortClientsSorted(s: seq<Client>)
    ensures Sorted(SortClients(s))
    decreases |s|
  {
    if s != [] {
      SortClientsSorted(s[..|s| - 1]);
      InsertSorted(SortClients(s[..|s| - 1]), s[|s| - 1]);
    }
  }

  const ReportLimit: nat := 20

  function Min(a: nat, b: nat): nat {
    if a <= b then a else b
  }

  /** The whole report: consolidate, sort, keep the first 20. */
  function FrequentClientsReport(rows: seq<MonthRow>): seq<Client> {
    var sorted := SortClients(Clients(rows));
    sorted[..Min(ReportLimit, |sorted|)]
  }

  /** In a sorted sequence, nothing after position n ranks above anything before it. */
  lemma SortedPrefixTop(s: seq<Client>, n: nat)
    requires Sorted(s) && n <= |s|
    ensures forall x, y :: x in multiset(s) - multiset(s[..n]) && y in s[..n] ==> RanksAtLeast(y, x)
  {
    assert s == s[..n] + s[n..];
    assert multiset(s) - multiset(s[..n]) == multiset(s[n..]);
    forall x, y | x in multiset(s[n..]) && y in s[..n] ensures RanksAtLeast(y, x) {
      var a :| 0 <= a < |s[n..]| && s[n..][a] == x;
      var b :| 0 <= b < n && s[..n][b] == y;
      assert s[b] == y && s[n + a] == x;
    }
  }

  /** The report is ordered by months then orders, holds at most 20 entries,
      every one of them a consolidated entry (so one per user, with the
      right totals), and no entry left out ranks above one kept. */
  lemma ReportIsTop(rows: seq<MonthRow>)
    ensures var report := FrequentClientsReport(rows);
      var all := Clients(rows);
      Sorted(report) && |report| == Min(ReportLimit, |all|) &&
      multiset(report) <= multiset(all) &&
      (forall c :: c in report ==> c in all) &&
      forall x, y :: x in multiset(all) - multiset(report) && y in report ==> RanksAtLeast(y, x)
  {
    var all := Clients(rows);
    var sorted := SortClients(all);
    SortClientsSorted(all);
    var n := Min(ReportLimit, |sorted|);
    var report := sorted[..n];
    SortedPrefixTop(sorted, n);
    assert sorted == report + sorted[n..];
    assert multiset(sorted) == multiset(report) + multiset(sorted[n..]);
    forall c | c in report ensures c in all {
      assert c in multiset(sorted);
    }
  }
}
