/** The application's fixed SQL statements: the list queries with their
    optional-filter WHERE clauses and ORDER BY keys, the uniqueness checks,
    and what running one with a positional parameter tuple yields. The
    FROM/JOIN part of a list query is taken as given: a query runs over the
    rows its joins produce. */
module Queries {
  import opened Wrappers
  import opened Text
  import opened Dates
  import opened Sql
  import opened Slots
  import opened Ordering

  /** A statement: a fixed head (SELECT ... FROM ... JOIN ...), the WHERE
      slots, the ORDER BY keys and a fixed tail (such as `LIMIT 1`). */
  datatype Query = Query(head: Chunk, slots: seq<Slot>, order: seq<Key>, tail: Chunk)

  /** The text of one sort key; a NULL placement is written only when it
      differs from PostgreSQL's default for the direction. */
  function KeySql(k: Key): Chunk {
    var dir: Chunk := if k.dir == Desc then " DESC" else "";
    var nulls: Chunk :=
      if k.dir == Asc && k.nulls == NullsFirst then " NULLS FIRST"
      else if k.dir == Desc && k.nulls == NullsLast then " NULLS LAST"
      else "";
    ColumnSql(k.col) + dir + nulls
  }

  function KeysSql(keys: seq<Key>): Chunk {
    if |keys| == 0 then ""
    else if |keys| == 1 then KeySql(keys[0])
    else KeySql(keys[0]) + ", " + KeysSql(keys[1..])
  }

  function OrderSql(keys: seq<Key>): Chunk {
    if |keys| == 0 then "" else " ORDER BY " + KeysSql(keys)
  }

  function QueryText(q: Query): string {
    Flatten([Lit(q.head)] + Where(q.slots) + [Lit(OrderSql(q.order) + q.tail)])
  }

  /** The placeholder count of a query's text is the number of parameters
      its slots consume. */
  lemma TextCount(q: Query)
    ensures Placeholders(QueryText(q)) == Some(TotalArity(q.slots))
  {
    var w := Where(q.slots);
    var t := OrderSql(q.order) + q.tail;
    WhereCount(q.slots);
    HolesAround(q.head, w, t);
    FlattenCount([Lit(q.head)] + w + [Lit(t)]);
  }

  /** `cursor.execute(query, params)` followed by `fetchall()`: psycopg2
      refuses a tuple that does not match the placeholders, except that it
      sends a text without any as written and ignores the tuple; the result
      is the rows the WHERE clause keeps, each as often as it occurs, in
      ORDER BY order. */
  function Run(q: Query, params: seq<Param>, rows: seq<Row>): (r: Result<seq<Row>>)
    ensures r.Ok? <==> Accepts(TotalArity(q.slots), |params|)
    ensures r.Ok? ==> Sorted(q.order, r.value)
    ensures r.Ok? && |params| == TotalArity(q.slots) ==>
      forall x :: x in r.value <==> x in rows && Keeps(q.slots, params, x)
    ensures r.Ok? && |params| == TotalArity(q.slots) ==>
      forall x :: multiset(r.value)[x] == if Keeps(q.slots, params, x) then multiset(rows)[x] else 0
    ensures r.Ok? && TotalArity(q.slots) == 0 ==> multiset(r.value) == multiset(rows)
  {
    TextCount(q);
    var b := Bind(QueryText(q), params);
    if b.Err? then Err(b.message)
    else
      NoSlotsKeepAll(q.slots, rows);
      Ok(Sort(q.order, Filter(q.slots, b.value, rows)))
  }

  /** A query without slots keeps every row. */
  lemma NoSlotsKeepAll(ss: seq<Slot>, rows: seq<Row>)
    ensures TotalArity(ss) == 0 ==> multiset(Filter(ss, [], rows)) == multiset(rows)
  {
    if TotalArity(ss) == 0 {
      assert ss == [];
      var r := Filter(ss, [], rows);
      assert forall x :: multiset(r)[x] == multiset(rows)[x];
    }
  }

  /** With every slot inactive a query returns all its rows, in order. */
  lemma RunAllInactive(q: Query, f: Slot -> Param, rows: seq<Row>)
    requires forall i :: 0 <= i < |q.slots| ==> Inactive(q.slots[i], f(q.slots[i]))
    ensures Run(q, BindSlots(q.slots, f), rows) == Ok(Sort(q.order, rows))
  {
    AllInactiveKeepsAll(q.slots, f, rows);
  }

  // ---- List queries ----
  // The head stands for the SELECT list and the joins, which the model takes
  // as given; only its lack of `%` matters to the placeholder count.

  const GetAllEntities := Query(
    "SELECT ..." + " FROM" + " legal_entities",
    [Optional(EntityName, LikeLower),
     Optional(Inn, LikePlain)],
    [AscKey(EntityName)], "")

  const GetInvestors := Query(
    "SELECT ..." + " FROM investors i" + " JOIN ...",
    [Optional(EntityName, LikeLower),
     Optional(Inn, LikePlain)],
    [AscKey(EntityName)], "")

  const GetEmitters := Query(
    "SELECT ..." + " FROM emitters e" + " JOIN ...",
    [Optional(EntityName, LikeLower),
     Optional(Inn, LikePlain)],
    [AscKey(EntityName)], "")

  const GetRegistrars := Query(
    "SELECT ..." + " FROM" + " registrats r" + " JOIN ...",
    [Optional(EntityName, LikeLower),
     Optional(Inn, LikePlain),
     Optional(LicenceNum, LikeLower)],
    [AscKey(EntityName)], "")

  const GetEmissions := Query(
    "SELECT ..." + " FROM" + " emissions ems" + " JOIN ...",
    [Optional(EmitterName, LikeLower),
     Optional(RegistrarName, LikeLower),
     Optional(EmissionStatus, Equal),
     Optional(DateRegister, AtLeast),
     Optional(DateRegister, AtMost)],
    [DescKey(DateRegister)], "")

  const GetStocks := Query(
    "SELECT ..." + " FROM stocks s" + " JOIN ...",
    [Optional(Ticket, LikeLower),
     Optional(EmitterName, LikeLower),
     Optional(EmissionId, Equal)],
    [AscKey(Ticket)], "")

  const GetSells := Query(
    "SELECT ..." + " FROM sells sl" + " JOIN ...",
    [Optional(InvestorName, LikeLower),
     Optional(Ticket, LikeLower),
     Optional(SaleDate, AtLeast),
     Optional(SaleDate, AtMost)],
    [DescKey(SaleDate)], "")

  const GetAllClients := Query(
    "SELECT ..." + " FROM Client c",
    [Optional(FirstName, LikeLower),
     Optional(LastName, LikeLower),
     Optional(Phone, LikePlain)],
    [AscKey(LastName), AscKey(FirstName)], "")

  const GetAllDeposits := Query(
    "SELECT ..." + " FROM Deposit d" + " JOIN ...",
    [Optional(FirstName, LikeLower),
     Optional(LastName, LikeLower),
     Optional(DepositStatus, Equal),
     Optional(DepositType, Equal),
     Optional(OpenDate, AtLeast),
     Optional(OpenDate, AtMost)],
    [DescKey(OpenDate)], "")

  const GetAllReports := Query(
    "SELECT ..." + " FROM Report r" + " JOIN ...",
    [Optional(FirstName, LikeLower),
     Optional(EmployeeLastName, LikeLower),
     Optional(TxType, Equal),
     Optional(CreationDate, AtLeast),
     Optional(CreationDate, AtMost)],
    [DescKey(CreationDate)], "")

  /** A per-client aggregate without placeholders. */
  const GetClientDeposits := Query(
    "SELECT ..." + " FROM Client c" + " LEFT JOIN ..." + " GROUP BY c.id",
    [],
    [Key(TotalAmount, Desc, NullsLast)], "")

  /** As written, the deposits dialog passes the client's id to the
      per-client aggregate, which holds no placeholder: psycopg2 sends the
      text unformatted and drops the id, so the dialog receives every
      client's aggregate row rather than that client's deposits. Reading
      the first of those rows as a deposit then raises, so the dialog never
      opens. */
  lemma ClientDepositsIgnoresClient(clientId: int, rows: seq<Row>)
    ensures Run(GetClientDeposits, [Some(Int(clientId))], rows).Ok?
    ensures Run(GetClientDeposits, [Some(Int(clientId))], rows) == Run(GetClientDeposits, [], rows)
    ensures multiset(Run(GetClientDeposits, [Some(Int(clientId))], rows).value) == multiset(rows)
  {
    TextCount(GetClientDeposits);
  }

  /** As written, the reports dialog runs the ten-placeholder report list
      with no parameters, so the list never loads. */
  lemma ReportListNeverLoads(rows: seq<Row>)
    ensures Run(GetAllReports, [], rows).Err?
  {
    TextCount(GetAllReports);
  }

  /** The list the deposits dialog evidently means to load: the deposits
      whose `client_id` is the dialog's client. */
  const IntendedClientDeposits := Query(
    "SELECT ..." + " FROM Deposit", [Required(ClientId, Equal)], [], "")

  /** Run with the client's id, it returns exactly that client's deposits,
      each as often as stored. */
  lemma IntendedClientDepositsMeaning(clientId: int, rows: seq<Row>)
    ensures Run(IntendedClientDeposits, [Some(Int(clientId))], rows).Ok?
    ensures forall x ::
              multiset(Run(IntendedClientDeposits, [Some(Int(clientId))], rows).value)[x]
              == (if Get(x, ClientId) == Some(Int(clientId)) then multiset(rows)[x] else 0)
  {
    var q := IntendedClientDeposits;
    var p: seq<Param> := [Some(Int(clientId))];
    assert TotalArity(q.slots) == 1 by {
      assert q.slots[1..] == [];
    }
    forall x ensures Keeps(q.slots, p, x) <==> Get(x, ClientId) == Some(Int(clientId)) {
      assert q.slots[1..] == [] && p[1..] == [] && p[..1] == p;
      assert Eval(q.slots, p, x) == And(Compare(Equal, Get(x, ClientId), p[0]), True);
    }
  }

  /** The report list evidently meant to load: with all ten filters NULL it
      returns every report, newest first. */
  lemma IntendedReportList(rows: seq<Row>)
    ensures Run(GetAllReports, BindSlots(GetAllReports.slots, _ => None), rows)
      == Ok(Sort(GetAllReports.order, rows))
  {
    RunAllInactive(GetAllReports, _ => None, rows);
  }

  // ---- Uniqueness checks ----

  /** `SELECT 1 FROM table WHERE col = %s AND (%s IS NULL OR id != %s)`, run
      with (value, own id, own id); own id is NULL for a new record. */
  function CheckQuery(table: Chunk, col: Column): Query {
    Query("SELECT 1 FROM " + table, [Required(col, Equal), Unless(RowId, NotEqual)], [], " LIMIT 1")
  }

  const CheckEntityInnExists := CheckQuery("legal_entities", Inn)
  const CheckEntityPhoneExists := CheckQuery("legal_entities", EntityPhone)
  const CheckRegistrarLicenseExists := CheckQuery("registrats", LicenceNum)
  const CheckStockTicketExists := CheckQuery("stocks", Ticket)

  /** The client and employee phone checks write the id test the other way
      round: `(id != %s OR %s IS NULL)`. */
  function CheckPhoneQuery(table: Chunk): Query {
    Query("SELECT 1 FROM " + table, [Required(Phone, Equal), Optional(RowId, NotEqual)], [], " LIMIT 1")
  }

  const CheckClientPhoneExists := CheckPhoneQuery("Client")
  const CheckEmployeePhoneExists := CheckPhoneQuery("Employee")

  /** The tuple the dialogs pass to a uniqueness check. */
  function CheckParams(value: Value, id: Option<int>): (p: seq<Param>)
    ensures |p| == 3
  {
    var idp := if id.Some? then Some(Int(id.value)) else None;
    [Some(value), idp, idp]
  }

  /** Row `row` is a conflicting record: it holds the value and, when an own
      id is given, it is a different record. */
  predicate Conflicts(row: Row, col: Column, value: Value, id: Option<int>) {
    Get(row, col) == Some(value) && (id.None? || (RowId in row && row[RowId] != Int(id.value)))
  }

  /** The WHERE clause of a uniqueness check: `col = %s` and an optional
      `id != %s` test, written either way round. */
  predicate CheckShape(ss: seq<Slot>, col: Column) {
    |ss| == 2 && ss[0].Required? && ss[0].col == col && ss[0].op == Equal
    && (ss[1].Unless? || ss[1].Optional?) && ss[1].col == RowId && ss[1].op == NotEqual
  }

  lemma CheckArity(ss: seq<Slot>, col: Column)
    requires CheckShape(ss, col)
    ensures TotalArity(ss) == 3
  {
    assert ss[1..][0] == ss[1] && ss[1..][1..] == [];
    assert TotalArity(ss[1..][1..]) == 0;
    assert TotalArity(ss[1..]) == 2;
  }

  /** A uniqueness check keeps exactly the conflicting rows. */
  lemma CheckKeeps(ss: seq<Slot>, col: Column, value: Value, id: Option<int>, row: Row)
    requires CheckShape(ss, col)
    ensures |CheckParams(value, id)| == TotalArity(ss)
    ensures Keeps(ss, CheckParams(value, id), row) <==> Conflicts(row, col, value, id)
  {
    CheckArity(ss, col);
    var p := CheckParams(value, id);
    assert ss[1..][0] == ss[1] && ss[1..][1..] == [];
    assert p[..1] == [Some(value)] && p[1..][..2] == p[1..] && p[1..][2..] == [];
    assert Eval(ss[1..][1..], p[1..][2..], row) == True;
    assert Eval(ss[1..], p[1..], row) == And(EvalSlot(ss[1], p[1..], row), True);
    assert Eval(ss, p, row) == And(EvalSlot(ss[0], [Some(value)], row), EvalSlot(ss[1], p[1..], row));
  }

  /** The check finds a conflict exactly when some row conflicts. */
  function CheckExists(q: Query, col: Column, value: Value, id: Option<int>, rows: seq<Row>): (r: Result<bool>)
    requires CheckShape(q.slots, col)
    ensures r.Ok?
    ensures r.value <==> exists x :: x in rows && Conflicts(x, col, value, id)
  {
    CheckArity(q.slots, col);
    var p := CheckParams(value, id);
    var found := Run(q, p, rows);
    assert forall x :: Keeps(q.slots, p, x) <==> Conflicts(x, col, value, id) by {
      forall x ensures Keeps(q.slots, p, x) <==> Conflicts(x, col, value, id) {
        CheckKeeps(q.slots, col, value, id, x);
      }
    }
    assert (exists x :: x in found.value) <==> |found.value| > 0 by {
      if |found.value| > 0 {
        assert found.value[0] in found.value;
      }
    }
    Ok(|found.value| > 0)
  }

  /** A record never conflicts with itself: with its own id given, the check
      finds a conflict only in a row with a different id. */
  lemma NeverConflictsWithSelf(row: Row, col: Column, value: Value, id: int)
    requires RowId in row && row[RowId] == Int(id)
    ensures !Conflicts(row, col, value, Some(id))
  {
  }
}
