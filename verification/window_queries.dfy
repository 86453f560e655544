/** The list queries the client tab and the table windows assemble at run
    time: a fixed WHERE part, conditions appended for the filled fields or a
    set context, and a parameter list grown in step with the text. */
module WindowQueries {
  import opened Wrappers
  import opened Text
  import opened Sql
  import opened Slots
  import opened Ordering
  import opened Criteria
  import opened Queries

  // ---- Statements that start with `WHERE 1=1` ----

  /** A head ending in `WHERE 1=1`, one ` AND ` condition per slot, and an
      ORDER BY. */
  datatype Chained = Chained(head: Chunk, slots: seq<Slot>, order: seq<Key>)

  function ChainText(q: Chained): string {
    Flatten([Lit(q.head)] + AndChain(q.slots) + [Lit(OrderSql(q.order))])
  }

  /** The appended conditions hold one placeholder per parameter they consume. */
  lemma ChainCount(q: Chained)
    ensures Placeholders(ChainText(q)) == Some(TotalArity(q.slots))
  {
    AndChainCount(q.slots);
    HolesAround(q.head, AndChain(q.slots), OrderSql(q.order));
    FlattenCount([Lit(q.head)] + AndChain(q.slots) + [Lit(OrderSql(q.order))]);
  }

  /** Executing an assembled statement: refused on a parameter miscount
      (a text without conditions takes any tuple and ignores it), otherwise
      the kept rows, each as often as it occurs, in ORDER BY order. */
  function Execute(q: Chained, params: seq<Param>, rows: seq<Row>): (r: Result<seq<Row>>)
    ensures r.Ok? <==> Accepts(TotalArity(q.slots), |params|)
    ensures r.Ok? ==> Sorted(q.order, r.value)
    ensures r.Ok? && |params| == TotalArity(q.slots) ==>
      forall x :: x in r.value <==> x in rows && Keeps(q.slots, params, x)
    ensures r.Ok? && |params| == TotalArity(q.slots) ==>
      forall x :: multiset(r.value)[x] == if Keeps(q.slots, params, x) then multiset(rows)[x] else 0
  {
    ChainCount(q);
    var b := Bind(ChainText(q), params);
    if b.Err? then Err(b.message)
    else Ok(Sort(q.order, Filter(q.slots, b.value, rows)))
  }

  /** A one-slot WHERE clause is that slot. */
  lemma KeepsOne(s: Slot, ps: seq<Param>, row: Row)
    requires |ps| == Arity(s)
    ensures |ps| == TotalArity([s])
    ensures Keeps([s], ps, row) <==> EvalSlot(s, ps, row) == True
  {
    assert [s][1..] == [];
    assert ps[..Arity(s)] == ps && ps[Arity(s)..] == [];
    assert Eval([], [], row) == True;
  }

  /** An empty WHERE part keeps every row. */
  lemma KeepsNone(row: Row)
    ensures Keeps([], [], row)
  {
  }

  /** A present criterion bound to a `Required` LIKE slot is the text filter. */
  lemma RequiredLikeMeaning(c: Column, op: Op, t: string, row: Row)
    requires NoWild(t) && (op == LikeLower || op == LikePlain)
    ensures EvalSlot(Required(c, op), [LikeParam(Some(t))], row) == True
        <==> TextMatch(Some(t), Get(row, c), op == LikeLower)
  {
    LikeSlotMeaning(c, Some(t), row);
    assert Holds(Optional(c, op), LikeParam(Some(t)), row) <==> Compare(op, Get(row, c), LikeParam(Some(t))) == True;
  }

  // ---- The client tab ----

  datatype ClientSearch = ClientSearch(first: Option<string>, last: Option<string>, phone: Option<string>)

  /** Each field stripped; a blank one adds no condition. */
  function ReadClientSearch(firstText: string, lastText: string, phoneText: string): ClientSearch {
    ClientSearch(TextCriterion(firstText), TextCriterion(lastText), TextCriterion(phoneText))
  }

  /** The condition a filled field appends: names ignoring case, the phone
      as typed. */
  function ClientCond(t: Option<string>, c: Column, op: Op): seq<Slot> {
    if t.Some? then [Required(c, op)] else []
  }

  function ClientValue(t: Option<string>): seq<Param> {
    if t.Some? then [LikeParam(t)] else []
  }

  function ClientSlots(c: ClientSearch): seq<Slot> {
    ClientCond(c.first, FirstName, LikeLower) + ClientCond(c.last, LastName, LikeLower)
    + ClientCond(c.phone, Phone, LikePlain)
  }

  function ClientParams(c: ClientSearch): seq<Param> {
    ClientValue(c.first) + ClientValue(c.last) + ClientValue(c.phone)
  }

  const ClientsHead: Chunk := "SELECT ..." + " FROM Client" + " WHERE 1=1"
  const ClientsOrder: seq<Key> := [AscKey(LastName), AscKey(FirstName)]

  function ClientsQuery(c: ClientSearch): Chained {
    Chained(ClientsHead, ClientSlots(c), ClientsOrder)
  }

  lemma ClientPart(t: Option<string>, col: Column, op: Op, row: Row)
    requires Literal(t) && (op == LikeLower || op == LikePlain)
    ensures |ClientValue(t)| == TotalArity(ClientCond(t, col, op))
    ensures Keeps(ClientCond(t, col, op), ClientValue(t), row) <==> TextMatch(t, Get(row, col), op == LikeLower)
  {
    if t.Some? {
      KeepsOne(Required(col, op), [LikeParam(t)], row);
      RequiredLikeMeaning(col, op, t.value, row);
    }
  }

  /** Whatever fields are filled, the text holds one placeholder per
      parameter, each field's condition receiving that field's pattern. */
  lemma ClientsCount(c: ClientSearch)
    ensures |ClientParams(c)| == TotalArity(ClientSlots(c))
    ensures Placeholders(ChainText(ClientsQuery(c))) == Some(|ClientParams(c)|)
    ensures forall k :: 0 <= k < |ClientSlots(c)| ==> ClientSlots(c)[k].Required?
  {
    ClientsArity(c);
    ChainCount(ClientsQuery(c));
    ClientCondRequired(c.first, FirstName, LikeLower);
    ClientCondRequired(c.last, LastName, LikeLower);
    ClientCondRequired(c.phone, Phone, LikePlain);
  }

  lemma ClientCondRequired(t: Option<string>, col: Column, op: Op)
    ensures |ClientValue(t)| == TotalArity(ClientCond(t, col, op))
    ensures forall k :: 0 <= k < |ClientCond(t, col, op)| ==> ClientCond(t, col, op)[k].Required?
  {
    assert [Required(col, op)][1..] == [];
  }

  lemma ClientsArity(c: ClientSearch)
    ensures |ClientParams(c)| == TotalArity(ClientSlots(c))
  {
    var a, b, d := ClientCond(c.first, FirstName, LikeLower), ClientCond(c.last, LastName, LikeLower), ClientCond(c.phone, Phone, LikePlain);
    TotalArityConcat(a, b);
    TotalArityConcat(a + b, d);
    ClientCondRequired(c.first, FirstName, LikeLower);
    ClientCondRequired(c.last, LastName, LikeLower);
    ClientCondRequired(c.phone, Phone, LikePlain);
  }

  /** The client tab's list: every filled name field contained in the
      client's name ignoring case, a filled phone contained as typed. */
  predicate ClientMatch(c: ClientSearch, j: Row) {
    TextMatch(c.first, Get(j, FirstName), true) && TextMatch(c.last, Get(j, LastName), true)
    && TextMatch(c.phone, Get(j, Phone), false)
  }

  lemma ClientsMeaning(c: ClientSearch, j: Row)
    requires Literal(c.first) && Literal(c.last) && Literal(c.phone)
    ensures |ClientParams(c)| == TotalArity(ClientSlots(c))
    ensures Keeps(ClientSlots(c), ClientParams(c), j) <==> ClientMatch(c, j)
  {
    ClientPart(c.first, FirstName, LikeLower, j);
    ClientPart(c.last, LastName, LikeLower, j);
    ClientPart(c.phone, Phone, LikePlain, j);
    var a, b, d := ClientCond(c.first, FirstName, LikeLower), ClientCond(c.last, LastName, LikeLower), ClientCond(c.phone, Phone, LikePlain);
    KeepsConcat(a, b, ClientValue(c.first), ClientValue(c.last), j);
    KeepsConcat(a + b, d, ClientValue(c.first) + ClientValue(c.last), ClientValue(c.phone), j);
  }

  lemma ClientFilters(c: ClientSearch)
    ensures |ClientParams(c)| == TotalArity(ClientSlots(c))
    ensures Literal(c.first) && Literal(c.last) && Literal(c.phone) ==>
      forall x :: Keeps(ClientSlots(c), ClientParams(c), x) <==> ClientMatch(c, x)
  {
    ClientsCount(c);
    if Literal(c.first) && Literal(c.last) && Literal(c.phone) {
      forall x ensures Keeps(ClientSlots(c), ClientParams(c), x) <==> ClientMatch(c, x) {
        ClientsMeaning(c, x);
      }
    }
  }

  /** `load_data` of the client tab. */
  function LoadClients(c: ClientSearch, rows: seq<Row>): (r: Result<seq<Row>>)
    ensures r.Ok? && Sorted(ClientsOrder, r.value)
    ensures Literal(c.first) && Literal(c.last) && Literal(c.phone) ==>
      forall x :: x in r.value <==> x in rows && ClientMatch(c, x)
    ensures Literal(c.first) && Literal(c.last) && Literal(c.phone) ==>
      forall x :: multiset(r.value)[x] == if ClientMatch(c, x) then multiset(rows)[x] else 0
  {
    ClientFilters(c);
    Execute(ClientsQuery(c), ClientParams(c), rows)
  }

  /** With no condition appended the text is the head and the ORDER BY. */
  lemma ChainTextBare(q: Chained)
    requires q.slots == []
    ensures ChainText(q) == q.head + OrderSql(q.order)
  {
    var o := OrderSql(q.order);
    assert [Lit(q.head)] + AndChain([]) + [Lit(o)] == [Lit(q.head), Lit(o)];
    assert [Lit(q.head), Lit(o)][1..] == [Lit(o)] && [Lit(o)][1..] == [];
    assert Flatten([Lit(o)]) == o + Flatten([]);
    assert Flatten([Lit(q.head), Lit(o)]) == q.head + Flatten([Lit(o)]);
  }

  /** With every field blank the statement is the bare head and ORDER BY,
      and every client is listed by last then first name. */
  lemma ClientsBlankListsAll(firstText: string, lastText: string, phoneText: string, rows: seq<Row>)
    requires AllSpace(firstText) && AllSpace(lastText) && AllSpace(phoneText)
    ensures var c := ReadClientSearch(firstText, lastText, phoneText);
      ClientParams(c) == [] && ChainText(ClientsQuery(c)) == ClientsHead + OrderSql(ClientsOrder)
      && LoadClients(c, rows) == Ok(Sort(ClientsOrder, rows))
  {
    var c := ReadClientSearch(firstText, lastText, phoneText);
    assert c == ClientSearch(None, None, None);
    ClientsClearedListsAll(c, rows);
  }

  lemma ClientsClearedListsAll(c: ClientSearch, rows: seq<Row>)
    requires c == ClientSearch(None, None, None)
    ensures ClientParams(c) == [] && ChainText(ClientsQuery(c)) == ClientsHead + OrderSql(ClientsOrder)
    ensures LoadClients(c, rows) == Ok(Sort(ClientsOrder, rows))
  {
    assert ClientSlots(c) == [];
    ChainTextBare(ClientsQuery(c));
    ExecuteBare(ClientsQuery(c), rows);
    LoadClientsExecutes(c, rows);
  }

  lemma LoadClientsExecutes(c: ClientSearch, rows: seq<Row>)
    ensures LoadClients(c, rows) == Execute(ClientsQuery(c), ClientParams(c), rows)
  {
  }

  /** A statement without conditions lists every row, in its order. */
  lemma ExecuteBare(q: Chained, rows: seq<Row>)
    requires q.slots == []
    ensures Execute(q, [], rows) == Ok(Sort(q.order, rows))
  {
    AllInactiveKeepsAll([], _ => None, rows);
    assert BindSlots([], _ => None) == [];
  }

  // ---- Windows with sentinel filters and an optional context clause ----

  /** A slot comparing a column with a value, unless the value is the
      sentinel: both placeholders receive the same text. */
  lemma SentinelMeaning(c: Column, op: Op, all: Chunk, v: string, row: Row)
    ensures EvalSlot(Sentinel(c, op, all), [Some(Str(v)), Some(Str(v))], row) == True
        <==> v == all || Compare(op, Get(row, c), Some(Str(v))) == True
  {
  }

  /** `col BETWEEN a AND b` on numbers: inclusive at both ends. */
  lemma BetweenMeaning(c: Column, a: real, b: real, row: Row)
    ensures EvalSlot(Between(c), [Some(Num(a)), Some(Num(b))], row) == True
        <==> Get(row, c).Some? && Get(row, c).value.Num? && a <= Get(row, c).value.r <= b
  {
  }

  /** The optional ` AND col = %s` of a window opened for one record. The
      record's id arrives as the text of its table cell, and only `None`
      and the empty text are false, so the cell text `"0"` appends the
      condition as well; the server reads the quoted text as the integer. */
  function ContextSlot(id: Option<string>, c: Column): seq<Slot> {
    if TruthyText(id) then [Required(c, EqualsText)] else []
  }

  function ContextParam(id: Option<string>): seq<Param> {
    if TruthyText(id) then [Some(Str(id.value))] else []
  }

  lemma ContextPart(id: Option<string>, c: Column, row: Row)
    ensures |ContextParam(id)| == TotalArity(ContextSlot(id, c))
    ensures Keeps(ContextSlot(id, c), ContextParam(id), row) <==> (TruthyText(id) ==> ShowsId(Get(row, c), id.value))
  {
    if TruthyText(id) {
      KeepsOne(Required(c, EqualsText), [Some(Str(id.value))], row);
    }
  }

  /** A window opened from a row of the client or deposit table, whatever
      the id, `0` included: the condition is appended, it keeps exactly the
      rows of that id, and a deposit may be added for it. */
  lemma CellContext(k: int, c: Column, row: Row)
    ensures ContextSlot(Some(IdText(k)), c) == [Required(c, EqualsText)]
    ensures ContextParam(Some(IdText(k))) == [Some(Str(IdText(k)))]
    ensures Keeps(ContextSlot(Some(IdText(k)), c), ContextParam(Some(IdText(k))), row) <==> Get(row, c) == Some(Int(k))
    ensures AddDepositRecord(Some(IdText(k))) == Some(IdText(k))
  {
    ContextPart(Some(IdText(k)), c, row);
    CompareIdText(k, Get(row, c));
  }

  // ---- The deposits window ----

  const AllTypes: Chunk := "Все типы"
  const AllStatuses: Chunk := "Все статусы"

  function DepositsQuery(clientId: Option<string>): Query {
    Query("SELECT ..." + " FROM Deposit d",
      [Sentinel(DepositType, Equal, AllTypes), Sentinel(DepositStatus, Equal, AllStatuses), Between(Amount)]
      + ContextSlot(clientId, ClientId),
      [DescKey(OpenDate)], "")
  }

  /** `[type, type, status, status, from, to]`, then the client id when set. */
  function DepositsParams(depositType: string, status: string, from: real, to: real, clientId: Option<string>): seq<Param> {
    [Some(Str(depositType)), Some(Str(depositType)), Some(Str(status)), Some(Str(status)),
     Some(Num(from)), Some(Num(to))] + ContextParam(clientId)
  }

  predicate DepositMatch(depositType: string, status: string, from: real, to: real, clientId: Option<string>, j: Row) {
    (depositType == AllTypes || Get(j, DepositType) == Some(Str(depositType)))
    && (status == AllStatuses || Get(j, DepositStatus) == Some(Str(status)))
    && Get(j, Amount).Some? && Get(j, Amount).value.Num? && from <= Get(j, Amount).value.r <= to
    && (TruthyText(clientId) ==> ShowsId(Get(j, ClientId), clientId.value))
  }

  /** Three fixed slots on their six values. */
  lemma FixedThree(s0: Slot, s1: Slot, s2: Slot, p: seq<Param>, row: Row)
    requires Arity(s0) == 2 && Arity(s1) == 2 && Arity(s2) == 2 && |p| == 6
    ensures |p| == TotalArity([s0, s1, s2])
    ensures Keeps([s0, s1, s2], p, row) <==>
      EvalSlot(s0, p[..2], row) == True && EvalSlot(s1, p[2..4], row) == True && EvalSlot(s2, p[4..], row) == True
  {
    KeepsOne(s0, p[..2], row);
    KeepsOne(s1, p[2..4], row);
    KeepsOne(s2, p[4..], row);
    KeepsConcat([s1], [s2], p[2..4], p[4..], row);
    assert [s1] + [s2] == [s1, s2] && p[2..4] + p[4..] == p[2..];
    KeepsConcat([s0], [s1, s2], p[..2], p[2..], row);
    assert [s0] + [s1, s2] == [s0, s1, s2] && p[..2] + p[2..] == p;
  }

  /** Any type, status, amount range and client context: one parameter per
      placeholder, and the rows kept are exactly the matching deposits. */
  lemma DepositsMeaning(depositType: string, status: string, from: real, to: real, clientId: Option<string>, j: Row)
    ensures var q := DepositsQuery(clientId);
      var p := DepositsParams(depositType, status, from, to, clientId);
      |p| == TotalArity(q.slots) && Placeholders(QueryText(q)) == Some(|p|)
      && (Keeps(q.slots, p, j) <==> DepositMatch(depositType, status, from, to, clientId, j))
  {
    var q := DepositsQuery(clientId);
    var fixed := [Sentinel(DepositType, Equal, AllTypes), Sentinel(DepositStatus, Equal, AllStatuses), Between(Amount)];
    var p := [Some(Str(depositType)), Some(Str(depositType)), Some(Str(status)), Some(Str(status)),
     Some(Num(from)), Some(Num(to))];
    FixedThree(fixed[0], fixed[1], fixed[2], p, j);
    assert p[..2] == [Some(Str(depositType)), Some(Str(depositType))];
    assert p[2..4] == [Some(Str(status)), Some(Str(status))];
    assert p[4..] == [Some(Num(from)), Some(Num(to))];
    SentinelMeaning(DepositType, Equal, AllTypes, depositType, j);
    SentinelMeaning(DepositStatus, Equal, AllStatuses, status, j);
    BetweenMeaning(Amount, from, to, j);
    ContextPart(clientId, ClientId, j);
    KeepsConcat(fixed, ContextSlot(clientId, ClientId), p, ContextParam(clientId), j);
    TextCount(q);
  }

  /** `add_record`: no dialog unless the window was opened for a client;
      the inserted deposit carries the client's id text. */
  function AddDepositRecord(clientId: Option<string>): (r: Option<string>)
    ensures r.Some? <==> TruthyText(clientId)
    ensures r.Some? ==> clientId == r
  {
    if TruthyText(clientId) then clientId else None
  }

  // ---- The documents window ----

  const NoPassport: Chunk := ""

  function DocumentsQuery(clientId: Option<string>): Query {
    Query("SELECT ..." + " FROM Document d" + " JOIN ...",
      [Sentinel(PassportNumber, LikePlain, NoPassport), Sentinel(AgreementStatus, Equal, AllStatuses)]
      + ContextSlot(clientId, ClientId),
      [DescKey(AgreementDate)], "")
  }

  /** A search pattern: `"%text%"` for typed text, `''` otherwise. */
  function PatternOrEmpty(text: string): (r: string)
    ensures r == "" <==> text == ""
  {
    if text != "" then Wrap(text) else ""
  }

  function DocumentsParams(passportText: string, status: string, clientId: Option<string>): seq<Param> {
    var p := PatternOrEmpty(passportText);
    [Some(Str(p)), Some(Str(p)), Some(Str(status)), Some(Str(status))] + ContextParam(clientId)
  }

  predicate DocumentMatch(passportText: string, status: string, clientId: Option<string>, j: Row) {
    (passportText == "" || TextMatch(Some(passportText), Get(j, PassportNumber), false))
    && (status == AllStatuses || Get(j, AgreementStatus) == Some(Str(status)))
    && (TruthyText(clientId) ==> ShowsId(Get(j, ClientId), clientId.value))
  }

  lemma FixedTwo(s0: Slot, s1: Slot, p: seq<Param>, row: Row)
    requires Arity(s0) == 2 && Arity(s1) == 2 && |p| == 4
    ensures |p| == TotalArity([s0, s1])
    ensures Keeps([s0, s1], p, row) <==> EvalSlot(s0, p[..2], row) == True && EvalSlot(s1, p[2..], row) == True
  {
    KeepsOne(s0, p[..2], row);
    KeepsOne(s1, p[2..], row);
    KeepsConcat([s0], [s1], p[..2], p[2..], row);
    assert [s0] + [s1] == [s0, s1] && p[..2] + p[2..] == p;
  }

  /** An empty passport field disables that filter; typed text must occur
      in the passport number as typed. */
  lemma DocumentsMeaning(passportText: string, status: string, clientId: Option<string>, j: Row)
    requires NoWild(passportText)
    ensures var q := DocumentsQuery(clientId);
      var p := DocumentsParams(passportText, status, clientId);
      |p| == TotalArity(q.slots) && Placeholders(QueryText(q)) == Some(|p|)
      && (Keeps(q.slots, p, j) <==> DocumentMatch(passportText, status, clientId, j))
  {
    var q := DocumentsQuery(clientId);
    var fixed := [Sentinel(PassportNumber, LikePlain, NoPassport), Sentinel(AgreementStatus, Equal, AllStatuses)];
    var pp := PatternOrEmpty(passportText);
    var p := [Some(Str(pp)), Some(Str(pp)), Some(Str(status)), Some(Str(status))];
    FixedTwo(fixed[0], fixed[1], p, j);
    assert p[..2] == [Some(Str(pp)), Some(Str(pp))] && p[2..] == [Some(Str(status)), Some(Str(status))];
    SentinelMeaning(PassportNumber, LikePlain, NoPassport, pp, j);
    SentinelMeaning(AgreementStatus, Equal, AllStatuses, status, j);
    if passportText != "" {
      LikeSlotMeaning(PassportNumber, Some(passportText), j);
    }
    ContextPart(clientId, ClientId, j);
    KeepsConcat(fixed, ContextSlot(clientId, ClientId), p, ContextParam(clientId), j);
    TextCount(q);
  }

  // ---- The transactions window ----

  const AllOperations: Chunk := "Все операции"

  function TransactionsQuery(depositId: Option<string>): Query {
    Query("SELECT ..." + " FROM Transaction t" + " JOIN ...",
      [Sentinel(TxType, Equal, AllOperations), Between(Amount)] + ContextSlot(depositId, DepositId),
      [DescKey(TxDate)], "")
  }

  function TransactionsParams(txType: string, from: real, to: real, depositId: Option<string>): seq<Param> {
    [Some(Str(txType)), Some(Str(txType)), Some(Num(from)), Some(Num(to))] + ContextParam(depositId)
  }

  predicate TransactionMatch(txType: string, from: real, to: real, depositId: Option<string>, j: Row) {
    (txType == AllOperations || Get(j, TxType) == Some(Str(txType)))
    && Get(j, Amount).Some? && Get(j, Amount).value.Num? && from <= Get(j, Amount).value.r <= to
    && (TruthyText(depositId) ==> ShowsId(Get(j, DepositId), depositId.value))
  }

  lemma TransactionsMeaning(txType: string, from: real, to: real, depositId: Option<string>, j: Row)
    ensures var q := TransactionsQuery(depositId);
      var p := TransactionsParams(txType, from, to, depositId);
      |p| == TotalArity(q.slots) && Placeholders(QueryText(q)) == Some(|p|)
      && (Keeps(q.slots, p, j) <==> TransactionMatch(txType, from, to, depositId, j))
  {
    var q := TransactionsQuery(depositId);
    var fixed := [Sentinel(TxType, Equal, AllOperations), Between(Amount)];
    var p := [Some(Str(txType)), Some(Str(txType)), Some(Num(from)), Some(Num(to))];
    FixedTwo(fixed[0], fixed[1], p, j);
    assert p[..2] == [Some(Str(txType)), Some(Str(txType))] && p[2..] == [Some(Num(from)), Some(Num(to))];
    SentinelMeaning(TxType, Equal, AllOperations, txType, j);
    BetweenMeaning(Amount, from, to, j);
    ContextPart(depositId, DepositId, j);
    KeepsConcat(fixed, ContextSlot(depositId, DepositId), p, ContextParam(depositId), j);
    TextCount(q);
  }

  // ---- The reports window ----

  const NoName: Chunk := ""

  const ReportsQuery := Query("SELECT ..." + " FROM Report r" + " JOIN ...",
    [Sentinel(EmployeeLastName, LikeLower, NoName), Sentinel(ClientLastName, LikeLower, NoName)],
    [DescKey(CreationDate)], "")

  /** Each name filter binds its pattern (or `''`) and then the raw text,
      which the query tests against `''`. The employee id the window was
      opened with plays no part. */
  function ReportsParams(employeeId: Option<int>, employeeText: string, clientText: string): (r: seq<Param>)
    ensures |r| == 4
    ensures r[1] == Some(Str(employeeText)) && r[3] == Some(Str(clientText))
  {
    [Some(Str(PatternOrEmpty(employeeText))), Some(Str(employeeText)),
     Some(Str(PatternOrEmpty(clientText))), Some(Str(clientText))]
  }

  /** A report is listed when each non-empty name field occurs, ignoring
      case, in the employee's and in the client's last name. */
  predicate ReportMatch(employeeText: string, clientText: string, j: Row) {
    (employeeText == "" || TextMatch(Some(employeeText), Get(j, EmployeeLastName), true))
    && (clientText == "" || TextMatch(Some(clientText), Get(j, ClientLastName), true))
  }

  /** A name slot bound to (pattern, raw text). */
  lemma NameSlotMeaning(c: Column, text: string, row: Row)
    requires NoWild(text)
    ensures EvalSlot(Sentinel(c, LikeLower, NoName), [Some(Str(PatternOrEmpty(text))), Some(Str(text))], row) == True
        <==> text == "" || TextMatch(Some(text), Get(row, c), true)
  {
    if text != "" {
      LikeSlotMeaning(c, Some(text), row);
    }
  }

  lemma ReportsMeaning(employeeId: Option<int>, employeeText: string, clientText: string, j: Row)
    requires NoWild(employeeText) && NoWild(clientText)
    ensures var p := ReportsParams(employeeId, employeeText, clientText);
      |p| == TotalArity(ReportsQuery.slots) && Placeholders(QueryText(ReportsQuery)) == Some(|p|)
      && (Keeps(ReportsQuery.slots, p, j) <==> ReportMatch(employeeText, clientText, j))
  {
    var p := ReportsParams(employeeId, employeeText, clientText);
    FixedTwo(Sentinel(EmployeeLastName, LikeLower, NoName), Sentinel(ClientLastName, LikeLower, NoName), p, j);
    assert p[..2] == [Some(Str(PatternOrEmpty(employeeText))), Some(Str(employeeText))];
    assert p[2..] == [Some(Str(PatternOrEmpty(clientText))), Some(Str(clientText))];
    NameSlotMeaning(EmployeeLastName, employeeText, j);
    NameSlotMeaning(ClientLastName, clientText, j);
    TextCount(ReportsQuery);
  }

  /** The window lists the same reports whichever employee it was opened for. */
  lemma ReportsIgnoreEmployee(a: Option<int>, b: Option<int>, employeeText: string, clientText: string)
    ensures ReportsParams(a, employeeText, clientText) == ReportsParams(b, employeeText, clientText)
  {
  }
}
