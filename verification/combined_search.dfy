/** The combined search over sales and emissions: a trade branch listing
    sales, an issuance branch listing emissions that no matching sale
    covers, joined by `UNION ALL` and sorted by result type, emission date
    and sale date. The tables are modelled as lists of records and the
    joins as lookups by primary key; a lookup that finds nothing leaves the
    joined columns NULL, as a `LEFT JOIN` does. */
module CombinedSearch {
  import opened Wrappers
  import opened Text
  import opened Dates
  import opened Sql
  import opened Slots
  import opened Ordering
  import opened Queries

  datatype Entity = Entity(id: int, name: string, inn: string)
  datatype Investor = Investor(id: int, entityId: int)
  datatype Emitter = Emitter(id: int, entityId: int)
  datatype Registrar = Registrar(id: int, entityId: int)
  datatype Emission = Emission(id: int, emitterId: int, registrarId: int, registered: ValidDate)
  datatype Stock = Stock(id: int, ticket: string, emissionId: int)
  datatype Sale = Sale(id: int, investorId: int, stockId: int, date: ValidDate)

  datatype Db = Db(
    entities: seq<Entity>, investors: seq<Investor>, emitters: seq<Emitter>,
    registrars: seq<Registrar>, emissions: seq<Emission>, stocks: seq<Stock>,
    sales: seq<Sale>)

  function EntityKey(x: Entity): int { x.id }
  function InvestorKey(x: Investor): int { x.id }
  function EmitterKey(x: Emitter): int { x.id }
  function RegistrarKey(x: Registrar): int { x.id }
  function EmissionKey(x: Emission): int { x.id }
  function StockKey(x: Stock): int { x.id }

  /** The record a join condition `key = id` finds, if any. */
  function Find<T>(xs: seq<T>, key: T -> int, id: int): (r: Option<T>)
    ensures r.Some? ==> r.value in xs && key(r.value) == id
  {
    if |xs| == 0 then None
    else if key(xs[0]) == id then Some(xs[0])
    else
      assert forall i :: 1 <= i < |xs| ==> xs[i] == xs[1..][i - 1];
      Find(xs[1..], key, id)
  }

  /** A join finds nothing exactly when no record carries the key. */
  lemma {:induction false} FindNone<T>(xs: seq<T>, key: T -> int, id: int)
    ensures Find(xs, key, id).None? <==> forall i :: 0 <= i < |xs| ==> key(xs[i]) != id
  {
    if |xs| > 0 && key(xs[0]) != id {
      FindNone(xs[1..], key, id);
      assert forall i :: 1 <= i < |xs| ==> xs[i] == xs[1..][i - 1];
    }
  }

  /** A row holding `f(c)` in each column `c` of `cols`, all else NULL. */
  function Materialize(cols: set<Column>, f: Column -> Param): (r: Row)
    ensures forall c :: Get(r, c) == if c in cols then f(c) else None
  {
    map c | c in cols && f(c).Some? :: f(c).value
  }

  /** One column holding `v`, or no column when `v` is NULL. */
  function Entry(c: Column, v: Param): (r: Row)
    ensures Get(r, c) == v && forall d :: d != c ==> d !in r
  {
    if v.Some? then map[c := v.value] else map[]
  }

  function NameOf(e: Option<Entity>): Param {
    if e.Some? then Some(Str(e.value.name)) else None
  }

  function InnOf(e: Option<Entity>): Param {
    if e.Some? then Some(Str(e.value.inn)) else None
  }

  function EntityOf(db: Db, entityId: Option<int>): Option<Entity> {
    if entityId.Some? then Find(db.entities, EntityKey, entityId.value) else None
  }

  /** An emission's emitter and registrar entities, each through two
      `LEFT JOIN`s. */
  function EmitterEntity(db: Db, e: Emission): Option<Entity> {
    var emt := Find(db.emitters, EmitterKey, e.emitterId);
    EntityOf(db, if emt.Some? then Some(emt.value.entityId) else None)
  }

  function RegistrarEntity(db: Db, e: Emission): Option<Entity> {
    var reg := Find(db.registrars, RegistrarKey, e.registrarId);
    EntityOf(db, if reg.Some? then Some(reg.value.entityId) else None)
  }

  /** A sale's investor entity, through two `LEFT JOIN`s. */
  function InvestorEntity(db: Db, s: Sale): Option<Entity> {
    var inv := Find(db.investors, InvestorKey, s.investorId);
    EntityOf(db, if inv.Some? then Some(inv.value.entityId) else None)
  }

  /** An emission's own columns: emitter and registrar names and the
      registration date. */
  function Parties(emitter: Param, registrar: Param, registered: ValidDate): Row {
    map[DateRegister := Day(registered)] + Entry(EmitterName, emitter) + Entry(RegistrarName, registrar)
  }

  function EmissionParties(db: Db, e: Emission): Row {
    Parties(NameOf(EmitterEntity(db, e)), NameOf(RegistrarEntity(db, e)), e.registered)
  }

  /** The joined row of the issuance branch for one emission. */
  function EmissionJoin(db: Db, e: Emission): Row {
    EmissionParties(db, e)[RowId := Int(e.id)]
  }

  lemma IssueDated(db: Db, e: Emission)
    ensures Get(EmissionJoin(db, e), DateRegister) == Some(Day(e.registered))
  {
  }

  /** The stock of a sale, and that stock's emission. */
  function StockOf(db: Db, s: Sale): Option<Stock> {
    Find(db.stocks, StockKey, s.stockId)
  }

  function EmissionOf(db: Db, s: Sale): Option<Emission> {
    var st := StockOf(db, s);
    if st.Some? then Find(db.emissions, EmissionKey, st.value.emissionId) else None
  }

  function TicketOf(st: Option<Stock>): Param {
    if st.Some? then Some(Str(st.value.ticket)) else None
  }

  /** The joined row of the trade branch for one sale: its investor, its
      stock, and through the stock its emission with emitter and registrar,
      every link a `LEFT JOIN`. */
  function TradeJoin(db: Db, s: Sale): Row {
    var e := EmissionOf(db, s);
    var parties: Row := if e.Some? then EmissionParties(db, e.value) else map[];
    var investor := InvestorEntity(db, s);
    parties[RowId := Int(s.id)][SaleDate := Day(s.date)]
      + Entry(InvestorName, NameOf(investor)) + Entry(InvestorInn, InnOf(investor))
      + Entry(Ticket, TicketOf(StockOf(db, s)))
  }

  lemma TradeDated(db: Db, s: Sale)
    ensures Get(TradeJoin(db, s), SaleDate) == Some(Day(s.date))
  {
  }

  /** The row the `NOT EXISTS` subquery sees for one sale: there the stock,
      the investor and the investor's entity are inner joins, so a sale
      missing any of them contributes nothing. */
  function SubJoin(db: Db, s: Sale): (r: Option<Row>)
    ensures r.Some? <==> StockOf(db, s).Some? && InvestorEntity(db, s).Some?
    ensures r.Some? ==> Get(r.value, EmissionId) == Some(Int(StockOf(db, s).value.emissionId))
  {
    var st := StockOf(db, s);
    var le := InvestorEntity(db, s);
    if st.None? || le.None? then None
    else
      Some(map[InvestorName := Str(le.value.name), InvestorInn := Str(le.value.inn),
               Ticket := Str(st.value.ticket), SaleDate := Day(s.date),
               EmissionId := Int(st.value.emissionId)])
  }

  /** `date::text`: a date column as `YYYY-MM-DD` text. */
  function AsText(p: Param): (r: Param)
    ensures r.None? <==> p.None?
  {
    match p
    case Some(Day(d)) => if Valid(d) then Some(Str(IsoText(d))) else p
    case _ => p
  }

  const TradeKind: string := "Сделка"
  const IssueKind: string := "Эмиссия"

  const OutputColumns: set<Column> :=
    {ResultType, RowId, InvestorName, InvestorInn, Ticket, SaleDate, EmitterName, RegistrarName, EmissionDate}

  function OutputCol(kind: string, j: Row, c: Column): Param {
    match c
    case ResultType => Some(Str(kind))
    case SaleDate => AsText(Get(j, SaleDate))
    case EmissionDate => AsText(Get(j, DateRegister))
    case _ => Get(j, c)
  }

  /** The nine output columns of either branch: result type, id, investor
      name and INN, ticker, sale date text, emitter and registrar names,
      emission date text. */
  function Output(kind: string, j: Row): (r: Row)
    ensures Get(r, ResultType) == Some(Str(kind))
  {
    Materialize(OutputColumns, c => OutputCol(kind, j, c))
  }

  /** `SELECT DISTINCT`: each row once. */
  function Distinct(rows: seq<Row>): (r: seq<Row>)
    ensures forall x :: x in r <==> x in rows
    ensures forall i, j :: 0 <= i < j < |r| ==> r[i] != r[j]
  {
    if |rows| == 0 then []
    else
      var rest := Distinct(rows[1..]);
      assert forall x :: x in rows <==> x == rows[0] || x in rows[1..];
      if rows[0] in rest then rest
      else
        assert forall j :: 0 < j < |[rows[0]] + rest| ==> ([rows[0]] + rest)[j] in rest;
        [rows[0]] + rest
  }

  // ---- The two branches, for any slot lists ----

  /** The records `keep` accepts, in order. */
  function KeepIf<T(!new)>(keep: T -> bool, xs: seq<T>): (r: seq<T>)
    ensures forall x :: x in r <==> x in xs && keep(x)
  {
    if |xs| == 0 then []
    else
      assert forall x :: x in xs <==> x == xs[0] || x in xs[1..];
      (if keep(xs[0]) then [xs[0]] else []) + KeepIf(keep, xs[1..])
  }

  /** One output row per record. */
  function RowsOf<T(!new)>(row: T -> Row, xs: seq<T>): (r: seq<Row>)
    ensures forall x :: x in r <==> exists t :: t in xs && x == row(t)
  {
    if |xs| == 0 then []
    else
      assert forall t :: t in xs <==> t == xs[0] || t in xs[1..];
      [row(xs[0])] + RowsOf(row, xs[1..])
  }

  function TradeRow(db: Db, s: Sale): Row {
    Output(TradeKind, TradeJoin(db, s))
  }

  /** The trade branch: one row for each sale whose joined row the WHERE
      clause keeps. */
  /** `x` is the output row of a sale whose joined row `ss` keeps. */
  predicate TradeListed(db: Db, ss: seq<Slot>, p: seq<Param>, x: Row)
    requires |p| == TotalArity(ss)
  {
    exists s :: s in db.sales && Keeps(ss, p, TradeJoin(db, s)) && x == TradeRow(db, s)
  }

  function Trades(db: Db, ss: seq<Slot>, p: seq<Param>): (r: seq<Row>)
    requires |p| == TotalArity(ss)
    ensures forall x :: x in r <==> TradeListed(db, ss, p, x)
    ensures forall i, j :: 0 <= i < j < |r| ==> r[i] != r[j]
  {
    var kept := KeepIf((s: Sale) => Keeps(ss, p, TradeJoin(db, s)), db.sales);
    Distinct(RowsOf((s: Sale) => TradeRow(db, s), kept))
  }

  /** The correlation `s_sub.emission_id = ems.emission_id`. */
  predicate Linked(r: Row, e: Emission) {
    Compare(Equal, Get(r, EmissionId), Some(Int(e.id))) == True
  }

  /** `NOT EXISTS (...)` fails: some sale of a stock of the emission, with
      its investor's entity found, passes the subquery's slots. */
  predicate Suppressed(db: Db, e: Emission, sub: seq<Slot>, q: seq<Param>)
    requires |q| == TotalArity(sub)
  {
    exists s :: s in db.sales && SubJoin(db, s).Some?
      && Linked(SubJoin(db, s).value, e) && Keeps(sub, q, SubJoin(db, s).value)
  }

  /** The issuance branch's WHERE clause for one emission. */
  predicate IssueKeeps(db: Db, e: Emission, ss: seq<Slot>, sub: seq<Slot>, p: seq<Param>, q: seq<Param>)
    requires |p| == TotalArity(ss) && |q| == TotalArity(sub)
  {
    Keeps(ss, p, EmissionJoin(db, e)) && !Suppressed(db, e, sub, q)
  }

  function IssueRow(db: Db, e: Emission): Row {
    Output(IssueKind, EmissionJoin(db, e))
  }

  /** The issuance branch: one row for each emission that its WHERE clause
      keeps and no sale suppresses. */
  /** `x` is the output row of an emission the issuance branch keeps. */
  predicate IssueListed(db: Db, ss: seq<Slot>, sub: seq<Slot>, p: seq<Param>, q: seq<Param>, x: Row)
    requires |p| == TotalArity(ss) && |q| == TotalArity(sub)
  {
    exists e :: e in db.emissions && IssueKeeps(db, e, ss, sub, p, q) && x == IssueRow(db, e)
  }

  function Issuances(db: Db, ss: seq<Slot>, sub: seq<Slot>, p: seq<Param>, q: seq<Param>): (r: seq<Row>)
    requires |p| == TotalArity(ss) && |q| == TotalArity(sub)
    ensures forall x :: x in r <==> IssueListed(db, ss, sub, p, q, x)
    ensures forall i, j :: 0 <= i < j < |r| ==> r[i] != r[j]
  {
    var kept := KeepIf((e: Emission) => IssueKeeps(db, e, ss, sub, p, q), db.emissions);
    Distinct(RowsOf((e: Emission) => IssueRow(db, e), kept))
  }

  // ---- The statement ----

  /** A statement of the combined search's shape: the trade branch's head
      and slots, the issuance branch's head and slots, the subquery's head
      (ending in its correlation) and slots, and the sort keys. */
  datatype Statement = Statement(
    tradeHead: Chunk, tradeSlots: seq<Slot>,
    issueHead: Chunk, issueSlots: seq<Slot>,
    subHead: Chunk, subSlots: seq<Slot>,
    order: seq<Key>)
  {
    /** The parameters each part consumes, in text order. */
    function TradeWidth(): nat { TotalArity(tradeSlots) }
    function IssueWidth(): nat { TotalArity(issueSlots) }
    function Width(): nat { TotalArity(tradeSlots) + TotalArity(issueSlots) + TotalArity(subSlots) }
  }

  /** A `SELECT` head followed by its WHERE clause. */
  function Branch(head: Chunk, ss: seq<Slot>): seq<Piece> {
    [Lit(head)] + Where(ss)
  }

  lemma BranchCount(head: Chunk, ss: seq<Slot>)
    ensures Holes(Branch(head, ss)) == TotalArity(ss)
  {
    WhereCount(ss);
    HolesConcat([Lit(head)], Where(ss));
    assert Holes([Lit(head)]) == 0 by {
      assert [Lit(head)][1..] == [];
    }
  }

  /** The subquery: its head, then each slot introduced by `AND`. */
  function SubQuery(head: Chunk, ss: seq<Slot>): seq<Piece> {
    [Lit(head)] + AndChain(ss)
  }

  lemma SubQueryCount(head: Chunk, ss: seq<Slot>)
    ensures Holes(SubQuery(head, ss)) == TotalArity(ss)
  {
    AndChainCount(ss);
    HolesConcat([Lit(head)], AndChain(ss));
    assert Holes([Lit(head)]) == 0 by {
      assert [Lit(head)][1..] == [];
    }
  }

  /** The subquery's closing parenthesis and the sort keys. */
  function Tail(order: seq<Key>): Chunk {
    ")" + OrderSql(order)
  }

  function Pieces(st: Statement): seq<Piece> {
    Branch(st.tradeHead, st.tradeSlots) + Branch(st.issueHead, st.issueSlots)
      + SubQuery(st.subHead, st.subSlots) + [Lit(Tail(st.order))]
  }

  function StatementText(st: Statement): string {
    Flatten(Pieces(st))
  }

  lemma HolesJoined(a: seq<Piece>, b: seq<Piece>, c: seq<Piece>, t: Chunk)
    ensures Holes(a + b + c + [Lit(t)]) == Holes(a) + Holes(b) + Holes(c)
  {
    assert Holes([Lit(t)]) == 0 by {
      assert [Lit(t)][1..] == [];
    }
    HolesConcat(a, b);
    HolesConcat(a + b, c);
    HolesConcat(a + b + c, [Lit(t)]);
  }

  /** The text holds one placeholder per parameter the three slot lists
      consume. */
  lemma PiecesCount(st: Statement)
    ensures Holes(Pieces(st)) == st.Width()
  {
    var a, b, c := Branch(st.tradeHead, st.tradeSlots), Branch(st.issueHead, st.issueSlots), SubQuery(st.subHead, st.subSlots);
    BranchCount(st.tradeHead, st.tradeSlots);
    BranchCount(st.issueHead, st.issueSlots);
    SubQueryCount(st.subHead, st.subSlots);
    HolesJoined(a, b, c, Tail(st.order));
  }

  lemma TextCount(st: Statement)
    ensures Placeholders(StatementText(st)) == Some(st.Width())
  {
    PiecesCount(st);
    FlattenCount(Pieces(st));
  }

  /** `UNION ALL`: the trade rows for the first parameters, then the
      issuance rows for the next ones with the subquery's last ones. */
  function Union(st: Statement, db: Db, params: seq<Param>): seq<Row>
    requires |params| == st.Width()
  {
    var a, b := st.TradeWidth(), st.TradeWidth() + st.IssueWidth();
    Trades(db, st.tradeSlots, params[..a]) + Issuances(db, st.issueSlots, st.subSlots, params[a..b], params[b..])
  }

  /** Running the statement: psycopg2 refuses a tuple of the wrong length
      (a statement without placeholders would take any tuple and ignore
      it); otherwise the union of both branches in `ORDER BY` order. */
  function Execute(st: Statement, db: Db, params: seq<Param>): (r: Result<seq<Row>>)
    ensures r.Ok? <==> Accepts(st.Width(), |params|)
    ensures r.Ok? ==> Sorted(st.order, r.value)
    ensures r.Ok? && |params| == st.Width() ==> multiset(r.value) == multiset(Union(st, db, params))
    ensures r.Ok? && st.Width() == 0 ==> multiset(r.value) == multiset(Union(st, db, []))
  {
    if !Accepts(st.Width(), |params|) then Err(Miscount(st.Width(), |params|))
    else Ok(Sort(st.order, Union(st, db, if st.Width() == 0 then [] else params)))
  }

  /** Execute refuses a tuple exactly as psycopg2 does for the statement's
      text, with its message. */
  lemma ExecuteAsBound(st: Statement, db: Db, params: seq<Param>)
    ensures Execute(st, db, params).Ok? <==> Bind(StatementText(st), params).Ok?
    ensures Execute(st, db, params).Err? ==> Bind(StatementText(st), params) == Err(Execute(st, db, params).message)
  {
    TextCount(st);
  }

  /** The union holds exactly the trade rows of the sales the trade branch
      keeps and the issuance rows of the emissions the issuance branch
      keeps. */
  lemma UnionMembers(st: Statement, db: Db, params: seq<Param>, x: Row)
    requires |params| == st.Width()
    ensures x in Union(st, db, params) <==>
      TradeListed(db, st.tradeSlots, params[..st.TradeWidth()], x)
      || IssueListed(db, st.issueSlots, st.subSlots,
           params[st.TradeWidth()..st.TradeWidth() + st.IssueWidth()], params[st.TradeWidth() + st.IssueWidth()..], x)
  {
    var a, b := st.TradeWidth(), st.TradeWidth() + st.IssueWidth();
    var t := Trades(db, st.tradeSlots, params[..a]);
    var i := Issuances(db, st.issueSlots, st.subSlots, params[a..b], params[b..]);
    assert x in t <==> TradeListed(db, st.tradeSlots, params[..a], x);
    assert x in i <==> IssueListed(db, st.issueSlots, st.subSlots, params[a..b], params[b..], x);
  }

  /** A successful run returns the union's rows, each as often as the
      union holds it. */
  lemma ExecuteRows(st: Statement, db: Db, params: seq<Param>, x: Row)
    requires |params| == st.Width()
    ensures Execute(st, db, params).Ok?
    ensures x in Execute(st, db, params).value <==> x in Union(st, db, params)
  {
    var r := Execute(st, db, params).value;
    assert x in r <==> x in multiset(r);
  }

  /** When the trade slots keep exactly the rows `keep` accepts, the trade
      branch lists exactly the sales whose joined row `keep` accepts. */
  lemma TradeListedBy(db: Db, ss: seq<Slot>, p: seq<Param>, keep: Row -> bool, x: Row)
    requires |p| == TotalArity(ss)
    requires forall j :: Keeps(ss, p, j) <==> keep(j)
    ensures TradeListed(db, ss, p, x) <==> exists s :: s in db.sales && keep(TradeJoin(db, s)) && x == TradeRow(db, s)
  {
  }

  // ---- The combined search ----

  /** Seven criteria against the sale's joined columns. */
  const TradeSlots: seq<Slot> := [
    Optional(InvestorName, LikeLower), Optional(InvestorInn, LikePlain),
    Optional(RegistrarName, LikeLower), Optional(EmitterName, LikeLower),
    Optional(Ticket, LikeLower),
    Optional(SaleDate, AtLeast), Optional(SaleDate, AtMost)]

  /** The investor, INN and ticker criteria appear only as `%s IS NULL`;
      the dates bound the registration date. */
  const IssueSlots: seq<Slot> := [
    NullOnly(InvestorName), NullOnly(InvestorInn),
    Optional(RegistrarName, LikeLower), Optional(EmitterName, LikeLower),
    NullOnly(Ticket),
    Optional(DateRegister, AtLeast), Optional(DateRegister, AtMost)]

  /** The criteria the `NOT EXISTS` subquery re-applies to a sale. */
  const SubSlots: seq<Slot> := [
    Optional(InvestorName, LikeLower), Optional(InvestorInn, LikePlain),
    Optional(Ticket, LikeLower),
    Optional(SaleDate, AtLeast), Optional(SaleDate, AtMost)]

  const AllSlots: seq<Slot> := TradeSlots + IssueSlots + SubSlots

  /** `ORDER BY result_type, emission_date DESC NULLS LAST, sale_date DESC
      NULLS LAST`, on the output columns. */
  const SearchOrder: seq<Key> := [
    Key(ResultType, Asc, NullsLast), Key(EmissionDate, Desc, NullsLast), Key(SaleDate, Desc, NullsLast)]

  /** The SELECT lists and joins are taken as given, as for the list
      queries; only their lack of `%` matters to the placeholder count. */
  const TradeHead: Chunk := "SELECT DISTINCT" + " ... FROM sells"
  const IssueHead: Chunk := " UNION ALL" + " SELECT DISTINCT" + " ... FROM emissions"
  const SubHead: Chunk := " AND NOT EXISTS" + " (SELECT 1 ..." + " WHERE s_sub" + ".emission_id = " + "ems.emission_id"

  const Combined := Statement(TradeHead, TradeSlots, IssueHead, IssueSlots, SubHead, SubSlots, SearchOrder)

  lemma Arities()
    ensures TotalArity(TradeSlots) == 14
    ensures TotalArity(IssueSlots) == 11
    ensures TotalArity(SubSlots) == 10
    ensures TotalArity(AllSlots) == 35
    ensures Combined.TradeWidth() == 14 && Combined.IssueWidth() == 11 && Combined.Width() == 35
  {
    Arity7(Optional(InvestorName, LikeLower), Optional(InvestorInn, LikePlain),
      Optional(RegistrarName, LikeLower), Optional(EmitterName, LikeLower),
      Optional(Ticket, LikeLower), Optional(SaleDate, AtLeast), Optional(SaleDate, AtMost));
    Arity7(NullOnly(InvestorName), NullOnly(InvestorInn),
      Optional(RegistrarName, LikeLower), Optional(EmitterName, LikeLower),
      NullOnly(Ticket), Optional(DateRegister, AtLeast), Optional(DateRegister, AtMost));
    Arity5(Optional(InvestorName, LikeLower), Optional(InvestorInn, LikePlain),
      Optional(Ticket, LikeLower), Optional(SaleDate, AtLeast), Optional(SaleDate, AtMost));
    TotalArityConcat(TradeSlots, IssueSlots);
    TotalArityConcat(TradeSlots + IssueSlots, SubSlots);
  }

  /** The combined search's text holds 35 placeholders: 14 in the trade
      branch, 11 in the issuance branch and 10 in the subquery. */
  lemma SearchCount()
    ensures Placeholders(StatementText(Combined)) == Some(35)
  {
    Arities();
    TextCount(Combined);
  }

  /** The search screen's statement, run with its parameter tuple. */
  function Search(db: Db, params: seq<Param>): (r: Result<seq<Row>>)
    ensures r.Ok? <==> |params| == 35
  {
    Arities();
    Execute(Combined, db, params)
  }

  // ---- Order of the result ----

  lemma KindsOrdered()
    ensures StrLess(TradeKind, IssueKind)
  {
  }

  /** Every sale row comes before every emission row. */
  lemma TradesFirst(rows: seq<Row>, i: int, j: int)
    requires Sorted(SearchOrder, rows) && 0 <= i < j < |rows|
    requires Get(rows[j], ResultType) == Some(Str(TradeKind))
    ensures Get(rows[i], ResultType) != Some(Str(IssueKind))
  {
    if Get(rows[i], ResultType) == Some(Str(IssueKind)) {
      KindsOrdered();
      FirstKeyDecides(SearchOrder, rows[j], rows[i]);
      assert false;
    }
  }

  /** Ordering the `YYYY-MM-DD` text descending puts the later date first,
      and two such texts tie only on the same day. */
  lemma DateTextDescending(k: Key, a: ValidDate, b: ValidDate)
    requires k.dir == Desc
    ensures KeyLess(k, AsText(Some(Day(a))), AsText(Some(Day(b)))) <==> Before(b, a)
    ensures AsText(Some(Day(a))) == AsText(Some(Day(b))) <==> a == b
  {
    IsoTextOrder(b, a);
  }

  /** With NULLS LAST a row with a date precedes one without. */
  lemma UndatedLast(k: Key, a: ValidDate)
    requires k.nulls == NullsLast
    ensures KeyLess(k, AsText(Some(Day(a))), None)
    ensures !KeyLess(k, None, AsText(Some(Day(a))))
  {
  }
}
