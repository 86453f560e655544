/** The search screen: seven input fields read into criteria, the tuple of
    35 parameters bound to the combined search, and what the screen shows
    for the result. */
module SearchTab {
  import opened Wrappers
  import opened Text
  import opened Dates
  import opened Sql
  import opened Slots
  import opened Ordering
  import opened Criteria
  import opened CombinedSearch

  /** The five text fields and the two date editors, which always show a
      valid date. */
  datatype SearchForm = SearchForm(
    investorName: string, investorInn: string, registrarName: string,
    emitterName: string, ticker: string, dateStart: ValidDate, dateEnd: ValidDate)

  datatype SearchCriteria = SearchCriteria(
    name: Option<string>, inn: Option<string>, registrar: Option<string>,
    emitter: Option<string>, ticker: Option<string>, from: Option<Date>, to: Option<Date>)

  /** Stripped text fields, blank ones absent; the ticker upper-cased; a
      date only when its editor's `date()` is valid and non-null, which it
      always is. */
  function ReadForm(f: SearchForm): (c: SearchCriteria)
    ensures c.from == Some(f.dateStart) && c.to == Some(f.dateEnd)
  {
    SearchCriteria(
      TextCriterion(f.investorName), TextCriterion(f.investorInn),
      TextCriterion(f.registrarName), TextCriterion(f.emitterName),
      TickerCriterion(f.ticker), FilterDate(EditorValue(f.dateStart)), FilterDate(EditorValue(f.dateEnd)))
  }

  /** The screen as it opens: empty fields; `setDate(QDate())` leaves both
      editors on the day they start at. */
  const Initial := SearchForm("", "", "", "", "", SetDate(EditorStart, NullDate), SetDate(EditorStart, NullDate))

  /** `clear_criteria`: empty text fields, and `setDate(QDate())` on both
      editors, which Qt ignores. */
  function ClearCriteria(f: SearchForm): SearchForm {
    SearchForm("", "", "", "", "", SetDate(f.dateStart, NullDate), SetDate(f.dateEnd, NullDate))
  }

  /** No criterion holds a `LIKE` wildcard. */
  predicate LiteralCriteria(c: SearchCriteria) {
    Literal(c.name) && Literal(c.inn) && Literal(c.registrar) && Literal(c.emitter) && Literal(c.ticker)
  }

  /** The value each placeholder of a slot receives: a text criterion as
      `%text%` for its column, the start date for a lower bound, the end
      date for an upper one. */
  function SlotParam(c: SearchCriteria, s: Slot): Param {
    match s.col
    case InvestorName => LikeParam(c.name)
    case InvestorInn => LikeParam(c.inn)
    case RegistrarName => LikeParam(c.registrar)
    case EmitterName => LikeParam(c.emitter)
    case Ticket => LikeParam(c.ticker)
    case _ => if s.Optional? && s.op == AtMost then DateParam(c.to) else DateParam(c.from)
  }

  function Binder(c: SearchCriteria): Slot -> Param {
    (s: Slot) => SlotParam(c, s)
  }

  /** The tuple as the screen writes it out: 14 parameters for the trade
      branch, 11 for the issuance branch, 10 for the subquery. */
  function SearchTuple(c: SearchCriteria): seq<Param> {
    TradeTuple(c) + IssueTuple(c) + SubTuple(c)
  }

  function TradeTuple(c: SearchCriteria): seq<Param> {
    var n, i, r, e, t := LikeParam(c.name), LikeParam(c.inn), LikeParam(c.registrar), LikeParam(c.emitter), LikeParam(c.ticker);
    var a, b := DateParam(c.from), DateParam(c.to);
    [n, n, i, i, r, r, e, e, t, t, a, a, b, b]
  }

  /** The investor, INN and ticker values once each, for `%s IS NULL`. */
  function IssueTuple(c: SearchCriteria): seq<Param> {
    var n, i, r, e, t := LikeParam(c.name), LikeParam(c.inn), LikeParam(c.registrar), LikeParam(c.emitter), LikeParam(c.ticker);
    var a, b := DateParam(c.from), DateParam(c.to);
    [n, i, r, r, e, e, t, a, a, b, b]
  }

  function SubTuple(c: SearchCriteria): seq<Param> {
    var n, i, t := LikeParam(c.name), LikeParam(c.inn), LikeParam(c.ticker);
    var a, b := DateParam(c.from), DateParam(c.to);
    [n, n, i, i, t, t, a, a, b, b]
  }

  /** Seven slots of which the first two and the fifth take one parameter. */
  lemma BoundIssue(s0: Slot, s1: Slot, s2: Slot, s3: Slot, s4: Slot, s5: Slot, s6: Slot, f: Slot -> Param)
    requires Arity(s0) == Arity(s1) == Arity(s4) == 1
    requires Arity(s2) == Arity(s3) == Arity(s5) == Arity(s6) == 2
    ensures BindSlots([s0, s1, s2, s3, s4, s5, s6], f)
            == [f(s0), f(s1), f(s2), f(s2), f(s3), f(s3), f(s4), f(s5), f(s5), f(s6), f(s6)]
  {
    Bind7(s0, s1, s2, s3, s4, s5, s6, f);
    Bind5(s2, s3, s4, s5, s6, f);
    Bind3(s4, s5, s6, f);
  }

  /** The value the binder gives each trade slot. */
  lemma TradeValues(c: SearchCriteria)
    ensures Binder(c)(Optional(InvestorName, LikeLower)) == LikeParam(c.name)
    ensures Binder(c)(Optional(InvestorInn, LikePlain)) == LikeParam(c.inn)
    ensures Binder(c)(Optional(RegistrarName, LikeLower)) == LikeParam(c.registrar)
    ensures Binder(c)(Optional(EmitterName, LikeLower)) == LikeParam(c.emitter)
    ensures Binder(c)(Optional(Ticket, LikeLower)) == LikeParam(c.ticker)
    ensures Binder(c)(Optional(SaleDate, AtLeast)) == DateParam(c.from)
    ensures Binder(c)(Optional(SaleDate, AtMost)) == DateParam(c.to)
  {
  }

  lemma IssueValues(c: SearchCriteria)
    ensures Binder(c)(NullOnly(InvestorName)) == LikeParam(c.name)
    ensures Binder(c)(NullOnly(InvestorInn)) == LikeParam(c.inn)
    ensures Binder(c)(Optional(RegistrarName, LikeLower)) == LikeParam(c.registrar)
    ensures Binder(c)(Optional(EmitterName, LikeLower)) == LikeParam(c.emitter)
    ensures Binder(c)(NullOnly(Ticket)) == LikeParam(c.ticker)
    ensures Binder(c)(Optional(DateRegister, AtLeast)) == DateParam(c.from)
    ensures Binder(c)(Optional(DateRegister, AtMost)) == DateParam(c.to)
  {
  }

  lemma SubValues(c: SearchCriteria)
    ensures Binder(c)(Optional(InvestorName, LikeLower)) == LikeParam(c.name)
    ensures Binder(c)(Optional(InvestorInn, LikePlain)) == LikeParam(c.inn)
    ensures Binder(c)(Optional(Ticket, LikeLower)) == LikeParam(c.ticker)
    ensures Binder(c)(Optional(SaleDate, AtLeast)) == DateParam(c.from)
    ensures Binder(c)(Optional(SaleDate, AtMost)) == DateParam(c.to)
  {
  }

  lemma TradeAligned(c: SearchCriteria)
    ensures TradeTuple(c) == BindSlots(TradeSlots, Binder(c))
  {
    var f := Binder(c);
    TradeValues(c);
    Bound7(Optional(InvestorName, LikeLower), Optional(InvestorInn, LikePlain),
      Optional(RegistrarName, LikeLower), Optional(EmitterName, LikeLower),
      Optional(Ticket, LikeLower), Optional(SaleDate, AtLeast), Optional(SaleDate, AtMost), Binder(c));
  }

  lemma IssueAligned(c: SearchCriteria)
    ensures IssueTuple(c) == BindSlots(IssueSlots, Binder(c))
  {
    var f := Binder(c);
    IssueValues(c);
    BoundIssue(NullOnly(InvestorName), NullOnly(InvestorInn),
      Optional(RegistrarName, LikeLower), Optional(EmitterName, LikeLower),
      NullOnly(Ticket), Optional(DateRegister, AtLeast), Optional(DateRegister, AtMost), Binder(c));
  }

  lemma SubAligned(c: SearchCriteria)
    ensures SubTuple(c) == BindSlots(SubSlots, Binder(c))
  {
    var f := Binder(c);
    SubValues(c);
    Bound5(Optional(InvestorName, LikeLower), Optional(InvestorInn, LikePlain),
      Optional(Ticket, LikeLower), Optional(SaleDate, AtLeast), Optional(SaleDate, AtMost), Binder(c));
  }

  /** Every placeholder of the statement receives the criterion of the slot
      whose text holds it. */
  lemma TupleAligned(c: SearchCriteria)
    ensures SearchTuple(c) == BindSlots(AllSlots, Binder(c))
  {
    TradeAligned(c);
    IssueAligned(c);
    SubAligned(c);
    BindConcat(TradeSlots, IssueSlots, Binder(c));
    BindConcat(TradeSlots + IssueSlots, SubSlots, Binder(c));
  }

  // ---- What the criteria ask of a row ----

  /** A sale's joined row meets every criterion: investor name, registrar,
      emitter and ticker contained ignoring case, INN contained as typed,
      sale date within the bounds. */
  predicate TradeMatch(c: SearchCriteria, j: Row) {
    TextMatch(c.name, Get(j, InvestorName), true) && TextMatch(c.inn, Get(j, InvestorInn), false)
    && TextMatch(c.registrar, Get(j, RegistrarName), true) && TextMatch(c.emitter, Get(j, EmitterName), true)
    && TextMatch(c.ticker, Get(j, Ticket), true)
    && FromMatch(c.from, Get(j, SaleDate)) && ToMatch(c.to, Get(j, SaleDate))
  }

  /** An emission's joined row qualifies only when no investor, INN or
      ticker criterion is given; registrar and emitter must match and the
      registration date lie within the bounds. */
  predicate IssueMatch(c: SearchCriteria, j: Row) {
    c.name.None? && c.inn.None? && c.ticker.None?
    && TextMatch(c.registrar, Get(j, RegistrarName), true) && TextMatch(c.emitter, Get(j, EmitterName), true)
    && FromMatch(c.from, Get(j, DateRegister)) && ToMatch(c.to, Get(j, DateRegister))
  }

  /** A sale seen by the subquery meets the sale-side criteria. */
  predicate SubMatch(c: SearchCriteria, j: Row) {
    TextMatch(c.name, Get(j, InvestorName), true) && TextMatch(c.inn, Get(j, InvestorInn), false)
    && TextMatch(c.ticker, Get(j, Ticket), true)
    && FromMatch(c.from, Get(j, SaleDate)) && ToMatch(c.to, Get(j, SaleDate))
  }

  /** Each trade slot, bound to its criterion, is that criterion's filter. */
  lemma TradeHolds(c: SearchCriteria, j: Row)
    requires LiteralCriteria(c)
    ensures (Holds(Optional(InvestorName, LikeLower), LikeParam(c.name), j)
      && Holds(Optional(InvestorInn, LikePlain), LikeParam(c.inn), j)
      && Holds(Optional(RegistrarName, LikeLower), LikeParam(c.registrar), j)
      && Holds(Optional(EmitterName, LikeLower), LikeParam(c.emitter), j)
      && Holds(Optional(Ticket, LikeLower), LikeParam(c.ticker), j)
      && Holds(Optional(SaleDate, AtLeast), DateParam(c.from), j)
      && Holds(Optional(SaleDate, AtMost), DateParam(c.to), j)) <==> TradeMatch(c, j)
  {
    LikeSlotMeaning(InvestorName, c.name, j);
    LikeSlotMeaning(InvestorInn, c.inn, j);
    LikeSlotMeaning(RegistrarName, c.registrar, j);
    LikeSlotMeaning(EmitterName, c.emitter, j);
    LikeSlotMeaning(Ticket, c.ticker, j);
    DateSlotMeaning(SaleDate, c.from, j);
    DateSlotMeaning(SaleDate, c.to, j);
  }

  /** The trade branch's WHERE clause, bound with the tuple, is the trade
      criteria. */
  lemma TradeMeaning(c: SearchCriteria, j: Row)
    requires LiteralCriteria(c)
    ensures Keeps(TradeSlots, TradeTuple(c), j) <==> TradeMatch(c, j)
  {
    var f := Binder(c);
    TradeAligned(c);
    Keeps7(Optional(InvestorName, LikeLower), Optional(InvestorInn, LikePlain),
      Optional(RegistrarName, LikeLower), Optional(EmitterName, LikeLower),
      Optional(Ticket, LikeLower), Optional(SaleDate, AtLeast), Optional(SaleDate, AtMost), f, j);
    TradeHolds(c, j);
    TradeValues(c);
  }

  lemma IssueHolds(c: SearchCriteria, j: Row)
    requires LiteralCriteria(c)
    ensures (Holds(NullOnly(InvestorName), LikeParam(c.name), j)
      && Holds(NullOnly(InvestorInn), LikeParam(c.inn), j)
      && Holds(Optional(RegistrarName, LikeLower), LikeParam(c.registrar), j)
      && Holds(Optional(EmitterName, LikeLower), LikeParam(c.emitter), j)
      && Holds(NullOnly(Ticket), LikeParam(c.ticker), j)
      && Holds(Optional(DateRegister, AtLeast), DateParam(c.from), j)
      && Holds(Optional(DateRegister, AtMost), DateParam(c.to), j)) <==> IssueMatch(c, j)
  {
    LikeSlotMeaning(RegistrarName, c.registrar, j);
    LikeSlotMeaning(EmitterName, c.emitter, j);
    DateSlotMeaning(DateRegister, c.from, j);
    DateSlotMeaning(DateRegister, c.to, j);
  }

  /** The issuance branch's WHERE clause is the issuance criteria. */
  lemma IssueMeaning(c: SearchCriteria, j: Row)
    requires LiteralCriteria(c)
    ensures Keeps(IssueSlots, IssueTuple(c), j) <==> IssueMatch(c, j)
  {
    var f := Binder(c);
    IssueAligned(c);
    Keeps7(NullOnly(InvestorName), NullOnly(InvestorInn),
      Optional(RegistrarName, LikeLower), Optional(EmitterName, LikeLower),
      NullOnly(Ticket), Optional(DateRegister, AtLeast), Optional(DateRegister, AtMost), f, j);
    IssueHolds(c, j);
    IssueValues(c);
  }

  lemma SubHolds(c: SearchCriteria, j: Row)
    requires LiteralCriteria(c)
    ensures (Holds(Optional(InvestorName, LikeLower), LikeParam(c.name), j)
      && Holds(Optional(InvestorInn, LikePlain), LikeParam(c.inn), j)
      && Holds(Optional(Ticket, LikeLower), LikeParam(c.ticker), j)
      && Holds(Optional(SaleDate, AtLeast), DateParam(c.from), j)
      && Holds(Optional(SaleDate, AtMost), DateParam(c.to), j)) <==> SubMatch(c, j)
  {
    LikeSlotMeaning(InvestorName, c.name, j);
    LikeSlotMeaning(InvestorInn, c.inn, j);
    LikeSlotMeaning(Ticket, c.ticker, j);
    DateSlotMeaning(SaleDate, c.from, j);
    DateSlotMeaning(SaleDate, c.to, j);
  }

  /** The subquery's conditions are the sale-side criteria. */
  lemma SubMeaning(c: SearchCriteria, j: Row)
    requires LiteralCriteria(c)
    ensures Keeps(SubSlots, SubTuple(c), j) <==> SubMatch(c, j)
  {
    var f := Binder(c);
    SubAligned(c);
    Keeps5(Optional(InvestorName, LikeLower), Optional(InvestorInn, LikePlain),
      Optional(Ticket, LikeLower), Optional(SaleDate, AtLeast), Optional(SaleDate, AtMost), f, j);
    SubHolds(c, j);
    SubValues(c);
  }

  // ---- What the search finds ----

  /** Some sale of the emission, with its stock and investor found, meets
      the sale-side criteria. */
  predicate Covered(db: Db, c: SearchCriteria, e: Emission) {
    exists s :: s in db.sales && SubJoin(db, s).Some? && Linked(SubJoin(db, s).value, e)
      && SubMatch(c, SubJoin(db, s).value)
  }

  /** The rows the criteria ask for: every sale meeting them, and every
      emission meeting the issuance criteria that no such sale covers. */
  predicate Wanted(db: Db, c: SearchCriteria, x: Row) {
    (exists s :: s in db.sales && TradeMatch(c, TradeJoin(db, s)) && x == TradeRow(db, s))
    || (exists e :: e in db.emissions && IssueMatch(c, EmissionJoin(db, e)) && !Covered(db, c, e) && x == IssueRow(db, e))
  }

  lemma TradesWanted(db: Db, c: SearchCriteria, x: Row)
    requires LiteralCriteria(c)
    ensures TradeListed(db, TradeSlots, TradeTuple(c), x)
      <==> exists s :: s in db.sales && TradeMatch(c, TradeJoin(db, s)) && x == TradeRow(db, s)
  {
    var keep := (j: Row) => TradeMatch(c, j);
    forall j: Row ensures Keeps(TradeSlots, TradeTuple(c), j) <==> keep(j) {
      TradeMeaning(c, j);
    }
    TradeListedBy(db, TradeSlots, TradeTuple(c), keep, x);
  }

  lemma CoveredMeaning(db: Db, c: SearchCriteria, e: Emission)
    requires LiteralCriteria(c)
    ensures Suppressed(db, e, SubSlots, SubTuple(c)) <==> Covered(db, c, e)
  {
    forall s | s in db.sales && SubJoin(db, s).Some?
      ensures Keeps(SubSlots, SubTuple(c), SubJoin(db, s).value) <==> SubMatch(c, SubJoin(db, s).value)
    {
      SubMeaning(c, SubJoin(db, s).value);
    }
  }

  lemma IssuesWanted(db: Db, c: SearchCriteria, x: Row)
    requires LiteralCriteria(c)
    ensures IssueListed(db, IssueSlots, SubSlots, IssueTuple(c), SubTuple(c), x)
      <==> exists e :: e in db.emissions && IssueMatch(c, EmissionJoin(db, e)) && !Covered(db, c, e) && x == IssueRow(db, e)
  {
    forall e | e in db.emissions
      ensures IssueKeeps(db, e, IssueSlots, SubSlots, IssueTuple(c), SubTuple(c))
        <==> IssueMatch(c, EmissionJoin(db, e)) && !Covered(db, c, e)
    {
      IssueMeaning(c, EmissionJoin(db, e));
      CoveredMeaning(db, c, e);
    }
  }

  /** The tuple has the statement's width, 14 + 11 + 10. */
  lemma TupleWidth(c: SearchCriteria)
    ensures |SearchTuple(c)| == Combined.Width() == 35
    ensures SearchTuple(c)[..Combined.TradeWidth()] == TradeTuple(c)
    ensures SearchTuple(c)[Combined.TradeWidth()..Combined.TradeWidth() + Combined.IssueWidth()] == IssueTuple(c)
    ensures SearchTuple(c)[Combined.TradeWidth() + Combined.IssueWidth()..] == SubTuple(c)
  {
    Arities();
    var p := SearchTuple(c);
    assert p[..14] == TradeTuple(c) && p[14..25] == IssueTuple(c) && p[25..] == SubTuple(c);
  }

  lemma UnionWanted(db: Db, c: SearchCriteria, x: Row)
    requires LiteralCriteria(c)
    requires |SearchTuple(c)| == Combined.Width()
    ensures x in Union(Combined, db, SearchTuple(c)) <==> Wanted(db, c, x)
  {
    TupleWidth(c);
    UnionMembers(Combined, db, SearchTuple(c), x);
    TradesWanted(db, c, x);
    IssuesWanted(db, c, x);
  }

  /** The search run with the screen's tuple returns exactly the wanted
      rows. */
  lemma SearchFinds(db: Db, c: SearchCriteria, x: Row)
    requires LiteralCriteria(c)
    ensures Search(db, SearchTuple(c)).Ok?
    ensures x in Search(db, SearchTuple(c)).value <==> Wanted(db, c, x)
  {
    TupleWidth(c);
    ExecuteRows(Combined, db, SearchTuple(c), x);
    UnionWanted(db, c, x);
  }

  // ---- The screen ----

  /** `get_search_params`: the tuple, refused when it does not hold 35
      parameters. */
  function GetSearchParams(f: SearchForm): (r: Result<seq<Param>>)
    ensures r.Ok?
    ensures r.value == BindSlots(AllSlots, Binder(ReadForm(f)))
  {
    var c := ReadForm(f);
    var p := SearchTuple(c);
    TupleAligned(c);
    TupleWidth(c);
    if |p| != 35 then Err("Ошибка формирования" + " параметров для поиска") else Ok(p)
  }

  /** What `perform_search` ends in: a parameter error, a failed query, the
      "nothing found" message, or a filled table. */
  datatype Outcome = ParamError(message: string) | Failed(message: string) | NothingFound | Shown(rows: seq<Row>)

  function PerformSearch(db: Db, f: SearchForm): (o: Outcome)
    ensures !o.ParamError? && !o.Failed?
    ensures o.Shown? ==> |o.rows| > 0
  {
    match GetSearchParams(f)
    case Err(m) => ParamError(m)
    case Ok(p) =>
      match Search(db, p)
      case Err(m) => Failed(m)
      case Ok(rows) => if |rows| == 0 then NothingFound else Shown(rows)
  }

  /** The table shows exactly the wanted rows, and the screen reports
      that nothing was found exactly when no row is wanted. */
  lemma PerformSearchMeaning(db: Db, f: SearchForm, x: Row)
    requires LiteralCriteria(ReadForm(f))
    ensures PerformSearch(db, f).NothingFound? <==> !exists y :: Wanted(db, ReadForm(f), y)
    ensures PerformSearch(db, f).Shown? ==> (x in PerformSearch(db, f).rows <==> Wanted(db, ReadForm(f), x))
  {
    var c := ReadForm(f);
    SearchFinds(db, c, x);
    var rows := Search(db, SearchTuple(c)).value;
    if y :| Wanted(db, c, y) {
      SearchFinds(db, c, y);
    } else if |rows| > 0 {
      SearchFinds(db, c, rows[0]);
    }
  }

  /** An investor, INN or ticker criterion leaves only sales in the
      result. */
  lemma SalesOnly(db: Db, c: SearchCriteria, x: Row)
    requires LiteralCriteria(c)
    requires c.name.Some? || c.inn.Some? || c.ticker.Some?
    ensures x in Search(db, SearchTuple(c)).value ==> Get(x, ResultType) == Some(Str(TradeKind))
  {
    SearchFinds(db, c, x);
  }

  const NoCriteria := SearchCriteria(None, None, None, None, None, None, None)

  /** Clearing the screen empties the text criteria but keeps both date
      bounds at the days the editors showed. */
  lemma ClearKeepsDates(f: SearchForm)
    ensures ReadForm(ClearCriteria(f)) == NoCriteria.(from := Some(f.dateStart), to := Some(f.dateEnd))
  {
    assert AllSpace("");
    ResetKeepsDate(f.dateStart);
    ResetKeepsDate(f.dateEnd);
  }

  /** The rows of the sales made on day `d` and of the emissions registered
      that day. */
  predicate DatedOn(db: Db, d: Date, x: Row) {
    (exists s :: s in db.sales && s.date == d && x == TradeRow(db, s))
    || (exists e :: e in db.emissions && e.registered == d && x == IssueRow(db, e))
  }

  /** As written, the screen never searches without a period: searching
      from the screen as it opens finds only rows dated 2000-01-01. */
  lemma InitialSearchOneDay(db: Db, x: Row)
    ensures x in Search(db, SearchTuple(ReadForm(Initial))).value ==> DatedOn(db, EditorStart, x)
  {
    InitialReads();
    OneDaySearch(db, EditorStart, x);
  }

  /** A search bounded by day `d` on both ends finds only rows dated `d`. */
  lemma OneDaySearch(db: Db, d: ValidDate, x: Row)
    ensures x in Search(db, SearchTuple(NoCriteria.(from := Some(d), to := Some(d)))).value ==> DatedOn(db, d, x)
  {
    var c := NoCriteria.(from := Some(d), to := Some(d));
    SearchFinds(db, c, x);
    if x in Search(db, SearchTuple(c)).value {
      OneDayWanted(db, d, x);
    }
  }

  lemma InitialReads()
    ensures ReadForm(Initial) == NoCriteria.(from := Some(EditorStart), to := Some(EditorStart))
  {
    assert AllSpace("");
    ResetKeepsDate(EditorStart);
  }

  /** A row wanted with both bounds on day `d` is dated that day. */
  lemma OneDayWanted(db: Db, d: ValidDate, x: Row)
    requires Wanted(db, NoCriteria.(from := Some(d), to := Some(d)), x)
    ensures DatedOn(db, d, x)
  {
    var c := NoCriteria.(from := Some(d), to := Some(d));
    if s :| s in db.sales && TradeMatch(c, TradeJoin(db, s)) && x == TradeRow(db, s) {
      TradeDated(db, s);
      SameDay(d, Get(TradeJoin(db, s), SaleDate));
    } else {
      var e :| e in db.emissions && IssueMatch(c, EmissionJoin(db, e)) && !Covered(db, c, e) && x == IssueRow(db, e);
      IssueDated(db, e);
      SameDay(d, Get(EmissionJoin(db, e), DateRegister));
    }
  }

  /** A column within the bounds `d` to `d` holds the day `d`. */
  lemma SameDay(d: Date, col: Param)
    requires FromMatch(Some(d), col) && ToMatch(Some(d), col)
    ensures col == Some(Day(d))
  {
    BeforeTotal(d, col.value.d);
  }

  /** The reading the screen evidently intends: an editor left on its
      blank minimum date sets no bound. */
  function IntendedReadForm(f: SearchForm): (c: SearchCriteria)
    ensures c.from.None? <==> f.dateStart == EditorMinimum
    ensures c.to.None? <==> f.dateEnd == EditorMinimum
  {
    SearchCriteria(
      TextCriterion(f.investorName), TextCriterion(f.investorInn),
      TextCriterion(f.registrarName), TextCriterion(f.emitterName),
      TickerCriterion(f.ticker), IntendedFilter(f.dateStart), IntendedFilter(f.dateEnd))
  }

  /** The evidently intended reset: empty fields, both editors on their
      blank minimum. */
  function IntendedClear(f: SearchForm): SearchForm {
    SearchForm("", "", "", "", "", EditorMinimum, EditorMinimum)
  }

  /** With the intended reading and reset, a cleared screen finds every
      sale, and every emission of which no sale exists. */
  lemma IntendedClearedFindsAll(db: Db, f: SearchForm, x: Row)
    ensures x in Search(db, SearchTuple(IntendedReadForm(IntendedClear(f)))).value <==> ShownUnfiltered(db, x)
  {
    assert AllSpace("");
    assert IntendedReadForm(IntendedClear(f)) == NoCriteria;
    NoCriteriaFindsAll(db, x);
  }

  /** Every sale, and every emission of which no sale (with its stock and
      investor found) exists. */
  predicate ShownUnfiltered(db: Db, x: Row) {
    (exists s :: s in db.sales && x == TradeRow(db, s))
    || (exists e :: (e in db.emissions && x == IssueRow(db, e)
         && !exists s :: s in db.sales && SubJoin(db, s).Some? && Linked(SubJoin(db, s).value, e)))
  }

  /** Without criteria exactly those rows are wanted. */
  lemma NoCriteriaWanted(db: Db, x: Row)
    ensures Wanted(db, NoCriteria, x) <==> ShownUnfiltered(db, x)
  {
    var c := NoCriteria;
    assert forall j :: TradeMatch(c, j) && IssueMatch(c, j) && SubMatch(c, j);
  }

  lemma NoCriteriaFindsAll(db: Db, x: Row)
    ensures x in Search(db, SearchTuple(NoCriteria)).value <==> ShownUnfiltered(db, x)
  {
    SearchFinds(db, NoCriteria, x);
    NoCriteriaWanted(db, x);
  }
}
