/** The emission, stock and sale tabs: their filter widgets, the parameter
    tuples they bind to their list queries, and what those tuples select. */
module MarketTabs {
  import opened Wrappers
  import opened Text
  import opened Dates
  import opened Sql
  import opened Slots
  import opened Ordering
  import opened Criteria
  import opened Queries

  // ---- The emission tab ----

  /** The status combo: "Все статусы", "Активные", "Не активные". */
  datatype StatusChoice = AnyStatus | ActiveOnly | InactiveOnly

  /** The combo's item data: None, True, False. */
  function StatusParam(s: StatusChoice): (p: Param)
    ensures p.None? <==> s == AnyStatus
    ensures p.Some? ==> p.value.Bool? && (p.value.b <==> s == ActiveOnly)
  {
    match s
    case AnyStatus => None
    case ActiveOnly => Some(Bool(true))
    case InactiveOnly => Some(Bool(false))
  }

  datatype EmissionFilter = EmissionFilter(
    emitter: Option<string>, registrar: Option<string>, status: StatusChoice,
    from: Option<Date>, to: Option<Date>)

  /** `get_filter_params`: stripped texts, blank ones absent; a date only
      when its editor's `date()` is valid and non-null, which it always is. */
  function ReadEmissionForm(emitterText: string, registrarText: string, status: StatusChoice,
                            start: ValidDate, end: ValidDate): (c: EmissionFilter)
    ensures c.from == Some(start) && c.to == Some(end)
  {
    EmissionFilter(TextCriterion(emitterText), TextCriterion(registrarText), status,
      FilterDate(EditorValue(start)), FilterDate(EditorValue(end)))
  }

  /** The reading the tab evidently intends: an editor on its blank minimum
      sets no bound. */
  function IntendedEmissionForm(emitterText: string, registrarText: string, status: StatusChoice,
                                start: ValidDate, end: ValidDate): (c: EmissionFilter)
    ensures c.from.None? <==> start == EditorMinimum
    ensures c.to.None? <==> end == EditorMinimum
  {
    EmissionFilter(TextCriterion(emitterText), TextCriterion(registrarText), status,
      IntendedFilter(start), IntendedFilter(end))
  }

  /** The ten values: each criterion twice, in slot order. */
  function EmissionParams(c: EmissionFilter): seq<Param> {
    var e, r, s := LikeParam(c.emitter), LikeParam(c.registrar), StatusParam(c.status);
    var a, b := DateParam(c.from), DateParam(c.to);
    [e, e, r, r, s, s, a, a, b, b]
  }

  function EmissionBinder(c: EmissionFilter): Slot -> Param {
    (s: Slot) => match s.col
      case EmitterName => LikeParam(c.emitter)
      case RegistrarName => LikeParam(c.registrar)
      case EmissionStatus => StatusParam(c.status)
      case _ => if s.Optional? && s.op == AtMost then DateParam(c.to) else DateParam(c.from)
  }

  lemma EmissionValues(c: EmissionFilter)
    ensures EmissionBinder(c)(Optional(EmitterName, LikeLower)) == LikeParam(c.emitter)
    ensures EmissionBinder(c)(Optional(RegistrarName, LikeLower)) == LikeParam(c.registrar)
    ensures EmissionBinder(c)(Optional(EmissionStatus, Equal)) == StatusParam(c.status)
    ensures EmissionBinder(c)(Optional(DateRegister, AtLeast)) == DateParam(c.from)
    ensures EmissionBinder(c)(Optional(DateRegister, AtMost)) == DateParam(c.to)
  {
  }

  lemma EmissionAligned(c: EmissionFilter)
    ensures EmissionParams(c) == BindSlots(GetEmissions.slots, EmissionBinder(c))
  {
    EmissionValues(c);
    Bound5(Optional(EmitterName, LikeLower), Optional(RegistrarName, LikeLower), Optional(EmissionStatus, Equal),
      Optional(DateRegister, AtLeast), Optional(DateRegister, AtMost), EmissionBinder(c));
  }

  /** The status filter: any status, or exactly the chosen flag. */
  predicate StatusMatch(s: StatusChoice, col: Param) {
    match s
    case AnyStatus => true
    case ActiveOnly => col == Some(Bool(true))
    case InactiveOnly => col == Some(Bool(false))
  }

  /** Emitter and registrar contained ignoring case, the status as chosen,
      the registration date within the inclusive bounds. */
  predicate EmissionMatch(c: EmissionFilter, j: Row) {
    TextMatch(c.emitter, Get(j, EmitterName), true) && TextMatch(c.registrar, Get(j, RegistrarName), true)
    && StatusMatch(c.status, Get(j, EmissionStatus))
    && FromMatch(c.from, Get(j, DateRegister)) && ToMatch(c.to, Get(j, DateRegister))
  }

  lemma EmissionMeaning(c: EmissionFilter, j: Row)
    requires Literal(c.emitter) && Literal(c.registrar)
    ensures |EmissionParams(c)| == TotalArity(GetEmissions.slots)
    ensures Keeps(GetEmissions.slots, EmissionParams(c), j) <==> EmissionMatch(c, j)
  {
    EmissionAligned(c);
    EmissionValues(c);
    Keeps5(Optional(EmitterName, LikeLower), Optional(RegistrarName, LikeLower), Optional(EmissionStatus, Equal),
      Optional(DateRegister, AtLeast), Optional(DateRegister, AtMost), EmissionBinder(c), j);
    LikeSlotMeaning(EmitterName, c.emitter, j);
    LikeSlotMeaning(RegistrarName, c.registrar, j);
    EqualSlotMeaning(EmissionStatus, StatusParam(c.status), j);
    DateSlotMeaning(DateRegister, c.from, j);
    DateSlotMeaning(DateRegister, c.to, j);
  }

  lemma EmissionFilters(c: EmissionFilter)
    ensures |EmissionParams(c)| == TotalArity(GetEmissions.slots)
    ensures Literal(c.emitter) && Literal(c.registrar) ==>
      forall x :: Keeps(GetEmissions.slots, EmissionParams(c), x) <==> EmissionMatch(c, x)
  {
    EmissionAligned(c);
    if Literal(c.emitter) && Literal(c.registrar) {
      forall x ensures Keeps(GetEmissions.slots, EmissionParams(c), x) <==> EmissionMatch(c, x) {
        EmissionMeaning(c, x);
      }
    }
  }

  /** `load_data` of the emission tab: matching emissions, newest
      registration first. */
  function LoadEmissions(c: EmissionFilter, rows: seq<Row>): (r: Result<seq<Row>>)
    ensures r.Ok? && Sorted(GetEmissions.order, r.value)
    ensures Literal(c.emitter) && Literal(c.registrar) ==>
      forall x :: x in r.value <==> x in rows && EmissionMatch(c, x)
    ensures Literal(c.emitter) && Literal(c.registrar) ==>
      forall x :: multiset(r.value)[x] == if EmissionMatch(c, x) then multiset(rows)[x] else 0
  {
    EmissionFilters(c);
    Run(GetEmissions, EmissionParams(c), rows)
  }

  /** As written, `clear_search` resets both editors with `setDate(QDate())`,
      which Qt ignores: with the texts cleared and any status, the tab lists
      exactly the emissions registered between the two dates still shown. */
  lemma EmissionsClearedListsRange(start: ValidDate, end: ValidDate, x: Row, rows: seq<Row>)
    ensures var c := ReadEmissionForm("", "", AnyStatus, SetDate(start, NullDate), SetDate(end, NullDate));
      (x in LoadEmissions(c, rows).value
       <==> x in rows && FromMatch(Some(start), Get(x, DateRegister)) && ToMatch(Some(end), Get(x, DateRegister)))
  {
    ClearedEmissionReads(start, end);
    DatesOnlyLists(EmissionFilter(None, None, AnyStatus, Some(start), Some(end)), x, rows);
  }

  /** With no text and any status only the registration dates filter. */
  lemma DatesOnlyLists(c: EmissionFilter, x: Row, rows: seq<Row>)
    requires c.emitter.None? && c.registrar.None? && c.status == AnyStatus
    ensures x in LoadEmissions(c, rows).value
            <==> x in rows && FromMatch(c.from, Get(x, DateRegister)) && ToMatch(c.to, Get(x, DateRegister))
  {
  }

  lemma ClearedEmissionReads(start: ValidDate, end: ValidDate)
    ensures ReadEmissionForm("", "", AnyStatus, SetDate(start, NullDate), SetDate(end, NullDate))
            == EmissionFilter(None, None, AnyStatus, Some(start), Some(end))
  {
    assert AllSpace("");
    ResetKeepsDate(start);
    ResetKeepsDate(end);
  }

  /** With the intended reading, a reset that puts both editors on their
      blank minimum lists every emission. */
  lemma IntendedEmissionsClearedListsAll(rows: seq<Row>)
    ensures LoadEmissions(IntendedEmissionForm("", "", AnyStatus, EditorMinimum, EditorMinimum), rows)
            == Ok(Sort(GetEmissions.order, rows))
  {
    IntendedClearedReads();
    EmissionsClearedListsAll(IntendedEmissionForm("", "", AnyStatus, EditorMinimum, EditorMinimum), rows);
  }

  lemma IntendedClearedReads()
    ensures IntendedEmissionForm("", "", AnyStatus, EditorMinimum, EditorMinimum) == EmissionFilter(None, None, AnyStatus, None, None)
  {
    assert AllSpace("");
  }

  lemma EmissionsClearedListsAll(c: EmissionFilter, rows: seq<Row>)
    requires c == EmissionFilter(None, None, AnyStatus, None, None)
    ensures LoadEmissions(c, rows) == Ok(Sort(GetEmissions.order, rows))
  {
    ClearedEmissionsInactive(c);
    RunAllInactive(GetEmissions, EmissionBinder(c), rows);
    LoadEmissionsRuns(c, rows);
  }

  lemma ClearedEmissionsInactive(c: EmissionFilter)
    requires c == EmissionFilter(None, None, AnyStatus, None, None)
    ensures EmissionParams(c) == BindSlots(GetEmissions.slots, EmissionBinder(c))
    ensures forall i :: 0 <= i < |GetEmissions.slots| ==> Inactive(GetEmissions.slots[i], EmissionBinder(c)(GetEmissions.slots[i]))
  {
    EmissionAligned(c);
    EmissionValues(c);
  }

  lemma LoadEmissionsRuns(c: EmissionFilter, rows: seq<Row>)
    ensures LoadEmissions(c, rows) == Run(GetEmissions, EmissionParams(c), rows)
  {
  }

  // ---- The stock tab ----

  datatype StockFilter = StockFilter(ticker: Option<string>, emitter: Option<string>, emission: Option<int>)

  /** The ticker stripped and upper-cased, the emitter stripped, the
      emission combo's item data (None for "Все эмиссии"). */
  function ReadStockForm(tickerText: string, emitterText: string, emission: Option<int>): StockFilter {
    StockFilter(TickerCriterion(tickerText), TextCriterion(emitterText), emission)
  }

  function StockParams(c: StockFilter): seq<Param> {
    var t, e, m := LikeParam(c.ticker), LikeParam(c.emitter), IdParam(c.emission);
    [t, t, e, e, m, m]
  }

  function StockBinder(c: StockFilter): Slot -> Param {
    (s: Slot) => match s.col
      case Ticket => LikeParam(c.ticker)
      case EmitterName => LikeParam(c.emitter)
      case _ => IdParam(c.emission)
  }

  lemma StockAligned(c: StockFilter)
    ensures StockParams(c) == BindSlots(GetStocks.slots, StockBinder(c))
  {
    Bound3(Optional(Ticket, LikeLower), Optional(EmitterName, LikeLower), Optional(EmissionId, Equal), StockBinder(c));
  }

  predicate StockMatch(c: StockFilter, j: Row) {
    TextMatch(c.ticker, Get(j, Ticket), true) && TextMatch(c.emitter, Get(j, EmitterName), true)
    && (c.emission.None? || Get(j, EmissionId) == Some(Int(c.emission.value)))
  }

  /** What the bound stock query keeps, slot by slot. */
  lemma StockKeeps(c: StockFilter, j: Row)
    ensures |StockParams(c)| == TotalArity(GetStocks.slots)
    ensures Keeps(GetStocks.slots, StockParams(c), j)
      <==> (Holds(Optional(Ticket, LikeLower), LikeParam(c.ticker), j)
        && Holds(Optional(EmitterName, LikeLower), LikeParam(c.emitter), j)
        && Holds(Optional(EmissionId, Equal), IdParam(c.emission), j))
  {
    StockAligned(c);
    Keeps3(Optional(Ticket, LikeLower), Optional(EmitterName, LikeLower), Optional(EmissionId, Equal), StockBinder(c), j);
  }

  lemma StockMeaning(c: StockFilter, j: Row)
    requires Literal(c.ticker) && Literal(c.emitter)
    ensures |StockParams(c)| == TotalArity(GetStocks.slots)
    ensures Keeps(GetStocks.slots, StockParams(c), j) <==> StockMatch(c, j)
  {
    StockKeeps(c, j);
    LikeSlotMeaning(Ticket, c.ticker, j);
    LikeSlotMeaning(EmitterName, c.emitter, j);
    EqualSlotMeaning(EmissionId, IdParam(c.emission), j);
  }

  /** Upper-casing the ticker field never changes which stocks are listed:
      the query compares both sides through `LOWER`. */
  lemma StockUpperInvisible(tickerText: string, emitterText: string, emission: Option<int>, j: Row)
    ensures var up := ReadStockForm(tickerText, emitterText, emission);
      var plain := StockFilter(TextCriterion(tickerText), TextCriterion(emitterText), emission);
      |StockParams(up)| == |StockParams(plain)| == TotalArity(GetStocks.slots)
      && (Keeps(GetStocks.slots, StockParams(up), j) <==> Keeps(GetStocks.slots, StockParams(plain), j))
  {
    var up := ReadStockForm(tickerText, emitterText, emission);
    var plain := StockFilter(TextCriterion(tickerText), TextCriterion(emitterText), emission);
    StockKeeps(up, j);
    StockKeeps(plain, j);
    TickerSlotAsText(tickerText, Ticket, j);
  }

  lemma StockFilters(c: StockFilter)
    ensures |StockParams(c)| == TotalArity(GetStocks.slots)
    ensures Literal(c.ticker) && Literal(c.emitter) ==>
      forall x :: Keeps(GetStocks.slots, StockParams(c), x) <==> StockMatch(c, x)
  {
    StockAligned(c);
    if Literal(c.ticker) && Literal(c.emitter) {
      forall x ensures Keeps(GetStocks.slots, StockParams(c), x) <==> StockMatch(c, x) {
        StockMeaning(c, x);
      }
    }
  }

  /** `load_data` of the stock tab: matching stocks in ticker order. */
  function LoadStocks(c: StockFilter, rows: seq<Row>): (r: Result<seq<Row>>)
    ensures r.Ok? && Sorted(GetStocks.order, r.value)
    ensures Literal(c.ticker) && Literal(c.emitter) ==>
      forall x :: x in r.value <==> x in rows && StockMatch(c, x)
    ensures Literal(c.ticker) && Literal(c.emitter) ==>
      forall x :: multiset(r.value)[x] == if StockMatch(c, x) then multiset(rows)[x] else 0
  {
    StockFilters(c);
    Run(GetStocks, StockParams(c), rows)
  }

  lemma StocksBlankListsAll(tickerText: string, emitterText: string, rows: seq<Row>)
    requires AllSpace(tickerText) && AllSpace(emitterText)
    ensures LoadStocks(ReadStockForm(tickerText, emitterText, None), rows) == Ok(Sort(GetStocks.order, rows))
  {
    var c := ReadStockForm(tickerText, emitterText, None);
    assert c == StockFilter(None, None, None);
    StocksClearedListsAll(c, rows);
  }

  lemma StocksClearedListsAll(c: StockFilter, rows: seq<Row>)
    requires c == StockFilter(None, None, None)
    ensures LoadStocks(c, rows) == Ok(Sort(GetStocks.order, rows))
  {
    StockAligned(c);
    RunAllInactive(GetStocks, StockBinder(c), rows);
    LoadStocksRuns(c, rows);
  }

  lemma LoadStocksRuns(c: StockFilter, rows: seq<Row>)
    ensures LoadStocks(c, rows) == Run(GetStocks, StockParams(c), rows)
  {
  }

  // ---- The sale tab ----

  /** The sale filters. The end date is a plain date: its editor starts at
      today and always holds a date. */
  datatype SellFilter = SellFilter(investor: Option<string>, stock: Option<string>, from: Option<Date>, to: Date)

  /** The investor stripped, the stock stripped and upper-cased, the start
      date only when the editor's `date()` is valid, which it always is, the
      end date always. */
  function ReadSellForm(investorText: string, stockText: string, start: ValidDate, end: Date): (c: SellFilter)
    ensures c.from == Some(start) && c.to == end
  {
    var q := EditorValue(start);
    SellFilter(TextCriterion(investorText), TickerCriterion(stockText),
      if q.IsValid() then Some(q.ToDate()) else None, end)
  }

  /** The reading the tab evidently intends: a start editor on its blank
      minimum sets no lower bound. */
  function IntendedSellForm(investorText: string, stockText: string, start: ValidDate, end: Date): (c: SellFilter)
    ensures c.from.None? <==> start == EditorMinimum
  {
    SellFilter(TextCriterion(investorText), TickerCriterion(stockText), IntendedFilter(start), end)
  }

  function SellParams(c: SellFilter): seq<Param> {
    var i, s := LikeParam(c.investor), LikeParam(c.stock);
    var a, b := DateParam(c.from), DateParam(Some(c.to));
    [i, i, s, s, a, a, b, b]
  }

  function SellBinder(c: SellFilter): Slot -> Param {
    (s: Slot) => match s.col
      case InvestorName => LikeParam(c.investor)
      case Ticket => LikeParam(c.stock)
      case _ => if s.Optional? && s.op == AtMost then DateParam(Some(c.to)) else DateParam(c.from)
  }

  lemma SellValues(c: SellFilter)
    ensures SellBinder(c)(Optional(InvestorName, LikeLower)) == LikeParam(c.investor)
    ensures SellBinder(c)(Optional(Ticket, LikeLower)) == LikeParam(c.stock)
    ensures SellBinder(c)(Optional(SaleDate, AtLeast)) == DateParam(c.from)
    ensures SellBinder(c)(Optional(SaleDate, AtMost)) == DateParam(Some(c.to))
  {
  }

  lemma SellAligned(c: SellFilter)
    ensures SellParams(c) == BindSlots(GetSells.slots, SellBinder(c))
  {
    SellValues(c);
    Bound4(Optional(InvestorName, LikeLower), Optional(Ticket, LikeLower),
      Optional(SaleDate, AtLeast), Optional(SaleDate, AtMost), SellBinder(c));
  }

  /** What the bound sale query keeps, slot by slot. */
  lemma SellKeeps(c: SellFilter, j: Row)
    ensures |SellParams(c)| == TotalArity(GetSells.slots)
    ensures Keeps(GetSells.slots, SellParams(c), j)
      <==> (Holds(Optional(InvestorName, LikeLower), LikeParam(c.investor), j)
        && Holds(Optional(Ticket, LikeLower), LikeParam(c.stock), j)
        && Holds(Optional(SaleDate, AtLeast), DateParam(c.from), j)
        && Holds(Optional(SaleDate, AtMost), DateParam(Some(c.to)), j))
  {
    SellAligned(c);
    SellValues(c);
    Keeps4(Optional(InvestorName, LikeLower), Optional(Ticket, LikeLower),
      Optional(SaleDate, AtLeast), Optional(SaleDate, AtMost), SellBinder(c), j);
  }

  predicate SellMatch(c: SellFilter, j: Row) {
    TextMatch(c.investor, Get(j, InvestorName), true) && TextMatch(c.stock, Get(j, Ticket), true)
    && FromMatch(c.from, Get(j, SaleDate)) && ToMatch(Some(c.to), Get(j, SaleDate))
  }

  lemma SellMeaning(c: SellFilter, j: Row)
    requires Literal(c.investor) && Literal(c.stock)
    ensures |SellParams(c)| == TotalArity(GetSells.slots)
    ensures Keeps(GetSells.slots, SellParams(c), j) <==> SellMatch(c, j)
  {
    SellKeeps(c, j);
    LikeSlotMeaning(InvestorName, c.investor, j);
    LikeSlotMeaning(Ticket, c.stock, j);
    DateSlotMeaning(SaleDate, c.from, j);
    DateSlotMeaning(SaleDate, Some(c.to), j);
  }

  /** The sale tab always applies its end date: every listed sale has a
      sale date, and it is not after the end date. */
  lemma SellsAlwaysBounded(c: SellFilter, j: Row)
    requires |SellParams(c)| == TotalArity(GetSells.slots)
    requires Keeps(GetSells.slots, SellParams(c), j)
    ensures Get(j, SaleDate).Some? && Get(j, SaleDate).value.Day?
    ensures NotAfter(Get(j, SaleDate).value.d, c.to)
  {
    SellKeeps(c, j);
  }

  /** Upper-casing the stock field never changes which sales are listed. */
  lemma SellUpperInvisible(investorText: string, stockText: string, start: ValidDate, end: Date, j: Row)
    ensures var up := ReadSellForm(investorText, stockText, start, end);
      var plain := up.(stock := TextCriterion(stockText));
      |SellParams(up)| == |SellParams(plain)| == TotalArity(GetSells.slots)
      && (Keeps(GetSells.slots, SellParams(up), j) <==> Keeps(GetSells.slots, SellParams(plain), j))
  {
    var up := ReadSellForm(investorText, stockText, start, end);
    var plain := up.(stock := TextCriterion(stockText));
    SellKeeps(up, j);
    SellKeeps(plain, j);
    TickerSlotAsText(stockText, Ticket, j);
  }

  lemma SellFilters(c: SellFilter)
    ensures |SellParams(c)| == TotalArity(GetSells.slots)
    ensures Literal(c.investor) && Literal(c.stock) ==>
      forall x :: Keeps(GetSells.slots, SellParams(c), x) <==> SellMatch(c, x)
  {
    SellAligned(c);
    if Literal(c.investor) && Literal(c.stock) {
      forall x ensures Keeps(GetSells.slots, SellParams(c), x) <==> SellMatch(c, x) {
        SellMeaning(c, x);
      }
    }
  }

  /** `load_data` of the sale tab: matching sales, newest first. */
  function LoadSells(c: SellFilter, rows: seq<Row>): (r: Result<seq<Row>>)
    ensures r.Ok? && Sorted(GetSells.order, r.value)
    ensures Literal(c.investor) && Literal(c.stock) ==>
      forall x :: x in r.value <==> x in rows && SellMatch(c, x)
    ensures Literal(c.investor) && Literal(c.stock) ==>
      forall x :: multiset(r.value)[x] == if SellMatch(c, x) then multiset(rows)[x] else 0
  {
    SellFilters(c);
    Run(GetSells, SellParams(c), rows)
  }

  /** As written, `clear_search` resets the start editor with
      `setDate(QDate())`, which Qt ignores, and the end editor to `today`:
      with the texts cleared the tab lists exactly the sales dated from the
      start still shown up to today. */
  lemma SellsClearedListsRange(start: ValidDate, today: Date, x: Row, rows: seq<Row>)
    ensures var r := LoadSells(ReadSellForm("", "", SetDate(start, NullDate), today), rows);
      x in r.value <==> x in rows && FromMatch(Some(start), Get(x, SaleDate)) && ToMatch(Some(today), Get(x, SaleDate))
  {
    assert AllSpace("");
    ResetKeepsDate(start);
    SellMeaning(ReadSellForm("", "", SetDate(start, NullDate), today), x);
  }

  /** With the intended reading, a start editor left on its blank minimum
      lists exactly the sales dated up to the end date. */
  lemma IntendedSellsListUpTo(investorText: string, stockText: string, end: Date, x: Row, rows: seq<Row>)
    requires AllSpace(investorText) && AllSpace(stockText)
    ensures var r := LoadSells(IntendedSellForm(investorText, stockText, EditorMinimum, end), rows);
      x in r.value <==> x in rows && ToMatch(Some(end), Get(x, SaleDate))
  {
    var c := IntendedSellForm(investorText, stockText, EditorMinimum, end);
    SellMeaning(c, x);
  }
}
