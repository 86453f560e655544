/** The dialogs built around combo boxes: the sale dialog, the emission
    dialog and the report dialog, together with the report list's type
    labels and content truncation. */
module Pickers {
  import opened Wrappers
  import opened Text
  import opened Dates
  import opened Sql
  import opened Forms
  import Deposits

  // ---- Combo boxes ----

  /** One entry of a combo box: the text shown and the id kept as its data. */
  datatype Item = Item(caption: string, data: Option<int>)

  /** A combo box: its entries, the index of the current one, and whether
      the user may change it. */
  datatype Combo = Combo(items: seq<Item>, current: int, enabled: bool)

  /** `currentData()`: the data of the current entry, `None` when no entry is current. */
  function CurrentData(c: Combo): (r: Option<int>)
    ensures r.Some? ==> exists k :: 0 <= k < |c.items| && c.items[k].data == r
  {
    if 0 <= c.current < |c.items| then c.items[c.current].data else None
  }

  /** `findData`: the first entry holding `d`, or -1. */
  function FindData(items: seq<Item>, d: Option<int>): (r: int)
    ensures -1 <= r < |items|
    ensures r >= 0 ==> items[r].data == d && forall k :: 0 <= k < r ==> items[k].data != d
    ensures r == -1 <==> forall k :: 0 <= k < |items| ==> items[k].data != d
  {
    if |items| == 0 then -1
    else if items[0].data == d then 0
    else
      var i := FindData(items[1..], d);
      assert forall k :: 1 <= k < |items| ==> items[k] == items[1..][k - 1];
      if i == -1 then -1 else i + 1
  }

  /** The entries for the rows of a list query, one per (id, name) row. */
  function Entries(rows: seq<(int, string)>): (r: seq<Item>)
    ensures |r| == |rows|
    ensures forall k :: 0 <= k < |rows| ==> r[k] == Item(rows[k].1, Some(rows[k].0))
  {
    seq(|rows|, k requires 0 <= k < |rows| => Item(rows[k].1, Some(rows[k].0)))
  }

  /** One half of `load_combos`: a placeholder entry without data, then one
      entry per row. An empty list adds a second dataless entry and a failed
      query adds nothing; both disable the box. The flag says whether this
      list may enable OK. */
  function LoadCombo(placeholder: string, emptyCaption: string, fetched: Result<seq<(int, string)>>): (r: (Combo, bool))
    ensures r.1 <==> fetched.Ok? && |fetched.value| > 0
    ensures r.0.enabled == r.1
    ensures r.0.current == 0 && CurrentData(r.0) == None
    ensures r.1 ==> |r.0.items| == |fetched.value| + 1
    ensures r.1 ==> forall k :: 0 <= k < |fetched.value| ==> r.0.items[k + 1] == Item(fetched.value[k].1, Some(fetched.value[k].0))
    ensures !r.1 ==> forall k :: 0 <= k < |r.0.items| ==> r.0.items[k].data.None?
  {
    var head := [Item(placeholder, None)];
    match fetched
    case Err(_) => (Combo(head, 0, false), false)
    case Ok(rows) =>
      if |rows| == 0 then (Combo(head + [Item(emptyCaption, None)], 0, false), false)
      else (Combo(head + Entries(rows), 0, true), true)
  }

  /** After a list loaded, every listed id can be found again by `findData`,
      and never at the placeholder. */
  lemma LoadedIdsFound(placeholder: string, emptyCaption: string, rows: seq<(int, string)>, k: nat)
    requires k < |rows|
    ensures FindData(LoadCombo(placeholder, emptyCaption, Ok(rows)).0.items, Some(rows[k].0)) >= 1
  {
    var c := LoadCombo(placeholder, emptyCaption, Ok(rows)).0;
    assert c.items[k + 1].data == Some(rows[k].0);
    assert c.items[0].data == None;
  }

  /** A list that failed or came back empty leaves nothing to choose: whatever
      entry becomes current, its data is `None`. */
  lemma UnloadedOffersNothing(placeholder: string, emptyCaption: string, fetched: Result<seq<(int, string)>>, current: int)
    requires !LoadCombo(placeholder, emptyCaption, fetched).1
    ensures CurrentData(LoadCombo(placeholder, emptyCaption, fetched).0.(current := current)) == None
  {
  }

  // ---- Sale dialog ----

  /** Both halves of `load_combos`: OK is enabled only when both lists
      loaded rows. */
  function LoadPair(first: Result<seq<(int, string)>>, second: Result<seq<(int, string)>>,
                    captions: (string, string, string, string)): (r: (Combo, Combo, bool))
    ensures r.2 <==> ListLoaded(first) && ListLoaded(second)
    ensures r.0.enabled <==> ListLoaded(first)
    ensures r.1.enabled <==> ListLoaded(second)
  {
    var a := LoadCombo(captions.0, captions.1, first);
    var b := LoadCombo(captions.2, captions.3, second);
    (a.0, b.0, a.1 && b.1)
  }

  /** A list query that returned at least one row. */
  predicate ListLoaded(fetched: Result<seq<(int, string)>>) {
    fetched.Ok? && |fetched.value| > 0
  }

  /** `set_preselected_investor`. Without an id nothing happens. A listed id
      becomes the current entry and locks the box; an unlisted one draws a
      warning and leaves the box enabled. The flag is the warning. */
  function PreselectInvestor(c: Combo, info: Option<map<string, int>>): (r: (Combo, bool))
    ensures info.None? || "id" !in info.value ==> r == (c, false)
    ensures info.Some? && "id" in info.value ==>
      (r.0.items == c.items
       && (CurrentData(r.0) == Some(info.value["id"]) <==> !r.0.enabled)
       && (r.1 <==> r.0.enabled))
  {
    if info.None? || "id" !in info.value then (c, false)
    else
      var id := info.value["id"];
      var index := FindData(c.items, Some(id));
      if index != -1 then (c.(current := index, enabled := false), false)
      else (c.(enabled := true), true)
  }

  /** Opening the sale dialog for a customer whose id the investor list
      holds: the investor is chosen and cannot be changed. */
  lemma ListedInvestorLocked(placeholder: string, emptyCaption: string, rows: seq<(int, string)>, k: nat)
    requires k < |rows|
    ensures var r := PreselectInvestor(LoadCombo(placeholder, emptyCaption, Ok(rows)).0, Some(map["id" := rows[k].0]));
      !r.0.enabled && CurrentData(r.0) == Some(rows[k].0) && !r.1
  {
    LoadedIdsFound(placeholder, emptyCaption, rows, k);
  }

  /** `load_data` setting a combo to a stored id: the entry holding it, or a
      new entry inserted right after the placeholder when none does. */
  function SelectOrInsert(c: Combo, id: int, missingCaption: string): (r: Combo)
    requires |c.items| > 0
    ensures CurrentData(r) == Some(id)
    ensures r.enabled == c.enabled
    ensures FindData(c.items, Some(id)) != -1 ==> r.items == c.items
    ensures FindData(c.items, Some(id)) == -1 ==>
      r.items == c.items[..1] + [Item(missingCaption, Some(id))] + c.items[1..]
  {
    var index := FindData(c.items, Some(id));
    if index != -1 then c.(current := index)
    else c.(items := c.items[..1] + [Item(missingCaption, Some(id))] + c.items[1..], current := 1)
  }

  /** A stored sale: its investor and its stock. */
  datatype StoredSale = StoredSale(investor: int, stock: int)

  /** `load_data` of the sale dialog. A failed or empty lookup leaves both
      boxes as they were and disables OK; a found sale selects its investor
      and stock, locks the investor box and enables OK. */
  function LoadSale(investors: Combo, stocks: Combo, fetched: Result<Option<StoredSale>>,
                    missingInvestor: string, missingStock: string): (r: (Combo, Combo, bool))
    requires |investors.items| > 0 && |stocks.items| > 0
    ensures r.2 <==> fetched.Ok? && fetched.value.Some?
    ensures !r.2 ==> r.0 == investors && r.1 == stocks
    ensures r.2 ==> !r.0.enabled && r.1.enabled == stocks.enabled
    ensures r.2 ==> CurrentData(r.0) == Some(fetched.value.value.investor) && CurrentData(r.1) == Some(fetched.value.value.stock)
  {
    match fetched
    case Err(_) => (investors, stocks, false)
    case Ok(None) => (investors, stocks, false)
    case Ok(Some(s)) =>
      var inv := SelectOrInsert(investors, s.investor, missingInvestor);
      var st := SelectOrInsert(stocks, s.stock, missingStock);
      (inv.(enabled := false), st, true)
  }

  /** What the sale dialog looks like once `__init__` is done: the lists are
      loaded, then an existing sale is loaded, or else a customer is
      preselected. */
  function OpenSaleDialog(investorRows: Result<seq<(int, string)>>, stockRows: Result<seq<(int, string)>>,
                          captions: (string, string, string, string), saleId: Option<int>,
                          preselected: Option<map<string, int>>, fetched: Result<Option<StoredSale>>,
                          missing: (string, string)): (r: (Combo, Combo, bool))
    ensures !Truthy(saleId) ==> (r.2 <==> ListLoaded(investorRows) && ListLoaded(stockRows))
    ensures Truthy(saleId) ==> (r.2 <==> fetched.Ok? && fetched.value.Some?)
    ensures Truthy(saleId) && r.2 ==> !r.0.enabled
  {
    var loaded := LoadPair(investorRows, stockRows, captions);
    if Truthy(saleId) then
      LoadSale(loaded.0, loaded.1, fetched, missing.0, missing.1)
    else if preselected.Some? then
      var p := PreselectInvestor(loaded.0, preselected);
      (p.0, loaded.1, loaded.2)
    else loaded
  }

  /** The sale form as `accept_data` reads it. */
  datatype SaleForm = SaleForm(investor: Option<int>, stock: Option<int>, quantity: int, price: real)

  datatype SaleError = InvestorMissing | StockMissing | QuantityNotPositive | PriceNotPositive

  /** The four checks, in order; a missing id is `None`, so an id of 0 passes. */
  function SaleChecks(f: SaleForm): seq<Check<SaleError>> {
    [Check(f.investor.None?, InvestorMissing), Check(f.stock.None?, StockMissing),
     Check(f.quantity <= 0, QuantityNotPositive), Check(f.price <= 0.0, PriceNotPositive)]
  }

  /** The field that gets the focus after a refused OK. */
  datatype SaleField = InvestorBox | StockBox | QuantityBox | PriceBox

  /** The focus chain of `accept_data`: the first field whose test fails. */
  function SaleFocus(f: SaleForm): (r: Option<SaleField>)
    ensures r == Some(InvestorBox) <==> f.investor.None?
  {
    if f.investor.None? then Some(InvestorBox)
    else if f.stock.None? then Some(StockBox)
    else if f.quantity <= 0 then Some(QuantityBox)
    else if f.price <= 0.0 then Some(PriceBox)
    else None
  }

  /** The message each field's check reports. */
  function SaleFieldError(field: SaleField): SaleError {
    match field
    case InvestorBox => InvestorMissing
    case StockBox => StockMissing
    case QuantityBox => QuantityNotPositive
    case PriceBox => PriceNotPositive
  }

  /** `Failing` one check at a time. */
  lemma FailingCons<E(!new)>(checks: seq<Check<E>>)
    requires |checks| > 0
    ensures Failing(checks) == (if checks[0].fails then [checks[0].error] else []) + Failing(checks[1..])
  {
  }

  /** The failing messages of four checks start with the first failing one. */
  lemma FirstOfFour<E(!new)>(b0: bool, b1: bool, b2: bool, b3: bool, e0: E, e1: E, e2: E, e3: E)
    ensures var r := Failing([Check(b0, e0), Check(b1, e1), Check(b2, e2), Check(b3, e3)]);
      (r == [] <==> !b0 && !b1 && !b2 && !b3)
      && (r != [] ==> r[0] == (if b0 then e0 else if b1 then e1 else if b2 then e2 else e3))
  {
    var c := [Check(b0, e0), Check(b1, e1), Check(b2, e2), Check(b3, e3)];
    assert c[1..] == [Check(b1, e1), Check(b2, e2), Check(b3, e3)];
    assert c[1..][1..] == [Check(b2, e2), Check(b3, e3)];
    assert c[1..][1..][1..] == [Check(b3, e3)];
    assert c[1..][1..][1..][1..] == [];
    FailingCons(c);
    FailingCons(c[1..]);
    FailingCons(c[1..][1..]);
    FailingCons(c[1..][1..][1..]);
  }

  /** The dialog stays open exactly when some message is shown, and the
      focus lands on the field of the first message. */
  lemma SaleFocusFirst(f: SaleForm)
    ensures SaleFocus(f).None? <==> Failing(SaleChecks(f)) == []
    ensures SaleFocus(f).Some? ==> SaleFieldError(SaleFocus(f).value) == Failing(SaleChecks(f))[0]
  {
    FirstOfFour(f.investor.None?, f.stock.None?, f.quantity <= 0, f.price <= 0.0,
      InvestorMissing, StockMissing, QuantityNotPositive, PriceNotPositive);
  }

  /** The sale dialog accepts exactly a chosen investor and stock and a
      positive quantity and price. */
  lemma SaleValidIff(f: SaleForm)
    ensures Failing(SaleChecks(f)) == [] <==>
      f.investor.Some? && f.stock.Some? && f.quantity > 0 && f.price > 0.0
  {
    FirstOfFour(f.investor.None?, f.stock.None?, f.quantity <= 0, f.price <= 0.0,
      InvestorMissing, StockMissing, QuantityNotPositive, PriceNotPositive);
  }

  // ---- Emission dialog ----

  /** `get_data` of the emission dialog, in its order: emitter, registrar,
      value, registration date, status. */
  datatype EmissionForm = EmissionForm(emitter: Option<int>, registrar: Option<int>, value: int, registered: Date, active: bool)

  /** The form read off the dialog's widgets. */
  function ReadEmission(emitters: Combo, registrars: Combo, value: int, registered: Date, active: bool): (f: EmissionForm)
    ensures f.emitter == CurrentData(emitters) && f.registrar == CurrentData(registrars)
  {
    EmissionForm(CurrentData(emitters), CurrentData(registrars), value, registered, active)
  }

  datatype EmissionError = EmitterMissing | RegistrarMissing | ValueNotPositive

  function EmissionChecks(f: EmissionForm): seq<Check<EmissionError>> {
    [Check(f.emitter.None?, EmitterMissing), Check(f.registrar.None?, RegistrarMissing),
     Check(f.value <= 0, ValueNotPositive)]
  }

  datatype EmissionField = EmitterBox | RegistrarBox | ValueBox

  /** The focus chain of `accept_data`. */
  function EmissionFocus(f: EmissionForm): (r: Option<EmissionField>)
    ensures r == Some(EmitterBox) <==> f.emitter.None?
  {
    if f.emitter.None? then Some(EmitterBox)
    else if f.registrar.None? then Some(RegistrarBox)
    else if f.value <= 0 then Some(ValueBox)
    else None
  }

  function EmissionFieldError(field: EmissionField): EmissionError {
    match field
    case EmitterBox => EmitterMissing
    case RegistrarBox => RegistrarMissing
    case ValueBox => ValueNotPositive
  }

  lemma FirstOfThree<E(!new)>(b0: bool, b1: bool, b2: bool, e0: E, e1: E, e2: E)
    ensures var r := Failing([Check(b0, e0), Check(b1, e1), Check(b2, e2)]);
      (r == [] <==> !b0 && !b1 && !b2)
      && (r != [] ==> r[0] == (if b0 then e0 else if b1 then e1 else e2))
  {
    var c := [Check(b0, e0), Check(b1, e1), Check(b2, e2)];
    assert c[1..] == [Check(b1, e1), Check(b2, e2)];
    assert c[1..][1..] == [Check(b2, e2)];
    assert c[1..][1..][1..] == [];
    FailingCons(c);
    FailingCons(c[1..]);
    FailingCons(c[1..][1..]);
  }

  /** The emission dialog accepts exactly a chosen emitter and registrar and
      a positive value; refused, it focuses the field of the first message. */
  lemma EmissionValidIff(f: EmissionForm)
    ensures Failing(EmissionChecks(f)) == [] <==> f.emitter.Some? && f.registrar.Some? && f.value > 0
    ensures EmissionFocus(f).None? <==> Failing(EmissionChecks(f)) == []
    ensures EmissionFocus(f).Some? ==> EmissionFieldError(EmissionFocus(f).value) == Failing(EmissionChecks(f))[0]
  {
    FirstOfThree(f.emitter.None?, f.registrar.None?, f.value <= 0, EmitterMissing, RegistrarMissing, ValueNotPositive);
  }

  /** When the emitter list came back empty, OK stays disabled and no
      emitter can be read off the form, so OK would be refused anyway. */
  lemma EmptyEmittersRefused(emitters: Result<seq<(int, string)>>, registrars: Result<seq<(int, string)>>,
                             captions: (string, string, string, string), current: int,
                             value: int, registered: Date, active: bool)
    requires !ListLoaded(emitters)
    ensures !LoadPair(emitters, registrars, captions).2
    ensures var f := ReadEmission(LoadPair(emitters, registrars, captions).0.(current := current),
                                  LoadPair(emitters, registrars, captions).1, value, registered, active);
      EmitterMissing in Failing(EmissionChecks(f))
  {
    UnloadedOffersNothing(captions.0, captions.1, emitters, current);
    var f := ReadEmission(LoadPair(emitters, registrars, captions).0.(current := current),
                          LoadPair(emitters, registrars, captions).1, value, registered, active);
    assert EmissionChecks(f)[0] == Check(true, EmitterMissing);
  }

  /** Columns of ADD_EMISSION in the order of its placeholders. */
  const AddEmissionColumns: seq<string> := ["value", "status", "date_register", "emitter_id", "registrat_id"]

  /** The value the emissions tab sends for a column of the emissions table. */
  function EmissionColumn(f: EmissionForm, column: string): Param {
    if column == "value" then Some(Int(f.value))
    else if column == "status" then Some(Bool(f.active))
    else if column == "date_register" then Some(Day(f.registered))
    else if column == "emitter_id" then IdParam(f.emitter)
    else if column == "registrat_id" then IdParam(f.registrar)
    else None
  }

  /** The emissions tab reorders `get_data`'s tuple for ADD_EMISSION, and
      appends the selected id for UPDATE_EMISSION. */
  function AddEmissionParams(f: EmissionForm): (r: seq<Param>)
    ensures |r| == |AddEmissionColumns|
  {
    [Some(Int(f.value)), Some(Bool(f.active)), Some(Day(f.registered)), IdParam(f.emitter), IdParam(f.registrar)]
  }

  function UpdateEmissionParams(f: EmissionForm, id: int): (r: seq<Param>)
    ensures |r| == |AddEmissionColumns| + 1
    ensures r[|AddEmissionColumns|] == Some(Int(id))
  {
    AddEmissionParams(f) + [Some(Int(id))]
  }

  /** Every placeholder of ADD_EMISSION and of UPDATE_EMISSION's SET list
      receives the form's value for the column it names. */
  lemma EmissionAligned(f: EmissionForm, id: int)
    ensures forall k :: 0 <= k < |AddEmissionColumns| ==> AddEmissionParams(f)[k] == EmissionColumn(f, AddEmissionColumns[k])
    ensures forall k :: 0 <= k < |AddEmissionColumns| ==> UpdateEmissionParams(f, id)[k] == EmissionColumn(f, AddEmissionColumns[k])
  {
    var c := AddEmissionColumns;
    assert c[0] == "value" && c[1] == "status" && c[2] == "date_register" && c[3] == "emitter_id" && c[4] == "registrat_id";
  }

  // ---- Reports ----

  /** The report list's content column: text longer than 100 characters is
      cut to its first 97 and "..." is appended. */
  function Truncate(content: string): (r: string)
    ensures |r| <= 100
    ensures |content| <= 100 ==> r == content
    ensures |content| > 100 ==> |r| == 100 && r[..97] == content[..97] && r[97..] == "..."
  {
    if |content| > 100 then content[..97] + "..." else content
  }

  /** Truncating twice shows the same text, and a shown text always begins
      with the content's first characters. */
  lemma TruncateStable(content: string)
    ensures Truncate(Truncate(content)) == Truncate(content)
    ensures var n := if |content| < 97 then |content| else 97; Truncate(content)[..n] == content[..n]
  {
  }

  /** Two contents that share their first 97 characters and are both too
      long are shown alike. */
  lemma TruncateForgetsTail(a: string, b: string)
    requires |a| > 100 && |b| > 100 && a[..97] == b[..97]
    ensures Truncate(a) == Truncate(b)
  {
    var x := Truncate(a);
    var y := Truncate(b);
    assert x == x[..97] + x[97..];
    assert y == y[..97] + y[97..];
  }

  const OpeningLabel: string := "Открытие" + " вклада"
  const AdditionLabel: string := "Пополнение"
  const ClosingLabel: string := "Закрытие"
  const EarlyClosingLabel: string := "Досрочное" + " закрытие"

  /** The report list's transaction-type column: the four journal kinds get
      labels and any other text is shown as stored. */
  function TypeLabel(kind: string): (r: string)
    ensures kind != "opening" && kind != "addition" && kind != "closing" && kind != "early closing" ==> r == kind
  {
    if kind == "opening" then OpeningLabel
    else if kind == "addition" then AdditionLabel
    else if kind == "closing" then ClosingLabel
    else if kind == "early closing" then EarlyClosingLabel
    else kind
  }

  /** The kinds the deposit journal writes. */
  predicate JournalKind(kind: string) {
    kind == "opening" || kind == "addition" || kind == "closing" || kind == "early closing"
  }

  /** Every kind the deposit journal writes is translated: a credit kind or
      the closing kind of any status. */
  lemma JournalKindsLabelled(status: string)
    ensures JournalKind(Deposits.ClosingKind(status))
    ensures forall k :: Deposits.Credits(k) ==> JournalKind(k)
  {
  }

  /** The labels tell the four journal kinds apart, and none equals a raw kind. */
  lemma TypeLabelsDistinct(a: string, b: string)
    requires JournalKind(a) && JournalKind(b) && a != b
    ensures TypeLabel(a) != TypeLabel(b)
    ensures !JournalKind(TypeLabel(a))
  {
    assert OpeningLabel[0] == 'О' && AdditionLabel[0] == 'П' && ClosingLabel[0] == 'З' && EarlyClosingLabel[0] == 'Д';
  }

  /** The report dialog's fields: the raw content, and the transaction and
      employee boxes' data. */
  datatype ReportForm = ReportForm(content: string, transaction: Option<int>, employee: Option<int>)

  datatype ReportError = ContentMissing | TransactionMissing | EmployeeMissing

  /** `accept_data` tests the stripped content and the ids' truthiness, so
      an id of 0 counts as missing here. */
  function ReportChecks(f: ReportForm): seq<Check<ReportError>> {
    [Check(Strip(f.content) == "", ContentMissing), Check(!Truthy(f.transaction), TransactionMissing),
     Check(!Truthy(f.employee), EmployeeMissing)]
  }

  /** The report dialog accepts exactly non-blank content and non-zero
      transaction and employee ids. */
  lemma ReportValidIff(f: ReportForm)
    ensures Failing(ReportChecks(f)) == [] <==>
      Strip(f.content) != "" && f.transaction.Some? && f.transaction.value != 0
      && f.employee.Some? && f.employee.value != 0
  {
    FirstOfThree(Strip(f.content) == "", !Truthy(f.transaction), !Truthy(f.employee),
      ContentMissing, TransactionMissing, EmployeeMissing);
  }

  /** The sale dialog tests `is None` where the report dialog tests `not`:
      an id of 0 passes one and fails the other. */
  lemma ZeroIdDiffers(content: string, quantity: int, price: real)
    requires Strip(content) != "" && quantity > 0 && price > 0.0
    ensures Failing(SaleChecks(SaleForm(Some(0), Some(0), quantity, price))) == []
    ensures Failing(ReportChecks(ReportForm(content, Some(0), Some(1)))) == [TransactionMissing]
  {
    SaleValidIff(SaleForm(Some(0), Some(0), quantity, price));
    var c := ReportChecks(ReportForm(content, Some(0), Some(1)));
    assert c[1..] == [Check(true, TransactionMissing), Check(false, EmployeeMissing)];
    assert c[1..][1..] == [Check(false, EmployeeMissing)];
    assert c[1..][1..][1..] == [];
  }
}
