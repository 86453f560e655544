/** A client's deposits: the form that opens or edits one, the status shown
    for each, the buttons the selection enables, and the lifecycle writes
    (open, edit, close or close early, top up), each committed together
    with its journal entry or rolled back with it. */
module Deposits {
  import opened Wrappers
  import opened Dates
  import opened Sql
  import opened Text

  // ---- Status labels and the buttons they enable ----

  const OpenLabel: string := "Открыт"

  /** The status column shows the three stored statuses in Russian and any
      other value as stored. */
  function StatusLabel(raw: string): (r: string)
    ensures raw != "open" && raw != "closed" && raw != "closed early" ==> r == raw
    ensures r == OpenLabel ==> raw == "open" || raw == OpenLabel
  {
    if raw == "open" then OpenLabel
    else if raw == "closed" then "Закрыт"
    else if raw == "closed early" then "Закрыт" + " досрочно"
    else raw
  }

  /** Only a deposit stored as `open` (or, literally, as the Russian label)
      is shown as open. */
  lemma ShownOpenIff(raw: string)
    ensures StatusLabel(raw) == OpenLabel <==> raw == "open" || raw == OpenLabel
  {
  }

  datatype DepositButtons = DepositButtons(edit: bool, close: bool, earlyClose: bool, topUp: bool, history: bool)

  /** `on_selection_changed`, given the status cell of the selected row, or
      `None` when nothing is selected. */
  function SelectionButtons(shown: Option<string>): (r: DepositButtons)
    ensures r.edit <==> shown == Some(OpenLabel)
    ensures r.close == r.edit && r.earlyClose == r.edit && r.topUp == r.edit
    ensures r.history <==> shown.Some?
  {
    match shown
    case None => DepositButtons(false, false, false, false, false)
    case Some(s) =>
      var isOpen := s == OpenLabel;
      DepositButtons(isOpen, isOpen, isOpen, isOpen, true)
  }

  /** Of a loaded row, only a deposit stored as open can be edited, closed
      or topped up; history needs only the selection. */
  lemma OnlyOpenDepositsChange(raw: string)
    ensures var r := SelectionButtons(Some(StatusLabel(raw)));
      (r.edit <==> raw == "open" || raw == OpenLabel) && r.history
  {
    ShownOpenIff(raw);
  }

  // ---- The deposit form ----

  /** What the deposit dialog holds when OK is pressed. */
  datatype DepositForm = DepositForm(
    amount: real, closeDate: Date, openDate: Date, rate: real,
    status: string, termMonths: nat, kind: string, client: Option<int>)

  datatype DepositError = AmountNotPositive | RateNegative | OpenInFuture | CloseNotAfterOpen | NoClient

  /** Position of each check in `accept_data`. */
  function Rank(e: DepositError): nat {
    match e
    case AmountNotPositive => 0
    case RateNegative => 1
    case OpenInFuture => 2
    case CloseNotAfterOpen => 3
    case NoClient => 4
  }

  /** The condition each message reports, stated on its own. */
  predicate Fails(f: DepositForm, today: Date, e: DepositError) {
    match e
    case AmountNotPositive => f.amount <= 0.0
    case RateNegative => f.rate < 0.0
    case OpenInFuture => Before(today, f.openDate)
    case CloseNotAfterOpen => NotAfter(f.closeDate, f.openDate)
    case NoClient => !Truthy(f.client)
  }

  function When(c: bool, e: DepositError): seq<DepositError> {
    if c then [e] else []
  }

  /** `accept_data`: every failing check, in the order the checks run. */
  function DepositErrors(f: DepositForm, today: Date): (r: seq<DepositError>)
    ensures forall e :: e in r <==> Fails(f, today, e)
    ensures forall i, j :: 0 <= i < j < |r| ==> Rank(r[i]) < Rank(r[j])
  {
    When(f.amount <= 0.0, AmountNotPositive)
    + When(f.rate < 0.0, RateNegative)
    + When(Before(today, f.openDate), OpenInFuture)
    + When(NotAfter(f.closeDate, f.openDate), CloseNotAfterOpen)
    + When(!Truthy(f.client), NoClient)
  }

  /** The dialog closes with Accepted exactly for a positive amount, a
      non-negative rate, an opening date not after today, a closing date
      after it and a client. */
  lemma AcceptIff(f: DepositForm, today: Date)
    ensures DepositErrors(f, today) == [] <==>
      f.amount > 0.0 && f.rate >= 0.0 && NotAfter(f.openDate, today)
      && Before(f.openDate, f.closeDate) && Truthy(f.client)
  {
    var r := DepositErrors(f, today);
    BeforeTotal(today, f.openDate);
    BeforeTotal(f.closeDate, f.openDate);
    if r != [] {
      assert r[0] in r && Fails(f, today, r[0]);
    } else {
      assert forall e :: !Fails(f, today, e);
      assert !Fails(f, today, AmountNotPositive) && !Fails(f, today, RateNegative);
      assert !Fails(f, today, OpenInFuture) && !Fails(f, today, CloseNotAfterOpen) && !Fails(f, today, NoClient);
    }
  }

  /** The term as the interval text the database receives. */
  function TermText(months: nat): (r: string)
    ensures |r| > 7 && r[|r| - 7..] == " months"
    ensures DecimalValue(r[..|r| - 7]) == months
  {
    var d := DecimalText(months);
    DecimalRoundTrip(months);
    assert (d + " months")[..|d|] == d;
    d + " months"
  }

  /** Columns of ADD_DEPOSIT in the order of its placeholders. */
  const AddColumns: seq<string> :=
    ["amount", "close_date", "open_date", "interest_rate", "status", "term", "type", "client_id"]

  /** UPDATE_DEPOSIT: the SET columns, then the id of the WHERE clause. */
  const UpdateColumns: seq<string> :=
    ["amount", "close_date", "open_date", "interest_rate", "status", "term", "type", "id"]

  /** `get_data`: one value per column of ADD_DEPOSIT. */
  function GetData(f: DepositForm): (r: seq<Param>)
    ensures |r| == |AddColumns|
    ensures r[0] == Some(Num(f.amount)) && r[3] == Some(Num(f.rate))
    ensures r[1] == Some(Day(f.closeDate)) && r[2] == Some(Day(f.openDate))
    ensures r[4] == Some(Str(f.status)) && r[6] == Some(Str(f.kind))
    ensures r[5] == Some(Str(TermText(f.termMonths)))
    ensures r[7] == IdParam(f.client)
  {
    [Some(Num(f.amount)), Some(Day(f.closeDate)), Some(Day(f.openDate)), Some(Num(f.rate)),
     Some(Str(f.status)), Some(Str(TermText(f.termMonths))), Some(Str(f.kind)), IdParam(f.client)]
  }

  /** `edit_deposit`: the form's values without the client, then the id. */
  function EditParams(f: DepositForm, id: int): (r: seq<Param>)
    ensures |r| == |UpdateColumns|
  {
    GetData(f)[..|GetData(f)| - 1] + [Some(Int(id))]
  }

  /** Each edit value lands in the column of the same name, the client is
      never sent, and the last placeholder gets the deposit id. */
  lemma EditAligned(f: DepositForm, id: int)
    ensures forall k :: 0 <= k < 7 ==> UpdateColumns[k] == AddColumns[k] && EditParams(f, id)[k] == GetData(f)[k]
    ensures EditParams(f, id)[7] == Some(Int(id))
    ensures IdParam(f.client) !in EditParams(f, id)[..7] || f.client.None?
  {
    var r := EditParams(f, id);
    if f.client.Some? {
      assert forall k :: 0 <= k < 7 ==> r[k] != Some(Int(f.client.value)) by {
        assert r[..7] == GetData(f)[..7];
      }
    }
  }

  // ---- The stored deposits and their journal ----

  datatype Deposit = Deposit(
    amount: real, closeDate: Option<Date>, openDate: Date, rate: real,
    status: string, term: string, kind: string, client: Option<int>)

  /** A Transaction row: the deposit, the amount, the clock reading and the
      operation. */
  datatype Entry = Entry(deposit: int, amount: real, at: int, kind: string)

  /** The Deposit and Transaction tables; `nextId` is the id the next insert
      returns. */
  datatype Bank = Bank(deposits: map<int, Deposit>, log: seq<Entry>, nextId: int)

  /** Where a database error, if any, interrupts a two-statement write. */
  datatype Fault = NoFault | FirstFails | SecondFails

  datatype Outcome = Skipped | Declined | NotFound | RolledBack | Committed

  /** Every id in use lies below the next one handed out. */
  predicate Fresh(b: Bank) {
    (forall id :: id in b.deposits ==> id < b.nextId)
    && (forall k :: 0 <= k < |b.log| ==> b.log[k].deposit < b.nextId)
  }

  /** The journal kinds that bring money in. */
  predicate Credits(kind: string) {
    kind == "opening" || kind == "addition"
  }

  function Credited(log: seq<Entry>, id: int): real {
    if |log| == 0 then 0.0
    else
      var e := log[|log| - 1];
      Credited(log[..|log| - 1], id) + (if e.deposit == id && Credits(e.kind) then e.amount else 0.0)
  }

  /** Every deposit's balance is the sum of its opening and top-up entries. */
  predicate Ledger(b: Bank) {
    forall id :: id in b.deposits ==> b.deposits[id].amount == Credited(b.log, id)
  }

  lemma {:induction false} CreditedUnused(log: seq<Entry>, id: int)
    requires forall k :: 0 <= k < |log| ==> log[k].deposit != id
    ensures Credited(log, id) == 0.0
  {
    if |log| > 0 {
      CreditedUnused(log[..|log| - 1], id);
    }
  }

  /** `add_deposit`: the new deposit (its status the disabled combo's first
      entry, `open`) and an `opening` entry of the entered amount, committed
      together; a cancelled or invalid form writes nothing, a database error
      rolls both back. */
  function AddDeposit(b: Bank, f: DepositForm, pressedOk: bool, today: Date, fault: Fault, now: int): (r: (Bank, Outcome))
    ensures r.1 == Committed <==> pressedOk && DepositErrors(f, today) == [] && fault == NoFault
    ensures r.1 != Committed ==> r.0 == b
    ensures r.1 == Committed ==>
      r.0.deposits == b.deposits[b.nextId := NewDeposit(f)]
      && r.0.log == b.log + [Entry(b.nextId, f.amount, now, "opening")]
      && r.0.deposits[b.nextId].amount > 0.0 && r.0.deposits[b.nextId].status == "open"
  {
    if !pressedOk || DepositErrors(f, today) != [] then (b, Declined)
    else if fault != NoFault then (b, RolledBack)
    else
      AcceptIff(f, today);
      (Bank(b.deposits[b.nextId := NewDeposit(f)], b.log + [Entry(b.nextId, f.amount, now, "opening")], b.nextId + 1),
       Committed)
  }

  function NewDeposit(f: DepositForm): Deposit {
    Deposit(f.amount, Some(f.closeDate), f.openDate, f.rate, "open", TermText(f.termMonths), f.kind, f.client)
  }

  lemma AddKeepsLedger(b: Bank, f: DepositForm, pressedOk: bool, today: Date, fault: Fault, now: int)
    requires Fresh(b) && Ledger(b)
    ensures Fresh(AddDeposit(b, f, pressedOk, today, fault, now).0)
    ensures Ledger(AddDeposit(b, f, pressedOk, today, fault, now).0)
  {
    var r := AddDeposit(b, f, pressedOk, today, fault, now);
    if r.1 == Committed {
      var log := r.0.log;
      assert log[..|log| - 1] == b.log;
      CreditedUnused(b.log, b.nextId);
      forall id | id in r.0.deposits
        ensures r.0.deposits[id].amount == Credited(log, id)
      {
        if id != b.nextId {
          assert Credited(log, id) == Credited(b.log, id);
        }
      }
    }
  }

  /** `edit_deposit`: the form's values replace the stored ones, except the
      client; a missing row is updated nowhere. */
  function EditDeposit(b: Bank, selected: Option<int>, f: Option<DepositForm>, fault: Fault): (r: (Bank, Outcome))
    ensures r.1 != Committed ==> r.0 == b
    ensures r.0.log == b.log && r.0.nextId == b.nextId
    ensures r.1 == Committed <==> Truthy(selected) && f.Some? && fault == NoFault
    ensures r.1 == Committed ==> r.0.deposits.Keys == b.deposits.Keys
    ensures r.1 == Committed && selected.value in b.deposits ==>
      r.0.deposits == b.deposits[selected.value := Edited(b.deposits[selected.value], f.value)]
      && r.0.deposits[selected.value].client == b.deposits[selected.value].client
  {
    if !Truthy(selected) then (b, Skipped)
    else if f.None? then (b, Declined)
    else if fault != NoFault then (b, RolledBack)
    else if selected.value in b.deposits then
      (b.(deposits := b.deposits[selected.value := Edited(b.deposits[selected.value], f.value)]), Committed)
    else (b, Committed)
  }

  function Edited(d: Deposit, f: DepositForm): Deposit {
    Deposit(f.amount, Some(f.closeDate), f.openDate, f.rate, f.status, TermText(f.termMonths), f.kind, d.client)
  }

  /** An edit writes no journal entry, so it keeps the balances consistent
      with the journal exactly when it leaves the amount as it was. */
  lemma EditLedgerIff(b: Bank, id: int, f: DepositForm)
    requires Ledger(b) && id in b.deposits && id != 0
    ensures Ledger(EditDeposit(b, Some(id), Some(f), NoFault).0) <==> f.amount == b.deposits[id].amount
  {
    var r := EditDeposit(b, Some(id), Some(f), NoFault).0;
    assert r.deposits[id].amount == f.amount;
  }

  /** An edit that keeps the stored amount, or any edit that does not
      commit, keeps the journal consistent and the ids fresh. */
  lemma EditKeepsLedger(b: Bank, selected: Option<int>, f: Option<DepositForm>, fault: Fault)
    requires Fresh(b) && Ledger(b)
    requires Truthy(selected) && f.Some? && selected.value in b.deposits ==>
      f.value.amount == b.deposits[selected.value].amount
    ensures Fresh(EditDeposit(b, selected, f, fault).0)
    ensures Ledger(EditDeposit(b, selected, f, fault).0)
  {
    var r := EditDeposit(b, selected, f, fault);
    if r.1 == Committed && selected.value in b.deposits {
      EditLedgerIff(b, selected.value, f.value);
    }
  }

  /** The journal kind that records a closing with the given status. */
  function ClosingKind(status: string): (k: string)
    ensures !Credits(k)
  {
    if status == "closed early" then "early closing" else "closing"
  }

  /** `_close_deposit`: after confirmation, the status and today's closing
      date, and a closing entry carrying the deposit's current amount. */
  function CloseDeposit(b: Bank, selected: Option<int>, confirmed: bool, status: string, fault: Fault, today: Date, now: int): (r: (Bank, Outcome))
    ensures r.1 != Committed ==> r.0 == b
    ensures r.1 == Committed <==> Truthy(selected) && confirmed && selected.value in b.deposits && fault == NoFault
    ensures r.1 == Committed ==>
      var id := selected.value;
      var d := b.deposits[id];
      r.0.deposits == b.deposits[id := d.(status := status, closeDate := Some(today))]
      && r.0.log == b.log + [Entry(id, d.amount, now, ClosingKind(status))]
      && r.0.deposits[id].amount == d.amount
  {
    if !Truthy(selected) then (b, Skipped)
    else if !confirmed then (b, Declined)
    else if selected.value !in b.deposits then (b, NotFound)
    else if fault != NoFault then (b, RolledBack)
    else
      var id := selected.value;
      var d := b.deposits[id];
      (b.(deposits := b.deposits[id := d.(status := status, closeDate := Some(today))],
          log := b.log + [Entry(id, d.amount, now, ClosingKind(status))]), Committed)
  }

  /** The two close buttons: a regular closing and an early one. */
  lemma CloseButtonsDiffer(b: Bank, selected: Option<int>, fault: Fault, today: Date, now: int)
    requires Truthy(selected) && selected.value in b.deposits && fault == NoFault
    ensures CloseDeposit(b, selected, true, "closed", fault, today, now).0.log[|b.log|].kind == "closing"
    ensures CloseDeposit(b, selected, true, "closed early", fault, today, now).0.log[|b.log|].kind == "early closing"
  {
  }

  lemma CloseKeepsLedger(b: Bank, selected: Option<int>, confirmed: bool, status: string, fault: Fault, today: Date, now: int)
    requires Fresh(b) && Ledger(b)
    ensures Fresh(CloseDeposit(b, selected, confirmed, status, fault, today, now).0)
    ensures Ledger(CloseDeposit(b, selected, confirmed, status, fault, today, now).0)
  {
    var r := CloseDeposit(b, selected, confirmed, status, fault, today, now);
    if r.1 == Committed {
      assert r.0.log[..|r.0.log| - 1] == b.log;
    }
  }

  /** `add_money`: the amount entered in the top-up dialog is added to the
      balance and journalled as an `addition`, both or neither. */
  function AddMoney(b: Bank, selected: Option<int>, amount: Option<real>, fault: Fault, now: int): (r: (Bank, Outcome))
    ensures r.1 != Committed ==> r.0 == b
    ensures r.1 == Committed <==> Truthy(selected) && amount.Some? && fault == NoFault
    ensures r.1 == Committed ==>
      r.0.log == b.log + [Entry(selected.value, amount.value, now, "addition")]
      && r.0.deposits.Keys == b.deposits.Keys
      && (forall id :: id in b.deposits && id != selected.value ==> r.0.deposits[id] == b.deposits[id])
      && (selected.value in b.deposits ==>
            r.0.deposits[selected.value].amount == b.deposits[selected.value].amount + amount.value)
  {
    if !Truthy(selected) then (b, Skipped)
    else if amount.None? then (b, Declined)
    else if fault != NoFault then (b, RolledBack)
    else
      var id := selected.value;
      var deposits := if id in b.deposits then b.deposits[id := b.deposits[id].(amount := b.deposits[id].amount + amount.value)] else b.deposits;
      (b.(deposits := deposits, log := b.log + [Entry(id, amount.value, now, "addition")]), Committed)
  }

  lemma TopUpKeepsLedger(b: Bank, selected: Option<int>, amount: Option<real>, fault: Fault, now: int)
    requires Fresh(b) && Ledger(b)
    requires Truthy(selected) ==> selected.value in b.deposits
    ensures Fresh(AddMoney(b, selected, amount, fault, now).0)
    ensures Ledger(AddMoney(b, selected, amount, fault, now).0)
  {
    var r := AddMoney(b, selected, amount, fault, now);
    if r.1 == Committed {
      assert r.0.log[..|r.0.log| - 1] == b.log;
    }
  }

  /** The database a list of operations leaves behind, any faults included. */
  datatype Step =
    | Open(f: DepositForm, pressedOk: bool, today: Date, fault: Fault, now: int)
    | Edit(selected: Option<int>, form: Option<DepositForm>, fault: Fault)
    | Close(selected: Option<int>, confirmed: bool, status: string, fault: Fault, today: Date, now: int)
    | TopUp(selected: Option<int>, amount: Option<real>, fault: Fault, now: int)

  function Apply(b: Bank, s: Step): Bank {
    match s
    case Open(f, ok, today, fault, now) => AddDeposit(b, f, ok, today, fault, now).0
    case Edit(sel, form, fault) => EditDeposit(b, sel, form, fault).0
    case Close(sel, conf, status, fault, today, now) => CloseDeposit(b, sel, conf, status, fault, today, now).0
    case TopUp(sel, amount, fault, now) => AddMoney(b, sel, amount, fault, now).0
  }

  function ApplyAll(b: Bank, steps: seq<Step>): Bank
    decreases |steps|
  {
    if |steps| == 0 then b else ApplyAll(Apply(b, steps[0]), steps[1..])
  }

  /** What a step asks of the database it runs on: a top-up names a
      deposit that exists, as one picked from the freshly loaded table
      does, and an edit of a stored deposit keeps its amount. */
  predicate StepListed(b: Bank, s: Step) {
    && (s.TopUp? && Truthy(s.selected) ==> s.selected.value in b.deposits)
    && (s.Edit? && Truthy(s.selected) && s.form.Some? && s.selected.value in b.deposits ==>
          s.form.value.amount == b.deposits[s.selected.value].amount)
  }

  predicate StepsListed(b: Bank, steps: seq<Step>)
    decreases |steps|
  {
    |steps| == 0 || (StepListed(b, steps[0]) && StepsListed(Apply(b, steps[0]), steps[1..]))
  }

  /** With top-ups only of listed deposits and edits that keep the amount,
      no sequence of openings, edits, closings and top-ups ever lets a
      balance drift from its journal. */
  lemma {:induction false} LedgerHolds(b: Bank, steps: seq<Step>)
    requires Fresh(b) && Ledger(b) && StepsListed(b, steps)
    ensures Fresh(ApplyAll(b, steps)) && Ledger(ApplyAll(b, steps))
    decreases |steps|
  {
    if |steps| > 0 {
      var s := steps[0];
      match s {
        case Open(f, ok, today, fault, now) => AddKeepsLedger(b, f, ok, today, fault, now);
        case Edit(sel, form, fault) => EditKeepsLedger(b, sel, form, fault);
        case Close(sel, conf, status, fault, today, now) => CloseKeepsLedger(b, sel, conf, status, fault, today, now);
        case TopUp(sel, amount, fault, now) => TopUpKeepsLedger(b, sel, amount, fault, now);
      }
      LedgerHolds(Apply(b, s), steps[1..]);
    }
  }

  /** The condition on edits cannot be dropped: one opening of 100 followed
      by an edit to 250 leaves a balance its journal does not explain. */
  lemma EditBreaksLedger(f: DepositForm, d: Deposit)
    requires d.amount == 100.0 && f.amount == 250.0
    ensures var b := Bank(map[1 := d], [Entry(1, 100.0, 0, "opening")], 2);
      Fresh(b) && Ledger(b) && !Ledger(ApplyAll(b, [Edit(Some(1), Some(f), NoFault)]))
  {
    var b := Bank(map[1 := d], [Entry(1, 100.0, 0, "opening")], 2);
    var log := b.log;
    assert log[..|log| - 1] == [];
    assert Credited(log, 1) == 100.0;
    EditLedgerIff(b, 1, f);
    assert ApplyAll(b, [Edit(Some(1), Some(f), NoFault)]) == ApplyAll(Apply(b, Edit(Some(1), Some(f), NoFault)), []);
  }
}
