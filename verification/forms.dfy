/** The edit dialogs of the record tabs: what `get_data` reads from each
    form, the checks `accept_data` runs before closing it, and the
    uniqueness queries it runs only for a value that changed. */
module Forms {
  import opened Wrappers
  import opened Text
  import opened Dates
  import opened Sql
  import opened Slots
  import opened Queries

  // ---- Collected checks ----

  /** One check of `accept_data`: whether it fails, and what it reports. */
  datatype Check<E> = Check(fails: bool, error: E)

  /** Some failing check reports `e`. */
  predicate Reported<E(==)>(checks: seq<Check<E>>, e: E) {
    exists k :: 0 <= k < |checks| && checks[k].fails && checks[k].error == e
  }

  lemma ReportedStep<E>(checks: seq<Check<E>>, e: E)
    requires |checks| > 0
    ensures Reported(checks, e) <==> (checks[0].fails && checks[0].error == e) || Reported(checks[1..], e)
  {
    if Reported(checks, e) {
      var k :| 0 <= k < |checks| && checks[k].fails && checks[k].error == e;
      if k > 0 {
        assert checks[1..][k - 1] == checks[k];
      }
    }
    if Reported(checks[1..], e) {
      var k :| 0 <= k < |checks[1..]| && checks[1..][k].fails && checks[1..][k].error == e;
      assert checks[k + 1] == checks[1..][k];
    }
  }

  /** The messages of the failing checks, in the order the checks run. */
  function Failing<E(==,!new)>(checks: seq<Check<E>>): (r: seq<E>)
    ensures |r| <= |checks|
    ensures r == [] <==> forall k :: 0 <= k < |checks| ==> !checks[k].fails
    ensures forall e :: e in r <==> Reported(checks, e)
  {
    if |checks| == 0 then []
    else
      var rest := Failing(checks[1..]);
      assert forall k :: 1 <= k < |checks| ==> checks[k] == checks[1..][k - 1];
      assert forall e :: Reported(checks, e) <==> (checks[0].fails && checks[0].error == e) || Reported(checks[1..], e) by {
        forall e ensures Reported(checks, e) <==> (checks[0].fails && checks[0].error == e) || Reported(checks[1..], e) {
          ReportedStep(checks, e);
        }
      }
      (if checks[0].fails then [checks[0].error] else []) + rest
  }

  /** A dialog's answer to OK. */
  datatype Verdict<E> =
    | Invalid(errors: seq<E>)        // the form's own checks failed
    | Duplicate(taken: seq<E>)       // a uniqueness query found another record
    | CheckFailed                    // the database could not be asked
    | Accepted

  /** `fetchone()` of a uniqueness query returns a row. */
  function Taken(q: Query, col: Column, value: Value, id: Option<int>, rows: seq<Row>): (r: bool)
    requires CheckShape(q.slots, col)
    ensures r <==> exists x :: x in rows && Conflicts(x, col, value, id)
  {
    CheckExists(q, col, value, id, rows).value
  }

  lemma CheckQueryShape(table: Chunk, col: Column)
    ensures CheckShape(CheckQuery(table, col).slots, col)
  {
  }

  lemma CheckPhoneQueryShape(table: Chunk)
    ensures CheckShape(CheckPhoneQuery(table).slots, Phone)
  {
  }

  // ---- Legal entity ----

  datatype EntityInput = EntityInput(name: string, address: string, inn: string, phone: string, active: bool)
  datatype EntityData = EntityData(name: string, address: string, inn: string, phone: Option<string>, active: bool)

  /** `get_data`: every field stripped; a blank phone becomes `None`. */
  function ReadEntity(i: EntityInput): (d: EntityData)
    ensures d.name == Strip(i.name) && d.address == Strip(i.address) && d.inn == Strip(i.inn)
    ensures d.phone.None? <==> Strip(i.phone) == ""
    ensures d.phone.Some? ==> d.phone.value == Strip(i.phone)
    ensures d.active == i.active
  {
    var p := Strip(i.phone);
    EntityData(Strip(i.name), Strip(i.address), Strip(i.inn), if p == "" then None else Some(p), i.active)
  }

  predicate AllDigits(s: string) {
    forall k :: 0 <= k < |s| ==> IsDigit(s[k])
  }

  /** An INN is 10 (organisation) or 12 (individual) digits. */
  predicate InnWellFormed(inn: string) {
    (|inn| == 10 || |inn| == 12) && AllDigits(inn)
  }

  datatype EntityError = NameMissing | AddressMissing | InnMissing | InnMalformed | InnTaken | PhoneTaken

  function EntityChecks(d: EntityData): seq<Check<EntityError>> {
    [Check(d.name == "", NameMissing), Check(d.address == "", AddressMissing),
     Check(d.inn == "", InnMissing), Check(d.inn != "" && !InnWellFormed(d.inn), InnMalformed)]
  }

  /** The form's own checks pass exactly for a name, an address and a
      well-formed INN. */
  lemma EntityValidIff(d: EntityData)
    ensures Failing(EntityChecks(d)) == [] <==> d.name != "" && d.address != "" && InnWellFormed(d.inn)
  {
    var c := EntityChecks(d);
    assert c[0].fails == (d.name == "") && c[1].fails == (d.address == "");
    assert c[2].fails == (d.inn == "") && c[3].fails == (d.inn != "" && !InnWellFormed(d.inn));
  }

  /** The field that gets the focus after the form's own checks fail: the
      first empty one; a malformed INN moves no focus. */
  function EntityFocus(d: EntityData): (r: Option<EntityError>)
    ensures r.Some? ==> r.value in Failing(EntityChecks(d)) && r.value != InnMalformed
    ensures r.None? ==> forall e :: e in Failing(EntityChecks(d)) ==> e == InnMalformed
  {
    var c := EntityChecks(d);
    assert c[0].fails == (d.name == "") && c[1].fails == (d.address == "");
    assert c[2].fails == (d.inn == "") && c[3].fails == (d.inn != "" && !InnWellFormed(d.inn));
    if d.name == "" then Some(NameMissing)
    else if d.address == "" then Some(AddressMissing)
    else if d.inn == "" then Some(InnMissing)
    else None
  }

  /** The record being edited: its id and stored INN and phone, all `None`
      for a new one. */
  datatype Original = Original(id: Option<int>, inn: Option<string>, phone: Option<string>)

  /** INN uniqueness is asked about whenever the INN is not the stored one
      (always for a new record); phone uniqueness only for a given phone
      that changed. */
  predicate InnChecked(d: EntityData, o: Original) {
    Some(d.inn) != o.inn
  }

  predicate PhoneChecked(d: EntityData, o: Original) {
    d.phone.Some? && d.phone != o.phone
  }

  /** The INN query runs and finds another entity with this INN. */
  function InnConflict(d: EntityData, o: Original, rows: seq<Row>): (r: bool)
    ensures r <==> InnChecked(d, o) && exists x :: x in rows && Conflicts(x, Inn, Str(d.inn), o.id)
  {
    CheckQueryShape("legal_entities", Inn);
    InnChecked(d, o) && Taken(CheckEntityInnExists, Inn, Str(d.inn), o.id, rows)
  }

  /** The phone query runs and finds another entity with this phone. */
  function PhoneConflict(d: EntityData, o: Original, rows: seq<Row>): (r: bool)
    ensures r <==> PhoneChecked(d, o) && exists x :: x in rows && Conflicts(x, EntityPhone, Str(d.phone.value), o.id)
  {
    CheckQueryShape("legal_entities", EntityPhone);
    PhoneChecked(d, o) && Taken(CheckEntityPhoneExists, EntityPhone, Str(d.phone.value), o.id, rows)
  }

  /** The uniqueness messages, the INN's before the phone's. */
  function DuplicateList(inn: bool, phone: bool): (r: seq<EntityError>)
    ensures InnTaken in r <==> inn
    ensures PhoneTaken in r <==> phone
    ensures r == [] <==> !inn && !phone
    ensures forall e :: e in r ==> e == InnTaken || e == PhoneTaken
  {
    (if inn then [InnTaken] else []) + (if phone then [PhoneTaken] else [])
  }

  function EntityDuplicates(d: EntityData, o: Original, rows: seq<Row>): seq<EntityError> {
    DuplicateList(InnConflict(d, o, rows), PhoneConflict(d, o, rows))
  }

  /** `accept_data` of the entity dialog; `reachable` is whether the
      connection for the uniqueness queries opens. */
  function EntityVerdict(i: EntityInput, o: Original, reachable: bool, rows: seq<Row>): (r: Verdict<EntityError>)
    ensures r.Accepted? <==>
      var d := ReadEntity(i);
      d.name != "" && d.address != "" && InnWellFormed(d.inn) && reachable && EntityDuplicates(d, o, rows) == []
    ensures r.Invalid? ==> r.errors == Failing(EntityChecks(ReadEntity(i))) && r.errors != []
  {
    var d := ReadEntity(i);
    EntityValidIff(d);
    var errors := Failing(EntityChecks(d));
    if errors != [] then Invalid(errors)
    else if !reachable then CheckFailed
    else if EntityDuplicates(d, o, rows) != [] then Duplicate(EntityDuplicates(d, o, rows))
    else Accepted
  }

  /** Saving a record with its INN and phone unchanged never depends on the
      other records. */
  lemma EntityUnchangedSkipsChecks(i: EntityInput, o: Original, rows1: seq<Row>, rows2: seq<Row>)
    requires o.inn == Some(ReadEntity(i).inn) && (ReadEntity(i).phone.None? || ReadEntity(i).phone == o.phone)
    ensures EntityVerdict(i, o, true, rows1) == EntityVerdict(i, o, true, rows2)
  {
    assert EntityDuplicates(ReadEntity(i), o, rows1) == [];
    assert EntityDuplicates(ReadEntity(i), o, rows2) == [];
  }

  // ---- Client and employee ----

  datatype PersonInput = PersonInput(first: string, last: string, phone: string)

  /** `get_data`: the three fields stripped. */
  function ReadPerson(i: PersonInput): (d: PersonInput)
    ensures d == PersonInput(Strip(i.first), Strip(i.last), Strip(i.phone))
  {
    PersonInput(Strip(i.first), Strip(i.last), Strip(i.phone))
  }

  /** The separators the phone rule ignores. */
  const PhoneSeparators: set<char> := {' ', '(', ')', '-'}

  /** A phone passes when, without separators, it has exactly 12 characters
      (`+7` and ten digits, as the input mask lays them out). */
  predicate PhoneValid(phone: string) {
    phone != "" && |RemoveChars(phone, PhoneSeparators)| == 12
  }

  datatype PersonError = FirstMissing | LastMissing | PhoneInvalid | PhoneInUse

  function PersonChecks(d: PersonInput): seq<Check<PersonError>> {
    [Check(d.first == "", FirstMissing), Check(d.last == "", LastMissing), Check(!PhoneValid(d.phone), PhoneInvalid)]
  }

  lemma PersonValidIff(d: PersonInput)
    ensures Failing(PersonChecks(d)) == [] <==> d.first != "" && d.last != "" && PhoneValid(d.phone)
  {
    var c := PersonChecks(d);
    assert c[0].fails == (d.first == "") && c[1].fails == (d.last == "") && c[2].fails == !PhoneValid(d.phone);
  }

  /** Clients and employees differ only in the table their phone is
      checked against. */
  datatype PersonTable = ClientTable | EmployeeTable

  function PhoneCheckQuery(t: PersonTable): (q: Query)
    ensures CheckShape(q.slots, Phone)
  {
    CheckPhoneQueryShape("Client");
    CheckPhoneQueryShape("Employee");
    if t == ClientTable then CheckClientPhoneExists else CheckEmployeePhoneExists
  }

  /** `accept_data` of the client and employee dialogs: the connection is
      opened, and the phone looked up, only for a phone that changed. */
  function PersonVerdict(t: PersonTable, i: PersonInput, id: Option<int>, originalPhone: Option<string>,
                         reachable: bool, rows: seq<Row>): (r: Verdict<PersonError>)
    ensures var d := ReadPerson(i);
      r.Accepted? <==> (d.first != "" && d.last != "" && PhoneValid(d.phone)
        && (Some(d.phone) != originalPhone ==>
              reachable && !exists x :: x in rows && Conflicts(x, Phone, Str(d.phone), id)))
    ensures r.Duplicate? ==> r.taken == [PhoneInUse] && Some(ReadPerson(i).phone) != originalPhone
    ensures r.Invalid? ==> r.errors == Failing(PersonChecks(ReadPerson(i))) && r.errors != []
  {
    var d := ReadPerson(i);
    PersonValidIff(d);
    var errors := Failing(PersonChecks(d));
    if errors != [] then Invalid(errors)
    else if Some(d.phone) == originalPhone then Accepted
    else if !reachable then CheckFailed
    else if Taken(PhoneCheckQuery(t), Phone, Str(d.phone), id, rows) then Duplicate([PhoneInUse])
    else Accepted
  }

  /** Keeping the stored phone saves the record even with the database
      unreachable. */
  lemma PersonUnchangedPhoneOffline(t: PersonTable, i: PersonInput, id: Option<int>, rows: seq<Row>)
    requires var d := ReadPerson(i); d.first != "" && d.last != "" && PhoneValid(d.phone)
    ensures PersonVerdict(t, i, id, Some(ReadPerson(i).phone), false, rows) == Accepted
  {
  }

  /** The phone as the mask `+7 (999) 999-99-99` shows it once filled. */
  function MaskedPhone(digits: string): (r: string)
    requires |digits| == 10
  {
    "+7 (" + digits[..3] + ") " + digits[3..6] + "-" + digits[6..8] + "-" + digits[8..]
  }

  lemma MaskSeparators()
    ensures RemoveChars("+7 (", PhoneSeparators) == "+7"
    ensures RemoveChars(") ", PhoneSeparators) == ""
    ensures RemoveChars("-", PhoneSeparators) == ""
  {
    var d := PhoneSeparators;
    RemoveCharsChar(' ', d);
    RemoveCharsChar('(', d);
    RemoveCharsChar(')', d);
    RemoveCharsChar('-', d);
    assert "+7" == ['+'] + ['7'] && RemoveChars("+7", d) == "+7";
    assert "+7 (" == "+7" + [' '] + ['('];
    RemoveCharsConcat("+7", [' '], d);
    RemoveCharsConcat("+7" + [' '], ['('], d);
    assert ") " == [')'] + [' '];
    RemoveCharsConcat([')'], [' '], d);
  }

  lemma DigitsKept(x: string)
    requires AllDigits(x)
    ensures RemoveChars(x, PhoneSeparators) == x
  {
    assert forall k :: 0 <= k < |x| ==> x[k] !in PhoneSeparators;
  }

  /** Appending a piece the rule keeps, or one it drops entirely. */
  lemma AppendKept(x: string, y: string, rx: string)
    requires RemoveChars(x, PhoneSeparators) == rx && AllDigits(y)
    ensures RemoveChars(x + y, PhoneSeparators) == rx + y
  {
    RemoveCharsConcat(x, y, PhoneSeparators);
    DigitsKept(y);
  }

  lemma AppendDropped(x: string, y: string, rx: string)
    requires RemoveChars(x, PhoneSeparators) == rx && RemoveChars(y, PhoneSeparators) == ""
    ensures RemoveChars(x + y, PhoneSeparators) == rx
  {
    RemoveCharsConcat(x, y, PhoneSeparators);
    assert rx + "" == rx;
  }

  lemma MaskPartsWith(p1: string, p2: string, p3: string, a: string, b: string, c: string, e: string, plus: string)
    requires RemoveChars(p1, PhoneSeparators) == plus
    requires RemoveChars(p2, PhoneSeparators) == "" && RemoveChars(p3, PhoneSeparators) == ""
    requires AllDigits(a) && AllDigits(b) && AllDigits(c) && AllDigits(e)
    ensures RemoveChars(p1 + a + p2 + b + p3 + c + p3 + e, PhoneSeparators) == plus + a + b + c + e
  {
    AppendKept(p1, a, plus);
    AppendDropped(p1 + a, p2, plus + a);
    AppendKept(p1 + a + p2, b, plus + a);
    AppendDropped(p1 + a + p2 + b, p3, plus + a + b);
    AppendKept(p1 + a + p2 + b + p3, c, plus + a + b);
    AppendDropped(p1 + a + p2 + b + p3 + c, p3, plus + a + b + c);
    AppendKept(p1 + a + p2 + b + p3 + c + p3, e, plus + a + b + c);
  }

  lemma MaskParts(a: string, b: string, c: string, e: string)
    requires AllDigits(a) && AllDigits(b) && AllDigits(c) && AllDigits(e)
    ensures RemoveChars("+7 (" + a + ") " + b + "-" + c + "-" + e, PhoneSeparators) == "+7" + a + b + c + e
  {
    MaskSeparators();
    MaskPartsWith("+7 (", ") ", "-", a, b, c, e, "+7");
  }

  /** Every completely filled mask passes the phone rule. */
  lemma FilledMaskValid(digits: string)
    requires |digits| == 10 && AllDigits(digits)
    ensures RemoveChars(MaskedPhone(digits), PhoneSeparators) == "+7" + digits
    ensures PhoneValid(MaskedPhone(digits))
  {
    var a, b, c, e := digits[..3], digits[3..6], digits[6..8], digits[8..];
    assert AllDigits(a) && AllDigits(b) && AllDigits(c) && AllDigits(e);
    MaskParts(a, b, c, e);
    assert a + b + c + e == digits;
  }

  // ---- Document ----

  datatype DocumentInput = DocumentInput(
    passport: string, birth: Date, gender: string, client: Option<int>,
    agreement: Date, securityWord: string, active: bool)

  /** `get_data`: seven values in the column order of ADD_DOCUMENT. */
  function DocumentData(i: DocumentInput): (r: seq<Param>)
    ensures |r| == 7
    ensures r[0] == Some(Str(Strip(i.passport))) && r[5] == Some(Str(Strip(i.securityWord)))
    ensures r[6] == Some(Str(if i.active then "active" else "inactive"))
    ensures r[3].Some? <==> i.client.Some?
  {
    [Some(Str(Strip(i.passport))), Some(Day(i.birth)), Some(Str(i.gender)),
     if i.client.Some? then Some(Int(i.client.value)) else None,
     Some(Day(i.agreement)), Some(Str(Strip(i.securityWord))),
     Some(Str(if i.active then "active" else "inactive"))]
  }

  /** A passport passes when, without spaces, it has exactly 10 characters
      (series and number). */
  predicate PassportValid(passport: string) {
    passport != "" && |RemoveChars(passport, {' '})| == 10
  }

  datatype DocumentError = PassportInvalid | WordMissing | ClientMissing | BirthNotPast | AgreementInFuture

  function DocumentChecks(i: DocumentInput, today: Date): seq<Check<DocumentError>> {
    [Check(!PassportValid(Strip(i.passport)), PassportInvalid),
     Check(Strip(i.securityWord) == "", WordMissing),
     Check(!Truthy(i.client), ClientMissing),
     Check(NotAfter(today, i.birth), BirthNotPast),
     Check(Before(today, i.agreement), AgreementInFuture)]
  }

  lemma PassFive<E(!new)>(b0: bool, b1: bool, b2: bool, b3: bool, b4: bool, e0: E, e1: E, e2: E, e3: E, e4: E)
    ensures Failing([Check(b0, e0), Check(b1, e1), Check(b2, e2), Check(b3, e3), Check(b4, e4)]) == []
      <==> !b0 && !b1 && !b2 && !b3 && !b4
  {
    var c := [Check(b0, e0), Check(b1, e1), Check(b2, e2), Check(b3, e3), Check(b4, e4)];
    assert c[0].fails == b0 && c[1].fails == b1 && c[2].fails == b2 && c[3].fails == b3 && c[4].fails == b4;
  }

  /** The document dialog accepts exactly a valid passport, a security word,
      a client, a birth date before today and an agreement not after it. */
  lemma DocumentValidIff(i: DocumentInput, today: Date)
    ensures Failing(DocumentChecks(i, today)) == [] <==>
      PassportValid(Strip(i.passport)) && Strip(i.securityWord) != "" && Truthy(i.client)
      && Before(i.birth, today) && NotAfter(i.agreement, today)
  {
    PassFive(!PassportValid(Strip(i.passport)), Strip(i.securityWord) == "", !Truthy(i.client),
      NotAfter(today, i.birth), Before(today, i.agreement),
      PassportInvalid, WordMissing, ClientMissing, BirthNotPast, AgreementInFuture);
    BeforeTotal(today, i.birth);
    BeforeTotal(today, i.agreement);
  }

  /** Someone born today cannot sign. */
  lemma BornTodayRejected(i: DocumentInput, today: Date)
    requires i.birth == today
    ensures BirthNotPast in Failing(DocumentChecks(i, today))
  {
    var c := DocumentChecks(i, today);
    assert c[3].fails && c[3].error == BirthNotPast;
  }

  lemma OnlyLastReports<E(!new)>(b0: bool, b1: bool, b2: bool, b3: bool, b4: bool, e0: E, e1: E, e2: E, e3: E, e4: E)
    requires e4 != e0 && e4 != e1 && e4 != e2 && e4 != e3 && !b4
    ensures e4 !in Failing([Check(b0, e0), Check(b1, e1), Check(b2, e2), Check(b3, e3), Check(b4, e4)])
  {
    var c := [Check(b0, e0), Check(b1, e1), Check(b2, e2), Check(b3, e3), Check(b4, e4)];
    assert forall k :: 0 <= k < 5 ==> c[k].error != e4 || !c[k].fails;
  }

  /** An agreement dated today is no error. */
  lemma AgreementTodayAllowed(i: DocumentInput, today: Date)
    requires i.agreement == today
    ensures AgreementInFuture !in Failing(DocumentChecks(i, today))
  {
    OnlyLastReports(!PassportValid(Strip(i.passport)), Strip(i.securityWord) == "", !Truthy(i.client),
      NotAfter(today, i.birth), Before(today, i.agreement),
      PassportInvalid, WordMissing, ClientMissing, BirthNotPast, AgreementInFuture);
  }

  // ---- Registrar ----

  /** The expiry editor: whether it is enabled, and the valid date it shows
      (2000-01-01 when the dialog opens, `setDate(QDate())` being ignored). */
  datatype ExpiryField = ExpiryField(enabled: bool, date: ValidDate)

  /** `toggle_expiry_date`: ticking "no expiry" disables the editor and
      resets it with `setDate(QDate())`, which leaves the shown date as it
      was; unticking enables it again. */
  function ToggleExpiry(field: ExpiryField, noExpiry: bool): (r: ExpiryField)
    ensures r.enabled <==> !noExpiry
    ensures r.date == field.date
  {
    if noExpiry then ExpiryField(false, SetDate(field.date, NullDate)) else ExpiryField(true, field.date)
  }

  datatype RegistrarInput = RegistrarInput(
    registrarId: Option<int>, originalEntity: Option<int>, comboEntity: Option<int>,
    licence: string, noExpiry: bool, expiry: ExpiryField)

  datatype RegistrarData = RegistrarData(entity: Option<int>, licence: string, expiry: Option<Date>)

  /** The entity `get_data` returns: the stored one when editing (the combo
      is locked), the combo's when adding. */
  function RegistrarEntity(i: RegistrarInput): Option<int> {
    if Truthy(i.registrarId) then i.originalEntity else i.comboEntity
  }

  /** `get_data`: no expiry when the box is ticked, else the editor's date
      if `date()` is valid and non-null, which it always is. */
  function ReadRegistrar(i: RegistrarInput): (d: RegistrarData)
    ensures d.entity == (if Truthy(i.registrarId) then i.originalEntity else i.comboEntity)
    ensures d.licence == Strip(i.licence)
    ensures d.expiry.None? <==> i.noExpiry
    ensures !i.noExpiry ==> d.expiry == Some(i.expiry.date)
  {
    RegistrarData(RegistrarEntity(i), Strip(i.licence),
      if i.noExpiry then None else FilterDate(EditorValue(i.expiry.date)))
  }

  datatype RegistrarError = EntityMissing | LicenceMissing | ExpiryMissing | LicenceTaken

  /** The three checks of `accept_data` on the data read from the form. */
  function ChecksOf(i: RegistrarInput, d: RegistrarData): seq<Check<RegistrarError>> {
    [Check(!Truthy(i.registrarId) && d.entity.None?, EntityMissing),
     Check(d.licence == "", LicenceMissing),
     Check(!i.noExpiry && d.expiry.None?, ExpiryMissing)]
  }

  function RegistrarChecks(i: RegistrarInput): seq<Check<RegistrarError>> {
    ChecksOf(i, ReadRegistrar(i))
  }

  /** An entity is demanded only of a new registrar and a licence always;
      as written, the expiry date never fails, since the editor always
      holds one. */
  lemma RegistrarValidIff(i: RegistrarInput)
    ensures Failing(RegistrarChecks(i)) == [] <==>
      (Truthy(i.registrarId) || i.comboEntity.Some?) && Strip(i.licence) != ""
    ensures ExpiryMissing !in Failing(RegistrarChecks(i))
  {
    var c := RegistrarChecks(i);
    var d := ReadRegistrar(i);
    assert c[0].fails == (!Truthy(i.registrarId) && d.entity.None?);
    assert c[1].fails == (d.licence == "") && !c[2].fails;
    assert forall k :: 0 <= k < 3 ==> c[k].error != ExpiryMissing || !c[k].fails;
  }

  /** As written, ticking and unticking "no expiry" brings back the date
      shown before, and the form stores it without complaint. */
  lemma RecheckKeepsDate(i: RegistrarInput, before: ExpiryField)
    requires !i.noExpiry && i.expiry == ToggleExpiry(ToggleExpiry(before, true), false)
    ensures ReadRegistrar(i).expiry == Some(before.date)
    ensures ExpiryMissing !in Failing(RegistrarChecks(i))
  {
    RegistrarValidIff(i);
  }

  /** The reset the dialog evidently intends: ticking "no expiry" puts the
      editor on its blank minimum date. */
  function IntendedToggleExpiry(field: ExpiryField, noExpiry: bool): (r: ExpiryField)
    ensures r.enabled <==> !noExpiry
    ensures noExpiry ==> r.date == EditorMinimum
    ensures !noExpiry ==> r.date == field.date
  {
    if noExpiry then ExpiryField(false, EditorMinimum) else ExpiryField(true, field.date)
  }

  /** The reading the dialog evidently intends: the blank minimum is no
      date. */
  function IntendedReadRegistrar(i: RegistrarInput): (d: RegistrarData)
    ensures d.expiry.None? <==> i.noExpiry || i.expiry.date == EditorMinimum
    ensures d.expiry.Some? ==> d.expiry.value == i.expiry.date
  {
    RegistrarData(RegistrarEntity(i), Strip(i.licence),
      if i.noExpiry then None else IntendedFilter(i.expiry.date))
  }

  /** With the intended reading, the form passes exactly when the entity is
      known (new records), the licence is filled and a date other than the
      blank one is chosen unless the licence never expires. */
  lemma IntendedRegistrarValidIff(i: RegistrarInput)
    ensures Failing(ChecksOf(i, IntendedReadRegistrar(i))) == [] <==>
      (Truthy(i.registrarId) || i.comboEntity.Some?) && Strip(i.licence) != ""
      && (i.noExpiry || i.expiry.date != EditorMinimum)
  {
    var d := IntendedReadRegistrar(i);
    var c := ChecksOf(i, d);
    assert c[0].fails == (!Truthy(i.registrarId) && d.entity.None?);
    assert c[1].fails == (d.licence == "") && c[2].fails == (!i.noExpiry && d.expiry.None?);
  }

  /** With the intended reset and reading, unticking "no expiry" again
      leaves the blank date, so the form then demands a date. */
  lemma IntendedRecheckDemandsDate(i: RegistrarInput, before: ExpiryField)
    requires !i.noExpiry && i.expiry == IntendedToggleExpiry(IntendedToggleExpiry(before, true), false)
    ensures ExpiryMissing in Failing(ChecksOf(i, IntendedReadRegistrar(i)))
  {
    assert ChecksOf(i, IntendedReadRegistrar(i))[2].fails;
  }

  function RegistrarVerdict(i: RegistrarInput, originalLicence: Option<string>, reachable: bool, rows: seq<Row>): (r: Verdict<RegistrarError>)
    ensures r.Accepted? <==>
      Failing(RegistrarChecks(i)) == [] && reachable
      && (Some(Strip(i.licence)) != originalLicence ==>
            !exists x :: x in rows && Conflicts(x, LicenceNum, Str(Strip(i.licence)), i.registrarId))
    ensures r.Duplicate? ==> r.taken == [LicenceTaken] && Some(Strip(i.licence)) != originalLicence
  {
    CheckQueryShape("registrats", LicenceNum);
    var d := ReadRegistrar(i);
    var errors := Failing(RegistrarChecks(i));
    if errors != [] then Invalid(errors)
    else if !reachable then CheckFailed
    else if Some(d.licence) != originalLicence
      && Taken(CheckRegistrarLicenseExists, LicenceNum, Str(d.licence), i.registrarId, rows)
    then Duplicate([LicenceTaken])
    else Accepted
  }

  // ---- Stock ----

  datatype StockData = StockData(emission: Option<int>, ticker: string, nominal: real)

  /** `get_data`: the ticker stripped and upper-cased. */
  function ReadStock(emission: Option<int>, tickerText: string, nominal: real): (d: StockData)
    ensures d.ticker == Upper(Strip(tickerText)) && d.emission == emission && d.nominal == nominal
    ensures d.ticker == "" <==> Strip(tickerText) == ""
  {
    StockData(emission, Upper(Strip(tickerText)), nominal)
  }

  datatype StockError = EmissionMissing | TickerMissing | NominalNotPositive | TickerTaken

  function StockChecks(d: StockData): seq<Check<StockError>> {
    [Check(d.emission.None?, EmissionMissing), Check(d.ticker == "", TickerMissing),
     Check(d.nominal <= 0.0, NominalNotPositive)]
  }

  /** The field that gets the focus: the first failing one. */
  function StockFocus(d: StockData): (r: Option<StockError>)
    ensures r.None? <==> Failing(StockChecks(d)) == []
    ensures r.Some? ==> r == Some(Failing(StockChecks(d))[0])
  {
    var c := StockChecks(d);
    assert c[0].fails == d.emission.None? && c[1].fails == (d.ticker == "") && c[2].fails == (d.nominal <= 0.0);
    assert Failing(c) == (if c[0].fails then [c[0].error] else []) + Failing(c[1..]);
    assert Failing(c[1..]) == (if c[1].fails then [c[1].error] else []) + Failing(c[1..][1..]);
    assert c[1..][1..][0] == c[2];
    if d.emission.None? then Some(EmissionMissing)
    else if d.ticker == "" then Some(TickerMissing)
    else if d.nominal <= 0.0 then Some(NominalNotPositive)
    else None
  }

  /** The ticker is looked up whenever it is not the stored one: always for
      a new stock. */
  function StockVerdict(d: StockData, stockId: Option<int>, originalTicker: Option<string>, reachable: bool, rows: seq<Row>): (r: Verdict<StockError>)
    ensures r.Accepted? <==>
      d.emission.Some? && d.ticker != "" && d.nominal > 0.0 && reachable
      && (Some(d.ticker) != originalTicker ==> !exists x :: x in rows && Conflicts(x, Ticket, Str(d.ticker), stockId))
    ensures originalTicker.None? && r.Accepted? ==> !exists x :: x in rows && Conflicts(x, Ticket, Str(d.ticker), stockId)
  {
    CheckQueryShape("stocks", Ticket);
    var errors := Failing(StockChecks(d));
    var c := StockChecks(d);
    assert c[0].fails == d.emission.None? && c[1].fails == (d.ticker == "") && c[2].fails == (d.nominal <= 0.0);
    if errors != [] then Invalid(errors)
    else if !reachable then CheckFailed
    else if Some(d.ticker) != originalTicker && Taken(CheckStockTicketExists, Ticket, Str(d.ticker), stockId, rows)
    then Duplicate([TickerTaken])
    else Accepted
  }

  /** A stock keeping its ticker is saved without a uniqueness query,
      whatever the other stocks hold. */
  lemma StockUnchangedTicker(d: StockData, stockId: Option<int>, rows: seq<Row>)
    requires d.emission.Some? && d.ticker != "" && d.nominal > 0.0
    ensures StockVerdict(d, stockId, Some(d.ticker), true, rows) == Accepted
  {
  }
}
