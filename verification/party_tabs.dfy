/** The legal-entity, investor, emitter and registrar tabs: their search
    fields, the parameter tuples they bind to their list queries, and what
    the registrar tab shows about a licence. */
module PartyTabs {
  import opened Wrappers
  import opened Text
  import opened Dates
  import opened Sql
  import opened Slots
  import opened Ordering
  import opened Criteria
  import opened Queries

  // ---- Name and INN: the entity, investor and emitter tabs ----

  /** The name and INN search fields as criteria. */
  datatype NameInnFilter = NameInnFilter(name: Option<string>, inn: Option<string>)

  function ReadNameInn(nameText: string, innText: string): NameInnFilter {
    NameInnFilter(TextCriterion(nameText), TextCriterion(innText))
  }

  /** `(name_param, name_param, inn_param, inn_param)`. */
  function NameInnParams(c: NameInnFilter): seq<Param> {
    var n, i := LikeParam(c.name), LikeParam(c.inn);
    [n, n, i, i]
  }

  /** The WHERE slots the three list queries share: the name compared
      ignoring case, the INN as typed. */
  const NameInnSlots: seq<Slot> := [Optional(EntityName, LikeLower), Optional(Inn, LikePlain)]

  lemma NameInnQueries()
    ensures GetAllEntities.slots == NameInnSlots
    ensures GetInvestors.slots == NameInnSlots
    ensures GetEmitters.slots == NameInnSlots
  {
  }

  function NameInnBinder(c: NameInnFilter): Slot -> Param {
    (s: Slot) => if s.col == EntityName then LikeParam(c.name) else LikeParam(c.inn)
  }

  /** Each placeholder receives the criterion its slot compares. */
  lemma NameInnAligned(c: NameInnFilter)
    ensures NameInnParams(c) == BindSlots(NameInnSlots, NameInnBinder(c))
  {
    Bound2(Optional(EntityName, LikeLower), Optional(Inn, LikePlain), NameInnBinder(c));
  }

  predicate NameInnMatch(c: NameInnFilter, j: Row) {
    TextMatch(c.name, Get(j, EntityName), true) && TextMatch(c.inn, Get(j, Inn), false)
  }

  /** The bound WHERE clause is the name and INN filter. */
  lemma NameInnMeaning(c: NameInnFilter, j: Row)
    requires Literal(c.name) && Literal(c.inn)
    ensures |NameInnParams(c)| == TotalArity(NameInnSlots)
    ensures Keeps(NameInnSlots, NameInnParams(c), j) <==> NameInnMatch(c, j)
  {
    NameInnAligned(c);
    Keeps2(Optional(EntityName, LikeLower), Optional(Inn, LikePlain), NameInnBinder(c), j);
    LikeSlotMeaning(EntityName, c.name, j);
    LikeSlotMeaning(Inn, c.inn, j);
  }

  /** `load_data` of a name/INN tab: the rows of the query's joins meeting
      the typed criteria, in name order. */
  function LoadNameInn(q: Query, nameText: string, innText: string, rows: seq<Row>): (r: Result<seq<Row>>)
    requires q.slots == NameInnSlots
    ensures r.Ok? && Sorted(q.order, r.value)
    ensures var c := ReadNameInn(nameText, innText);
      Literal(c.name) && Literal(c.inn) ==>
        forall x :: x in r.value <==> x in rows && NameInnMatch(c, x)
    ensures var c := ReadNameInn(nameText, innText);
      Literal(c.name) && Literal(c.inn) ==>
        forall x :: multiset(r.value)[x] == if NameInnMatch(c, x) then multiset(rows)[x] else 0
  {
    var c := ReadNameInn(nameText, innText);
    NameInnAligned(c);
    NameInnFilters(c);
    Run(q, NameInnParams(c), rows)
  }

  lemma NameInnFilters(c: NameInnFilter)
    ensures |NameInnParams(c)| == TotalArity(NameInnSlots)
    ensures Literal(c.name) && Literal(c.inn) ==>
      forall x :: Keeps(NameInnSlots, NameInnParams(c), x) <==> NameInnMatch(c, x)
  {
    NameInnAligned(c);
    if Literal(c.name) && Literal(c.inn) {
      forall x ensures Keeps(NameInnSlots, NameInnParams(c), x) <==> NameInnMatch(c, x) {
        NameInnMeaning(c, x);
      }
    }
  }

  /** With both fields blank a name/INN tab lists every row, ordered. */
  lemma NameInnBlankListsAll(q: Query, nameText: string, innText: string, rows: seq<Row>)
    requires q.slots == NameInnSlots
    requires AllSpace(nameText) && AllSpace(innText)
    ensures LoadNameInn(q, nameText, innText, rows) == Ok(Sort(q.order, rows))
  {
    var c := ReadNameInn(nameText, innText);
    NameInnAligned(c);
    assert NameInnSlots[0] == Optional(EntityName, LikeLower) && NameInnSlots[1] == Optional(Inn, LikePlain);
    RunAllInactive(q, NameInnBinder(c), rows);
  }

  /** The entity tab with both fields blank lists every legal entity in
      name order. */
  lemma EntitiesBlankListsAll(rows: seq<Row>)
    ensures LoadNameInn(GetAllEntities, "", "", rows) == Ok(Sort([AscKey(EntityName)], rows))
  {
    NameInnBlankListsAll(GetAllEntities, "", "", rows);
  }

  /** The phone cell of the entity table: the stored phone, or `-` when it
      is NULL or empty. */
  function PhoneCell(phone: Option<string>): (r: string)
    ensures phone.None? || phone.value == "" ==> r == "-"
    ensures phone.Some? && phone.value != "" ==> r == phone.value
  {
    if phone.Some? && phone.value != "" then phone.value else "-"
  }

  // ---- The registrar tab ----

  datatype RegistrarFilter = RegistrarFilter(name: Option<string>, inn: Option<string>, licence: Option<string>)

  function ReadRegistrarForm(nameText: string, innText: string, licenceText: string): RegistrarFilter {
    RegistrarFilter(TextCriterion(nameText), TextCriterion(innText), TextCriterion(licenceText))
  }

  /** `(name, name, inn, inn, license, license)`. */
  function RegistrarParams(c: RegistrarFilter): seq<Param> {
    var n, i, l := LikeParam(c.name), LikeParam(c.inn), LikeParam(c.licence);
    [n, n, i, i, l, l]
  }

  function RegistrarBinder(c: RegistrarFilter): Slot -> Param {
    (s: Slot) => match s.col
      case EntityName => LikeParam(c.name)
      case Inn => LikeParam(c.inn)
      case _ => LikeParam(c.licence)
  }

  lemma RegistrarAligned(c: RegistrarFilter)
    ensures RegistrarParams(c) == BindSlots(GetRegistrars.slots, RegistrarBinder(c))
  {
    Bound3(Optional(EntityName, LikeLower), Optional(Inn, LikePlain), Optional(LicenceNum, LikeLower), RegistrarBinder(c));
  }

  /** Name and licence number are matched ignoring case, the INN as typed. */
  predicate RegistrarMatch(c: RegistrarFilter, j: Row) {
    TextMatch(c.name, Get(j, EntityName), true) && TextMatch(c.inn, Get(j, Inn), false)
    && TextMatch(c.licence, Get(j, LicenceNum), true)
  }

  lemma RegistrarMeaning(c: RegistrarFilter, j: Row)
    requires Literal(c.name) && Literal(c.inn) && Literal(c.licence)
    ensures |RegistrarParams(c)| == TotalArity(GetRegistrars.slots)
    ensures Keeps(GetRegistrars.slots, RegistrarParams(c), j) <==> RegistrarMatch(c, j)
  {
    RegistrarAligned(c);
    Keeps3(Optional(EntityName, LikeLower), Optional(Inn, LikePlain), Optional(LicenceNum, LikeLower), RegistrarBinder(c), j);
    LikeSlotMeaning(EntityName, c.name, j);
    LikeSlotMeaning(Inn, c.inn, j);
    LikeSlotMeaning(LicenceNum, c.licence, j);
  }

  /** `load_data` of the registrar tab. */
  function LoadRegistrars(nameText: string, innText: string, licenceText: string, rows: seq<Row>): (r: Result<seq<Row>>)
    ensures r.Ok? && Sorted(GetRegistrars.order, r.value)
    ensures var c := ReadRegistrarForm(nameText, innText, licenceText);
      Literal(c.name) && Literal(c.inn) && Literal(c.licence) ==>
        forall x :: x in r.value <==> x in rows && RegistrarMatch(c, x)
    ensures var c := ReadRegistrarForm(nameText, innText, licenceText);
      Literal(c.name) && Literal(c.inn) && Literal(c.licence) ==>
        forall x :: multiset(r.value)[x] == if RegistrarMatch(c, x) then multiset(rows)[x] else 0
  {
    var c := ReadRegistrarForm(nameText, innText, licenceText);
    RegistrarAligned(c);
    RegistrarFilters(c);
    Run(GetRegistrars, RegistrarParams(c), rows)
  }

  lemma RegistrarFilters(c: RegistrarFilter)
    ensures |RegistrarParams(c)| == TotalArity(GetRegistrars.slots)
    ensures Literal(c.name) && Literal(c.inn) && Literal(c.licence) ==>
      forall x :: Keeps(GetRegistrars.slots, RegistrarParams(c), x) <==> RegistrarMatch(c, x)
  {
    RegistrarAligned(c);
    if Literal(c.name) && Literal(c.inn) && Literal(c.licence) {
      forall x ensures Keeps(GetRegistrars.slots, RegistrarParams(c), x) <==> RegistrarMatch(c, x) {
        RegistrarMeaning(c, x);
      }
    }
  }

  lemma RegistrarsBlankListsAll(rows: seq<Row>)
    ensures LoadRegistrars("", "", "", rows) == Ok(Sort(GetRegistrars.order, rows))
  {
    var c := ReadRegistrarForm("", "", "");
    RegistrarAligned(c);
    RunAllInactive(GetRegistrars, RegistrarBinder(c), rows);
  }

  /** A licence is expired when it has an expiry date strictly before today. */
  predicate Expired(expiry: Option<Date>, today: Date) {
    expiry.Some? && Before(expiry.value, today)
  }

  /** A licence expiring today is still valid today; once expired, it stays
      expired on every later day; one without an expiry date never expires. */
  lemma ExpiryRule(expiry: Option<Date>, today: Date, later: Date)
    ensures expiry == Some(today) ==> !Expired(expiry, today)
    ensures Expired(expiry, today) && NotAfter(today, later) ==> Expired(expiry, later)
    ensures expiry.None? ==> !Expired(expiry, today)
  {
  }

  const NoExpiry: string := "Бессрочно"

  /** The expiry cell: the date as `YYYY-MM-DD`, or "Бессрочно" without one. */
  function ExpiryText(expiry: Option<Date>): (r: string)
    requires expiry.Some? ==> Valid(expiry.value)
    ensures r == NoExpiry <==> expiry.None?
    ensures expiry.Some? ==> |r| == 10 && r[4] == '-' && r[7] == '-'
  {
    if expiry.Some? then IsoText(expiry.value) else NoExpiry
  }

  /** Different expiry dates never display alike, and the cells of two
      dated licences sort as their dates do. */
  lemma ExpiryTextFaithful(a: Option<Date>, b: Option<Date>)
    requires a.Some? ==> Valid(a.value)
    requires b.Some? ==> Valid(b.value)
    ensures ExpiryText(a) == ExpiryText(b) <==> a == b
    ensures a.Some? && b.Some? ==> (StrLess(ExpiryText(a), ExpiryText(b)) <==> Before(a.value, b.value))
  {
    if a.Some? && b.Some? {
      IsoTextOrder(a.value, b.value);
    }
  }
}
