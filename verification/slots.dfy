/** Filter queries as declared lists of optional-predicate slots.

    Every list query of the application is a conjunction of slots such as
    `(col OP %s OR %s IS NULL)`, and every screen passes a flat positional
    parameter tuple that must line up with the slots placeholder by
    placeholder. A slot list determines both the WHERE text (and therefore
    its placeholder count) and, for a given parameter tuple, which rows the
    database keeps. */
module Slots {
  import opened Wrappers
  import opened Text
  import opened Sql

  /** The columns the WHERE clauses and ORDER BY clauses read, across all
      joined tables; a row of a joined result maps each to a value, and a
      column absent from the map is NULL (as after a LEFT JOIN miss). */
  datatype Column =
    | EntityName | Inn | EntityPhone | LicenceNum | RowId
    | EmitterName | RegistrarName | EmissionStatus | DateRegister | EmissionId
    | Ticket | InvestorName | InvestorInn | SaleDate
    | FirstName | LastName | Phone
    | DepositType | DepositStatus | Amount | ClientId | OpenDate
    | PassportNumber | AgreementStatus | AgreementDate
    | TxType | DepositId | TxDate
    | EmployeeLastName | ClientLastName | CreationDate | TotalAmount
    | ResultType | EmissionDate

  type Row = map<Column, Value>

  /** The value of a column in a row, `None` standing for NULL. */
  function Get(row: Row, c: Column): (v: Param)
    ensures v.Some? <==> c in row
  {
    if c in row then Some(row[c]) else None
  }

  /** The SQL text of a column as the WHERE and ORDER BY clauses name it
      (table aliases dropped). The columns are spelled out in three groups,
      each falling through to the next. */
  function ColumnSql(c: Column): Chunk {
    match c
    case EntityName => "entity_name"
    case Inn => "inn"
    case EntityPhone => "phone_number"
    case LicenceNum => "num_licence"
    case RowId => "id"
    case EmitterName => "le_em.entity_name"
    case RegistrarName => "le_reg.entity_name"
    case EmissionStatus => "status"
    case DateRegister => "date_register"
    case EmissionId => "emission_id"
    case Ticket => "ticket"
    case _ => PartyColumnSql(c)
  }

  function PartyColumnSql(c: Column): Chunk {
    match c
    case InvestorName => "le_inv.entity_name"
    case InvestorInn => "le_inv.inn"
    case SaleDate => "sale_date"
    case FirstName => "first_name"
    case LastName => "last_name"
    case Phone => "phone"
    case DepositType => "d.type"
    case DepositStatus => "d.status"
    case Amount => "amount"
    case ClientId => "client_id"
    case OpenDate => "open_date"
    case _ => RecordColumnSql(c)
  }

  function RecordColumnSql(c: Column): Chunk {
    match c
    case PassportNumber => "passport_number"
    case AgreementStatus => "agreement_status"
    case AgreementDate => "agreement_date"
    case TxType => "t.type"
    case DepositId => "deposit_id"
    case TxDate => "t.date"
    case EmployeeLastName => "e.last_name"
    case ClientLastName => "c.last_name"
    case CreationDate => "creation_date"
    case TotalAmount => "total_amount"
    case ResultType => "result_type"
    case EmissionDate => "emission_date"
    case _ => ""
  }

  /** One conjunct of a WHERE clause over column `col`; in the comments
      `c` stands for the column's SQL text. */
  datatype Slot =
    | Optional(col: Column, op: Op)              // (c OP %s OR %s IS NULL)
    | Unless(col: Column, op: Op)                // (%s IS NULL OR c OP %s)
    | NullOnly(col: Column)                                    // (%s IS NULL)
    | Sentinel(col: Column, op: Op, all: Chunk)  // (c OP %s OR %s = 'all')
    | Between(col: Column)                       // c BETWEEN %s AND %s
    | Required(col: Column, op: Op)              // c OP %s

  /** The number of `%s` a slot's text holds. */
  function Arity(s: Slot): nat {
    if s.NullOnly? || s.Required? then 1 else 2
  }

  function TotalArity(ss: seq<Slot>): nat {
    if |ss| == 0 then 0 else Arity(ss[0]) + TotalArity(ss[1..])
  }

  lemma {:induction false} TotalArityConcat(a: seq<Slot>, b: seq<Slot>)
    ensures TotalArity(a + b) == TotalArity(a) + TotalArity(b)
  {
    if |a| == 0 {
      assert a + b == b;
    } else {
      assert (a + b)[1..] == a[1..] + b;
      TotalArityConcat(a[1..], b);
    }
  }

  /** The truth value of one slot on a row, given the parameters bound to its
      placeholders in text order. */
  function EvalSlot(s: Slot, ps: seq<Param>, row: Row): Truth
    requires |ps| == Arity(s)
  {
    match s
    case Optional(c, op) => Or(Compare(op, Get(row, c), ps[0]), IsNull(ps[1]))
    case Unless(c, op) => Or(IsNull(ps[0]), Compare(op, Get(row, c), ps[1]))
    case NullOnly(_) => IsNull(ps[0])
    case Sentinel(c, op, all) => Or(Compare(op, Get(row, c), ps[0]), Compare(Equal, ps[1], Some(Str(all))))
    case Between(c) => And(Compare(AtLeast, Get(row, c), ps[0]), Compare(AtMost, Get(row, c), ps[1]))
    case Required(c, op) => Compare(op, Get(row, c), ps[0])
  }

  /** The WHERE clause: the conjunction of all slots, each consuming as many
      leading parameters as it has placeholders. */
  function Eval(ss: seq<Slot>, params: seq<Param>, row: Row): Truth
    requires |params| == TotalArity(ss)
  {
    if |ss| == 0 then True
    else
      var a := Arity(ss[0]);
      And(EvalSlot(ss[0], params[..a], row), Eval(ss[1..], params[a..], row))
  }

  /** The database keeps a row only when the WHERE clause is `True`. */
  predicate Keeps(ss: seq<Slot>, params: seq<Param>, row: Row)
    requires |params| == TotalArity(ss)
  {
    Eval(ss, params, row) == True
  }

  /** A WHERE clause is true exactly when every slot is true on its own
      share of the parameters. */
  lemma {:induction false} KeepsConcat(a: seq<Slot>, b: seq<Slot>, pa: seq<Param>, pb: seq<Param>, row: Row)
    requires |pa| == TotalArity(a) && |pb| == TotalArity(b)
    ensures |pa + pb| == TotalArity(a + b)
    ensures Keeps(a + b, pa + pb, row) <==> Keeps(a, pa, row) && Keeps(b, pb, row)
  {
    TotalArityConcat(a, b);
    if |a| > 0 {
      var k := Arity(a[0]);
      assert (a + b)[0] == a[0] && (a + b)[1..] == a[1..] + b;
      assert (pa + pb)[..k] == pa[..k] && (pa + pb)[k..] == pa[k..] + pb;
      KeepsConcat(a[1..], b, pa[k..], pb, row);
    } else {
      assert a + b == b && pa + pb == pb;
    }
  }

  /** The rows of `rows` the WHERE clause keeps, in their original order. */
  function Filter(ss: seq<Slot>, params: seq<Param>, rows: seq<Row>): (r: seq<Row>)
    requires |params| == TotalArity(ss)
    ensures |r| <= |rows|
    ensures forall x :: x in r <==> x in rows && Keeps(ss, params, x)
    ensures forall x :: multiset(r)[x] == if Keeps(ss, params, x) then multiset(rows)[x] else 0
  {
    if |rows| == 0 then []
    else
      assert rows == [rows[0]] + rows[1..];
      if Keeps(ss, params, rows[0]) then [rows[0]] + Filter(ss, params, rows[1..])
      else Filter(ss, params, rows[1..])
  }

  /** `n` copies of one parameter. */
  function Copies(v: Param, n: nat): (r: seq<Param>)
    ensures |r| == n && forall i :: 0 <= i < n ==> r[i] == v
  {
    seq(n, _ => v)
  }

  /** The tuple a screen builds when it binds value `f(s)` to every
      placeholder of slot `s`. */
  function BindSlots(ss: seq<Slot>, f: Slot -> Param): (r: seq<Param>)
    ensures |r| == TotalArity(ss)
  {
    if |ss| == 0 then [] else Copies(f(ss[0]), Arity(ss[0])) + BindSlots(ss[1..], f)
  }

  /** The meaning of a slot when every placeholder of it receives `v`:
      an optional slot is inactive on NULL and otherwise demands the
      comparison, a NULL-only slot holds exactly on NULL, a sentinel slot
      is inactive on its "all" value. */
  predicate Holds(s: Slot, v: Param, row: Row) {
    match s
    case Optional(c, op) => v.None? || Compare(op, Get(row, c), v) == True
    case Unless(c, op) => v.None? || Compare(op, Get(row, c), v) == True
    case NullOnly(_) => v.None?
    case Sentinel(c, op, all) => v == Some(Str(all)) || Compare(op, Get(row, c), v) == True
    case Between(c) => Compare(AtLeast, Get(row, c), v) == True && Compare(AtMost, Get(row, c), v) == True
    case Required(c, op) => Compare(op, Get(row, c), v) == True
  }

  lemma SlotHolds(s: Slot, v: Param, row: Row)
    ensures EvalSlot(s, Copies(v, Arity(s)), row) == True <==> Holds(s, v, row)
  {
  }

  /** A row passes a bound query exactly when every slot holds for the value
      bound to it. */
  lemma {:induction false} BoundMeaning(ss: seq<Slot>, f: Slot -> Param, row: Row)
    ensures Keeps(ss, BindSlots(ss, f), row) <==> forall i :: 0 <= i < |ss| ==> Holds(ss[i], f(ss[i]), row)
  {
    if |ss| > 0 {
      var p := BindSlots(ss, f);
      var a := Arity(ss[0]);
      assert p[..a] == Copies(f(ss[0]), a);
      assert p[a..] == BindSlots(ss[1..], f);
      SlotHolds(ss[0], f(ss[0]), row);
      BoundMeaning(ss[1..], f, row);
      assert forall i :: 1 <= i < |ss| ==> ss[i] == ss[1..][i - 1];
    }
  }

  /** A slot that accepts every row when bound to `v`. */
  predicate Inactive(s: Slot, v: Param) {
    ((s.Optional? || s.Unless? || s.NullOnly?) && v.None?)
    || (s.Sentinel? && v == Some(Str(s.all)))
  }

  lemma InactiveHolds(s: Slot, v: Param, row: Row)
    requires Inactive(s, v)
    ensures Holds(s, v, row)
  {
  }

  /** With every filter left empty the query keeps every row. */
  lemma {:induction false} AllInactiveKeepsAll(ss: seq<Slot>, f: Slot -> Param, rows: seq<Row>)
    requires forall i :: 0 <= i < |ss| ==> Inactive(ss[i], f(ss[i]))
    ensures Filter(ss, BindSlots(ss, f), rows) == rows
  {
    if |rows| > 0 {
      forall i | 0 <= i < |ss| ensures Holds(ss[i], f(ss[i]), rows[0]) {
        InactiveHolds(ss[i], f(ss[i]), rows[0]);
      }
      BoundMeaning(ss, f, rows[0]);
      AllInactiveKeepsAll(ss, f, rows[1..]);
    }
  }

  /** The index of the first placeholder of slot `i` in the query text. */
  function Offset(ss: seq<Slot>, i: nat): nat
    requires i <= |ss|
  {
    TotalArity(ss[..i])
  }

  lemma Arity3(a: Slot, b: Slot, c: Slot)
    ensures TotalArity([a, b, c]) == Arity(a) + Arity(b) + Arity(c)
  {
    assert [a, b, c][1..] == [b, c] && [b, c][1..] == [c] && [c][1..] == [];
    assert TotalArity([c]) == Arity(c);
    assert TotalArity([b, c]) == Arity(b) + Arity(c);
  }

  lemma Arity5(a: Slot, b: Slot, c: Slot, d: Slot, e: Slot)
    ensures TotalArity([a, b, c, d, e]) == Arity(a) + Arity(b) + Arity(c) + Arity(d) + Arity(e)
  {
    assert [a, b, c, d, e][1..] == [b, c, d, e] && [b, c, d, e][1..] == [c, d, e];
    Arity3(c, d, e);
  }

  lemma Arity7(a: Slot, b: Slot, c: Slot, d: Slot, e: Slot, f: Slot, g: Slot)
    ensures TotalArity([a, b, c, d, e, f, g])
            == Arity(a) + Arity(b) + Arity(c) + Arity(d) + Arity(e) + Arity(f) + Arity(g)
  {
    assert [a, b, c, d, e, f, g][1..] == [b, c, d, e, f, g] && [b, c, d, e, f, g][1..] == [c, d, e, f, g];
    Arity5(c, d, e, f, g);
  }

  lemma Bind3(a: Slot, b: Slot, c: Slot, f: Slot -> Param)
    ensures BindSlots([a, b, c], f) == Copies(f(a), Arity(a)) + Copies(f(b), Arity(b)) + Copies(f(c), Arity(c))
  {
    assert [a, b, c][1..] == [b, c] && [b, c][1..] == [c] && [c][1..] == [];
    assert BindSlots([c], f) == Copies(f(c), Arity(c)) + [];
    assert BindSlots([b, c], f) == Copies(f(b), Arity(b)) + BindSlots([c], f);
  }

  lemma Bind5(a: Slot, b: Slot, c: Slot, d: Slot, e: Slot, f: Slot -> Param)
    ensures BindSlots([a, b, c, d, e], f)
            == Copies(f(a), Arity(a)) + Copies(f(b), Arity(b)) + BindSlots([c, d, e], f)
  {
    assert [a, b, c, d, e][1..] == [b, c, d, e] && [b, c, d, e][1..] == [c, d, e];
  }

  lemma Bind7(a: Slot, b: Slot, c: Slot, d: Slot, e: Slot, g: Slot, h: Slot, f: Slot -> Param)
    ensures BindSlots([a, b, c, d, e, g, h], f)
            == Copies(f(a), Arity(a)) + Copies(f(b), Arity(b)) + BindSlots([c, d, e, g, h], f)
  {
    assert [a, b, c, d, e, g, h][1..] == [b, c, d, e, g, h] && [b, c, d, e, g, h][1..] == [c, d, e, g, h];
  }

  // ---- Short slot lists of two-placeholder slots, written out ----

  lemma Bound7(s0: Slot, s1: Slot, s2: Slot, s3: Slot, s4: Slot, s5: Slot, s6: Slot, f: Slot -> Param)
    requires Arity(s0) == Arity(s1) == Arity(s2) == Arity(s3) == Arity(s4) == Arity(s5) == Arity(s6) == 2
    ensures BindSlots([s0, s1, s2, s3, s4, s5, s6], f)
            == [f(s0), f(s0), f(s1), f(s1), f(s2), f(s2), f(s3), f(s3), f(s4), f(s4), f(s5), f(s5), f(s6), f(s6)]
  {
    Bind7(s0, s1, s2, s3, s4, s5, s6, f);
    Bind5(s2, s3, s4, s5, s6, f);
    Bind3(s4, s5, s6, f);
  }

  lemma Bound5(s0: Slot, s1: Slot, s2: Slot, s3: Slot, s4: Slot, f: Slot -> Param)
    requires Arity(s0) == Arity(s1) == Arity(s2) == Arity(s3) == Arity(s4) == 2
    ensures BindSlots([s0, s1, s2, s3, s4], f) == [f(s0), f(s0), f(s1), f(s1), f(s2), f(s2), f(s3), f(s3), f(s4), f(s4)]
  {
    Bind5(s0, s1, s2, s3, s4, f);
    Bind3(s2, s3, s4, f);
  }

  /** Seven slots, each bound to its own value, keep a row exactly when
      each slot holds on its own. */
  lemma Keeps7(s0: Slot, s1: Slot, s2: Slot, s3: Slot, s4: Slot, s5: Slot, s6: Slot, f: Slot -> Param, j: Row)
    ensures Keeps([s0, s1, s2, s3, s4, s5, s6], BindSlots([s0, s1, s2, s3, s4, s5, s6], f), j)
      <==> (Holds(s0, f(s0), j) && Holds(s1, f(s1), j) && Holds(s2, f(s2), j) && Holds(s3, f(s3), j)
        && Holds(s4, f(s4), j) && Holds(s5, f(s5), j) && Holds(s6, f(s6), j))
  {
    var ss := [s0, s1, s2, s3, s4, s5, s6];
    BoundMeaning(ss, f, j);
    assert ss[0] == s0 && ss[1] == s1 && ss[2] == s2 && ss[3] == s3 && ss[4] == s4 && ss[5] == s5 && ss[6] == s6;
  }

  lemma Keeps5(s0: Slot, s1: Slot, s2: Slot, s3: Slot, s4: Slot, f: Slot -> Param, j: Row)
    ensures Keeps([s0, s1, s2, s3, s4], BindSlots([s0, s1, s2, s3, s4], f), j)
      <==> (Holds(s0, f(s0), j) && Holds(s1, f(s1), j) && Holds(s2, f(s2), j) && Holds(s3, f(s3), j)
        && Holds(s4, f(s4), j))
  {
    var ss := [s0, s1, s2, s3, s4];
    BoundMeaning(ss, f, j);
    assert ss[0] == s0 && ss[1] == s1 && ss[2] == s2 && ss[3] == s3 && ss[4] == s4;
  }


  lemma Bound2(s0: Slot, s1: Slot, f: Slot -> Param)
    requires Arity(s0) == Arity(s1) == 2
    ensures BindSlots([s0, s1], f) == [f(s0), f(s0), f(s1), f(s1)]
  {
    assert [s0, s1][1..] == [s1] && [s1][1..] == [];
    assert BindSlots([s1], f) == Copies(f(s1), 2) + [];
  }

  lemma Bound3(s0: Slot, s1: Slot, s2: Slot, f: Slot -> Param)
    requires Arity(s0) == Arity(s1) == Arity(s2) == 2
    ensures BindSlots([s0, s1, s2], f) == [f(s0), f(s0), f(s1), f(s1), f(s2), f(s2)]
  {
    Bind3(s0, s1, s2, f);
  }

  lemma Bound4(s0: Slot, s1: Slot, s2: Slot, s3: Slot, f: Slot -> Param)
    requires Arity(s0) == Arity(s1) == Arity(s2) == Arity(s3) == 2
    ensures BindSlots([s0, s1, s2, s3], f) == [f(s0), f(s0), f(s1), f(s1), f(s2), f(s2), f(s3), f(s3)]
  {
    assert [s0, s1, s2, s3][1..] == [s1, s2, s3];
    Bind3(s1, s2, s3, f);
  }

  lemma Keeps2(s0: Slot, s1: Slot, f: Slot -> Param, j: Row)
    ensures Keeps([s0, s1], BindSlots([s0, s1], f), j) <==> (Holds(s0, f(s0), j) && Holds(s1, f(s1), j))
  {
    var ss := [s0, s1];
    BoundMeaning(ss, f, j);
    assert ss[0] == s0 && ss[1] == s1;
  }

  lemma Keeps3(s0: Slot, s1: Slot, s2: Slot, f: Slot -> Param, j: Row)
    ensures Keeps([s0, s1, s2], BindSlots([s0, s1, s2], f), j)
      <==> (Holds(s0, f(s0), j) && Holds(s1, f(s1), j) && Holds(s2, f(s2), j))
  {
    var ss := [s0, s1, s2];
    BoundMeaning(ss, f, j);
    assert ss[0] == s0 && ss[1] == s1 && ss[2] == s2;
  }

  lemma Keeps4(s0: Slot, s1: Slot, s2: Slot, s3: Slot, f: Slot -> Param, j: Row)
    ensures Keeps([s0, s1, s2, s3], BindSlots([s0, s1, s2, s3], f), j)
      <==> (Holds(s0, f(s0), j) && Holds(s1, f(s1), j) && Holds(s2, f(s2), j) && Holds(s3, f(s3), j))
  {
    var ss := [s0, s1, s2, s3];
    BoundMeaning(ss, f, j);
    assert ss[0] == s0 && ss[1] == s1 && ss[2] == s2 && ss[3] == s3;
  }

  /** Placeholder `k` of a bound query carries the value bound to the slot
      whose text holds that placeholder. */
  lemma {:induction false} BindAligned(ss: seq<Slot>, f: Slot -> Param, i: nat, k: nat)
    requires i < |ss| && Offset(ss, i) <= k < Offset(ss, i) + Arity(ss[i])
    ensures Offset(ss, i) + Arity(ss[i]) <= TotalArity(ss)
    ensures BindSlots(ss, f)[k] == f(ss[i])
  {
    assert ss == ss[..i] + ss[i..];
    TotalArityConcat(ss[..i], ss[i..]);
    assert ss[i..][0] == ss[i];
    BindConcat(ss[..i], ss[i..], f);
    assert ss[i..][1..] == ss[i + 1..];
  }

  lemma {:induction false} BindConcat(a: seq<Slot>, b: seq<Slot>, f: Slot -> Param)
    ensures BindSlots(a + b, f) == BindSlots(a, f) + BindSlots(b, f)
  {
    if |a| == 0 {
      assert a + b == b;
    } else {
      assert (a + b)[0] == a[0] && (a + b)[1..] == a[1..] + b;
      BindConcat(a[1..], b, f);
    }
  }

  // ---- The text of a WHERE clause ----

  /** The text of `c OP %s`. */
  function Cond(c: Column, op: Op): seq<Piece> {
    if op == LikeLower then [Lit("LOWER("), Lit(ColumnSql(c)), Lit(") LIKE LOWER("), Hole, Lit(")")]
    else [Lit(ColumnSql(c)), Lit(OpSql(op)), Hole]
  }

  function OpSql(op: Op): Chunk {
    match op
    case LikeLower => " LIKE "
    case LikePlain => " LIKE "
    case Equal => " = "
    case EqualsText => " = "
    case NotEqual => " != "
    case AtLeast => " >= "
    case AtMost => " <= "
  }

  function SlotSql(s: Slot): seq<Piece> {
    match s
    case Optional(c, op) => [Lit("(")] + Cond(c, op) + OrIsNull
    case Unless(c, op) => IsNullOr + Cond(c, op) + [Lit(")")]
    case NullOnly(_) => [Lit("("), Hole, Lit(" IS NULL)")]
    case Sentinel(c, op, all) => [Lit("(")] + Cond(c, op) + OrEquals(all)
    case Between(c) => [Lit(ColumnSql(c)), Lit(" BETWEEN "), Hole, Lit(" AND "), Hole]
    case Required(c, op) => Cond(c, op)
  }

  /** The fixed fragments around a condition. */
  const OrIsNull: seq<Piece> := [Lit(" OR "), Hole, Lit(" IS NULL)")]
  const IsNullOr: seq<Piece> := [Lit("("), Hole, Lit(" IS NULL OR ")]

  function OrEquals(all: Chunk): seq<Piece> {
    [Lit(" OR "), Hole, Lit(" = '"), Lit(all), Lit("')")]
  }

  /** The conditions after `WHERE 1=1`, each introduced by `AND`. */
  function AndChain(ss: seq<Slot>): seq<Piece> {
    if |ss| == 0 then [] else [Lit(" AND ")] + SlotSql(ss[0]) + AndChain(ss[1..])
  }

  /** `WHERE s0 AND s1 AND ...`, or nothing for an empty list. */
  function Where(ss: seq<Slot>): seq<Piece> {
    if |ss| == 0 then [] else [Lit(" WHERE ")] + SlotSql(ss[0]) + AndChain(ss[1..])
  }

  /** A slot's text holds exactly as many placeholders as it consumes. */
  lemma SlotCount(s: Slot)
    ensures Holes(SlotSql(s)) == Arity(s)
  {
    match s
    case Optional(c, op) => OptionalCount(c, op);
    case Unless(c, op) => UnlessCount(c, op);
    case NullOnly(c) => Holes3(Lit("("), Hole, Lit(" IS NULL)"));
    case Sentinel(c, op, all) => SentinelCount(c, op, all);
    case Between(c) => Holes5(Lit(ColumnSql(c)), Lit(" BETWEEN "), Hole, Lit(" AND "), Hole);
    case Required(c, op) => CondCount(c, op);
  }

  function One(p: Piece): nat {
    if p == Hole then 1 else 0
  }

  lemma Holes3(a: Piece, b: Piece, c: Piece)
    ensures Holes([a, b, c]) == One(a) + One(b) + One(c)
  {
    assert [a, b, c][1..] == [b, c] && [b, c][1..] == [c] && [c][1..] == [];
    assert Holes([c]) == One(c);
    assert Holes([b, c]) == One(b) + One(c);
  }

  lemma Holes5(a: Piece, b: Piece, c: Piece, d: Piece, e: Piece)
    ensures Holes([a, b, c, d, e]) == One(a) + One(b) + One(c) + One(d) + One(e)
  {
    assert [a, b, c, d, e][1..] == [b, c, d, e] && [b, c, d, e][1..] == [c, d, e];
    Holes3(c, d, e);
  }

  lemma CondCount(c: Column, op: Op)
    ensures Holes(Cond(c, op)) == 1
  {
    if op == LikeLower {
      Holes5(Lit("LOWER("), Lit(ColumnSql(c)), Lit(") LIKE LOWER("), Hole, Lit(")"));
    } else {
      Holes3(Lit(ColumnSql(c)), Lit(OpSql(op)), Hole);
    }
  }

  lemma OptionalCount(c: Column, op: Op)
    ensures Holes(SlotSql(Optional(c, op))) == 2
  {
    CondCount(c, op);
    Holes3(Lit(" OR "), Hole, Lit(" IS NULL)"));
    HolesConcat([Lit("(")], Cond(c, op));
    HolesConcat([Lit("(")] + Cond(c, op), OrIsNull);
  }

  lemma UnlessCount(c: Column, op: Op)
    ensures Holes(SlotSql(Unless(c, op))) == 2
  {
    CondCount(c, op);
    Holes3(Lit("("), Hole, Lit(" IS NULL OR "));
    HolesConcat(IsNullOr, Cond(c, op));
    HolesConcat(IsNullOr + Cond(c, op), [Lit(")")]);
  }

  lemma SentinelCount(c: Column, op: Op, all: Chunk)
    ensures Holes(SlotSql(Sentinel(c, op, all))) == 2
  {
    CondCount(c, op);
    Holes5(Lit(" OR "), Hole, Lit(" = '"), Lit(all), Lit("')"));
    HolesConcat([Lit("(")], Cond(c, op));
    HolesConcat([Lit("(")] + Cond(c, op), OrEquals(all));
  }

  /** The conditions after the first, each holding its slot's placeholders. */
  lemma {:induction false} AndChainCount(ss: seq<Slot>)
    ensures Holes(AndChain(ss)) == TotalArity(ss)
  {
    if |ss| > 0 {
      SlotCount(ss[0]);
      AndChainCount(ss[1..]);
      HolesConcat([Lit(" AND ")] + SlotSql(ss[0]), AndChain(ss[1..]));
      HolesConcat([Lit(" AND ")], SlotSql(ss[0]));
    }
  }

  /** A WHERE clause holds one placeholder per parameter its slots consume. */
  lemma WhereCount(ss: seq<Slot>)
    ensures Holes(Where(ss)) == TotalArity(ss)
  {
    if |ss| > 0 {
      SlotCount(ss[0]);
      AndChainCount(ss[1..]);
      HolesConcat([Lit(" WHERE ")] + SlotSql(ss[0]), AndChain(ss[1..]));
      HolesConcat([Lit(" WHERE ")], SlotSql(ss[0]));
    }
  }
}
