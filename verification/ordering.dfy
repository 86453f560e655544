/** `ORDER BY`: a list of sort keys, each a column with a direction and a
    placement for NULLs, and the sort that puts a result in that order.

    PostgreSQL places NULLs last in ascending order and first in descending
    order unless the key says otherwise. Rows that tie on every key come out
    in an order SQL leaves unspecified; the model keeps them in their input
    order. String values are compared by code point. */
module Ordering {
  import opened Wrappers
  import opened Text
  import opened Dates
  import opened Sql
  import opened Slots

  function Rank(v: Value): nat {
    match v
    case Str(_) => 0
    case Int(_) => 1
    case Bool(_) => 2
    case Day(_) => 3
    case Num(_) => 4
  }

  /** A strict total order on values: by kind, then by the kind's own order. */
  predicate ValueLess(a: Value, b: Value) {
    if Rank(a) != Rank(b) then Rank(a) < Rank(b)
    else match (a, b)
      case (Str(x), Str(y)) => StrLess(x, y)
      case (Int(x), Int(y)) => x < y
      case (Bool(x), Bool(y)) => !x && y
      case (Day(x), Day(y)) => Before(x, y)
      case (Num(x), Num(y)) => x < y
      case _ => false
  }

  lemma ValueLessStrictTotal(a: Value, b: Value, c: Value)
    ensures !ValueLess(a, a)
    ensures ValueLess(a, b) || a == b || ValueLess(b, a)
    ensures ValueLess(a, b) && ValueLess(b, c) ==> ValueLess(a, c)
  {
    if a.Str? {
      StrLessIrreflexive(a.s);
      if b.Str? {
        StrLessTrichotomy(a.s, b.s);
        if c.Str? && ValueLess(a, b) && ValueLess(b, c) {
          StrLessTransitive(a.s, b.s, c.s);
        }
      }
    }
  }

  datatype Dir = Asc | Desc
  datatype Nulls = NullsFirst | NullsLast

  datatype Key = Key(col: Column, dir: Dir, nulls: Nulls)

  /** `ORDER BY col` and `ORDER BY col DESC` with PostgreSQL's default NULL
      placement. */
  function AscKey(c: Column): Key {
    Key(c, Asc, NullsLast)
  }

  function DescKey(c: Column): Key {
    Key(c, Desc, NullsFirst)
  }

  /** `x` sorts strictly before `y` under one key. */
  predicate KeyLess(k: Key, x: Param, y: Param) {
    match (x, y)
    case (None, None) => false
    case (None, Some(_)) => k.nulls == NullsFirst
    case (Some(_), None) => k.nulls == NullsLast
    case (Some(a), Some(b)) => if k.dir == Asc then ValueLess(a, b) else ValueLess(b, a)
  }

  lemma KeyLessStrictTotal(k: Key, x: Param, y: Param, z: Param)
    ensures !KeyLess(k, x, x)
    ensures KeyLess(k, x, y) || x == y || KeyLess(k, y, x)
    ensures KeyLess(k, x, y) && KeyLess(k, y, z) ==> KeyLess(k, x, z)
  {
    if x.Some? && y.Some? && z.Some? {
      ValueLessStrictTotal(x.value, y.value, z.value);
      ValueLessStrictTotal(z.value, y.value, x.value);
    } else if x.Some? && y.Some? {
      ValueLessStrictTotal(x.value, y.value, x.value);
    } else if x.Some? {
      ValueLessStrictTotal(x.value, x.value, x.value);
    }
  }

  /** Row `a` may come before row `b`: the first key on which they differ
      puts `a` first, or they agree on every key. */
  predicate RowLe(keys: seq<Key>, a: Row, b: Row) {
    if |keys| == 0 then true
    else
      var x, y := Get(a, keys[0].col), Get(b, keys[0].col);
      KeyLess(keys[0], x, y) || (x == y && RowLe(keys[1..], a, b))
  }

  lemma {:induction false} RowLeTotal(keys: seq<Key>, a: Row, b: Row)
    ensures RowLe(keys, a, b) || RowLe(keys, b, a)
  {
    if |keys| > 0 {
      var x, y := Get(a, keys[0].col), Get(b, keys[0].col);
      KeyLessStrictTotal(keys[0], x, y, x);
      RowLeTotal(keys[1..], a, b);
    }
  }

  lemma {:induction false} RowLeTransitive(keys: seq<Key>, a: Row, b: Row, c: Row)
    requires RowLe(keys, a, b) && RowLe(keys, b, c)
    ensures RowLe(keys, a, c)
  {
    if |keys| > 0 {
      var x, y, z := Get(a, keys[0].col), Get(b, keys[0].col), Get(c, keys[0].col);
      KeyLessStrictTotal(keys[0], x, y, z);
      if x == y && y == z {
        RowLeTransitive(keys[1..], a, b, c);
      }
    }
  }

  predicate Sorted(keys: seq<Key>, rows: seq<Row>) {
    forall i, j :: 0 <= i < j < |rows| ==> RowLe(keys, rows[i], rows[j])
  }

  /** `x` placed before the first row it may precede. */
  function Insert(keys: seq<Key>, x: Row, rows: seq<Row>): (r: seq<Row>)
    ensures multiset(r) == multiset(rows) + multiset{x}
  {
    if |rows| == 0 then [x]
    else if RowLe(keys, x, rows[0]) then [x] + rows
    else
      assert rows == [rows[0]] + rows[1..];
      [rows[0]] + Insert(keys, x, rows[1..])
  }

  lemma SortedFirst(keys: seq<Key>, x: Row, rows: seq<Row>)
    requires Sorted(keys, rows)
    requires forall y :: y in rows ==> RowLe(keys, x, y)
    ensures Sorted(keys, [x] + rows)
  {
    forall i, j | 0 <= i < j < |rows| + 1 ensures RowLe(keys, ([x] + rows)[i], ([x] + rows)[j]) {
      if i == 0 {
        assert ([x] + rows)[j] == rows[j - 1];
      } else {
        assert ([x] + rows)[i] == rows[i - 1] && ([x] + rows)[j] == rows[j - 1];
      }
    }
  }

  /** Inserting into a sorted list keeps it sorted. */
  lemma {:induction false} InsertSorted(keys: seq<Key>, x: Row, rows: seq<Row>)
    requires Sorted(keys, rows)
    ensures Sorted(keys, Insert(keys, x, rows))
  {
    if |rows| == 0 {
    } else if RowLe(keys, x, rows[0]) {
      forall y | y in rows ensures RowLe(keys, x, y) {
        var j :| 0 <= j < |rows| && rows[j] == y;
        if j > 0 {
          RowLeTransitive(keys, x, rows[0], rows[j]);
        }
      }
      SortedFirst(keys, x, rows);
    } else {
      var rest := Insert(keys, x, rows[1..]);
      InsertSorted(keys, x, rows[1..]);
      RowLeTotal(keys, x, rows[0]);
      forall y | y in rest ensures RowLe(keys, rows[0], y) {
        assert y in multiset(rest);
        if y != x {
          assert y in multiset(rows[1..]);
          var j :| 0 <= j < |rows[1..]| && rows[1..][j] == y;
          assert rows[j + 1] == y;
        }
      }
      SortedFirst(keys, rows[0], rest);
    }
  }

  lemma SameMembers(a: seq<Row>, b: seq<Row>)
    requires multiset(a) == multiset(b)
    ensures forall x :: x in a <==> x in b
  {
    forall x ensures x in a <==> x in b {
      assert x in a <==> x in multiset(a);
      assert x in b <==> x in multiset(b);
    }
  }

  /** The rows of a result in `ORDER BY` order: the same rows, sorted. */
  function Sort(keys: seq<Key>, rows: seq<Row>): (r: seq<Row>)
    ensures multiset(r) == multiset(rows)
    ensures forall x :: x in r <==> x in rows
    ensures Sorted(keys, r)
  {
    if |rows| == 0 then []
    else
      assert rows == [rows[0]] + rows[1..];
      var rest := Sort(keys, rows[1..]);
      InsertSorted(keys, rows[0], rest);
      SameMembers(Insert(keys, rows[0], rest), rows);
      Insert(keys, rows[0], rest)
  }

  /** Two rows ordered by a key list with a first key on which they differ
      come out in that key's order. */
  lemma FirstKeyDecides(keys: seq<Key>, a: Row, b: Row)
    requires |keys| > 0 && KeyLess(keys[0], Get(a, keys[0].col), Get(b, keys[0].col))
    ensures RowLe(keys, a, b) && !RowLe(keys, b, a)
  {
    var x, y := Get(a, keys[0].col), Get(b, keys[0].col);
    KeyLessStrictTotal(keys[0], x, y, x);
  }
}
