/** The slice of PostgreSQL and psycopg2 the filter queries rely on: nullable
    values, three-valued logic, `LIKE` patterns, the comparison operators the
    WHERE clauses use, and the `%s` placeholder scan psycopg2 performs before
    it substitutes positional parameters. */
module Sql {
  import opened Wrappers
  import opened Text
  import opened Dates

  /** A non-NULL SQL value of one of the column types the queries touch.
      `Num` stands for `numeric`/`float` amounts, compared only by order. */
  datatype Value = Str(s: string) | Int(i: int) | Bool(b: bool) | Day(d: Date) | Num(r: real)

  /** A bound parameter or column value: `None` is SQL `NULL`. */
  type Param = Option<Value>

  /** Three-valued logic: a comparison with NULL is `Unknown`, and a WHERE
      clause keeps a row only when it evaluates to `True`. */
  datatype Truth = True | False | Unknown

  function FromBool(b: bool): (t: Truth)
    ensures t == True <==> b
    ensures t != Unknown
  {
    if b then True else False
  }

  function And(a: Truth, b: Truth): (r: Truth)
    ensures r == True <==> a == True && b == True
    ensures r == False <==> a == False || b == False
  {
    if a == False || b == False then False
    else if a == True && b == True then True
    else Unknown
  }

  function Or(a: Truth, b: Truth): (r: Truth)
    ensures r == True <==> a == True || b == True
    ensures r == False <==> a == False && b == False
  {
    if a == True || b == True then True
    else if a == False && b == False then False
    else Unknown
  }

  /** `p IS NULL`, which is never `Unknown`. */
  function IsNull(p: Param): (t: Truth)
    ensures t == True <==> p.None?
    ensures t != Unknown
  {
    FromBool(p.None?)
  }

  /** An optional identifier as a query parameter: `None` is sent as NULL. */
  function IdParam(id: Option<int>): (r: Param)
    ensures r.Some? <==> id.Some?
    ensures id.Some? ==> r == Some(Int(id.value))
  {
    if id.Some? then Some(Int(id.value)) else None
  }

  /** No `LIKE` wildcard occurs in `t`. */
  predicate NoWild(t: string) {
    '%' !in t && '_' !in t
  }

  /** `s LIKE p`: `%` matches any run of characters, `_` exactly one, every
      other pattern character itself. */
  predicate LikeMatch(s: string, p: string)
    decreases |s| + |p|
  {
    if |p| == 0 then |s| == 0
    else if p[0] == '%' then LikeMatch(s, p[1..]) || (|s| > 0 && LikeMatch(s[1..], p))
    else |s| > 0 && (p[0] == '_' || p[0] == s[0]) && LikeMatch(s[1..], p[1..])
  }

  /** The pattern `'%' + t + '%'` the screens build from a search text. */
  function Wrap(t: string): (p: string)
    ensures |p| == |t| + 2 && p[0] == '%' && p[|p| - 1] == '%'
  {
    "%" + t + "%"
  }

  lemma {:induction false} LikeAnything(s: string)
    ensures LikeMatch(s, "%")
  {
    if |s| > 0 {
      LikeAnything(s[1..]);
    }
  }

  /** `t%` with a wildcard-free `t` matches exactly the strings starting with `t`. */
  lemma {:induction false} LikePrefix(s: string, t: string)
    requires NoWild(t)
    ensures LikeMatch(s, t + "%") <==> |t| <= |s| && s[..|t|] == t
  {
    if |t| == 0 {
      assert t + "%" == "%";
      LikeAnything(s);
    } else {
      var p := t + "%";
      assert p[0] == t[0] && p[1..] == t[1..] + "%";
      assert NoWild(t[1..]) by {
        assert forall c :: c in t[1..] ==> c in t;
      }
      if |s| > 0 {
        LikePrefix(s[1..], t[1..]);
        if |t| <= |s| && s[..|t|] == t {
          assert s[1..][..|t| - 1] == s[..|t|][1..];
        }
        if s[0] == t[0] && |t| - 1 <= |s| - 1 && s[1..][..|t| - 1] == t[1..] {
          assert s[..|t|] == [s[0]] + s[1..][..|t| - 1];
          assert t == [t[0]] + t[1..];
        }
      }
    }
  }

  /** A leading `%` lets the rest of the pattern match any suffix. */
  lemma {:induction false} LikeLeading(s: string, q: string)
    ensures LikeMatch(s, "%" + q) <==> exists i :: 0 <= i <= |s| && LikeMatch(s[i..], q)
  {
    var p := "%" + q;
    assert p[0] == '%' && p[1..] == q;
    assert s[0..] == s;
    if |s| > 0 {
      LikeLeading(s[1..], q);
      if LikeMatch(s[1..], p) {
        var j :| 0 <= j <= |s| - 1 && LikeMatch(s[1..][j..], q);
        assert s[1..][j..] == s[j + 1..];
      }
      if exists i :: 0 <= i <= |s| && LikeMatch(s[i..], q) {
        var i :| 0 <= i <= |s| && LikeMatch(s[i..], q);
        if i > 0 {
          assert s[1..][i - 1..] == s[i..];
        }
      }
    }
  }

  /** `LIKE '%t%'` with a wildcard-free `t` is substring containment. */
  lemma LikeContains(s: string, t: string)
    requires NoWild(t)
    ensures LikeMatch(s, Wrap(t)) <==> IsSubstring(t, s)
  {
    assert Wrap(t) == "%" + (t + "%");
    LikeLeading(s, t + "%");
    if LikeMatch(s, Wrap(t)) {
      var i :| 0 <= i <= |s| && LikeMatch(s[i..], t + "%");
      LikePrefix(s[i..], t);
      assert s[i..][..|t|] == s[i..i + |t|];
      assert OccursAt(t, s, i);
    }
    if IsSubstring(t, s) {
      var i :| 0 <= i <= |s| && OccursAt(t, s, i);
      LikePrefix(s[i..], t);
      assert s[i..][..|t|] == s[i..i + |t|];
    }
  }

  /** `str(k)` for an integer: the text a table cell shows for an id. */
  function IdText(k: int): (r: string)
    ensures r != ""
  {
    if k < 0 then "-" + DecimalText(-k) else DecimalText(k)
  }

  /** Different ids show different texts. */
  lemma IdTextInjective(a: int, b: int)
    ensures IdText(a) == IdText(b) <==> a == b
  {
    if IdText(a) == IdText(b) {
      if a < 0 && b < 0 {
        assert IdText(a)[1..] == DecimalText(-a) && IdText(b)[1..] == DecimalText(-b);
        DecimalRoundTrip(-a);
        DecimalRoundTrip(-b);
      } else if a >= 0 && b >= 0 {
        DecimalRoundTrip(a);
        DecimalRoundTrip(b);
      }
    }
  }

  /** A quoted text compared with an integer column is converted by the
      server to an integer first; for a text written by `str()` of an
      integer that gives back the integer, so the column equals it exactly
      when the text is the column's id text. */
  predicate ShowsId(col: Param, text: string) {
    col.Some? && col.value.Int? && IdText(col.value.i) == text
  }

  /** The comparison a slot applies between a column and a parameter. */
  datatype Op =
    | LikeLower   // LOWER(col) LIKE LOWER(%s)
    | LikePlain   // col LIKE %s
    | Equal       // col = %s
    | EqualsText  // col = %s, an integer column against a quoted text
    | NotEqual    // col != %s
    | AtLeast     // col >= %s
    | AtMost      // col <= %s

  /** `a <= b` for two values of the same ordered type. */
  predicate ValueLe(a: Value, b: Value) {
    match (a, b)
    case (Int(x), Int(y)) => x <= y
    case (Num(x), Num(y)) => x <= y
    case (Day(x), Day(y)) => NotAfter(x, y)
    case _ => false
  }

  /** `col OP p`. NULL on either side gives `Unknown`; operands of types the
      operator does not relate give `False`. */
  function Compare(op: Op, col: Param, p: Param): (t: Truth)
    ensures t == Unknown <==> col.None? || p.None?
  {
    if col.None? || p.None? then Unknown
    else
      var c, v := col.value, p.value;
      match op
      case LikeLower => FromBool(c.Str? && v.Str? && LikeMatch(Lower(c.s), Lower(v.s)))
      case LikePlain => FromBool(c.Str? && v.Str? && LikeMatch(c.s, v.s))
      case Equal => FromBool(c == v)
      case EqualsText => FromBool(v.Str? && ShowsId(col, v.s))
      case NotEqual => FromBool(c != v)
      case AtLeast => FromBool(ValueLe(v, c))
      case AtMost => FromBool(ValueLe(c, v))
  }

  /** Against the text of an id, `col = %s` holds exactly on that id. */
  lemma CompareIdText(k: int, col: Param)
    ensures Compare(EqualsText, col, Some(Str(IdText(k)))) == True <==> col == Some(Int(k))
  {
    if col.Some? && col.value.Int? {
      IdTextInjective(col.value.i, k);
    }
  }

  lemma LowerWrap(t: string)
    ensures Lower(Wrap(t)) == Wrap(Lower(t))
  {
    LowerConcat("%" + t, "%");
    LowerConcat("%", t);
  }

  lemma LowerNoWild(t: string)
    requires NoWild(t)
    ensures NoWild(Lower(t))
  {
    CaseKeepsChar(t, '%');
    CaseKeepsChar(t, '_');
  }

  /** A case-insensitive `LIKE '%t%'` is case-insensitive containment. */
  lemma LikeLowerContains(c: string, t: string)
    requires NoWild(t)
    ensures Compare(LikeLower, Some(Str(c)), Some(Str(Wrap(t)))) == True
            <==> IsSubstring(Lower(t), Lower(c))
  {
    LowerWrap(t);
    LowerNoWild(t);
    LikeContains(Lower(c), Lower(t));
  }

  /** A case-sensitive `LIKE '%t%'` is plain containment. */
  lemma LikePlainContains(c: string, t: string)
    requires NoWild(t)
    ensures Compare(LikePlain, Some(Str(c)), Some(Str(Wrap(t)))) == True <==> IsSubstring(t, c)
  {
    LikeContains(c, t);
  }

  /** Upper-casing a search text first never changes what a
      `LOWER(col) LIKE LOWER(%s)` comparison decides. */
  lemma LikeLowerIgnoresUpper(col: Param, t: string)
    ensures Compare(LikeLower, col, Some(Str(Upper(t)))) == Compare(LikeLower, col, Some(Str(t)))
  {
    LowerOfUpper(t);
  }

  /** The number of `%s` placeholders psycopg2 finds in a query text, or
      `None` when the text holds a `%` it cannot interpret (a lone `%` or
      `%` followed by anything but `s` or `%`); `%%` stands for a literal `%`. */
  function Placeholders(sql: string): (n: Option<nat>)
    ensures '%' !in sql ==> n == Some(0)
  {
    if |sql| == 0 then Some(0)
    else if sql[0] != '%' then Placeholders(sql[1..])
    else if |sql| == 1 then None
    else if sql[1] == 's' then
      match Placeholders(sql[2..])
      case Some(k) => Some(k + 1)
      case None => None
    else if sql[1] == '%' then Placeholders(sql[2..])
    else None
  }

  function AddCounts(a: Option<nat>, b: Option<nat>): Option<nat> {
    if a.Some? && b.Some? then Some(a.value + b.value) else None
  }

  /** Placeholder counts add up over a concatenation whose first part scans
      cleanly on its own. */
  lemma {:induction false} PlaceholdersConcat(a: string, b: string)
    requires Placeholders(a).Some?
    ensures Placeholders(a + b) == AddCounts(Placeholders(a), Placeholders(b))
  {
    if |a| == 0 {
      assert a + b == b;
    } else if a[0] != '%' {
      assert (a + b)[1..] == a[1..] + b;
      PlaceholdersConcat(a[1..], b);
    } else {
      assert (a + b)[2..] == a[2..] + b;
      PlaceholdersConcat(a[2..], b);
    }
  }

  lemma PlaceholderOne()
    ensures Placeholders("%s") == Some(1)
  {
    assert "%s"[2..] == "";
  }

  /** Literal SQL text as the application writes it: never a `%`, which
      psycopg2 would read as the start of a placeholder. */
  type Chunk = s: string | '%' !in s

  /** A query text as the code assembles it: literal text and `%s`
      placeholders. */
  datatype Piece = Lit(text: Chunk) | Hole

  function PieceText(p: Piece): string {
    match p
    case Lit(t) => t
    case Hole => "%s"
  }

  /** The text psycopg2 receives. */
  function Flatten(ps: seq<Piece>): string {
    if |ps| == 0 then "" else PieceText(ps[0]) + Flatten(ps[1..])
  }

  /** The number of placeholders written into a text. */
  function Holes(ps: seq<Piece>): nat {
    if |ps| == 0 then 0 else (if ps[0] == Hole then 1 else 0) + Holes(ps[1..])
  }

  lemma {:induction false} FlattenConcat(a: seq<Piece>, b: seq<Piece>)
    ensures Flatten(a + b) == Flatten(a) + Flatten(b)
  {
    if |a| == 0 {
      assert a + b == b;
    } else {
      assert (a + b)[0] == a[0] && (a + b)[1..] == a[1..] + b;
      FlattenConcat(a[1..], b);
    }
  }

  /** psycopg2 finds exactly the placeholders the code wrote. */
  lemma {:induction false} FlattenCount(ps: seq<Piece>)
    ensures Placeholders(Flatten(ps)) == Some(Holes(ps))
  {
    if |ps| > 0 {
      FlattenCount(ps[1..]);
      if ps[0] == Hole {
        PlaceholderOne();
      }
      PlaceholdersConcat(PieceText(ps[0]), Flatten(ps[1..]));
    }
  }

  /** Literal text around a part adds no placeholder. */
  lemma HolesAround(t: Chunk, ps: seq<Piece>, u: Chunk)
    ensures Holes([Lit(t)] + ps + [Lit(u)]) == Holes(ps)
  {
    HolesConcat([Lit(t)], ps);
    HolesConcat([Lit(t)] + ps, [Lit(u)]);
    assert Holes([Lit(u)]) == 0 by {
      assert [Lit(u)][1..] == [];
    }
  }

  lemma {:induction false} HolesConcat(a: seq<Piece>, b: seq<Piece>)
    ensures Holes(a + b) == Holes(a) + Holes(b)
  {
    if |a| == 0 {
      assert a + b == b;
    } else {
      assert (a + b)[0] == a[0] && (a + b)[1..] == a[1..] + b;
      HolesConcat(a[1..], b);
    }
  }

  /** psycopg2's complaint when a text holding `n` placeholders receives
      `k` parameters. */
  function Miscount(n: nat, k: nat): string {
    if n < k then "not all arguments" + " converted during" + " string formatting"
    else "tuple index" + " out of range"
  }

  /** The tuple sizes psycopg2 takes for a text holding `n` placeholders:
      exactly `n`, or any size when `n` is zero, because a text without
      placeholders is sent without formatting. */
  predicate Accepts(n: nat, k: nat) {
    n == 0 || n == k
  }

  /** What executing a text with a positional tuple does before the server
      sees it. psycopg2 formats the text only when it finds a placeholder
      or an escaped `%%` in it, so a text with none is sent as written and
      the tuple is ignored. Otherwise it refuses a format character it
      cannot interpret and a tuple whose size differs from the placeholder
      count. The result is the tuple the server receives. */
  function Bind(sql: string, params: seq<Param>): (r: Result<seq<Param>>)
    ensures r.Ok? <==> Placeholders(sql).Some? && Accepts(Placeholders(sql).value, |params|)
    ensures r.Ok? && Placeholders(sql) == Some(0) ==> r.value == []
    ensures r.Ok? && Placeholders(sql) != Some(0) ==> r.value == params
  {
    match Placeholders(sql)
    case None => Err("unsupported format character")
    case Some(n) =>
      if n == 0 then Ok([])
      else if n != |params| then Err(Miscount(n, |params|))
      else Ok(params)
  }
}
