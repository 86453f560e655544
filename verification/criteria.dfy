/** Search criteria as the screens read them from their widgets, the
    parameters they turn them into, and what each filter means for a row,
    stated independently of SQL. */
module Criteria {
  import opened Wrappers
  import opened Text
  import opened Dates
  import opened Sql
  import opened Slots

  /** A text field as a criterion: stripped, and absent when blank. */
  function TextCriterion(raw: string): (r: Option<string>)
    ensures r.None? <==> AllSpace(raw)
    ensures r.Some? ==> r.value == Strip(raw) && |r.value| > 0
  {
    StripBlankIff(raw);
    var t := Strip(raw);
    if t == "" then None else Some(t)
  }

  /** A ticker field as a criterion: stripped, upper-cased, absent when blank. */
  function TickerCriterion(raw: string): (r: Option<string>)
    ensures r.None? <==> AllSpace(raw)
    ensures r.Some? ==> r.value == Upper(Strip(raw)) && |r.value| > 0
  {
    match TextCriterion(raw)
    case None => None
    case Some(t) => Some(Upper(t))
  }

  /** The `LIKE` parameter for a text criterion: `"%text%"`, or NULL. */
  function LikeParam(t: Option<string>): (p: Param)
    ensures p.None? <==> t.None?
  {
    match t
    case None => None
    case Some(s) => Some(Str(Wrap(s)))
  }

  function DateParam(d: Option<Date>): (p: Param)
    ensures p.None? <==> d.None?
  {
    match d
    case None => None
    case Some(x) => Some(Day(x))
  }

  /** What a text filter asks of a column: nothing when absent, otherwise
      that the column is non-NULL text containing the criterion (ignoring
      case when `caseless`). */
  predicate TextMatch(t: Option<string>, col: Param, caseless: bool) {
    t.None? ||
    (col.Some? && col.value.Str? &&
      if caseless then IsSubstring(Lower(t.value), Lower(col.value.s))
      else IsSubstring(t.value, col.value.s))
  }

  /** What a lower date bound asks of a column (inclusive). */
  predicate FromMatch(d: Option<Date>, col: Param) {
    d.None? || (col.Some? && col.value.Day? && NotAfter(d.value, col.value.d))
  }

  /** What an upper date bound asks of a column (inclusive). */
  predicate ToMatch(d: Option<Date>, col: Param) {
    d.None? || (col.Some? && col.value.Day? && NotAfter(col.value.d, d.value))
  }

  /** What an equality filter asks of a column. */
  predicate EqualMatch(v: Param, col: Param) {
    v.None? || (col.Some? && col == v)
  }

  /** A criterion holding no `LIKE` wildcard. */
  predicate Literal(t: Option<string>) {
    t.Some? ==> NoWild(t.value)
  }

  /** An optional `LIKE '%text%'` slot is the text filter. */
  lemma LikeSlotMeaning(c: Column, t: Option<string>, row: Row)
    requires Literal(t)
    ensures Holds(Optional(c, LikeLower), LikeParam(t), row) <==> TextMatch(t, Get(row, c), true)
    ensures Holds(Optional(c, LikePlain), LikeParam(t), row) <==> TextMatch(t, Get(row, c), false)
  {
    var col := Get(row, c);
    if t.Some? && col.Some? && col.value.Str? {
      LikeLowerContains(col.value.s, t.value);
      LikePlainContains(col.value.s, t.value);
    }
  }

  /** Optional `>=` and `<=` slots are the inclusive date bounds. */
  lemma DateSlotMeaning(c: Column, d: Option<Date>, row: Row)
    ensures Holds(Optional(c, AtLeast), DateParam(d), row) <==> FromMatch(d, Get(row, c))
    ensures Holds(Optional(c, AtMost), DateParam(d), row) <==> ToMatch(d, Get(row, c))
  {
  }

  /** An optional `=` slot is the equality filter. */
  lemma EqualSlotMeaning(c: Column, v: Param, row: Row)
    ensures Holds(Optional(c, Equal), v, row) <==> EqualMatch(v, Get(row, c))
  {
  }

  /** Upper-casing a criterion never changes a case-insensitive filter. */
  lemma UpperKeepsMatch(t: string, col: Param)
    ensures TextMatch(Some(Upper(t)), col, true) <==> TextMatch(Some(t), col, true)
  {
    LowerOfUpper(t);
  }

  lemma UpperKeepsLiteral(t: string)
    requires NoWild(t)
    ensures NoWild(Upper(t))
  {
    CaseKeepsChar(t, '%');
    CaseKeepsChar(t, '_');
  }

  /** The ticker criterion filters exactly like the stripped text would. */
  lemma TickerAsText(raw: string, col: Param)
    ensures TextMatch(TickerCriterion(raw), col, true) <==> TextMatch(TextCriterion(raw), col, true)
    ensures Literal(TextCriterion(raw)) ==> Literal(TickerCriterion(raw))
  {
    if TextCriterion(raw).Some? {
      var t := TextCriterion(raw).value;
      UpperKeepsMatch(t, col);
      if NoWild(t) {
        UpperKeepsLiteral(t);
      }
    }
  }

  /** Upper-casing a search text before wrapping it never changes what a
      `LOWER(col) LIKE LOWER(%s)` comparison decides, wildcards or not. */
  lemma UpperKeepsLikeLower(t: string, col: Param)
    ensures Compare(LikeLower, col, LikeParam(Some(Upper(t)))) == Compare(LikeLower, col, LikeParam(Some(t)))
  {
    LowerWrap(Upper(t));
    LowerWrap(t);
    LowerOfUpper(t);
  }

  /** A ticker field bound to a case-insensitive slot keeps exactly the rows
      the merely stripped text would. */
  lemma TickerSlotAsText(raw: string, c: Column, row: Row)
    ensures Holds(Optional(c, LikeLower), LikeParam(TickerCriterion(raw)), row)
        <==> Holds(Optional(c, LikeLower), LikeParam(TextCriterion(raw)), row)
  {
    if TextCriterion(raw).Some? {
      UpperKeepsLikeLower(TextCriterion(raw).value, Get(row, c));
    }
  }
}
