/** The client and employee windows: statements grown condition by
    condition from `WHERE 1=1`, and the phone pattern they send to
    PostgreSQL's POSIX regular-expression operator `~`. */
module PhoneSearch {
  import opened Wrappers
  import opened Text
  import opened Sql

  // ---- Statements assembled condition by condition ----

  /** One appended condition: its text and the value for its placeholder. */
  datatype Cond = Cond(text: seq<Piece>, value: Param)

  /** A condition the windows write: exactly one placeholder. */
  predicate OneHole(c: Cond) {
    Holes(c.text) == 1
  }

  function CondTexts(cs: seq<Cond>): seq<Piece> {
    if |cs| == 0 then [] else cs[0].text + CondTexts(cs[1..])
  }

  function CondValues(cs: seq<Cond>): (r: seq<Param>)
    ensures |r| == |cs|
    ensures forall k :: 0 <= k < |cs| ==> r[k] == cs[k].value
  {
    if |cs| == 0 then [] else [cs[0].value] + CondValues(cs[1..])
  }

  /** The conditions' texts hold one placeholder each. */
  lemma {:induction false} CondTextsCount(cs: seq<Cond>)
    requires forall k :: 0 <= k < |cs| ==> OneHole(cs[k])
    ensures Holes(CondTexts(cs)) == |cs|
  {
    if |cs| > 0 {
      CondTextsCount(cs[1..]);
      HolesConcat(cs[0].text, CondTexts(cs[1..]));
    }
  }

  /** The text psycopg2 receives: head, the conditions in order, the tail. */
  function StatementText(head: Chunk, cs: seq<Cond>, tail: Chunk): string {
    Flatten([Lit(head)] + CondTexts(cs) + [Lit(tail)])
  }

  /** However many conditions were appended, the text holds exactly one
      placeholder per parameter. */
  lemma StatementCount(head: Chunk, cs: seq<Cond>, tail: Chunk)
    requires forall k :: 0 <= k < |cs| ==> OneHole(cs[k])
    ensures Placeholders(StatementText(head, cs, tail)) == Some(|CondValues(cs)|)
  {
    CondTextsCount(cs);
    HolesAround(head, CondTexts(cs), tail);
    FlattenCount([Lit(head)] + CondTexts(cs) + [Lit(tail)]);
  }

  /** ` AND <col> = %s` with the record id. */
  function IdCond(col: Chunk, id: int): (c: Cond)
    ensures OneHole(c)
  {
    var t := [Lit(" AND " + col + " = "), Hole];
    assert t[1..] == [Hole] && [Hole][1..] == [];
    Cond(t, Some(Int(id)))
  }

  /** ` AND LOWER(<col>) LIKE LOWER(%s)` with `"%text%"`. */
  function LastNameCond(col: Chunk, text: string): (c: Cond)
    ensures OneHole(c)
  {
    var t := [Lit(" AND LOWER(" + col + ") LIKE LOWER("), Hole, Lit(")")];
    assert [Lit(")")][1..] == [] && Holes([Lit(")")]) == 0;
    assert [Hole, Lit(")")][1..] == [Lit(")")] && Holes([Hole, Lit(")")]) == 1;
    assert t[1..] == [Hole, Lit(")")];
    Cond(t, Some(Str(Wrap(text))))
  }

  /** ` AND <col> ~ %s` with the digit pattern. */
  function PhoneCond(col: Chunk, digits: string): (c: Cond)
    ensures OneHole(c)
  {
    var t := [Lit(" AND " + col + " ~ "), Hole];
    assert t[1..] == [Hole] && [Hole][1..] == [];
    Cond(t, Some(Str(PhonePattern(digits))))
  }

  // ---- The digit pattern ----

  /** `[^0-9]*d` for each digit `d`, in order. */
  function Steps(digits: string): (r: string)
    ensures |r| == 8 * |digits|
  {
    if |digits| == 0 then "" else "[^0-9]*" + [digits[0]] + Steps(digits[1..])
  }

  /** `'%'`, then a step per digit, then `'%'`, as the windows build it. */
  function PhonePattern(digits: string): (r: string)
    ensures |r| == 8 * |digits| + 2
    ensures r[0] == '%' && r[|r| - 1] == '%'
  {
    "%" + Steps(digits) + "%"
  }

  // ---- The client window ----

  const ClientsWindowHead: Chunk := "SELECT ..." + " FROM Client" + " WHERE 1=1"
  const ClientsWindowTail: Chunk := " ORDER BY last_name, first_name"

  /** The phone filter applies once the field differs from its initial mask
      text and holds a digit. */
  predicate ClientPhoneFiltered(phoneText: string, mask: string) {
    phoneText != mask && DigitsOf(phoneText) != ""
  }

  /** `refresh_table` of the client window: the client it was opened for
      (the id checked for truth), or else the filled search fields; the last
      name is taken as typed, without stripping. */
  function ClientsWindowConds(specificId: Option<int>, lastText: string, phoneText: string, mask: string): (r: seq<Cond>)
    ensures forall k :: 0 <= k < |r| ==> OneHole(r[k])
    ensures Truthy(specificId) ==> r == [IdCond("id", specificId.value)]
    ensures !Truthy(specificId) ==>
      |r| == (if lastText != "" then 1 else 0) + (if ClientPhoneFiltered(phoneText, mask) then 1 else 0)
    ensures !Truthy(specificId) && lastText != "" ==> r[0] == LastNameCond("last_name", lastText)
    ensures !Truthy(specificId) && ClientPhoneFiltered(phoneText, mask) ==>
      r[|r| - 1] == PhoneCond("phone", DigitsOf(phoneText))
  {
    if Truthy(specificId) then [IdCond("id", specificId.value)]
    else
      (if lastText != "" then [LastNameCond("last_name", lastText)] else [])
      + (if ClientPhoneFiltered(phoneText, mask) then [PhoneCond("phone", DigitsOf(phoneText))] else [])
  }

  /** For every combination of context and fields the client window's text
      holds one placeholder per parameter; with a client set, the only
      parameter is its id. */
  lemma ClientsWindowCount(specificId: Option<int>, lastText: string, phoneText: string, mask: string)
    ensures var cs := ClientsWindowConds(specificId, lastText, phoneText, mask);
      Placeholders(StatementText(ClientsWindowHead, cs, ClientsWindowTail)) == Some(|CondValues(cs)|)
      && (Truthy(specificId) ==> CondValues(cs) == [Some(Int(specificId.value))])
  {
    var cs := ClientsWindowConds(specificId, lastText, phoneText, mask);
    StatementCount(ClientsWindowHead, cs, ClientsWindowTail);
  }

  // ---- The employee window ----

  const EmployeesWindowHead: Chunk := "SELECT ..." + " FROM Employee e" + " WHERE 1=1"
  const EmployeesWindowTail: Chunk := " ORDER BY e.last_name, e.first_name"

  /** `refresh_table` of the employee window: as the client window, but the
      phone filter applies whenever the field differs from its mask text,
      digits or not. */
  function EmployeesWindowConds(specificId: Option<int>, lastText: string, phoneText: string, mask: string): (r: seq<Cond>)
    ensures forall k :: 0 <= k < |r| ==> OneHole(r[k])
    ensures Truthy(specificId) ==> r == [IdCond("e.id", specificId.value)]
    ensures !Truthy(specificId) ==>
      |r| == (if lastText != "" then 1 else 0) + (if phoneText != mask then 1 else 0)
    ensures !Truthy(specificId) && lastText != "" ==> r[0] == LastNameCond("e.last_name", lastText)
    ensures !Truthy(specificId) && phoneText != mask ==>
      r[|r| - 1] == PhoneCond("e.phone", DigitsOf(phoneText))
  {
    if Truthy(specificId) then [IdCond("e.id", specificId.value)]
    else
      (if lastText != "" then [LastNameCond("e.last_name", lastText)] else [])
      + (if phoneText != mask then [PhoneCond("e.phone", DigitsOf(phoneText))] else [])
  }

  lemma EmployeesWindowCount(specificId: Option<int>, lastText: string, phoneText: string, mask: string)
    ensures var cs := EmployeesWindowConds(specificId, lastText, phoneText, mask);
      Placeholders(StatementText(EmployeesWindowHead, cs, EmployeesWindowTail)) == Some(|CondValues(cs)|)
      && (Truthy(specificId) ==> CondValues(cs) == [Some(Int(specificId.value))])
  {
    var cs := EmployeesWindowConds(specificId, lastText, phoneText, mask);
    StatementCount(EmployeesWindowHead, cs, EmployeesWindowTail);
  }

  /** The text of a field under the input mask `+7 (999) 999-99-99;_`:
      Qt keeps the mask's literals in `text()`, so it always begins `+7`. */
  predicate MaskText(t: string) {
    |t| >= 2 && t[..2] == "+7"
  }

  /** The literal `7` makes the digits of a masked field never empty: they
      start with that `7`. */
  lemma MaskTextHasDigit(t: string)
    requires MaskText(t)
    ensures DigitsOf(t) != "" && DigitsOf(t)[0] == '7'
  {
    assert t == ['+'] + ['7'] + t[2..];
    DigitsConcat(['+'] + ['7'], t[2..]);
    DigitsConcat(['+'], ['7']);
    DigitsOfChar('+');
    DigitsOfChar('7');
  }

  /** The client window adds its phone condition only when digits were
      typed and the employee window whenever the field changed, but on every
      text the mask lets through the two windows send the same values. */
  lemma PhoneWindowsAgree(specificId: Option<int>, lastText: string, phoneText: string, mask: string)
    requires MaskText(phoneText)
    ensures ClientPhoneFiltered(phoneText, mask) <==> phoneText != mask
    ensures CondValues(ClientsWindowConds(specificId, lastText, phoneText, mask))
            == CondValues(EmployeesWindowConds(specificId, lastText, phoneText, mask))
  {
    MaskTextHasDigit(phoneText);
    var c := ClientsWindowConds(specificId, lastText, phoneText, mask);
    var e := EmployeesWindowConds(specificId, lastText, phoneText, mask);
    assert |c| == |e|;
    if !Truthy(specificId) {
      if lastText != "" {
        assert c[0].value == e[0].value;
      }
      if phoneText != mask {
        assert c[|c| - 1].value == e[|e| - 1].value;
      }
    }
    assert forall k :: 0 <= k < |c| ==> c[k].value == e[k].value;
  }

  // ---- What `~` does with the pattern ----

  /** The pattern's pieces as a POSIX regular expression reads them: a
      literal character, or `[^0-9]*` (any run of non-digits). */
  datatype Atom = Ch(c: char) | NonDigits

  function AtomText(a: Atom): string {
    match a
    case Ch(c) => [c]
    case NonDigits => "[^0-9]*"
  }

  function Render(atoms: seq<Atom>): string {
    if |atoms| == 0 then "" else AtomText(atoms[0]) + Render(atoms[1..])
  }

  function StepAtoms(digits: string): seq<Atom> {
    if |digits| == 0 then [] else [NonDigits, Ch(digits[0])] + StepAtoms(digits[1..])
  }

  /** The windows' pattern: `%` is an ordinary character to `~`. */
  function PatternAtoms(digits: string): seq<Atom> {
    [Ch('%')] + StepAtoms(digits) + [Ch('%')]
  }

  lemma {:induction false} RenderConcat(a: seq<Atom>, b: seq<Atom>)
    ensures Render(a + b) == Render(a) + Render(b)
  {
    if |a| > 0 {
      assert (a + b)[1..] == a[1..] + b;
      RenderConcat(a[1..], b);
    } else {
      assert a + b == b;
    }
  }

  lemma {:induction false} StepsRender(digits: string)
    ensures Render(StepAtoms(digits)) == Steps(digits)
  {
    if |digits| > 0 {
      StepsRender(digits[1..]);
      RenderConcat([NonDigits, Ch(digits[0])], StepAtoms(digits[1..]));
      assert [NonDigits, Ch(digits[0])][1..] == [Ch(digits[0])] && [Ch(digits[0])][1..] == [];
    }
  }

  /** The string the windows send is the rendering of these atoms. */
  lemma PatternRender(digits: string)
    ensures Render(PatternAtoms(digits)) == PhonePattern(digits)
  {
    StepsRender(digits);
    RenderConcat([Ch('%')], StepAtoms(digits));
    RenderConcat([Ch('%')] + StepAtoms(digits), [Ch('%')]);
    assert [Ch('%')][1..] == [];
  }

  /** The atoms match `s` from position `i` on (leftmost, unanchored end). */
  predicate MatchAt(s: string, i: nat, atoms: seq<Atom>)
    requires i <= |s|
    decreases |atoms|, |s| - i
  {
    if |atoms| == 0 then true
    else match atoms[0]
      case Ch(c) => i < |s| && s[i] == c && MatchAt(s, i + 1, atoms[1..])
      case NonDigits => MatchAt(s, i, atoms[1..]) || (i < |s| && !IsDigit(s[i]) && MatchAt(s, i + 1, atoms))
  }

  /** `s ~ pattern`: a match starting anywhere. */
  predicate Search(s: string, atoms: seq<Atom>) {
    exists i: nat :: i <= |s| && MatchAt(s, i, atoms)
  }

  /** As written: the pattern matches only a text holding a `%`. */
  lemma PatternNeedsPercent(s: string, digits: string)
    ensures Search(s, PatternAtoms(digits)) ==> '%' in s
  {
    if Search(s, PatternAtoms(digits)) {
      var i: nat :| i <= |s| && MatchAt(s, i, PatternAtoms(digits));
      assert PatternAtoms(digits)[0] == Ch('%');
    }
  }

  /** A phone as the dialogs' input mask stores it is never found, whatever
      digits are typed. */
  lemma StoredPhoneNeverFound(digits: string)
    ensures !Search(StoredPhone, PatternAtoms(digits))
  {
    PatternNeedsPercent(StoredPhone, digits);
  }

  /** A phone as the dialogs' input mask stores it. */
  const StoredPhone: string := "+7 (912) 345-67-89"

  predicate AllDigits(d: string) {
    forall k :: 0 <= k < |d| ==> IsDigit(d[k])
  }

  predicate IsPrefixOf(d: string, t: string) {
    |d| <= |t| && t[..|d|] == d
  }

  /** The steps alone match from `i` exactly when the typed digits begin the
      digits of the rest of the text. */
  lemma {:induction false} StepsMatch(s: string, i: nat, d: string)
    requires i <= |s| && AllDigits(d)
    ensures MatchAt(s, i, StepAtoms(d)) <==> IsPrefixOf(d, DigitsOf(s[i..]))
    decreases |d|, |s| - i
  {
    if |d| > 0 {
      var rest := StepAtoms(d[1..]);
      var atoms := StepAtoms(d);
      assert atoms == [NonDigits, Ch(d[0])] + rest;
      assert atoms[1..] == [Ch(d[0])] + rest && ([Ch(d[0])] + rest)[1..] == rest;
      if i < |s| {
        assert s[i..][0] == s[i] && s[i..][1..] == s[i + 1..];
        StepsMatch(s, i + 1, d[1..]);
        StepsMatch(s, i + 1, d);
        assert AllDigits(d[1..]);
      } else {
        assert s[i..] == [];
      }
    }
  }

  /** Every suffix of a text's digits is the digits of a suffix of the text. */
  lemma {:induction false} DigitIndex(s: string, k: nat)
    requires k <= |DigitsOf(s)|
    ensures exists i: nat :: i <= |s| && DigitsOf(s[i..]) == DigitsOf(s)[k..]
  {
    if k == 0 {
      assert s[0..] == s;
    } else {
      var t := s[1..];
      if IsDigit(s[0]) {
        DigitIndex(t, k - 1);
        var j: nat :| j <= |t| && DigitsOf(t[j..]) == DigitsOf(t)[k - 1..];
        assert s[j + 1..] == t[j..];
      } else {
        DigitIndex(t, k);
        var j: nat :| j <= |t| && DigitsOf(t[j..]) == DigitsOf(t)[k..];
        assert s[j + 1..] == t[j..];
      }
    }
  }

  /** The evidently intended pattern, the steps without the `%` delimiters:
      it finds a text exactly when the typed digits occur consecutively
      among the text's digits, whatever separates them. */
  function IntendedAtoms(digits: string): seq<Atom> {
    StepAtoms(digits)
  }

  lemma IntendedMatches(s: string, d: string)
    requires AllDigits(d)
    ensures Search(s, IntendedAtoms(d)) <==> IsSubstring(d, DigitsOf(s))
  {
    if Search(s, IntendedAtoms(d)) {
      var i: nat :| i <= |s| && MatchAt(s, i, StepAtoms(d));
      StepsMatch(s, i, d);
      assert s == s[..i] + s[i..];
      DigitsConcat(s[..i], s[i..]);
      assert OccursAt(d, DigitsOf(s), |DigitsOf(s[..i])|);
    }
    if IsSubstring(d, DigitsOf(s)) {
      var k :| 0 <= k <= |DigitsOf(s)| && OccursAt(d, DigitsOf(s), k);
      DigitIndex(s, k);
      var i: nat :| i <= |s| && DigitsOf(s[i..]) == DigitsOf(s)[k..];
      StepsMatch(s, i, d);
    }
  }

  lemma {:induction false} DigitsOfDigits(d: string)
    requires AllDigits(d)
    ensures DigitsOf(d) == d
  {
    if |d| > 0 {
      DigitsOfDigits(d[1..]);
    }
  }

  /** With the intended pattern a phone is found by any group of digits it
      shows, whatever surrounds the group: `912` finds `+7 (912) 345-67-89`. */
  lemma IntendedFindsShownDigits(head: string, d: string, tail: string)
    requires AllDigits(d)
    ensures Search(head + d + tail, IntendedAtoms(d))
  {
    DigitsConcat(head, d);
    DigitsConcat(head + d, tail);
    DigitsOfDigits(d);
    var t := DigitsOf(head + d + tail);
    assert t == DigitsOf(head) + d + DigitsOf(tail);
    assert t[|DigitsOf(head)|..|DigitsOf(head)| + |d|] == d;
    assert OccursAt(d, t, |DigitsOf(head)|);
    IntendedMatches(head + d + tail, d);
  }


  /** With the intended pattern, the partly filled mask finds every phone
      whose digits begin with the digits typed so far, the mask's `7`
      included: `+7 (91` finds `+7 (912) 345-67-89`. */
  lemma IntendedFindsTypedPrefix(t: string, s: string)
    requires IsPrefixOf(DigitsOf(t), DigitsOf(s))
    ensures Search(s, IntendedAtoms(DigitsOf(t)))
  {
    var d := DigitsOf(t);
    assert OccursAt(d, DigitsOf(s), 0);
    IntendedMatches(s, d);
  }
}
