/** The string functions the screens apply to user input before it reaches
    a query: Python's `strip`, `upper` and `lower`, digit extraction,
    character removal, substring containment and code-point ordering. */
module Text {

  /** The characters `str.strip()` removes: Python's `str.isspace`, that
      is the ASCII controls tab to carriage return and the four information
      separators, the space, NEL, NO-BREAK SPACE, OGHAM SPACE MARK, the
      spaces U+2000 to U+200A, the line and paragraph separators, NARROW
      NO-BREAK SPACE, MEDIUM MATHEMATICAL SPACE and IDEOGRAPHIC SPACE. */
  predicate IsSpace(c: char) {
    ('\t' <= c <= '\r') || ('\U{001C}' <= c <= ' ') || c == '\U{0085}' || c == '\U{00A0}'
    || c == '\U{1680}' || ('\U{2000}' <= c <= '\U{200A}') || c == '\U{2028}' || c == '\U{2029}'
    || c == '\U{202F}' || c == '\U{205F}' || c == '\U{3000}'
  }

  predicate AllSpace(s: string) {
    forall i :: 0 <= i < |s| ==> IsSpace(s[i])
  }

  /** Drops leading whitespace: the result is a suffix of `s`, everything
      dropped was whitespace, and the result does not start with whitespace. */
  function TrimLeft(s: string): (r: string)
    ensures |r| <= |s| && r == s[|s| - |r|..]
    ensures AllSpace(s[..|s| - |r|])
    ensures |r| > 0 ==> !IsSpace(r[0])
  {
    if |s| > 0 && IsSpace(s[0]) then TrimLeft(s[1..]) else s
  }

  /** Drops trailing whitespace: the result is a prefix of `s`, everything
      dropped was whitespace, and the result does not end with whitespace. */
  function TrimRight(s: string): (r: string)
    ensures |r| <= |s| && r == s[..|r|]
    ensures AllSpace(s[|r|..])
    ensures |r| > 0 ==> !IsSpace(r[|r| - 1])
  {
    if |s| > 0 && IsSpace(s[|s| - 1]) then TrimRight(s[..|s| - 1]) else s
  }

  /** `r` is the slice of `s` starting at `i`, with only whitespace before
      and after it. */
  predicate StrippedAt(s: string, r: string, i: int) {
    0 <= i <= |s| - |r| && r == s[i..i + |r|] && AllSpace(s[..i]) && AllSpace(s[i + |r|..])
  }

  /** Python's `s.strip()`: the slice of `s` left once the whitespace at
      both ends is cut off. */
  function Strip(s: string): (r: string)
    ensures |r| <= |s|
    ensures |r| > 0 ==> !IsSpace(r[0]) && !IsSpace(r[|r| - 1])
    ensures exists i :: StrippedAt(s, r, i)
  {
    var l := TrimLeft(s);
    TrimBoth(s, l, TrimRight(l));
    TrimRight(l)
  }

  /** Trimming the left and then the right leaves a slice of `s` with only
      whitespace around it. */
  lemma TrimBoth(s: string, l: string, r: string)
    requires |l| <= |s| && l == s[|s| - |l|..] && AllSpace(s[..|s| - |l|])
    requires |r| <= |l| && r == l[..|r|] && AllSpace(l[|r|..])
    ensures StrippedAt(s, r, |s| - |l|)
  {
    var i := |s| - |l|;
    assert l[..|r|] == s[i..i + |r|];
    assert l[|r|..] == s[i + |r|..];
  }

  /** Unicode spaces count as whitespace too: a field holding only a
      no-break space is blank. */
  lemma StripUnicodeSpaces()
    ensures Strip(['\U{00A0}']) == []
  {
    var nbsp: string := ['\U{00A0}'];
    assert IsSpace(nbsp[0]) && nbsp[1..] == [];
    assert TrimLeft(nbsp) == [] && TrimRight([]) == [];
    assert Strip(nbsp) == TrimRight(TrimLeft(nbsp));
  }

  /** An ideographic space before a name is cut, leaving the name. */
  lemma StripIdeographicSpace(name: string)
    requires |name| > 0 && !IsSpace(name[0]) && !IsSpace(name[|name| - 1])
    ensures Strip(['\U{3000}'] + name) == name
  {
    var typed := ['\U{3000}'] + name;
    assert typed[1..] == name;
    assert TrimLeft(typed) == TrimLeft(name) == name;
    assert TrimRight(name) == name;
  }

  /** A text field counts as blank exactly when it holds only whitespace. */
  lemma StripBlankIff(s: string)
    ensures Strip(s) == "" <==> AllSpace(s)
  {
    var l := TrimLeft(s);
    if Strip(s) == "" {
      assert |l| == 0;
      assert s[..|s|] == s;
    } else {
      var r := Strip(s);
      var k :| 0 <= k < |s| && s[k] == r[0] && !IsSpace(s[k]) by {
        assert r == l[..|r|];
        assert l == s[|s| - |l|..];
        assert r[0] == s[|s| - |l|];
      }
    }
  }

  /** Stripping twice is stripping once. */
  lemma StripIdempotent(s: string)
    ensures Strip(Strip(s)) == Strip(s)
  {
    var r := Strip(s);
    if |r| > 0 {
      assert TrimLeft(r) == r;
      assert TrimRight(r) == r;
    }
  }

  function LowerChar(c: char): char {
    if 'A' <= c <= 'Z' then (c as int + 32) as char
    else if 'А' <= c <= 'Я' then (c as int + 32) as char
    else if c == 'Ё' then 'ё'
    else c
  }

  function UpperChar(c: char): char {
    if 'a' <= c <= 'z' then (c as int - 32) as char
    else if 'а' <= c <= 'я' then (c as int - 32) as char
    else if c == 'ё' then 'Ё'
    else c
  }

  /** Lower-casing of Latin and basic Cyrillic letters, standing for both
      Python's `str.lower()` and PostgreSQL's `LOWER`. */
  function Lower(s: string): string {
    seq(|s|, i requires 0 <= i < |s| => LowerChar(s[i]))
  }

  /** Upper-casing of Latin and basic Cyrillic letters (`str.upper()`). */
  function Upper(s: string): string {
    seq(|s|, i requires 0 <= i < |s| => UpperChar(s[i]))
  }

  lemma LowerUpperChar(c: char)
    ensures LowerChar(UpperChar(c)) == LowerChar(c)
  {
  }

  /** Upper-casing before a lower-cased comparison changes nothing. */
  lemma LowerOfUpper(s: string)
    ensures Lower(Upper(s)) == Lower(s)
  {
    forall i | 0 <= i < |s| ensures Lower(Upper(s))[i] == Lower(s)[i] {
      LowerUpperChar(s[i]);
    }
  }

  lemma LowerConcat(a: string, b: string)
    ensures Lower(a + b) == Lower(a) + Lower(b)
  {
  }

  /** Neither case mapping touches characters that are not letters. */
  lemma CaseKeepsChar(s: string, c: char)
    requires LowerChar(c) == c && UpperChar(c) == c
    ensures c in s <==> c in Upper(s)
    ensures c in s <==> c in Lower(s)
  {
    if c in s {
      var i :| 0 <= i < |s| && s[i] == c;
      assert Upper(s)[i] == c && Lower(s)[i] == c;
    }
    if c in Upper(s) {
      var i :| 0 <= i < |s| && Upper(s)[i] == c;
    }
    if c in Lower(s) {
      var i :| 0 <= i < |s| && Lower(s)[i] == c;
    }
  }

  /** `t` occurs in `s` as a contiguous piece: Python's `t in s` and SQL's
      `LIKE '%t%'`. */
  predicate IsSubstring(t: string, s: string) {
    exists i :: 0 <= i <= |s| && OccursAt(t, s, i)
  }

  /** `t` occurs in `s` starting at position `i`. */
  predicate OccursAt(t: string, s: string, i: int) {
    0 <= i && i + |t| <= |s| && s[i..i + |t|] == t
  }

  lemma EmptyIsSubstring(s: string)
    ensures IsSubstring("", s)
  {
    assert OccursAt("", s, 0);
  }

  predicate IsDigit(c: char) {
    '0' <= c <= '9'
  }

  /** `''.join(c for c in s if c.isdigit())`, ASCII digits only. That it
      keeps every digit as often as it occurs is stated by `DigitsOfCounts`,
      the order by `DigitsConcat` and `DigitsOfChar`. */
  function DigitsOf(s: string): (r: string)
    ensures |r| <= |s|
    ensures forall i :: 0 <= i < |r| ==> IsDigit(r[i])
    ensures r == "" <==> forall i :: 0 <= i < |s| ==> !IsDigit(s[i])
  {
    if |s| == 0 then ""
    else
      if IsDigit(s[0]) then [s[0]] + DigitsOf(s[1..])
      else
        assert forall i :: 1 <= i < |s| ==> s[i] == s[1..][i - 1];
        DigitsOf(s[1..])
  }

  /** Every digit of `s` is kept, as often as it occurs. */
  lemma {:induction false} DigitsOfCounts(s: string)
    ensures forall c :: IsDigit(c) ==> multiset(DigitsOf(s))[c] == multiset(s)[c]
  {
    if |s| > 0 {
      assert s == [s[0]] + s[1..];
      DigitsOfCounts(s[1..]);
    }
  }

  /** A single character yields itself when it is a digit, else nothing. */
  lemma DigitsOfChar(c: char)
    ensures DigitsOf([c]) == if IsDigit(c) then [c] else []
  {
    assert [c][1..] == [];
  }

  /** The digits of a concatenation are the digits of each part in turn;
      with `DigitsOfChar` this pins `DigitsOf(s)` down as the digits of `s`
      in their order. */
  lemma {:induction false} DigitsConcat(a: string, b: string)
    ensures DigitsOf(a + b) == DigitsOf(a) + DigitsOf(b)
  {
    if |a| > 0 {
      assert (a + b)[0] == a[0] && (a + b)[1..] == a[1..] + b;
      DigitsConcat(a[1..], b);
    } else {
      assert a + b == b;
    }
  }

  /** `s` with every character from `drop` removed, as a chain of
      `str.replace(c, "")` calls does. What is kept is stated by
      `RemoveCharsCounts`, its order by `RemoveCharsConcat`. */
  function RemoveChars(s: string, drop: set<char>): (r: string)
    ensures |r| <= |s|
    ensures forall i :: 0 <= i < |r| ==> r[i] !in drop
    ensures (forall i :: 0 <= i < |s| ==> s[i] !in drop) ==> r == s
  {
    if |s| == 0 then ""
    else
      if s[0] in drop then RemoveChars(s[1..], drop)
      else
        assert forall i :: 1 <= i < |s| ==> s[i] == s[1..][i - 1];
        [s[0]] + RemoveChars(s[1..], drop)
  }

  /** Every character not dropped is kept as often as it occurs in `s`. */
  lemma {:induction false} RemoveCharsCounts(s: string, drop: set<char>)
    ensures forall c :: c !in drop ==> multiset(RemoveChars(s, drop))[c] == multiset(s)[c]
  {
    if |s| > 0 {
      assert s == [s[0]] + s[1..];
      RemoveCharsCounts(s[1..], drop);
    }
  }

  /** A single character is kept unless it is to be dropped. */
  lemma RemoveCharsChar(c: char, drop: set<char>)
    ensures RemoveChars([c], drop) == if c in drop then [] else [c]
  {
    assert [c][1..] == [];
  }

  /** Removal works piecewise: the kept characters of a concatenation are
      those of each part in turn, so the kept characters keep their order. */
  lemma {:induction false} RemoveCharsConcat(a: string, b: string, drop: set<char>)
    ensures RemoveChars(a + b, drop) == RemoveChars(a, drop) + RemoveChars(b, drop)
  {
    if |a| > 0 {
      assert (a + b)[0] == a[0] && (a + b)[1..] == a[1..] + b;
      RemoveCharsConcat(a[1..], b, drop);
    } else {
      assert a + b == b;
    }
  }

  /** Code-point lexicographic order on strings (a collation assumption). */
  predicate StrLess(a: string, b: string) {
    if |a| == 0 then |b| > 0
    else if |b| == 0 then false
    else a[0] < b[0] || (a[0] == b[0] && StrLess(a[1..], b[1..]))
  }

  lemma {:induction false} StrLessIrreflexive(a: string)
    ensures !StrLess(a, a)
  {
    if |a| > 0 {
      StrLessIrreflexive(a[1..]);
    }
  }

  lemma {:induction false} StrLessTransitive(a: string, b: string, c: string)
    requires StrLess(a, b) && StrLess(b, c)
    ensures StrLess(a, c)
  {
    if |a| > 0 && a[0] == b[0] && b[0] == c[0] {
      StrLessTransitive(a[1..], b[1..], c[1..]);
    }
  }

  lemma {:induction false} StrLessTrichotomy(a: string, b: string)
    ensures StrLess(a, b) || a == b || StrLess(b, a)
  {
    if |a| > 0 && |b| > 0 && a[0] == b[0] {
      StrLessTrichotomy(a[1..], b[1..]);
      if a[1..] == b[1..] {
        assert a == [a[0]] + a[1..] && b == [b[0]] + b[1..];
      }
    }
  }

  /** Comparing two strings whose first parts have the same length decides
      on the first parts, and on the rest only when the first parts agree. */
  lemma {:induction false} StrLessAppend(x1: string, y1: string, x2: string, y2: string)
    requires |x1| == |x2|
    ensures StrLess(x1 + y1, x2 + y2) <==> StrLess(x1, x2) || (x1 == x2 && StrLess(y1, y2))
  {
    if |x1| == 0 {
      assert x1 + y1 == y1 && x2 + y2 == y2;
    } else {
      assert (x1 + y1)[1..] == x1[1..] + y1;
      assert (x2 + y2)[1..] == x2[1..] + y2;
      StrLessAppend(x1[1..], y1, x2[1..], y2);
      if x1[0] == x2[0] && x1[1..] == x2[1..] {
        assert x1 == [x1[0]] + x1[1..] && x2 == [x2[0]] + x2[1..];
      }
    }
  }
}
