/** The search box of the table windows: it hides every row none of whose
    cells contains the typed text, ignoring case. */
module TableView {
  import opened Wrappers
  import opened Text

  /** The table as the search sees it: rows of cells, a cell absent where
      the table has no item, and one hidden flag per row. */
  datatype Table = Table(cells: seq<seq<Option<string>>>, hidden: seq<bool>)

  /** A present cell whose lower-cased text contains the needle. */
  predicate CellMatches(cell: Option<string>, needle: string) {
    cell.Some? && IsSubstring(needle, Lower(cell.value))
  }

  predicate RowMatches(row: seq<Option<string>>, needle: string) {
    exists c :: 0 <= c < |row| && CellMatches(row[c], needle)
  }

  /** `search_in_table`: each row is scanned cell by cell until one matches;
      the row is hidden when none does. Only the hidden flags change. */
  method SearchInTable(t: Table, text: string) returns (r: Table)
    ensures r.cells == t.cells
    ensures |r.hidden| == |t.cells|
    ensures forall i :: 0 <= i < |t.cells| ==> (r.hidden[i] <==> !RowMatches(t.cells[i], Lower(text)))
  {
    var needle := Lower(text);
    var hidden: seq<bool> := [];
    var i := 0;
    while i < |t.cells|
      invariant 0 <= i <= |t.cells|
      invariant |hidden| == i
      invariant forall k :: 0 <= k < i ==> (hidden[k] <==> !RowMatches(t.cells[k], needle))
    {
      var row := t.cells[i];
      var rowHidden := true;
      var c := 0;
      while c < |row|
        invariant 0 <= c <= |row|
        invariant rowHidden
        invariant forall d :: 0 <= d < c ==> !CellMatches(row[d], needle)
      {
        if row[c].Some? && IsSubstring(needle, Lower(row[c].value)) {
          rowHidden := false;
          break;
        }
        c := c + 1;
      }
      assert rowHidden <==> !RowMatches(row, needle);
      hidden := hidden + [rowHidden];
      i := i + 1;
    }
    r := Table(t.cells, hidden);
  }

  /** An empty search shows exactly the rows holding at least one item. */
  lemma EmptySearchShowsFilledRows(row: seq<Option<string>>)
    ensures RowMatches(row, Lower("")) <==> exists c :: 0 <= c < |row| && row[c].Some?
  {
    assert Lower("") == "";
    if c :| 0 <= c < |row| && row[c].Some? {
      EmptyIsSubstring(Lower(row[c].value));
      assert CellMatches(row[c], Lower(""));
    }
  }

  /** The case of the typed text never matters. */
  lemma SearchIgnoresCase(row: seq<Option<string>>, text: string)
    ensures RowMatches(row, Lower(Upper(text))) <==> RowMatches(row, Lower(text))
  {
    LowerOfUpper(text);
  }
}
