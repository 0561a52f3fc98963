/**
 * The data viewer: a table over a list of records whose long cells are cut
 * short until expanded. A record is the list of its fields in key order, each
 * value already turned into its text (`String(value)`, or `JSON.stringify`
 * for objects, which this model does not define).
 */
module DataView {
  import opened Wrappers
  import opened Text
  import opened Flags

  type Row = seq<(string, string)>

  /**
   * `truncate(str, n)`: a text longer than `n` keeps its first `n - 1`
   * characters and gets `'...'`; `substr` with a negative length gives
   * the empty string.
   */
  function Truncate(str: string, n: int): (r: string)
    ensures |str| <= n ==> r == str
    ensures |str| > n ==> |r| >= 3 && IsPrefix(r[..|r| - 3], str) && r[|r| - 3..] == "..."
    ensures |str| > n && n >= 1 ==> |r| == n + 2
    ensures |str| > n && n < 1 ==> r == "..."
  {
    if |str| > n then str[..if n - 1 < 0 then 0 else n - 1] + "..." else str
  }

  /** The limit a collapsed cell is cut to. */
  const CollapsedLength: int := 50

  /**
   * `${rowIndex}-${colName}`: the first `-` of the key ends the row number,
   * and the column name is the rest.
   */
  function CellKey(rowIndex: nat, colName: string): (r: string)
    ensures IndexOf(r, '-') == |NatToString(rowIndex)| < |r|
    ensures r[..IndexOf(r, '-')] == NatToString(rowIndex) && r[IndexOf(r, '-') + 1..] == colName
  {
    DashAfterDigits(NatToString(rowIndex), colName);
    NatToString(rowIndex) + "-" + colName
  }

  /** The position of the first `c` in `s`, or `|s|` when there is none. */
  function IndexOf(s: string, c: char): (i: nat)
    ensures i <= |s| && (i < |s| ==> s[i] == c) && forall j :: 0 <= j < i ==> s[j] != c
  {
    if s == [] then 0 else if s[0] == c then 0 else 1 + IndexOf(s[1..], c)
  }

  /** In a cell key the first `-` comes right after the row number. */
  lemma {:induction false} DashAfterDigits(digits: string, colName: string)
    requires forall i :: 0 <= i < |digits| ==> IsDigit(digits[i])
    ensures IndexOf(digits + "-" + colName, '-') == |digits|
    decreases |digits|
  {
    if digits != [] {
      assert (digits + "-" + colName)[1..] == digits[1..] + "-" + colName;
      DashAfterDigits(digits[1..], colName);
    }
  }

  /** Different cells have different keys: the row number has no `-`, so the first `-` ends it. */
  lemma CellKeyInjective(r1: nat, c1: string, r2: nat, c2: string)
    requires CellKey(r1, c1) == CellKey(r2, c2)
    ensures r1 == r2 && c1 == c2
  {
    NatToStringInjective(r1, r2);
  }

  /** `toggleCell`: the cell expands or collapses; every other cell stays as it is. */
  function ToggleCell(expandedCells: map<string, bool>, rowIndex: nat, colName: string): (r: map<string, bool>)
    ensures IsOn(r, CellKey(rowIndex, colName)) <==> !IsOn(expandedCells, CellKey(rowIndex, colName))
    ensures forall k :: k != CellKey(rowIndex, colName) ==> (IsOn(r, k) <==> IsOn(expandedCells, k))
  {
    Flip(expandedCells, CellKey(rowIndex, colName))
  }

  /** Toggling one cell never changes whether another cell is expanded. */
  lemma ToggleCellOthers(expandedCells: map<string, bool>, rowIndex: nat, colName: string, otherRow: nat, otherCol: string)
    requires otherRow != rowIndex || otherCol != colName
    ensures IsOn(ToggleCell(expandedCells, rowIndex, colName), CellKey(otherRow, otherCol))
        <==> IsOn(expandedCells, CellKey(otherRow, otherCol))
  {
    if CellKey(otherRow, otherCol) == CellKey(rowIndex, colName) {
      CellKeyInjective(otherRow, otherCol, rowIndex, colName);
    }
  }

  /** What a cell shows: the whole text when expanded, otherwise the text cut to 50. */
  function CellText(expandedCells: map<string, bool>, rowIndex: nat, colName: string, cellContent: string): (r: string)
    ensures IsOn(expandedCells, CellKey(rowIndex, colName)) ==> r == cellContent
    ensures !IsOn(expandedCells, CellKey(rowIndex, colName)) ==>
              |r| <= CollapsedLength + 2 && (|cellContent| <= CollapsedLength ==> r == cellContent)
  {
    if IsOn(expandedCells, CellKey(rowIndex, colName)) then cellContent else Truncate(cellContent, CollapsedLength)
  }

  /** The keys of one record, in order. */
  function Keys(row: Row): (r: seq<string>)
    ensures |r| == |row| && forall i :: 0 <= i < |row| ==> r[i] == row[i].0
  {
    if row == [] then [] else [row[0].0] + Keys(row[1..])
  }

  /** `Object.keys(data[0])`, or nothing when there is no data and the placeholder shows instead of the table. */
  function Columns(data: seq<Row>): (r: Option<seq<string>>)
    ensures data == [] <==> r.None?
    ensures data != [] ==> r == Some(Keys(data[0]))
  {
    if data == [] then None else Some(Keys(data[0]))
  }
}
