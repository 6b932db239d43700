/**
 * The part of a pandas DataFrame the loaders rely on: named columns, rows of cells, and the few
 * operations the loaders apply (build from rows, number the rows, select, rename, assign a column).
 */
module Frames {
  import opened Wrappers
  import opened Chars

  /** A cell: text, an integer, Python's `None`, or the `NaN` pandas fills a missing value with. */
  datatype Cell = Text(s: string) | Int(n: int) | Null | NaN

  /** `str(value)`: how `astype(str)` writes a cell. */
  function CellText(c: Cell): string {
    match c
    case Text(s) => s
    case Int(n) => IntToString(n)
    case Null => "None"
    case NaN => "nan"
  }

  datatype Table = Table(columns: seq<string>, rows: seq<seq<Cell>>)
  {
    /** Every row has one cell per column. */
    predicate WellShaped() { forall i :: 0 <= i < |rows| ==> |rows[i]| == |columns| }
  }

  /**
   * What a pandas operation raises instead of returning a frame: `KeyError` for a missing column,
   * `ValueError` for a list of the wrong length or for a frame of other than one column assigned to a
   * single column.
   */
  datatype FrameError = KeyError(key: string) | LengthMismatch(values: nat, rows: nat)
                      | WidthMismatch(key: string, columns: nat)

  /** No column name occurs twice. */
  predicate Distinct(cols: seq<string>) {
    forall i, j :: 0 <= i < j < |cols| ==> cols[i] != cols[j]
  }

  /** A row of text cells. */
  function TextRow(fields: seq<string>): (r: seq<Cell>)
    ensures |r| == |fields|
    ensures forall j :: 0 <= j < |r| ==> r[j] == Text(fields[j])
  {
    if fields == [] then [] else [Text(fields[0])] + TextRow(fields[1..])
  }

  function TextRows(rows: seq<seq<string>>): (r: seq<seq<Cell>>)
    ensures |r| == |rows|
    ensures forall i :: 0 <= i < |r| ==> r[i] == TextRow(rows[i])
  {
    if rows == [] then [] else [TextRow(rows[0])] + TextRows(rows[1..])
  }

  lemma {:induction false} TextRowsAppend(a: seq<seq<string>>, b: seq<seq<string>>)
    ensures TextRows(a + b) == TextRows(a) + TextRows(b)
  {
  }

  /** `pd.DataFrame(rows, columns=columns)` for rows of strings; pandas refuses rows of another width. */
  function FromRows(columns: seq<string>, rows: seq<seq<string>>): (t: Table)
    requires forall i :: 0 <= i < |rows| ==> |rows[i]| == |columns|
    ensures t.columns == columns && |t.rows| == |rows| && t.WellShaped()
    ensures forall i :: 0 <= i < |rows| ==> t.rows[i] == TextRow(rows[i])
  {
    Table(columns, TextRows(rows))
  }

  /** `rows` with the integers `first`, `first + 1`, … put in front of them, one per row. */
  function Numbered(rows: seq<seq<Cell>>, first: int): (r: seq<seq<Cell>>)
    ensures |r| == |rows|
    ensures forall i :: 0 <= i < |r| ==> r[i] == [Int(first + i)] + rows[i]
  {
    if rows == [] then [] else [[Int(first)] + rows[0]] + Numbered(rows[1..], first + 1)
  }

  /** The first column is `LineId` and holds 1, 2, …, one per row, in row order. */
  predicate HasLineIds(t: Table) {
    && |t.columns| > 0 && t.columns[0] == "LineId"
    && forall i :: 0 <= i < |t.rows| ==> |t.rows[i]| > 0 && t.rows[i][0] == Int(i + 1)
  }

  /** The table without its first column. */
  function DropFirst(t: Table): Table
    requires |t.columns| > 0
    requires forall i :: 0 <= i < |t.rows| ==> |t.rows[i]| > 0
  {
    Table(t.columns[1..], seq(|t.rows|, i requires 0 <= i < |t.rows| => t.rows[i][1..]))
  }

  /**
   * `df.insert(0, "LineId", range(1, len(df) + 1))`. pandas raises on a second `LineId` column; no
   * frame the loaders build has one.
   */
  function InsertLineId(t: Table): (r: Table)
    requires "LineId" !in t.columns
    ensures r.columns == ["LineId"] + t.columns && |r.rows| == |t.rows|
    ensures HasLineIds(r)
    ensures t.WellShaped() ==> r.WellShaped()
    ensures forall i :: 0 <= i < |r.rows| ==> r.rows[i][1..] == t.rows[i]
    ensures DropFirst(r) == t
  {
    var r := Table(["LineId"] + t.columns, Numbered(t.rows, 1));
    assert r.columns[1..] == t.columns;
    assert forall i :: 0 <= i < |t.rows| ==> r.rows[i][1..] == t.rows[i];
    r
  }

  /** The position of the first column named `c`. */
  function IndexOf(cols: seq<string>, c: string): (k: nat)
    requires c in cols
    ensures k < |cols| && cols[k] == c && c !in cols[..k]
  {
    if cols[0] == c then 0
    else
      var k := IndexOf(cols[1..], c);
      assert cols[..k + 1] == [cols[0]] + cols[1..][..k];
      k + 1
  }

  /** In a list without repeats, a name is found at its own position. */
  lemma IndexOfDistinct(cols: seq<string>, j: nat)
    requires Distinct(cols) && j < |cols|
    ensures IndexOf(cols, cols[j]) == j
  {
  }

  /** The cells of the column named `name`, top to bottom. */
  function Column(t: Table, name: string): (c: seq<Cell>)
    requires t.WellShaped() && name in t.columns
    ensures |c| == |t.rows|
  {
    var k := IndexOf(t.columns, name);
    seq(|t.rows|, i requires 0 <= i < |t.rows| => t.rows[i][k])
  }

  /** The first of `cols` that is not a column of the frame. */
  function MissingColumn(cols: seq<string>, have: seq<string>): (r: Option<string>)
    ensures r.None? <==> forall c :: c in cols ==> c in have
    ensures r.Some? ==> r.value in cols && r.value !in have
  {
    if cols == [] then None
    else if cols[0] !in have then Some(cols[0])
    else MissingColumn(cols[1..], have)
  }

  /** `df[cols]`: the named columns in the order asked for; a name the frame lacks raises `KeyError`. */
  function Select(t: Table, cols: seq<string>): (r: Result<Table, FrameError>)
    requires t.WellShaped()
    ensures r.Ok? <==> forall c :: c in cols ==> c in t.columns
    ensures r.Err? ==> r.error.KeyError? && r.error.key in cols && r.error.key !in t.columns
    ensures r.Ok? ==> r.value.columns == cols && |r.value.rows| == |t.rows| && r.value.WellShaped()
    ensures r.Ok? ==> forall j :: 0 <= j < |cols| ==> Column(r.value, cols[j]) == Column(t, cols[j])
  {
    match MissingColumn(cols, t.columns)
    case Some(c) => Err(KeyError(c))
    case None =>
      var ks := seq(|cols|, j requires 0 <= j < |cols| => IndexOf(t.columns, cols[j]));
      var s := Table(cols, seq(|t.rows|, i requires 0 <= i < |t.rows| => seq(|cols|, j requires 0 <= j < |cols| => t.rows[i][ks[j]])));
      assert forall j :: 0 <= j < |cols| ==> Column(s, cols[j]) == Column(t, cols[j]) by {
        forall j | 0 <= j < |cols| ensures Column(s, cols[j]) == Column(t, cols[j]) {
          var k := IndexOf(cols, cols[j]);
          assert cols[k] == cols[j];
        }
      }
      Ok(s)
  }

  /** Selecting all the columns of a frame, in its own order, gives the frame back. */
  lemma SelectAll(t: Table)
    requires t.WellShaped() && Distinct(t.columns)
    ensures Select(t, t.columns) == Ok(t)
  {
    var s := Select(t, t.columns).value;
    forall j | 0 <= j < |t.columns| ensures IndexOf(t.columns, t.columns[j]) == j {
      IndexOfDistinct(t.columns, j);
    }
    forall i | 0 <= i < |t.rows| ensures s.rows[i] == t.rows[i] {
      forall j | 0 <= j < |t.columns| ensures s.rows[i][j] == t.rows[i][j] {
        assert Column(s, t.columns[j])[i] == Column(t, t.columns[j])[i];
      }
    }
    assert s.rows == t.rows;
  }

  /**
   * `df.rename(columns={from: to})`: every column named `from` is named `to`, every other name stays
   * where it was, and the cells do not move.
   */
  function Rename(t: Table, from: string, to: string): (r: Table)
    ensures |r.columns| == |t.columns| && r.rows == t.rows
    ensures forall j :: 0 <= j < |t.columns| && t.columns[j] != from ==> r.columns[j] == t.columns[j]
    ensures forall j :: 0 <= j < |t.columns| && t.columns[j] == from ==> r.columns[j] == to
    ensures from != to ==> from !in r.columns
    ensures from in t.columns ==> to in r.columns
    ensures t.WellShaped() ==> r.WellShaped()
  {
    Table(seq(|t.columns|, j requires 0 <= j < |t.columns| => if t.columns[j] == from then to else t.columns[j]), t.rows)
  }

  /** A name is found at a position that holds it with no earlier occurrence. */
  lemma {:induction false} IndexOfAt(cols: seq<string>, c: string, k: nat)
    requires k < |cols| && cols[k] == c && c !in cols[..k]
    ensures IndexOf(cols, c) == k
    decreases k
  {
    if k > 0 {
      assert cols[0] in cols[..k];
      assert cols[1..][..k - 1] == cols[1..k];
      assert forall x :: x in cols[1..k] ==> x in cols[..k];
      IndexOfAt(cols[1..], c, k - 1);
    }
  }

  /** Renaming `from` to a name the frame lacks: the new column holds the cells of the old one. */
  lemma RenameColumn(t: Table, from: string, to: string)
    requires t.WellShaped() && from in t.columns && to !in t.columns
    ensures to in Rename(t, from, to).columns
    ensures Column(Rename(t, from, to), to) == Column(t, from)
  {
    var r := Rename(t, from, to);
    var k := IndexOf(t.columns, from);
    assert to !in r.columns[..k] by {
      forall j | 0 <= j < k ensures r.columns[j] != to {
        assert t.columns[j] in t.columns[..k];
      }
    }
    IndexOfAt(r.columns, to, k);
  }

  /** Renaming to a name the frame lacks is undone by renaming back. */
  lemma RenameBack(t: Table, from: string, to: string)
    requires to !in t.columns
    ensures Rename(Rename(t, from, to), to, from) == t
  {
    var r := Rename(Rename(t, from, to), to, from);
    forall j | 0 <= j < |t.columns| ensures r.columns[j] == t.columns[j] {
      assert t.columns[j] != to;
    }
  }

  /** `row` with the cell at position `k` set to `v`, or `v` appended when `k` is one past the end. */
  function Put(row: seq<Cell>, k: nat, v: Cell): (r: seq<Cell>)
    requires k <= |row|
  {
    if k < |row| then row[k := v] else row + [v]
  }

  /**
   * `df[name] = values` for a list of values. pandas raises `ValueError` when the list and the frame
   * differ in length, except that a frame without rows first grows one row of `NaN` per value.
   */
  function SetColumn(t: Table, name: string, values: seq<Cell>): (r: Result<Table, FrameError>)
    requires t.WellShaped()
    ensures r.Ok? <==> |values| == |t.rows| || |t.rows| == 0
    ensures r.Err? ==> r.error == LengthMismatch(|values|, |t.rows|)
    ensures r.Ok? ==> && r.value.WellShaped() && |r.value.rows| == |values|
                      && r.value.columns == (if name in t.columns then t.columns else t.columns + [name])
                      && Column(r.value, name) == values
    ensures r.Ok? && name !in t.columns && |values| == |t.rows| ==>
      forall i :: 0 <= i < |values| ==> r.value.rows[i] == t.rows[i] + [values[i]]
  {
    if |values| != |t.rows| && |t.rows| != 0 then Err(LengthMismatch(|values|, |t.rows|))
    else
      var base := if |t.rows| == 0 then seq(|values|, _ => seq(|t.columns|, _ => NaN)) else t.rows;
      var k := if name in t.columns then IndexOf(t.columns, name) else |t.columns|;
      var cols := if name in t.columns then t.columns else t.columns + [name];
      assert IndexOf(cols, name) == k by {
        if name !in t.columns { assert cols[..k] == t.columns; }
      }
      Ok(Table(cols, seq(|values|, i requires 0 <= i < |values| => Put(base[i], k, values[i]))))
  }

  /** Assigning a column leaves every other column's cells as they were. */
  lemma SetColumnKeepsOthers(t: Table, name: string, values: seq<Cell>, other: string)
    requires t.WellShaped() && |values| == |t.rows|
    requires other in t.columns && other != name
    ensures SetColumn(t, name, values).Ok?
    ensures Column(SetColumn(t, name, values).value, other) == Column(t, other)
  {
    var r := SetColumn(t, name, values).value;
    var k := IndexOf(t.columns, other);
    assert IndexOf(r.columns, other) == k by {
      if name !in t.columns {
        assert r.columns == t.columns + [name];
        assert (t.columns + [name])[1..] == t.columns[1..] + [name];
        IndexOfAppend(t.columns, name, other);
      }
    }
  }

  /** Appending a name does not move the names already there. */
  lemma {:induction false} IndexOfAppend(cols: seq<string>, extra: string, c: string)
    requires c in cols
    ensures IndexOf(cols + [extra], c) == IndexOf(cols, c)
    decreases |cols|
  {
    if cols[0] != c {
      assert (cols + [extra])[1..] == cols[1..] + [extra];
      IndexOfAppend(cols[1..], extra, c);
    }
  }

  /**
   * `df[name] = other` for a frame `other` on the same rows: a frame of one column is assigned as that
   * column; one of no column or of several raises `ValueError`.
   */
  function SetFrame(t: Table, name: string, other: Table): (r: Result<Table, FrameError>)
    requires t.WellShaped() && other.WellShaped() && |other.rows| == |t.rows|
    ensures r.Ok? <==> |other.columns| == 1
    ensures r.Err? ==> r.error == WidthMismatch(name, |other.columns|)
    ensures r.Ok? ==> && r.value.WellShaped() && |r.value.rows| == |t.rows|
                      && r.value.columns == (if name in t.columns then t.columns else t.columns + [name])
                      && Column(r.value, name) == Column(other, other.columns[0])
  {
    if |other.columns| != 1 then Err(WidthMismatch(name, |other.columns|))
    else SetColumn(t, name, Column(other, other.columns[0]))
  }

  /** `df[name] = value` for a single value: every row gets it. */
  function Broadcast(t: Table, name: string, v: Cell): (r: Table)
    requires t.WellShaped()
    ensures r.WellShaped() && |r.rows| == |t.rows|
    ensures r.columns == if name in t.columns then t.columns else t.columns + [name]
    ensures forall i :: 0 <= i < |r.rows| ==> Column(r, name)[i] == v
    ensures name !in t.columns ==> forall i :: 0 <= i < |r.rows| ==> r.rows[i] == t.rows[i] + [v]
  {
    SetColumn(t, name, seq(|t.rows|, _ => v)).value
  }
}
