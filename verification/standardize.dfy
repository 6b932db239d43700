/**
 * `standardize`: reshape a source frame into the unified schema LineId, Content, EventId,
 * EventTemplate, Source. The Content comes from the named column; a frame without that column was
 * meant to get the text of all its cells, joined by spaces.
 */
module Standardize {
  import opened Wrappers
  import opened Chars
  import opened Frames

  /** The columns of every standardized frame. */
  const Schema: seq<string> := ["LineId", "Content", "EventId", "EventTemplate", "Source"]

  /** `" ".join(row.astype(str))`: the cells of a row as text, separated by single spaces. */
  function JoinCells(row: seq<Cell>): string {
    JoinWith(" ", seq(|row|, j requires 0 <= j < |row| => CellText(row[j])))
  }

  /** `df.astype(str).agg(" ".join, axis=1)`: the joined text of every row. */
  function JoinedRows(t: Table): (c: seq<Cell>)
    ensures |c| == |t.rows|
    ensures forall i :: 0 <= i < |c| ==> c[i] == Text(JoinCells(t.rows[i]))
  {
    seq(|t.rows|, i requires 0 <= i < |t.rows| => Text(JoinCells(t.rows[i])))
  }

  /** What `df.astype(str).agg(" ".join, axis=1)` returns: a Series of texts, or the frame itself. */
  datatype Aggregate = Joined(cells: seq<Cell>) | Unreduced(frame: Table)

  /**
   * `df.astype(str).agg(" ".join, axis=1)`. On a frame with rows, the joined text of every row. On a
   * frame without rows pandas first applies the function to a probe row of `NaN` floats, one per
   * column: with no column the probe joins to "" and the result is an empty Series; with a column the
   * join raises `TypeError`, and pandas returns a copy of the frame instead of a Series.
   */
  function AggJoin(t: Table): (a: Aggregate)
    ensures a.Unreduced? <==> |t.rows| == 0 && |t.columns| > 0
    ensures a.Unreduced? ==> a.frame == t
    ensures a.Joined? ==> |a.cells| == |t.rows| && forall i :: 0 <= i < |t.rows| ==> a.cells[i] == Text(JoinCells(t.rows[i]))
  {
    if |t.rows| == 0 && |t.columns| > 0 then Unreduced(t) else Joined(JoinedRows(t))
  }

  /** The one-column frame of Content cells. */
  function ContentFrame(content: seq<Cell>): (t: Table)
    ensures t.columns == ["Content"] && t.WellShaped() && |t.rows| == |content|
    ensures forall i :: 0 <= i < |content| ==> t.rows[i] == [content[i]]
  {
    Table(["Content"], seq(|content|, i requires 0 <= i < |content| => [content[i]]))
  }

  /**
   * The last four steps of `standardize`, from the one-column frame on: number the rows, then add
   * the empty event columns and the source tag.
   */
  function Finish(content: seq<Cell>, source: string): (t: Table)
    ensures t.columns == Schema && t.WellShaped() && HasLineIds(t) && |t.rows| == |content|
    ensures forall i :: 0 <= i < |content| ==> t.rows[i] == [Int(i + 1), content[i], Null, Null, Text(source)]
  {
    var t0 := NumberedContent(content);
    var t := AddEventColumns(t0, source);
    forall i | 0 <= i < |content| ensures t.rows[i] == [Int(i + 1), content[i], Null, Null, Text(source)] {
      FinishRow(t0.rows[i], t.rows[i], Int(i + 1), content[i], Text(source));
    }
    t
  }

  lemma FinishRow(r0: seq<Cell>, r: seq<Cell>, id: Cell, c: Cell, src: Cell)
    requires r0 == [id, c] && r == r0 + [Null, Null, src]
    ensures r == [id, c, Null, Null, src]
  {
  }

  /** `df.insert(0, "LineId", ...)` on the one-column frame. */
  function NumberedContent(content: seq<Cell>): (t: Table)
    ensures t.columns == ["LineId", "Content"] && t.WellShaped() && HasLineIds(t) && |t.rows| == |content|
    ensures forall i :: 0 <= i < |content| ==> t.rows[i] == [Int(i + 1), content[i]]
  {
    SchemaNames();
    var t := InsertLineId(ContentFrame(content));
    forall i | 0 <= i < |content| ensures t.rows[i] == [Int(i + 1), content[i]] {
      assert t.rows[i] == [Int(i + 1)] + [content[i]];
    }
    t
  }

  /** The three assignments after the numbering: `EventId` and `EventTemplate` empty, `Source` the tag. */
  function AddEventColumns(t0: Table, source: string): (t: Table)
    requires t0.columns == ["LineId", "Content"] && t0.WellShaped()
    ensures t.columns == Schema && t.WellShaped() && |t.rows| == |t0.rows|
    ensures forall i :: 0 <= i < |t.rows| ==> t.rows[i] == t0.rows[i] + [Null, Null, Text(source)]
    ensures HasLineIds(t0) ==> HasLineIds(t)
  {
    SchemaNames();
    var t1 := AddColumn(t0, "EventId", Null);
    var t2 := AddColumn(t1, "EventTemplate", Null);
    var t3 := AddColumn(t2, "Source", Text(source));
    forall i | 0 <= i < |t3.rows| ensures t3.rows[i] == t0.rows[i] + [Null, Null, Text(source)] {
      AppendThree(t0.rows[i], t1.rows[i], t2.rows[i], t3.rows[i], Null, Null, Text(source));
    }
    t3
  }

  lemma AppendThree(r0: seq<Cell>, r1: seq<Cell>, r2: seq<Cell>, r3: seq<Cell>, a: Cell, b: Cell, c: Cell)
    requires r1 == r0 + [a] && r2 == r1 + [b] && r3 == r2 + [c]
    ensures r3 == r0 + [a, b, c]
  {
  }

  /** `df[name] = v` for a column the frame does not have yet: `v` is appended to every row. */
  function AddColumn(t: Table, name: string, v: Cell): (r: Table)
    requires t.WellShaped() && name !in t.columns
    ensures r.columns == t.columns + [name] && r.WellShaped() && |r.rows| == |t.rows|
    ensures forall i :: 0 <= i < |r.rows| ==> r.rows[i] == t.rows[i] + [v]
  {
    Broadcast(t, name, v)
  }

  /** None of the columns `standardize` adds is already there when it adds it. */
  lemma SchemaNames()
    ensures "LineId" !in ["Content"]
    ensures "EventId" !in ["LineId", "Content"]
    ensures "EventTemplate" !in ["LineId", "Content", "EventId"]
    ensures "Source" !in ["LineId", "Content", "EventId", "EventTemplate"]
    ensures ["LineId", "Content", "EventId", "EventTemplate"] + ["Source"] == Schema
  {
  }

  /**
   * `standardize` as written: when `contentCol` is missing it adds the joined text under the name
   * `Content`, but then selects `contentCol` all the same, which raises `KeyError` unless the two
   * names coincide. On a frame without rows and with two or more columns the fallback assignment
   * itself raises `ValueError` first.
   */
  function StandardizeAsWritten(df: Table, contentCol: string, source: string): (r: Result<Table, FrameError>)
    requires df.WellShaped()
    ensures r.Err? <==> contentCol !in df.columns && (contentCol != "Content" || EmptyWide(df))
    ensures r.Err? && EmptyWide(df) ==> r.error == WidthMismatch("Content", |df.columns|)
    ensures r.Err? && !EmptyWide(df) ==> r.error == KeyError(contentCol)
    ensures r.Ok? ==> r.value.columns == Schema && HasLineIds(r.value) && |r.value.rows| == |df.rows|
  {
    var base :- WithFallback(df, contentCol);
    var one :- Select(base, [contentCol]);
    var renamed := Rename(one, contentCol, "Content");
    assert renamed.columns == ["Content"];
    Ok(Finish(Column(renamed, "Content"), source))
  }

  /** A frame without rows and with two or more columns, on which the fallback assignment raises. */
  predicate EmptyWide(df: Table) { |df.rows| == 0 && |df.columns| >= 2 }

  /**
   * The frame after the fallback branch: a missing `contentCol` adds the joined text as `Content`,
   * except that on a frame without rows and with two or more columns the assignment raises.
   */
  function WithFallback(df: Table, contentCol: string): (r: Result<Table, FrameError>)
    requires df.WellShaped()
    ensures r.Err? <==> contentCol !in df.columns && EmptyWide(df)
    ensures r.Err? ==> r.error == WidthMismatch("Content", |df.columns|)
    ensures r.Ok? ==> var base := r.value;
      && base.WellShaped() && |base.rows| == |df.rows|
      && (contentCol in base.columns <==> contentCol in df.columns || contentCol == "Content")
      && (contentCol in df.columns ==> base == df)
      && (contentCol !in df.columns ==> "Content" in base.columns && Column(base, "Content") == JoinedRows(df))
  {
    if contentCol in df.columns then Ok(df)
    else
      match AggJoin(df)
      case Joined(cells) => SetColumn(df, "Content", cells)
      case Unreduced(frame) =>
        var r := SetFrame(df, "Content", frame);
        assert r.Ok? ==> Column(r.value, "Content") == JoinedRows(df);
        r
  }

  /** A frame whose columns do not include the one asked for makes the written code raise. */
  lemma StandardizeAsWrittenRaises()
    ensures StandardizeAsWritten(Table(["Message"], [[Text("boot ok")]]), "Text", "bgl") == Err(KeyError("Text"))
  {
  }

  /**
   * `standardize` as intended: the named column when the frame has it, otherwise the joined text of
   * all the cells of each row; every row numbered, with empty event fields and the source tag.
   */
  function Standardize(df: Table, contentCol: string, source: string): (t: Table)
    requires df.WellShaped()
    ensures t.columns == Schema && t.WellShaped() && HasLineIds(t) && |t.rows| == |df.rows|
    ensures forall i :: 0 <= i < |t.rows| ==>
      t.rows[i] == [Int(i + 1), if contentCol in df.columns then Column(df, contentCol)[i] else Text(JoinCells(df.rows[i])),
                    Null, Null, Text(source)]
  {
    var content := if contentCol in df.columns then Column(df, contentCol) else JoinedRows(df);
    Finish(content, source)
  }

  /** Where the written code does not raise, it computes the intended frame. */
  lemma StandardizeAgrees(df: Table, contentCol: string, source: string)
    requires df.WellShaped()
    ensures StandardizeAsWritten(df, contentCol, source).Ok? ==>
      StandardizeAsWritten(df, contentCol, source) == Ok(Standardize(df, contentCol, source))
    ensures contentCol in df.columns ==> StandardizeAsWritten(df, contentCol, source).Ok?
  {
    var w := WithFallback(df, contentCol);
    if w.Ok? && (contentCol in df.columns || contentCol == "Content") {
      var base := w.value;
      var one := Select(base, [contentCol]).value;
      var renamed := Rename(one, contentCol, "Content");
      assert Column(renamed, "Content") == Column(one, contentCol);
      assert Column(one, contentCol) == Column(base, contentCol);
    }
  }

  /** On a frame without rows and with two columns, the fallback assignment raises `ValueError`. */
  lemma StandardizeAsWrittenEmptyFrame()
    ensures StandardizeAsWritten(Table(["Message", "Level"], []), "Content", "bgl") == Err(WidthMismatch("Content", 2))
  {
  }
}
