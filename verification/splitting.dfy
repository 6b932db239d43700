/**
 * The two sources `load_dataset_to_sqlite` splits on whitespace instead of matching a pattern:
 * OpenSSH keeps the lines that `strip().split(maxsplit=5)` cuts into six parts, and BGL takes the
 * last part of `strip().split(maxsplit=9)` of every line as its Content.
 */
module SplitSources {
  import opened Wrappers
  import opened Chars
  import opened Tokens
  import opened Frames
  import opened LineFilter

  /** The columns of the OpenSSH frame, before `LineId` is put in front. */
  const SshColumns: seq<string> := ["Date", "Day", "Time", "Component", "Pid", "Content"]

  /** `parts = s.split(maxsplit=5)`, kept when there are six of them. */
  function SshParts(s: string): (r: Option<seq<string>>)
    ensures r.Some? ==> |r.value| == 6
  {
    var parts := SplitMax(s, 5);
    if |parts| == 6 then Some(parts) else None
  }

  /**
   * A line is kept exactly when it has at least six words. Then the first five parts are its first
   * five words, and the sixth is the rest of the stripped line, holding exactly the remaining words.
   */
  lemma SshPartsSpec(line: string)
    ensures SshParts(Strip(line)).Some? <==> |Words(line)| >= 6
    ensures SshParts(Strip(line)).Some? ==>
      var p := SshParts(Strip(line)).value;
      && p[..5] == Words(line)[..5]
      && (forall j :: 0 <= j < 5 ==> Token(p[j]))
      && Words(p[5]) == Words(line)[5..]
      && IsSuffix(p[5], Strip(line))
  {
    var s := Strip(line);
    WordsStrip(line);
    SplitMaxWords(s, 5);
    SplitMaxTokens(s, 5);
    if |Words(s)| >= 6 {
      SplitMaxRemainder(s, 5);
    }
  }

  /** A line of four words, say `Dec 10 06:55:46 LabSZ`, is dropped. */
  lemma SshDropsShortLine(line: string)
    requires |Words(line)| < 6
    ensures SshParts(Strip(line)).None?
  {
    SshPartsSpec(line);
  }

  /** The number of lines of at least six words. */
  function LongLines(lines: seq<string>): nat {
    if lines == [] then 0 else (if |Words(lines[0])| >= 6 then 1 else 0) + LongLines(lines[1..])
  }

  /** The OpenSSH branch: the six parts of every line that has them, numbered 1..N. */
  function ParseOpenSsh(lines: seq<string>): (t: Table)
    ensures t.columns == ["LineId"] + SshColumns && t.WellShaped() && HasLineIds(t)
    ensures |t.rows| == LongLines(lines)
    ensures forall k :: 0 <= k < |t.rows| ==> |t.rows[k]| == 7
    ensures |Kept(lines, SshParts)| == |t.rows|
    ensures forall k :: 0 <= k < |t.rows| ==> t.rows[k][1..] == TextRow(Kept(lines, SshParts)[k])
    ensures DropFirst(t).rows == TextRows(Kept(lines, SshParts))
  {
    var rows := Kept(lines, SshParts);
    KeptAll(lines, SshParts, (p: seq<string>) => |p| == 6);
    SshCount(lines);
    InsertLineId(FromRows(SshColumns, rows))
  }

  /**
   * A single line gives one row, `LineId` 1 and its six parts, when it has at least six words, and
   * no row otherwise.
   */
  lemma ParseOpenSshOne(line: string)
    ensures |Words(line)| >= 6 ==>
      ParseOpenSsh([line]).rows == [[Int(1)] + TextRow(SshParts(Strip(line)).value)]
    ensures |Words(line)| < 6 ==> ParseOpenSsh([line]).rows == []
  {
    SshPartsSpec(line);
    KeptOne(line, SshParts);
  }

  /** Reading a file in two pieces gives the parts of the first piece's lines, then the second's. */
  lemma ParseOpenSshAppend(a: seq<string>, b: seq<string>)
    ensures DropFirst(ParseOpenSsh(a + b)).rows == DropFirst(ParseOpenSsh(a)).rows + DropFirst(ParseOpenSsh(b)).rows
  {
    KeptAppend(a, b, SshParts);
    TextRowsAppend(Kept(a, SshParts), Kept(b, SshParts));
  }

  /** The rows are the lines of at least six words, one each. */
  lemma {:induction false} SshCount(lines: seq<string>)
    ensures |Kept(lines, SshParts)| == LongLines(lines)
    decreases |lines|
  {
    if lines != [] {
      SshPartsSpec(lines[0]);
      SshCount(lines[1..]);
    }
  }

  /** What the BGL content pass raises on a line. */
  datatype SplitError = IndexError

  /** `line.strip().split(maxsplit=9)[-1]`: a blank line has no parts, and indexing raises `IndexError`. */
  function BglContent(line: string): (r: Result<string, SplitError>)
    ensures r.Ok? ==> r.value != [] && !IsSpace(r.value[0])
  {
    var parts := SplitMax(Strip(line), 9);
    if parts == [] then Err(IndexError)
    else
      SplitMaxTokens(Strip(line), 9);
      Ok(parts[|parts| - 1])
  }

  /**
   * A blank line raises. A line of ten or more words yields the rest of the stripped line after the
   * first nine words, holding exactly the remaining words; a shorter one yields its last word.
   */
  lemma BglContentSpec(line: string)
    ensures BglContent(line).Err? <==> Words(line) == []
    ensures |Words(line)| >= 10 ==>
      && BglContent(line).Ok?
      && Words(BglContent(line).value) == Words(line)[9..]
      && IsSuffix(BglContent(line).value, Strip(line))
    ensures 0 < |Words(line)| < 10 ==> BglContent(line) == Ok(Words(line)[|Words(line)| - 1])
  {
    var s := Strip(line);
    WordsStrip(line);
    SplitMaxWords(s, 9);
    if |Words(s)| >= 10 {
      SplitMaxRemainder(s, 9);
    } else {
      SplitMaxOfFewWords(s, 9);
    }
  }

  /** `[line.strip().split(maxsplit=9)[-1] for line in f]`: one entry per line, or the first error. */
  function BglContents(lines: seq<string>): (r: Result<seq<string>, SplitError>)
    ensures r.Ok? <==> forall i :: 0 <= i < |lines| ==> BglContent(lines[i]).Ok?
    ensures r.Ok? ==> |r.value| == |lines| && forall i :: 0 <= i < |lines| ==> r.value[i] == BglContent(lines[i]).value
  {
    if lines == [] then Ok([])
    else
      var c :- BglContent(lines[0]);
      var cs :- BglContents(lines[1..]);
      assert forall i :: 0 < i < |lines| ==> lines[i] == lines[1..][i - 1];
      Ok([c] + cs)
  }

  /** The content pass fails exactly when the file holds a blank line. */
  lemma BglContentsFail(lines: seq<string>)
    ensures BglContents(lines).Err? <==> exists i :: 0 <= i < |lines| && Words(lines[i]) == []
  {
    forall i | 0 <= i < |lines| ensures BglContent(lines[i]).Err? <==> Words(lines[i]) == [] {
      BglContentSpec(lines[i]);
    }
  }

  /** The nine columns `pd.read_csv` is told to name. */
  const BglCsvColumns: seq<string> := ["Label", "Timestamp", "Date", "Node", "Time",
                                       "NodeRepeat", "Type", "Component", "Level"]

  /** What the BGL branch raises. */
  datatype BglError = Split(e: SplitError) | Frame(f: FrameError)

  /**
   * The BGL branch after `pd.read_csv`: the Content column from the raw lines, then `LineId`. The frame
   * `csv` is what `read_csv` returned, which drops the lines it cannot parse; when that leaves it with
   * another number of rows than the file has lines, assigning the column raises.
   */
  function LoadBgl(csv: Table, lines: seq<string>): (r: Result<Table, BglError>)
    requires csv.columns == BglCsvColumns && csv.WellShaped()
    ensures r.Ok? <==> BglContents(lines).Ok? && (|csv.rows| == |lines| || |csv.rows| == 0)
    ensures r.Ok? ==> && r.value.columns == ["LineId"] + BglCsvColumns + ["Content"]
                      && r.value.WellShaped() && HasLineIds(r.value) && |r.value.rows| == |lines|
    ensures r.Ok? ==> forall i :: 0 <= i < |lines| ==> r.value.rows[i][10] == Text(BglContent(lines[i]).value)
  {
    match BglContents(lines)
    case Err(e) => Err(Split(e))
    case Ok(contents) =>
      match WithContent(csv, contents)
      case Err(f) => Err(Frame(f))
      case Ok(t) => Ok(t)
  }

  /** `df["Content"] = contents` followed by `df.insert(0, "LineId", ...)`. */
  function WithContent(csv: Table, contents: seq<string>): (r: Result<Table, FrameError>)
    requires csv.columns == BglCsvColumns && csv.WellShaped()
    ensures r.Ok? <==> |csv.rows| == |contents| || |csv.rows| == 0
    ensures r.Ok? ==> && r.value.columns == ["LineId"] + BglCsvColumns + ["Content"]
                      && r.value.WellShaped() && HasLineIds(r.value) && |r.value.rows| == |contents|
    ensures r.Ok? ==> forall i :: 0 <= i < |contents| ==> r.value.rows[i][10] == Text(contents[i])
  {
    BglColumnNames();
    var df :- SetColumn(csv, "Content", TextRow(contents));
    ContentIsTenth(df, contents);
    Ok(InsertLineId(df))
  }

  /** Neither Content nor LineId is among the names given to `read_csv`. */
  lemma BglColumnNames()
    ensures "Content" !in BglCsvColumns
    ensures "LineId" !in BglCsvColumns + ["Content"]
  {
  }

  /** After the assignment the Content column is the tenth, after the nine of `read_csv`. */
  lemma ContentIsTenth(df: Table, contents: seq<string>)
    requires df.WellShaped() && df.columns == BglCsvColumns + ["Content"]
    requires Column(df, "Content") == TextRow(contents)
    ensures "LineId" !in df.columns
    ensures forall i :: 0 <= i < |df.rows| ==> df.rows[i][9] == Text(contents[i])
  {
    BglColumnNames();
    assert df.columns[..9] == BglCsvColumns;
    assert IndexOf(df.columns, "Content") == 9;
    forall i | 0 <= i < |df.rows| ensures df.rows[i][9] == Text(contents[i]) {
      assert df.rows[i][9] == Column(df, "Content")[i];
    }
  }
}
