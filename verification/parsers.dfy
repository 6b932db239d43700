/**
 * `parse_mac_log`, `parse_android_log` and `load_openstack_logs`: the frames the regex parsers build
 * from the lines of their files. A file is the sequence of its lines; reading it is not modelled.
 */
module Parsers {
  import opened Wrappers
  import opened Chars
  import opened Frames
  import opened LineFilter
  import MacLog
  import AndroidLog
  import OpenStackLog

  /** A row of text cells only. */
  predicate AllText(row: seq<Cell>) { forall j :: 0 <= j < |row| ==> row[j].Text? }

  /** What the Mac pattern guarantees of a kept row: seven text fields, a numeric PID, a Component without `[`. */
  predicate MacRowOk(row: seq<Cell>) {
    && |row| == 7 && AllText(row)
    && Digits(row[5].s)
    && |row[4].s| > 0 && '[' !in row[4].s
  }

  /** What the Android pattern guarantees of a kept row: numeric Pid and Tid, a one-letter upper-case Level. */
  predicate AndroidRowOk(row: seq<Cell>) {
    && |row| == 7 && AllText(row)
    && Digits(row[2].s) && Digits(row[3].s)
    && |row[4].s| == 1 && IsUpper(row[4].s[0])
  }

  /** The Mac records of the matching lines, in file order. */
  function MacRecords(lines: seq<string>): (rs: seq<MacLog.MacLine>)
    ensures |rs| == Matching(lines, MacLog.MatchMac) && |rs| <= |lines|
    ensures forall k :: 0 <= k < |rs| ==> rs[k].Valid()
  {
    KeptAll(lines, MacLog.MatchMac, (m: MacLog.MacLine) => m.Valid());
    KeptCount(lines, MacLog.MatchMac);
    Kept(lines, MacLog.MatchMac)
  }

  /** The rows `pd.DataFrame` is given: the groups of each record, in record order. */
  function RowsOf<T>(rs: seq<T>, groups: T -> seq<string>): (g: seq<seq<string>>)
    ensures |g| == |rs|
    ensures forall k :: 0 <= k < |rs| ==> g[k] == groups(rs[k])
  {
    seq(|rs|, k requires 0 <= k < |rs| => groups(rs[k]))
  }

  /** Taking the rows of two runs of records gives the rows of the first run, then those of the second. */
  lemma RowsOfAppend<T>(a: seq<T>, b: seq<T>, groups: T -> seq<string>)
    ensures RowsOf(a + b, groups) == RowsOf(a, groups) + RowsOf(b, groups)
  {
  }

  /** The groups of a record of each kind, as `pd.DataFrame` is given them. */
  const MacFields: MacLog.MacLine -> seq<string> := (m: MacLog.MacLine) => m.Groups()
  const AndroidFields: AndroidLog.AndroidLine -> seq<string> := (a: AndroidLog.AndroidLine) => a.Groups()
  const OpenStackFields: OpenStackLog.OpenStackLine -> seq<string> := (o: OpenStackLog.OpenStackLine) => o.Groups()

  /** `parse_mac_log`: one row of the seven groups per matching line, in the columns of the pattern. */
  function ParseMacLog(lines: seq<string>): (t: Table)
    ensures t.columns == MacLog.Columns && t.WellShaped()
    ensures |t.rows| == Matching(lines, MacLog.MatchMac) && |t.rows| <= |lines|
    ensures forall k :: 0 <= k < |t.rows| ==> MacRowOk(t.rows[k])
  {
    var rs := MacRecords(lines);
    var t := FromRows(MacLog.Columns, RowsOf(rs, MacFields));
    forall k | 0 <= k < |t.rows| ensures MacRowOk(t.rows[k]) {
      MacRowOfRecord(rs[k]);
    }
    t
  }

  lemma MacRowOfRecord(m: MacLog.MacLine)
    requires m.Valid()
    ensures MacRowOk(TextRow(m.Groups()))
  {
  }

  /** Reading a file in two pieces gives the rows of the first piece, then those of the second. */
  lemma ParseMacLogAppend(a: seq<string>, b: seq<string>)
    ensures ParseMacLog(a + b).rows == ParseMacLog(a).rows + ParseMacLog(b).rows
  {
    KeptAppend(a, b, MacLog.MatchMac);
    var ra, rb := MacRecords(a), MacRecords(b);
    RowsOfAppend(ra, rb, MacFields);
    TextRowsAppend(RowsOf(ra, MacFields), RowsOf(rb, MacFields));
  }

  /** A single line gives one row, of its groups, when it matches and none when it does not. */
  lemma ParseMacLogOne(line: string)
    ensures var m := MacLog.MatchMac(Strip(line));
      ParseMacLog([line]).rows == if m.Some? then [TextRow(m.value.Groups())] else []
  {
    KeptOne(line, MacLog.MatchMac);
  }

  /** The Android records of the matching lines, in file order. */
  function AndroidRecords(lines: seq<string>): (rs: seq<AndroidLog.AndroidLine>)
    ensures |rs| == Matching(lines, AndroidLog.MatchAndroid) && |rs| <= |lines|
    ensures forall k :: 0 <= k < |rs| ==> rs[k].Valid()
  {
    KeptAll(lines, AndroidLog.MatchAndroid, (a: AndroidLog.AndroidLine) => a.Valid());
    KeptCount(lines, AndroidLog.MatchAndroid);
    Kept(lines, AndroidLog.MatchAndroid)
  }

  /** `parse_android_log`: one row of the seven groups per matching line, in the columns of the pattern. */
  function ParseAndroidLog(lines: seq<string>): (t: Table)
    ensures t.columns == AndroidLog.Columns && t.WellShaped()
    ensures |t.rows| == Matching(lines, AndroidLog.MatchAndroid) && |t.rows| <= |lines|
    ensures forall k :: 0 <= k < |t.rows| ==> AndroidRowOk(t.rows[k])
  {
    var rs := AndroidRecords(lines);
    var t := FromRows(AndroidLog.Columns, RowsOf(rs, AndroidFields));
    forall k | 0 <= k < |t.rows| ensures AndroidRowOk(t.rows[k]) {
      AndroidRowOfRecord(rs[k]);
    }
    t
  }

  lemma AndroidRowOfRecord(a: AndroidLog.AndroidLine)
    requires a.Valid()
    ensures AndroidRowOk(TextRow(a.Groups()))
  {
  }

  /** Reading a file in two pieces gives the rows of the first piece, then those of the second. */
  lemma ParseAndroidLogAppend(a: seq<string>, b: seq<string>)
    ensures ParseAndroidLog(a + b).rows == ParseAndroidLog(a).rows + ParseAndroidLog(b).rows
  {
    KeptAppend(a, b, AndroidLog.MatchAndroid);
    var ra, rb := AndroidRecords(a), AndroidRecords(b);
    RowsOfAppend(ra, rb, AndroidFields);
    TextRowsAppend(RowsOf(ra, AndroidFields), RowsOf(rb, AndroidFields));
  }

  /** A single line gives one row, of its groups, when it matches and none when it does not. */
  lemma ParseAndroidLogOne(line: string)
    ensures var m := AndroidLog.MatchAndroid(Strip(line));
      ParseAndroidLog([line]).rows == if m.Some? then [TextRow(m.value.Groups())] else []
  {
    KeptOne(line, AndroidLog.MatchAndroid);
  }

  /** The OpenStack records of the matching lines of every file, file after file. */
  function OpenStackRecords(files: seq<seq<string>>): (rs: seq<OpenStackLog.OpenStackLine>)
    ensures forall k :: 0 <= k < |rs| ==> rs[k].Valid()
  {
    if files == [] then []
    else
      KeptAll(files[0], OpenStackLog.MatchOpenStack, (o: OpenStackLog.OpenStackLine) => o.Valid());
      Kept(files[0], OpenStackLog.MatchOpenStack) + OpenStackRecords(files[1..])
  }

  /** All the lines of the files, file after file. */
  function Concat(files: seq<seq<string>>): seq<string> {
    if files == [] then [] else files[0] + Concat(files[1..])
  }

  /** Reading the files one after the other keeps the records that reading their concatenation would. */
  lemma {:induction false} OpenStackRecordsConcat(files: seq<seq<string>>)
    ensures OpenStackRecords(files) == Kept(Concat(files), OpenStackLog.MatchOpenStack)
    decreases |files|
  {
    if files != [] {
      OpenStackRecordsConcat(files[1..]);
      KeptAppend(files[0], Concat(files[1..]), OpenStackLog.MatchOpenStack);
    }
  }

  /**
   * `load_openstack_logs`: the records of all files, numbered 1..N across the files. `pd.DataFrame`
   * of no records has no columns, so an empty result has the `LineId` column only.
   */
  function LoadOpenStackLogs(files: seq<seq<string>>): (t: Table)
    ensures HasLineIds(t) && t.WellShaped()
    ensures t.columns == ["LineId"] + if |t.rows| == 0 then [] else OpenStackLog.Columns
    ensures |t.rows| == |OpenStackRecords(files)|
    ensures forall k :: 0 <= k < |t.rows| ==> t.rows[k][1..] == TextRow(OpenStackRecords(files)[k].Groups())
  {
    OpenStackFrame(OpenStackRecords(files))
  }

  /** The numbered frame of a list of records. */
  function OpenStackFrame(rs: seq<OpenStackLog.OpenStackLine>): (t: Table)
    ensures HasLineIds(t) && t.WellShaped()
    ensures t.columns == ["LineId"] + if |t.rows| == 0 then [] else OpenStackLog.Columns
    ensures |t.rows| == |rs|
    ensures forall k :: 0 <= k < |t.rows| ==> t.rows[k][1..] == TextRow(rs[k].Groups())
  {
    var df := if rs == [] then Table([], []) else FromRows(OpenStackLog.Columns, RowsOf(rs, OpenStackFields));
    var t := InsertLineId(df);
    assert forall k :: 0 <= k < |t.rows| ==> t.rows[k][1..] == df.rows[k];
    t
  }

  /**
   * The files behave as one file of all their lines: `LineId` runs on from one file into the next
   * instead of starting again at 1.
   */
  lemma OpenStackLineIdsSpanFiles(files: seq<seq<string>>)
    ensures LoadOpenStackLogs(files) == LoadOpenStackLogs([Concat(files)])
  {
    OpenStackRecordsConcat(files);
    OpenStackRecordsConcat([Concat(files)]);
    assert Concat([Concat(files)]) == Concat(files) + [];
    assert OpenStackRecords(files) == OpenStackRecords([Concat(files)]);
  }
}
