/**
 * `load_dataset_to_sqlite`: pick the parser by dataset name, build the frame, and replace the table
 * `logs_<name>` with it. Finding and reading files, `pd.read_csv` and SQLite are outside the model: the
 * loader is given what they would return.
 */
module Loader {
  import opened Wrappers
  import opened Frames
  import opened Parsers
  import opened SplitSources
  import opened LineFilter
  import OpenStackLog
  import MacLog
  import AndroidLog

  /** The file-name patterns handed to `find_file`. */
  const BglPattern: string := "BGL\\.log$"
  const SshPattern: string := "SSH.*\\.log$"
  const MacPattern: string := "Mac.*\\.log$"
  const AndroidPattern: string := "Android.*\\.log$"

  /** The two OpenStack files, read in this order. */
  const OpenStackFiles: seq<string> := ["openstack_normal1.log", "openstack_normal2.log"]

  /** The dataset names that have a parser. */
  const Sources: seq<string> := ["bgl", "openssh", "openstack", "mac", "android_v1"]

  /**
   * What the loader sees of a dataset directory: `find` gives the lines of the first file whose name
   * matches a pattern, `open` the lines of a file given by name, and `bglCsv` the frame `pd.read_csv`
   * makes of the BGL file. `None` stands for the `FileNotFoundError` either would raise.
   */
  datatype Dataset = Dataset(find: string -> Option<seq<string>>, open: string -> Option<seq<string>>, bglCsv: Table)
  {
    /** `read_csv` was told the nine column names. */
    predicate Valid() { bglCsv.columns == BglCsvColumns && bglCsv.WellShaped() }
  }

  /** The exceptions the loader catches. */
  datatype LoadError = FileNotFound(file: string) | Bgl(e: BglError)

  /** What one call comes to: a frame for `logs_<name>`, no parser for the name, or a caught exception. */
  datatype Outcome = Loaded(table: string, frame: Table) | NoParser | Failed(error: LoadError)

  /** The columns the Mac branch selects: all of them, in the order they already have. */
  const MacSelection: seq<string> := ["LineId", "Month", "Date", "Time", "User", "Component", "PID", "Content"]

  /** The columns the Android branch selects: all of them, in the order they already have. */
  const AndroidSelection: seq<string> := ["LineId", "Date", "Time", "Pid", "Tid", "Level", "Component", "Content"]

  /** The Mac selection names the columns of the numbered Mac frame, each once. */
  lemma MacSelectionNames()
    ensures "LineId" !in MacLog.Columns && MacSelection == ["LineId"] + MacLog.Columns && Distinct(MacSelection)
  {
  }

  /** The Android selection names the columns of the numbered Android frame, each once. */
  lemma AndroidSelectionNames()
    ensures "LineId" !in AndroidLog.Columns && AndroidSelection == ["LineId"] + AndroidLog.Columns
    ensures Distinct(AndroidSelection)
  {
  }

  /** The Mac branch: the parsed frame, numbered, with its columns selected. */
  function LoadMac(lines: seq<string>): (t: Table)
    ensures t.columns == MacSelection && t.WellShaped() && HasLineIds(t)
    ensures |t.rows| == |ParseMacLog(lines).rows|
    ensures forall k :: 0 <= k < |t.rows| ==> t.rows[k][1..] == ParseMacLog(lines).rows[k]
  {
    MacSelectionNames();
    var df := InsertLineId(ParseMacLog(lines));
    SelectAll(df);
    Select(df, MacSelection).value
  }

  /** The Android branch: the parsed frame, numbered, with its columns selected. */
  function LoadAndroid(lines: seq<string>): (t: Table)
    ensures t.columns == AndroidSelection && t.WellShaped() && HasLineIds(t)
    ensures |t.rows| == |ParseAndroidLog(lines).rows|
    ensures forall k :: 0 <= k < |t.rows| ==> t.rows[k][1..] == ParseAndroidLog(lines).rows[k]
  {
    AndroidSelectionNames();
    var df := InsertLineId(ParseAndroidLog(lines));
    SelectAll(df);
    Select(df, AndroidSelection).value
  }

  /**
   * The OpenStack branch: the error for the first file missing, or the frame of both files read as
   * one, so that `LineId` runs on from the first file into the second and row k holds the groups of
   * the k-th matching line of the two.
   */
  function LoadOpenStack(d: Dataset): (r: Result<Table, LoadError>)
    ensures r.Ok? <==> d.open(OpenStackFiles[0]).Some? && d.open(OpenStackFiles[1]).Some?
    ensures r.Err? ==>
      r.error == FileNotFound(if d.open(OpenStackFiles[0]).None? then OpenStackFiles[0] else OpenStackFiles[1])
    ensures r.Ok? ==>
      var lines := d.open(OpenStackFiles[0]).value + d.open(OpenStackFiles[1]).value;
      var rs := Kept(lines, OpenStackLog.MatchOpenStack);
      && r.value == LoadOpenStackLogs([lines])
      && |r.value.rows| == |rs|
      && forall k :: 0 <= k < |rs| ==> r.value.rows[k] == [Int(k + 1)] + TextRow(rs[k].Groups())
  {
    match d.open(OpenStackFiles[0])
    case None => Err(FileNotFound(OpenStackFiles[0]))
    case Some(first) =>
      match d.open(OpenStackFiles[1])
      case None => Err(FileNotFound(OpenStackFiles[1]))
      case Some(second) =>
        OpenStackTwoFiles(first, second);
        Ok(LoadOpenStackLogs([first, second]))
  }

  /** Two files give the frame of their lines read one after the other, numbered across both. */
  lemma OpenStackTwoFiles(first: seq<string>, second: seq<string>)
    ensures var rs := Kept(first + second, OpenStackLog.MatchOpenStack);
      var t := LoadOpenStackLogs([first, second]);
      && t == LoadOpenStackLogs([first + second])
      && |t.rows| == |rs|
      && forall k :: 0 <= k < |rs| ==> t.rows[k] == [Int(k + 1)] + TextRow(rs[k].Groups())
  {
    var files := [first, second];
    assert Concat(files) == first + second by {
      assert Concat(files[1..]) == second + Concat([]);
    }
    OpenStackLineIdsSpanFiles(files);
    OpenStackRecordsConcat(files);
    var t := LoadOpenStackLogs(files);
    var rs := OpenStackRecords(files);
    assert rs == Kept(first + second, OpenStackLog.MatchOpenStack);
    forall k | 0 <= k < |t.rows| ensures t.rows[k] == [Int(k + 1)] + TextRow(rs[k].Groups()) {
      assert t.rows[k] == [t.rows[k][0]] + t.rows[k][1..];
    }
  }

  /** The lines of the file `find_file` picks for `pattern`. */
  function Find(d: Dataset, pattern: string): (r: Result<seq<string>, LoadError>)
    ensures r.Ok? <==> d.find(pattern).Some?
    ensures r.Ok? ==> r.value == d.find(pattern).value
    ensures r.Err? ==> r.error == FileNotFound(pattern)
  {
    match d.find(pattern)
    case None => Err(FileNotFound(pattern))
    case Some(lines) => Ok(lines)
  }

  /** The frame of the branch for `name`, which must be one of `Sources`. */
  function Frame(name: string, d: Dataset): (r: Result<Table, LoadError>)
    requires d.Valid() && name in Sources
    ensures r.Ok? ==> HasLineIds(r.value) && r.value.WellShaped()
  {
    if name == "bgl" then
      var lines :- Find(d, BglPattern);
      match LoadBgl(d.bglCsv, lines)
      case Err(e) => Err(Bgl(e))
      case Ok(t) => Ok(t)
    else if name == "openssh" then
      var lines :- Find(d, SshPattern);
      Ok(ParseOpenSsh(lines))
    else if name == "openstack" then
      LoadOpenStack(d)
    else if name == "mac" then
      var lines :- Find(d, MacPattern);
      Ok(LoadMac(lines))
    else
      var lines :- Find(d, AndroidPattern);
      Ok(LoadAndroid(lines))
  }

  /**
   * `load_dataset_to_sqlite(conn, name, dataset_dir)`: an unknown name has no parser; a known one
   * either loads a frame numbered 1..N for `logs_<name>` or fails with the exception it caught.
   */
  function LoadDataset(name: string, d: Dataset): (o: Outcome)
    requires d.Valid()
    ensures o.NoParser? <==> name !in Sources
    ensures o.Loaded? ==> o.table == "logs_" + name && HasLineIds(o.frame) && o.frame.WellShaped()
  {
    if name !in Sources then NoParser
    else
      match Frame(name, d)
      case Err(e) => Failed(e)
      case Ok(t) => Loaded("logs_" + name, t)
  }

  /** The SQLite file as a map from table names to frames. */
  type Store = map<string, Table>

  /** `df.to_sql(table, conn, if_exists="replace")`: the table is the frame, whatever it held before. */
  function Replace(db: Store, table: string, frame: Table): (r: Store)
    ensures table in r && r[table] == frame
    ensures forall n :: n in db && n != table ==> n in r && r[n] == db[n]
    ensures r.Keys == db.Keys + {table}
  {
    db[table := frame]
  }

  /**
   * The whole call against the store. The OpenStack branch writes its table inside the branch and
   * again after it; a failure or an unknown name leaves the store alone.
   */
  function LoadIntoStore(db: Store, name: string, d: Dataset): Store
    requires d.Valid()
  {
    match LoadDataset(name, d)
    case Loaded(table, frame) =>
      if name == "openstack" then Replace(Replace(db, table, frame), table, frame) else Replace(db, table, frame)
    case _ => db
  }

  /**
   * When a known source fails: when `find_file` finds no file, when an OpenStack file is missing, or
   * when the BGL branch raises.
   */
  lemma LoadDatasetFails(name: string, d: Dataset)
    requires d.Valid()
    ensures name == "openssh" ==> (LoadDataset(name, d).Failed? <==> d.find(SshPattern).None?)
    ensures name == "mac" ==> (LoadDataset(name, d).Failed? <==> d.find(MacPattern).None?)
    ensures name == "android_v1" ==> (LoadDataset(name, d).Failed? <==> d.find(AndroidPattern).None?)
    ensures name == "openstack" ==>
      (LoadDataset(name, d).Failed? <==> d.open(OpenStackFiles[0]).None? || d.open(OpenStackFiles[1]).None?)
    ensures name == "bgl" ==>
      (LoadDataset(name, d).Failed? <==>
        d.find(BglPattern).None? || LoadBgl(d.bglCsv, d.find(BglPattern).value).Err?)
  {
  }

  /** Writing the OpenStack table twice leaves the store as one write would: only `logs_<name>` changes. */
  lemma LoadIntoStoreOnce(db: Store, name: string, d: Dataset)
    requires d.Valid()
    ensures var o := LoadDataset(name, d);
      LoadIntoStore(db, name, d) == if o.Loaded? then db[o.table := o.frame] else db
  {
  }
}
