# Log ingestion and filter queries, modelled in Dafny

The system downloads five public log datasets (BGL, OpenSSH, OpenStack, Mac, Android), turns each log
file into a table with one row per record and a `LineId` column numbering the rows 1..N, and stores
each table in SQLite as `logs_<name>`. A dashboard then reads a table back. The user's column filters
become a parameterised `WHERE` clause of the query it sends.

This project models the core of that pipeline as pure functions over immutable values:

- **Line matchers.** The regular expressions of the Mac, Android and OpenStack parsers are written as
  deterministic scanners. They give exactly the groups Python's `re` backtracking gives (modules
  `MacLog`, `AndroidLog`, `OpenStackLog`, built from the pieces in `Scan`).
- **The filtering loop.** Every parser runs the same loop: strip the line, try the pattern, keep the
  groups (`LineFilter`).
- **Whitespace splitting.** CPython's `str.split()` and `str.split(maxsplit=k)` are modelled in
  `Tokens`. OpenSSH keeps the lines that split into six parts. BGL takes the last part of a
  ten-way split of every line (`SplitSources`).
- **Frames.** The part of a pandas DataFrame the loaders rely on (`Frames`): building from rows,
  `insert(0, "LineId", …)`, column selection, rename and column assignment. The pandas error
  behaviour is modelled too.
- **Schema mapping and loading.** `standardize` is in module `Standardize`. The per-source frames
  are in `Parsers`. `load_dataset_to_sqlite` is in `Loader`; it dispatches on the dataset name and
  writes to a table store.
- **Dashboard query.** `build_where_clause` and `load_filtered_data` are in module `Query`.

File reading, directory search and `pd.read_csv` are given to the model as parameters: the lines of
a file, a lookup from a file-name pattern to lines, and the frame `read_csv` returns. SQLite is a map
from table names to frames.

`Wrappers` holds the `Option` and `Result` types used for every error path. `Chars` holds the
character classes, `str.strip`, `(.*)$`, `str(int)` and `sep.join`.

Two consequences of the code that are easy to miss:
- BGL Content is the last element of `line.strip().split(maxsplit=9)`, so a line of fewer than ten
  words gives its last word (`SplitSources.BglContentSpec`).
- When `read_csv` returned no rows, pandas grows the frame to one NaN row per line on
  `df["Content"] = contents` (`Frames.SetColumn`, `SplitSources.LoadBgl`).

## Model

| member | source | states |
|---|---|---|
| Chars.Strip | logs.py:29 | `line.strip()` removes exactly the leading and trailing whitespace: the result is the middle slice, everything cut off is whitespace, and the result starts and ends with non-whitespace unless it is empty |
| Chars.LineRest | logs.py:25 | `(.*)$` matches iff the text has no newline except possibly a final one; the capture holds no newline and is the text minus at most that final newline |
| Chars.IntToString | dash.py:63 | `f"{limit}"` writes the decimal digits of the absolute value, which read back as that value, with no leading zero except in `0`, and with a leading `-` exactly when the number is negative |
| Chars.NatToString | dash.py:63 | the digits of a natural number, `0` exactly for zero, and never a leading zero otherwise |
| Chars.NatToStringRoundTrip | dash.py:63 | reading the written digits back gives the number |
| Scan.Take | logs.py:25 | a greedy `p+` succeeds iff the text starts with a `p` character, and then splits off the maximal run |
| Scan.TakeOfConcat | logs.py:25 | a maximal run in front of any text is found again: the greedy scan never gives a character back |
| Scan.GapThenRest | logs.py:25 | `\s+(.*)$` splits the end of a line into a maximal whitespace run, a newline-free rest not starting with whitespace, and at most a final newline |
| Scan.GapThenRestOfConcat | logs.py:25 | a whitespace run followed by a newline-free rest not starting with whitespace is exactly what `\s+(.*)$` finds |
| Scan.ScanFineClock | logs.py:37 | `\d{2}:\d{2}:\d{2}\.\d+` reads two-digit hour, minute and second and a maximal non-empty fraction, and the text is their rendering |
| Scan.ScanFineClockOfText | logs.py:37 | a rendered clock is read back with the same fields |
| Tokens.NextWordSpec | logs.py:162 | one step of `split()` skips only whitespace, returns a whitespace-free token, and leaves a rest that is empty or starts with whitespace |
| Tokens.WordsStrip | logs.py:162 | `s.strip().split()` has the same words as `s.split()` |
| Tokens.WordsOfJoin | logs.py:162 | `" ".join(tokens).split()` gives the tokens back |
| Tokens.SplitMaxWords | logs.py:162 | `split(maxsplit=k)` agrees with `split()` on its first k parts and has at most k+1 parts |
| Tokens.SplitMaxRemainder | logs.py:162 | with more than k words the split has k+1 parts, the last part is a suffix of the text, and its words are the words after the k-th |
| Tokens.SplitMaxOfFewWords | logs.py:150 | with at most k words `split(maxsplit=k)` is `split()` |
| Tokens.SplitMaxTokens | logs.py:150 | the first k parts are tokens, and a (k+1)-th part is non-empty and starts with non-whitespace |
| MacLog.ScanComponent | logs.py:25 | `\s+([^[]+)\[` after User: the Component is non-empty and has no `[`; it is a single whitespace character when the whitespace run reaches the `[` |
| MacLog.ScanComponentOfConcat | logs.py:25 | every Component of that form is the one the pattern captures |
| MacLog.ScanMac | logs.py:25 | a Mac match gives a canonical record, whitespace runs and line end whose text is exactly the line |
| MacLog.ScanMacOfText | logs.py:25 | any canonical record, laid out with any whitespace runs, is matched back to itself and its runs |
| MacLog.MatchMac | logs.py:25 | `pattern.match` gives groups meeting the pattern's character classes (word Month, numeric Date, Time and PID, a Component without `[`, Content without a newline) |
| MacLog.MatchMacRender | logs.py:25 | matching the single-spaced rendering of a canonical record gives it back |
| AndroidLog.ScanColonTagged | logs.py:37 | `(\S+):\s` takes the non-space run up to its last `:` that is followed by whitespace or the end |
| AndroidLog.ScanAndroid | logs.py:37 | an Android match gives a canonical record, whitespace runs and line end whose text is exactly the line |
| AndroidLog.ScanAndroidOfText | logs.py:37 | any canonical record, laid out with any whitespace runs, is matched back to itself and its runs |
| AndroidLog.MatchAndroid | logs.py:37 | the groups meet the pattern's classes (two-digit date and clock fields, numeric Pid and Tid, one upper-case Level letter, whitespace-free Component) |
| AndroidLog.MatchAndroidRender | logs.py:37 | matching the single-spaced rendering of a canonical record gives it back |
| OpenStackLog.ScanClose | logs.py:58-59 | lazy `\[.*?\]\s+(.*)$`: the block holds no newline and the text is block, `]`, gap, Content and line end |
| OpenStackLog.ScanCloseFirst | logs.py:58 | the lazy block closes at the first `]` where the rest of the pattern matches: at no `]` inside it does `\s+(.*)$` match |
| OpenStackLog.ScanCloseOfText | logs.py:58-59 | a block with no `]` followed by whitespace inside it is read back unchanged |
| OpenStackLog.ScanOpenStack | logs.py:51-60 | an OpenStack match gives a valid record, whitespace runs and line end whose text is exactly the line |
| OpenStackLog.ScanOpenStackOfText | logs.py:51-60 | any canonical record, laid out with any whitespace runs, is matched back to itself |
| OpenStackLog.MatchOpenStack | logs.py:51-60 | the groups meet the pattern's classes (four-digit year, two-digit fields, numeric Pid, word Level, whitespace-free Logrecord and Component), Content never starts with whitespace, and on a line without a newline the record is canonical: no `]` inside the block is followed by whitespace |
| OpenStackLog.ScanCloseNoEarly | logs.py:58 | on text without a newline the lazy `\[.*?\]` closes at the first `]` followed by whitespace |
| OpenStackLog.MatchOpenStackRender | logs.py:51-60 | matching the single-spaced rendering of a canonical record gives it back |
| LineFilter.KeptAppend | logs.py:28-31 | filtering a file in two pieces gives the first piece's records followed by the second's: file order is kept |
| LineFilter.KeptOne | logs.py:29-31 | one line yields its groups iff the pattern matches the stripped line, and nothing otherwise |
| LineFilter.KeptCount | logs.py:28-31 | one record per matching line and no other |
| LineFilter.KeptAll | logs.py:30-31 | every kept record has each property the pattern guarantees of a match |
| LineFilter.FilterLines | logs.py:26-31 | the loop that appends one row per matching line computes exactly the filtered records |
| Frames.FromRows | logs.py:32 | `pd.DataFrame(rows, columns=…)` has the given columns and one text row per input row |
| Frames.InsertLineId | logs.py:70 | `insert(0, "LineId", range(1, n+1))` puts `LineId` first, numbers rows 1..n in order, keeps row count and shape, and dropping the column gives the frame back |
| Frames.Select | logs.py:122 | `df[cols]` succeeds iff every name is a column, else raises `KeyError` for a missing one; it has the asked columns in order with their cells |
| Frames.SelectAll | logs.py:187-188 | selecting all of a frame's distinct columns in their own order gives the frame back |
| Frames.Rename | logs.py:122 | `rename(columns={a: b})` gives every `a` column the name `b`, keeps every other name in place and keeps the cells; no `a` column is left when `a != b` |
| Frames.RenameColumn | logs.py:122 | renaming `a` to a name the frame lacks: the `b` column holds the cells of the `a` column |
| Frames.RenameBack | logs.py:122 | renaming `a` to a name the frame lacks and back again gives the frame back |
| Frames.SetColumn | logs.py:151 | `df[name] = values` succeeds iff the lengths agree or the frame has no rows, else raises the length mismatch; the column then holds the values, appended when new |
| Frames.SetColumnKeepsOthers | logs.py:151 | assigning one column leaves every other column unchanged |
| Frames.SetFrame | logs.py:118 | `df[name] = other_frame` assigns the single column of a one-column frame and raises `ValueError` for a frame of any other width |
| Frames.Broadcast | logs.py:124-126 | `df[name] = v` puts `v` in every row, appended at the end when the column is new |
| Parsers.ParseMacLog | logs.py:23-33 | the Mac frame has the seven pattern columns and one row per matching line; every row has seven text fields, a numeric PID and a non-empty Component without `[` |
| Parsers.ParseMacLogAppend | logs.py:26-32 | parsing a file in two pieces gives the rows of the first then of the second |
| Parsers.ParseMacLogOne | logs.py:29-31 | one line gives the row of its groups iff it matches |
| Parsers.ParseAndroidLog | logs.py:35-45 | the Android frame has the seven pattern columns and one row per matching line; every row has numeric Pid and Tid and a one-letter upper-case Level |
| Parsers.ParseAndroidLogAppend | logs.py:38-44 | parsing a file in two pieces gives the rows of the first then of the second |
| Parsers.ParseAndroidLogOne | logs.py:41-43 | one line gives the row of its groups iff it matches |
| Parsers.OpenStackRecordsConcat | logs.py:62-67 | reading the files one after another keeps the records that filtering their concatenation keeps |
| Parsers.LoadOpenStackLogs | logs.py:48-71 | the frame has `LineId` 1..N across all files, the pattern's columns (none besides `LineId` when nothing matched), and row k carries the groups of the k-th match |
| Parsers.OpenStackLineIdsSpanFiles | logs.py:62-70 | the files behave as one file: `LineId` continues from one file into the next |
| SplitSources.SshPartsSpec | logs.py:162-164 | a line is kept iff it has at least six words; its first five parts are its first five words, and the sixth is the rest of the stripped line holding the remaining words |
| SplitSources.SshDropsShortLine | logs.py:163 | a line of fewer than six words is dropped |
| SplitSources.ParseOpenSsh | logs.py:157-166 | the OpenSSH frame is `LineId` and the six columns, numbered 1..N; row k after its `LineId` holds the six parts of the k-th line of at least six words, as text |
| SplitSources.ParseOpenSshOne | logs.py:157-166 | a single line gives the row `[1]` and its six parts when it has at least six words, and no row otherwise |
| SplitSources.ParseOpenSshAppend | logs.py:159-164 | reading a file in two pieces gives the parts of the first piece's lines, then the second's |
| SplitSources.SshCount | logs.py:159-164 | the row count is the number of lines with at least six words |
| SplitSources.BglContent | logs.py:150 | `split(maxsplit=9)[-1]` is a non-empty text starting with non-whitespace, or `IndexError` |
| SplitSources.BglContentSpec | logs.py:150 | it raises iff the line is blank; with ten or more words it is the rest of the line after the ninth word, holding the remaining words; otherwise it is the last word |
| SplitSources.BglContents | logs.py:150 | the list comprehension succeeds iff every line does, with one entry per line in order |
| SplitSources.BglContentsFail | logs.py:150 | the content pass fails iff some line is blank |
| SplitSources.LoadBgl | logs.py:134-154 | the BGL branch succeeds iff no line is blank and `read_csv` gave as many rows as there are lines, or none; the frame is `LineId`, the nine columns and `Content`, numbered, with row i's Content from line i |
| SplitSources.WithContent | logs.py:151-154 | the Content assignment and numbering: the same success condition on lengths, and the tenth data column holds the contents |
| Standardize.Finish | logs.py:123-126 | numbering and the three assignments give rows `[i+1, content_i, None, None, source]` under the five-column schema |
| Standardize.AggJoin | logs.py:118 | `agg(" ".join, axis=1)` gives the joined text of every row, except that on a frame without rows but with columns pandas returns the frame itself |
| Standardize.WithFallback | logs.py:116-120 | when the column is missing the joined text of each row is added as `Content`, and the assignment raises `ValueError` exactly on a frame without rows and with two or more columns; otherwise the frame is unchanged |
| Standardize.StandardizeAsWritten | logs.py:114-127 | the code as written raises iff `content_col` is missing and either is not `Content` or the frame has no rows and two or more columns: `ValueError` in the second case, `KeyError(content_col)` otherwise; when it does not raise it yields the numbered five-column frame |
| Standardize.StandardizeAsWrittenEmptyFrame | logs.py:116-118 | a frame without rows and with the two columns `Message` and `Level` makes the fallback assignment raise `ValueError` |
| Standardize.StandardizeAsWrittenRaises | logs.py:116-122 | a frame without the named column raises `KeyError` in the code as written |
| Standardize.Standardize | logs.py:114-127 | the intended mapping: row i is `[i+1, content, None, None, source]`, where content is the named column's cell, or the space-joined text of the row's cells when the column is missing |
| Standardize.StandardizeAgrees | logs.py:116-127 | wherever the written code does not raise, it computes the intended frame, and it never raises when the frame has the named column |
| Loader.LoadMac | logs.py:179-188 | the Mac branch has the eight selected columns, `LineId` 1..N, and row k is the k-th parsed row after its number |
| Loader.LoadAndroid | logs.py:190-197 | the Android branch has the eight selected columns, `LineId` 1..N, and row k is the k-th parsed row after its number |
| Loader.LoadOpenStack | logs.py:169-174 | the OpenStack branch succeeds iff both files exist, and otherwise fails naming the first missing one; its frame is that of the two files read as one, `LineId` running on into the second file, row k holding the groups of the k-th matching line |
| Loader.OpenStackTwoFiles | logs.py:169-174 | two files give the frame of their lines read one after the other, numbered across both |
| Loader.Frame | logs.py:133-197 | every branch that succeeds yields a well-shaped frame numbered by `LineId` |
| Loader.LoadDataset | logs.py:131-208 | there is no parser iff the name is not one of the five sources; a loaded frame goes to `logs_<name>` and is numbered 1..N |
| Loader.LoadDatasetFails | logs.py:133-208 | a known source fails iff its file is not found, an OpenStack file is missing, or the BGL branch raises |
| Loader.Replace | logs.py:204 | `to_sql(if_exists="replace")`: the table holds the frame and every other table is unchanged |
| Loader.LoadIntoStoreOnce | logs.py:176-204 | the OpenStack branch's second write changes nothing; the store changes only at `logs_<name>`, and only when the load succeeded |
| Query.Lower | dash.py:57 | `v.lower()` keeps the length and lowers each ASCII capital |
| Query.LowerIdempotent | dash.py:57 | lowering twice is lowering once |
| Query.PlaceholdersShape | dash.py:55 | `",".join(["?"] * n)` is `?,?,…,?`: 2n-1 characters alternating `?` and `,` |
| Query.PlaceholdersCount | dash.py:55 | it holds n question marks |
| Query.ClauseCount | dash.py:55-56 | a test `LOWER(col) IN (…)` holds one `?` per value when the column name has none |
| Query.BuildWhereClause | dash.py:50-59 | the clause is empty iff no column has a value, and otherwise starts with ` WHERE `; there is one parameter per value, each already lower-case |
| Query.ClausesAppend | dash.py:53-56 | the tests of two filter lists are those of the first then of the second: dictionary order is kept |
| Query.ParamsLowerValues | dash.py:57 | the parameters are the values, one for one and in order, each lower-cased |
| Query.OneTeamFilter | dash.py:50-59 | `{"team": ["RTL_TEAM"]}` gives ` WHERE LOWER(team) IN (?)` with the single parameter `rtl_team` |
| Query.WhereIgnoresValues | dash.py:55-56 | the clause depends only on the column names and the number of values per column, never on the values |
| Query.WherePlaceholders | dash.py:55-57 | with column names free of `?`, the clause has exactly one `?` per parameter |
| Query.BuildWhereClauseLoop | dash.py:53-58 | the loop that appends tests and extends the parameters computes `BuildWhereClause` |
| Query.LoadFilteredData | dash.py:61-65 | no parameters are bound (`params or None`) iff no column has a value; otherwise one per value |
| Query.LimitPresent | dash.py:63-64 | the query ends in `LIMIT <limit>;` iff the limit is non-zero; with a zero limit it ends in no `LIMIT n;` at all |
| Query.DefaultLimitText | dash.py:61-64 | with the default limit the query ends in `LIMIT 500000;` |
| Query.QueryIgnoresValues | dash.py:62-64 | the query text is the same for any values of the same shape |
| Query.QueryPlaceholders | dash.py:62-65 | with a table name and column names free of `?`, the query's `?` count equals the number of bound parameters, and is zero when none are bound |

## Left out

- Downloading and extracting the archives (`download_and_extract`), the `DATA` table, `main`, and the
  `print` messages are I/O and are not modelled.
- `find_file` walks the directory and matches case-insensitively. Its result is the `find`
  parameter of `Loader.Dataset`.
- Opening files with `errors="ignore"` and splitting them into lines are not modelled: a file is
  the sequence of lines Python would yield.
- `pd.read_csv` of the BGL file, with `on_bad_lines="skip"` and `usecols=range(9)`, is a parameter.
  Only the nine column names and the row shape are assumed of it.
- `to_sql` and `pd.read_sql_query` are not modelled. The store is a map from table names to
  frames, and SQL execution is not modelled.
- Column dtypes are not modelled: a cell is text, an integer, `None` or `NaN`.
- The Streamlit dashboard is UI and floating-point aggregation: widgets, charts, rolling
  averages, Pareto shares, `get_tables` and the column preprocessing at dash.py:1-47.
- metadata_enrich.py and metadata_init.py are outside the core.
- MacLog.MatchMac: `\w` and `\d` match only ASCII letters, digits and `_`. Python 3 `str`
  patterns also accept other Unicode word characters and digits, which are excluded here to keep
  the character classes decidable.
- AndroidLog.MatchAndroid and OpenStackLog.MatchOpenStack: `\d` and `\w` are ASCII only, as for
  Mac.
- Query.Lower: only ASCII capitals are lowered. Python's `str.lower` also lowers other Unicode
  letters, some into more than one character.
- Standardize.AggJoin: the behaviour on a frame without rows follows pandas 2, which tries the
  function on a probe row and returns the frame when that raises. Other pandas versions are not
  modelled.
- Standardize.Standardize: the fallback branch also adds `Content` to the caller's frame, a side
  effect on an argument. Only the returned frame is modelled.
- Frames.Select and Frames.SetColumn: frames with duplicate column names are not modelled.
  pandas would select or assign every column of that name; the model uses the first.
- LineFilter.FilterLines: it returns only the records. That the k-th record comes from the k-th
  matching line is stated by `LineFilter.KeptAppend` and `LineFilter.KeptOne`.
- OpenStackLog.MatchOpenStackRender: the round trip covers canonical records only. A match always
  gives Content that does not start with whitespace, and on a line without a newline always a
  canonical record (`OpenStackLog.MatchOpenStack`), which is every line a file yields once
  stripped. A line holding a newline before its end can give a block with `] ` inside: on
  `nova-api.log.1 2017-05-16 00:00:00.008 25746 INFO nova.osapi [a] b]` followed by a newline and
  `x`, the block cannot close at the first `]`, because `(.*)$` would meet a newline that is not
  the last character, so it closes at `b]` with Content `x`. The Mac and Android round trips cover
  every record a match can give, since `MacLog.MatchMac` and `AndroidLog.MatchAndroid` ensure it is
  canonical.
- Loader.LoadDataset: the exception handler catches every exception. The model names only the
  ones these branches can raise: file not found, the BGL `IndexError` and the length mismatch.
- Python dictionaries cannot repeat a key. `Query.Filters` is a sequence and may repeat a column;
  the contracts hold either way.

## Findings

| source | as written | input that shows it | evidently intended | confidence | as-written member | corrected member |
|---|---|---|---|---|---|---|
| logs.py:116-122 | when `content_col` is missing, the fallback stores the joined text under `Content`, but the next line still selects `content_col`, which raises `KeyError` | a frame with the single column `Message` and one row, with `content_col="Text"` | the joined text of each row becomes the Content column | not executed | Standardize.StandardizeAsWritten, Standardize.StandardizeAsWrittenRaises | Standardize.Standardize, Standardize.StandardizeAgrees |
