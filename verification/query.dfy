/**
 * The dashboard's filter query: `build_where_clause` turns the chosen values per column into a
 * ` WHERE ` clause of `LOWER(col) IN (?,…,?)` tests and the list of parameters bound to the `?`s, and
 * `load_filtered_data` puts it into `SELECT * FROM <table> <where> <limit>;`.
 */
module Query {
  import opened Wrappers
  import opened Chars
  import opened Tokens

  /** The filters in the order the dictionary holds them: a column name and the values chosen for it. */
  type Filters = seq<(string, seq<string>)>

  /** `c.lower()` on ASCII letters. */
  function LowerChar(c: char): (r: char)
    ensures IsUpper(c) ==> r as int == c as int + 32
    ensures !IsUpper(c) ==> r == c
  {
    if IsUpper(c) then (c as int + 32) as char else c
  }

  /** `s.lower()`. */
  function Lower(s: string): (r: string)
    ensures |r| == |s|
    ensures forall i :: 0 <= i < |s| ==> r[i] == LowerChar(s[i])
  {
    if s == [] then [] else [LowerChar(s[0])] + Lower(s[1..])
  }

  /** Lower-casing twice is lower-casing once, so every parameter is already in the form `LOWER` compares. */
  lemma LowerIdempotent(s: string)
    ensures Lower(Lower(s)) == Lower(s)
  {
    forall i | 0 <= i < |s| ensures Lower(Lower(s))[i] == Lower(s)[i] {
      assert !IsUpper(LowerChar(s[i]));
    }
  }

  /** How often `c` occurs in `s`. */
  function Count(c: char, s: string): nat {
    if s == [] then 0 else (if s[0] == c then 1 else 0) + Count(c, s[1..])
  }

  lemma {:induction false} CountAppend(c: char, a: string, b: string)
    ensures Count(c, a + b) == Count(c, a) + Count(c, b)
    decreases |a|
  {
    if a == [] {
      assert a + b == b;
    } else {
      assert (a + b)[1..] == a[1..] + b;
      CountAppend(c, a[1..], b);
    }
  }

  /** A string none of whose characters is `c`. */
  lemma {:induction false} CountNone(c: char, s: string)
    requires forall i :: 0 <= i < |s| ==> s[i] != c
    ensures Count(c, s) == 0
    decreases |s|
  {
    if s != [] {
      CountNone(c, s[1..]);
    }
  }

  /** `n` copies of `s`. */
  function Repeat(s: string, n: nat): (r: seq<string>)
    ensures |r| == n && forall i :: 0 <= i < n ==> r[i] == s
  {
    seq(n, _ => s)
  }

  /** `",".join(["?"] * n)`. */
  function Placeholders(n: nat): string {
    JoinWith(",", Repeat("?", n))
  }

  /** The placeholder list alternates `?` and `,`, starting and ending with `?`: `?,?,…,?`. */
  lemma {:induction false} PlaceholdersShape(n: nat)
    requires n > 0
    ensures |Placeholders(n)| == 2 * n - 1
    ensures forall i :: 0 <= i < 2 * n - 1 ==> Placeholders(n)[i] == if i % 2 == 0 then '?' else ','
    decreases n
  {
    if n > 1 {
      PlaceholdersShape(n - 1);
      assert Repeat("?", n)[1..] == Repeat("?", n - 1);
      var p := Placeholders(n - 1);
      assert Placeholders(n) == "?," + p;
      forall i | 2 <= i < 2 * n - 1 ensures Placeholders(n)[i] == if i % 2 == 0 then '?' else ',' {
        assert Placeholders(n)[i] == p[i - 2];
      }
    }
  }

  /** There are `n` placeholders. */
  lemma {:induction false} PlaceholdersCount(n: nat)
    ensures Count('?', Placeholders(n)) == n
    decreases n
  {
    if n > 1 {
      PlaceholdersCount(n - 1);
      assert Repeat("?", n)[1..] == Repeat("?", n - 1);
      assert Placeholders(n) == "?" + "," + Placeholders(n - 1);
      CountAppend('?', "?", ",");
      CountAppend('?', "?" + ",", Placeholders(n - 1));
    } else if n == 1 {
      assert Placeholders(1) == "?";
    }
  }

  /** One test: `LOWER(col) IN (?,…,?)` with one placeholder per value. */
  function Clause(col: string, n: nat): string {
    "LOWER(" + col + ") IN (" + Placeholders(n) + ")"
  }

  /** The tests of the columns whose value list is not empty, in dictionary order. */
  function Clauses(filters: Filters): (cs: seq<string>)
    ensures |cs| <= |filters|
  {
    if filters == [] then []
    else if filters[0].1 == [] then Clauses(filters[1..])
    else [Clause(filters[0].0, |filters[0].1|)] + Clauses(filters[1..])
  }

  /** Every value lower-cased, column after column and in value order. */
  function Params(filters: Filters): (ps: seq<string>)
    ensures forall k :: 0 <= k < |ps| ==> Lower(ps[k]) == ps[k]
  {
    if filters == [] then []
    else
      var vs := filters[0].1;
      var lowered := seq(|vs|, j requires 0 <= j < |vs| => Lower(vs[j]));
      forall j | 0 <= j < |vs| ensures Lower(lowered[j]) == lowered[j] {
        LowerIdempotent(vs[j]);
      }
      lowered + Params(filters[1..])
  }

  /** The number of values over all columns. */
  function ValueCount(filters: Filters): nat {
    if filters == [] then 0 else |filters[0].1| + ValueCount(filters[1..])
  }

  /** No column has a value chosen. */
  predicate NoValues(filters: Filters) {
    forall i :: 0 <= i < |filters| ==> filters[i].1 == []
  }

  /**
   * `build_where_clause(filters)`: empty when no column has a value chosen, otherwise ` WHERE ` and the
   * tests joined by ` AND `; the parameters are every value, lower-cased, in the order of the `?`s.
   */
  function BuildWhereClause(filters: Filters): (r: (string, seq<string>))
    ensures r.0 == "" <==> NoValues(filters)
    ensures r.0 != "" ==> |r.0| >= 7 && r.0[..7] == " WHERE "
    ensures NoValues(filters) ==> r.1 == []
    ensures |r.1| == ValueCount(filters)
    ensures forall k :: 0 <= k < |r.1| ==> Lower(r.1[k]) == r.1[k]
  {
    var cs := Clauses(filters);
    ClausesEmpty(filters);
    ParamsCount(filters);
    assert cs != [] ==> (" WHERE " + JoinWith(" AND ", cs))[..7] == " WHERE ";
    (if cs != [] then " WHERE " + JoinWith(" AND ", cs) else "", Params(filters))
  }

  /** There are no tests exactly when no column has a value chosen. */
  lemma {:induction false} ClausesEmpty(filters: Filters)
    ensures Clauses(filters) == [] <==> NoValues(filters)
    decreases |filters|
  {
    if filters != [] {
      ClausesEmpty(filters[1..]);
      if NoValues(filters[1..]) && filters[0].1 == [] {
        assert forall i :: 1 <= i < |filters| ==> filters[i] == filters[1..][i - 1];
      }
    }
  }

  /** One parameter per value. */
  lemma {:induction false} ParamsCount(filters: Filters)
    ensures |Params(filters)| == ValueCount(filters)
    ensures ValueCount(filters) == 0 <==> NoValues(filters)
    decreases |filters|
  {
    if filters != [] {
      ParamsCount(filters[1..]);
      if NoValues(filters[1..]) && filters[0].1 == [] {
        assert forall i :: 1 <= i < |filters| ==> filters[i] == filters[1..][i - 1];
      }
    }
  }

  /** Every value chosen, column after column and in value order. */
  function AllValues(filters: Filters): seq<string> {
    if filters == [] then [] else filters[0].1 + AllValues(filters[1..])
  }

  /** The parameters are the values, one for one and in order, each lower-cased. */
  lemma {:induction false} ParamsLowerValues(filters: Filters)
    ensures |Params(filters)| == |AllValues(filters)|
    ensures forall k :: 0 <= k < |Params(filters)| ==> Params(filters)[k] == Lower(AllValues(filters)[k])
    decreases |filters|
  {
    if filters != [] {
      ParamsLowerValues(filters[1..]);
    }
  }

  /** One column with one value: a single test with one `?`, bound to the lower-cased value. */
  lemma OneTeamFilter()
    ensures BuildWhereClause([("team", ["RTL_TEAM"])]) == (" WHERE " + "LOWER(team) IN (?)", ["rtl_team"])
  {
    var f: Filters := [("team", ["RTL_TEAM"])];
    OneTeamClause(f);
    OneTeamParams(f);
    WhereOfOne(f, "LOWER(team) IN (?)");
  }

  /** A single test is the whole clause after ` WHERE `. */
  lemma WhereOfOne(f: Filters, c: string)
    requires Clauses(f) == [c]
    ensures BuildWhereClause(f).0 == " WHERE " + c
  {
  }

  /** The test `LOWER(team) IN (?)`. */
  lemma OneTeamClause(f: Filters)
    requires f == [("team", ["RTL_TEAM"])]
    ensures Clauses(f) == ["LOWER(team) IN (?)"]
  {
    assert f[1..] == [];
    assert Placeholders(1) == "?";
    assert Clause("team", 1) == "LOWER(team) IN (?)";
  }

  /** The bound value `rtl_team`. */
  lemma OneTeamParams(f: Filters)
    requires f == [("team", ["RTL_TEAM"])]
    ensures Params(f) == ["rtl_team"]
  {
    assert f[1..] == [];
    assert Lower("RTL_TEAM") == "rtl_team";
  }

  /** Two filter lists naming the same columns, with as many values each, in the same order. */
  predicate SameShape(f: Filters, g: Filters) {
    |f| == |g| && forall i :: 0 <= i < |f| ==> f[i].0 == g[i].0 && |f[i].1| == |g[i].1|
  }

  /** No value is written into the query text: the clause depends only on the columns and the value counts. */
  lemma {:induction false} WhereIgnoresValues(f: Filters, g: Filters)
    requires SameShape(f, g)
    ensures BuildWhereClause(f).0 == BuildWhereClause(g).0
  {
    ClausesIgnoreValues(f, g);
  }

  lemma {:induction false} ClausesIgnoreValues(f: Filters, g: Filters)
    requires SameShape(f, g)
    ensures Clauses(f) == Clauses(g)
    decreases |f|
  {
    if f != [] {
      assert SameShape(f[1..], g[1..]) by {
        assert forall i :: 1 <= i < |f| ==> f[i] == f[1..][i - 1] && g[i] == g[1..][i - 1];
      }
      ClausesIgnoreValues(f[1..], g[1..]);
    }
  }

  /** A column name without `?`. */
  predicate NoMark(s: string) { forall i :: 0 <= i < |s| ==> s[i] != '?' }

  /** Each test holds as many `?`s as its column has values. */
  lemma ClauseCount(col: string, n: nat)
    requires NoMark(col)
    ensures Count('?', Clause(col, n)) == n
  {
    CountNone('?', col);
    CountNone('?', "LOWER(");
    CountNone('?', ") IN (");
    CountNone('?', ")");
    PlaceholdersCount(n);
    CountAppend('?', "LOWER(", col);
    CountAppend('?', "LOWER(" + col, ") IN (");
    CountAppend('?', "LOWER(" + col + ") IN (", Placeholders(n));
    CountAppend('?', "LOWER(" + col + ") IN (" + Placeholders(n), ")");
  }

  /** The `?`s in a joined list are those of its parts when the separator has none. */
  lemma {:induction false} JoinCount(sep: string, parts: seq<string>)
    requires NoMark(sep)
    ensures Count('?', JoinWith(sep, parts)) == SumCounts(parts)
    decreases |parts|
  {
    if |parts| > 1 {
      JoinCount(sep, parts[1..]);
      CountNone('?', sep);
      CountAppend('?', parts[0], sep);
      CountAppend('?', parts[0] + sep, JoinWith(sep, parts[1..]));
    }
  }

  /** The `?`s over a list of strings. */
  function SumCounts(parts: seq<string>): nat {
    if parts == [] then 0 else Count('?', parts[0]) + SumCounts(parts[1..])
  }

  /** Every column name of the filters is free of `?`. */
  predicate PlainColumns(filters: Filters) {
    forall i :: 0 <= i < |filters| ==> NoMark(filters[i].0)
  }

  lemma {:induction false} ClausesCount(filters: Filters)
    requires PlainColumns(filters)
    ensures SumCounts(Clauses(filters)) == ValueCount(filters)
    decreases |filters|
  {
    if filters != [] {
      assert PlainColumns(filters[1..]) by {
        assert forall i :: 1 <= i < |filters| ==> filters[i] == filters[1..][i - 1];
      }
      ClausesCount(filters[1..]);
      if filters[0].1 != [] {
        ClauseCount(filters[0].0, |filters[0].1|);
        var cs := [Clause(filters[0].0, |filters[0].1|)] + Clauses(filters[1..]);
        assert cs[1..] == Clauses(filters[1..]);
      }
    }
  }

  /** With column names free of `?`, the clause has exactly one `?` per parameter. */
  lemma WherePlaceholders(filters: Filters)
    requires PlainColumns(filters)
    ensures Count('?', BuildWhereClause(filters).0) == |BuildWhereClause(filters).1|
  {
    ClausesCount(filters);
    ParamsCount(filters);
    ClausesEmpty(filters);
    if Clauses(filters) != [] {
      JoinCount(" AND ", Clauses(filters));
      CountNone('?', " WHERE ");
      CountAppend('?', " WHERE ", JoinWith(" AND ", Clauses(filters)));
    }
  }

  /**
   * The loop `build_where_clause` runs: for each column with values, append its test and extend the
   * parameters by its lower-cased values. It computes the clause the function describes.
   */
  method BuildWhereClauseLoop(filters: Filters) returns (clause: string, params: seq<string>)
    ensures (clause, params) == BuildWhereClause(filters)
  {
    var clauses: seq<string> := [];
    params := [];
    var i := 0;
    while i < |filters|
      invariant 0 <= i <= |filters|
      invariant clauses == Clauses(filters[..i])
      invariant params == Params(filters[..i])
    {
      PrefixStep(filters, i);
      var (col, vals) := filters[i];
      if vals != [] {
        clauses := clauses + [Clause(col, |vals|)];
        params := params + seq(|vals|, j requires 0 <= j < |vals| => Lower(vals[j]));
      }
      i := i + 1;
    }
    assert filters[..i] == filters;
    clause := if clauses != [] then " WHERE " + JoinWith(" AND ", clauses) else "";
  }

  /** One more column extends the tests and the parameters by what that column gives. */
  lemma PrefixStep(filters: Filters, i: nat)
    requires i < |filters|
    ensures var vs := filters[i].1;
      && Clauses(filters[..i + 1]) == Clauses(filters[..i]) + (if vs == [] then [] else [Clause(filters[i].0, |vs|)])
      && Params(filters[..i + 1]) == Params(filters[..i]) + seq(|vs|, j requires 0 <= j < |vs| => Lower(vs[j]))
  {
    assert filters[..i + 1] == filters[..i] + [filters[i]];
    ClausesAppend(filters[..i], [filters[i]]);
    ParamsAppend(filters[..i], [filters[i]]);
    assert [filters[i]][1..] == [];
  }

  lemma {:induction false} ClausesAppend(a: Filters, b: Filters)
    ensures Clauses(a + b) == Clauses(a) + Clauses(b)
    decreases |a|
  {
    if a == [] {
      assert a + b == b;
    } else {
      assert (a + b)[0] == a[0];
      assert (a + b)[1..] == a[1..] + b;
      ClausesAppend(a[1..], b);
    }
  }

  lemma {:induction false} ParamsAppend(a: Filters, b: Filters)
    ensures Params(a + b) == Params(a) + Params(b)
    decreases |a|
  {
    if a == [] {
      assert a + b == b;
    } else {
      assert (a + b)[0] == a[0];
      assert (a + b)[1..] == a[1..] + b;
      ParamsAppend(a[1..], b);
    }
  }

  /** The query text and the parameters handed to `pd.read_sql_query`; `params or None` drops an empty list. */
  datatype SqlQuery = SqlQuery(sql: string, params: Option<seq<string>>)

  /** The default row limit of `load_filtered_data`. */
  const DefaultLimit: int := 500000

  /** `f"LIMIT {limit}" if limit else ""`. */
  function LimitClause(limit: int): string {
    if limit != 0 then "LIMIT " + IntToString(limit) else ""
  }

  /** `load_filtered_data(conn, table, filters, limit)` up to the call into SQLite. */
  function LoadFilteredData(table: string, filters: Filters, limit: int): (q: SqlQuery)
    ensures q.params.None? <==> NoValues(filters)
    ensures q.params.Some? ==> |q.params.value| == ValueCount(filters)
  {
    var w := BuildWhereClause(filters);
    ParamsCount(filters);
    SqlQuery(QueryHead(table, filters) + LimitClause(limit) + ";", if w.1 == [] then None else Some(w.1))
  }

  /** The text before the limit: the table and the clause. */
  function QueryHead(table: string, filters: Filters): string {
    "SELECT * FROM " + table + " " + BuildWhereClause(filters).0 + " "
  }

  /**
   * The query ends in `LIMIT <limit>;` exactly when the limit is not zero; with a zero limit it ends in
   * no `LIMIT n;` at all.
   */
  lemma LimitPresent(table: string, filters: Filters, limit: int)
    ensures IsSuffix("LIMIT " + IntToString(limit) + ";", LoadFilteredData(table, filters, limit).sql) <==> limit != 0
    ensures limit == 0 ==> forall n :: !IsSuffix("LIMIT " + IntToString(n) + ";", LoadFilteredData(table, filters, limit).sql)
  {
    var sql := LoadFilteredData(table, filters, limit).sql;
    var head := QueryHead(table, filters);
    if limit != 0 {
      assert sql == head + ("LIMIT " + IntToString(limit) + ";");
    } else {
      assert head[|head| - 1] == ' ';
      assert sql == head + ";";
      assert sql[|sql| - 2] == ' ';
      forall n ensures !IsSuffix("LIMIT " + IntToString(n) + ";", sql) {
        NoSpaceBeforeSemicolon(n);
      }
    }
  }

  /** A `LIMIT n;` has a digit before its `;`, never a space. */
  lemma NoSpaceBeforeSemicolon(n: int)
    ensures var x := "LIMIT " + IntToString(n) + ";"; |x| >= 2 && IsDigit(x[|x| - 2])
  {
    var d := IntToString(n);
    var x := "LIMIT " + d + ";";
    assert x[|x| - 2] == d[|d| - 1];
    if n < 0 {
      assert d[|d| - 1] == d[1..][|d| - 2];
    }
  }

  /** The default limit is written as `LIMIT 500000`. */
  lemma DefaultLimitText(table: string, filters: Filters)
    ensures IsSuffix("LIMIT 500000;", LoadFilteredData(table, filters, DefaultLimit).sql)
  {
    LimitPresent(table, filters, DefaultLimit);
    DefaultLimitDigits();
  }

  lemma DefaultLimitDigits()
    ensures IntToString(DefaultLimit) == "500000"
  {
    assert DigitChar(0) == '0' && DigitChar(5) == '5';
    assert NatToString(5) == "5";
    assert NatToString(50) == "5" + "0";
    assert NatToString(500) == "50" + "0";
    assert NatToString(5000) == "500" + "0";
    assert NatToString(50000) == "5000" + "0";
    assert NatToString(500000) == "50000" + "0";
  }

  /** The query text does not depend on the values chosen, only on how many there are per column. */
  lemma QueryIgnoresValues(table: string, f: Filters, g: Filters, limit: int)
    requires SameShape(f, g)
    ensures LoadFilteredData(table, f, limit).sql == LoadFilteredData(table, g, limit).sql
  {
    WhereIgnoresValues(f, g);
  }

  /** The fixed text of the query holds no `?`. */
  lemma QueryLiterals()
    ensures Count('?', "SELECT * FROM ") == 0 && Count('?', " ") == 0 && Count('?', ";") == 0
  {
    CountNone('?', "SELECT * FROM ");
    CountNone('?', " ");
    CountNone('?', ";");
  }

  /** A `LIMIT n` fragment holds no `?`. */
  lemma LimitNoMark(limit: int)
    ensures Count('?', LimitClause(limit)) == 0
  {
    var l := LimitClause(limit);
    if limit != 0 {
      var d := IntToString(limit);
      assert forall i :: 0 <= i < |d| ==> d[i] != '?' by {
        if limit < 0 {
          assert forall i :: 1 <= i < |d| ==> d[i] == d[1..][i - 1];
        }
      }
      assert forall i :: 0 <= i < |l| ==> l[i] != '?' by {
        assert forall i :: 6 <= i < |l| ==> l[i] == d[i - 6];
      }
    }
    CountNone('?', l);
  }

  /** The `?`s of seven pieces put together. */
  lemma CountSeven(a: string, b: string, c: string, d: string, e: string, f: string, g: string)
    ensures Count('?', a + b + c + d + e + f + g)
            == Count('?', a) + Count('?', b) + Count('?', c) + Count('?', d) + Count('?', e) + Count('?', f) + Count('?', g)
  {
    CountAppend('?', a, b);
    CountAppend('?', a + b, c);
    CountAppend('?', a + b + c, d);
    CountAppend('?', a + b + c + d, e);
    CountAppend('?', a + b + c + d + e, f);
    CountAppend('?', a + b + c + d + e + f, g);
  }

  /**
   * With a table name and column names free of `?`, the query has one `?` per bound parameter, and
   * none when it binds none.
   */
  lemma QueryPlaceholders(table: string, filters: Filters, limit: int)
    requires NoMark(table) && PlainColumns(filters)
    ensures var q := LoadFilteredData(table, filters, limit);
      Count('?', q.sql) == if q.params.None? then 0 else |q.params.value|
  {
    var w := BuildWhereClause(filters);
    WherePlaceholders(filters);
    QueryLiterals();
    LimitNoMark(limit);
    CountNone('?', table);
    CountSeven("SELECT * FROM ", table, " ", w.0, " ", LimitClause(limit), ";");
  }
}
