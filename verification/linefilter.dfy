/**
 * The loop every regex- and split-based parser runs over a file: strip each line, try the line
 * pattern on it, and keep what it extracts from the lines that match, in file order.
 */
module LineFilter {
  import opened Wrappers
  import opened Chars

  /** What the loop keeps of `lines` when `m` is tried on every stripped line. */
  function Kept<T>(lines: seq<string>, m: string -> Option<T>): (r: seq<T>)
    ensures |r| <= |lines|
  {
    if lines == [] then []
    else
      match m(Strip(lines[0]))
      case Some(x) => [x] + Kept(lines[1..], m)
      case None => Kept(lines[1..], m)
  }

  /** Filtering a file in two pieces gives the two pieces' records in order: file order is kept. */
  lemma {:induction false} KeptAppend<T>(a: seq<string>, b: seq<string>, m: string -> Option<T>)
    ensures Kept(a + b, m) == Kept(a, m) + Kept(b, m)
    decreases |a|
  {
    if a == [] {
      assert a + b == b;
    } else {
      assert (a + b)[0] == a[0];
      assert (a + b)[1..] == a[1..] + b;
      KeptAppend(a[1..], b, m);
    }
  }

  /** A single line is kept exactly when the pattern matches it. */
  lemma KeptOne<T>(line: string, m: string -> Option<T>)
    ensures Kept([line], m) == if m(Strip(line)).Some? then [m(Strip(line)).value] else []
  {
    assert [line][1..] == [];
  }

  /** Extending the lines read so far by one line extends the records by what that line yields. */
  lemma KeptPrefix<T>(lines: seq<string>, i: nat, m: string -> Option<T>)
    requires i < |lines|
    ensures Kept(lines[..i + 1], m)
            == Kept(lines[..i], m) + (if m(Strip(lines[i])).Some? then [m(Strip(lines[i])).value] else [])
  {
    KeptAppend(lines[..i], [lines[i]], m);
    KeptOne(lines[i], m);
    assert lines[..i + 1] == lines[..i] + [lines[i]];
  }

  /** Every kept record has a property the pattern guarantees of each of its matches. */
  lemma {:induction false} KeptAll<T>(lines: seq<string>, m: string -> Option<T>, p: T -> bool)
    requires forall s :: m(s).Some? ==> p(m(s).value)
    ensures forall k :: 0 <= k < |Kept(lines, m)| ==> p(Kept(lines, m)[k])
    decreases |lines|
  {
    if lines != [] {
      KeptAll(lines[1..], m, p);
    }
  }

  /** The number of lines the pattern matches. */
  function Matching<T>(lines: seq<string>, m: string -> Option<T>): nat {
    if lines == [] then 0 else (if m(Strip(lines[0])).Some? then 1 else 0) + Matching(lines[1..], m)
  }

  /** One record is kept per matching line, and no other. */
  lemma {:induction false} KeptCount<T>(lines: seq<string>, m: string -> Option<T>)
    ensures |Kept(lines, m)| == Matching(lines, m)
    decreases |lines|
  {
    if lines != [] {
      KeptCount(lines[1..], m);
    }
  }

  /**
   * `for line in f: r = m(line.strip()); if r: rows.append(r)`, written as the loop it is: the rows it
   * appends one line at a time are the records `Kept` describes.
   */
  method FilterLines<T>(lines: seq<string>, m: string -> Option<T>) returns (rows: seq<T>)
    ensures rows == Kept(lines, m)
  {
    rows := [];
    var i := 0;
    while i < |lines|
      invariant 0 <= i <= |lines|
      invariant rows == Kept(lines[..i], m)
    {
      KeptPrefix(lines, i, m);
      var r := m(Strip(lines[i]));
      if r.Some? {
        rows := rows + [r.value];
      }
      i := i + 1;
    }
    assert lines[..i] == lines;
  }
}
