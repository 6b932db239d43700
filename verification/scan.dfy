/**
 * The pieces the line patterns of the log parsers are made of, each as a deterministic scanner over the
 * front of a text. Every piece the patterns use is followed by a character the piece cannot consume, so
 * Python's backtracking never gives a greedy piece back and the greedy reading is the match.
 */
module Scan {
  import opened Wrappers
  import opened Chars

  /** A piece split off the front of a text, and the text after it. */
  datatype Cut = Cut(piece: string, rest: string)

  /** `c` splits `s` into a non-empty maximal run of `p`-characters and what follows. */
  predicate MaximalCut(c: Cut, s: string, p: char -> bool) {
    && |c.piece| > 0
    && AllOf(c.piece, p)
    && s == c.piece + c.rest
    && (c.rest == [] || !p(c.rest[0]))
  }

  /** A non-empty run of whitespace: what `\s+` consumes between two fields. */
  predicate IsGap(g: string) { |g| > 0 && AllOf(g, IsSpace) }

  /** `p+`, greedy: the maximal non-empty run of `p`-characters at the front, if there is one. */
  function Take(s: string, p: char -> bool): (r: Option<Cut>)
    ensures r.Some? <==> s != [] && p(s[0])
    ensures r.Some? ==> MaximalCut(r.value, s, p)
  {
    var w := Run(s, p);
    if w == [] then None
    else
      assert s == w + s[|w|..];
      Some(Cut(w, s[|w|..]))
  }

  /** A maximal run is found again in front of whatever follows it. */
  lemma TakeOfConcat(w: string, rest: string, p: char -> bool)
    requires |w| > 0 && AllOf(w, p)
    requires rest == [] || !p(rest[0])
    ensures Take(w + rest, p) == Some(Cut(w, rest))
  {
    RunOfConcat(w, rest, p);
    assert (w + rest)[|w|..] == rest;
  }

  /** `p{n}`: exactly `n` characters of class `p`. */
  function TakeExactly(s: string, p: char -> bool, n: nat): (r: Option<Cut>)
    ensures r.Some? <==> n <= |s| && AllOf(s[..n], p)
    ensures r.Some? ==> |r.value.piece| == n && AllOf(r.value.piece, p) && s == r.value.piece + r.value.rest
  {
    if n <= |s| && AllOf(s[..n], p) then
      assert s == s[..n] + s[n..];
      Some(Cut(s[..n], s[n..]))
    else None
  }

  lemma TakeExactlyOfConcat(w: string, rest: string, p: char -> bool)
    requires AllOf(w, p)
    ensures TakeExactly(w + rest, p, |w|) == Some(Cut(w, rest))
  {
    assert (w + rest)[..|w|] == w;
    assert (w + rest)[|w|..] == rest;
  }

  /** A literal character: the text after it, if the text starts with it. */
  function Literal(s: string, c: char): (r: Option<string>)
    ensures r.Some? <==> s != [] && s[0] == c
    ensures r.Some? ==> s == [c] + r.value
  {
    if s != [] && s[0] == c then
      assert s == [c] + s[1..];
      Some(s[1..])
    else None
  }

  lemma LiteralOfConcat(c: char, rest: string)
    ensures Literal([c] + rest, c) == Some(rest)
  {
    assert ([c] + rest)[1..] == rest;
  }

  /** `\d{2}:\d{2}:\d{2}\.\d+`: a clock with two-digit fields and a fraction of a second. */
  datatype FineClock = FineClock(hour: string, minute: string, second: string, fraction: string, rest: string)

  function FineClockText(c: FineClock): string {
    c.hour + (":" + (c.minute + (":" + (c.second + ("." + (c.fraction + c.rest))))))
  }

  predicate FineClockOk(c: FineClock) {
    && |c.hour| == 2 && AllOf(c.hour, IsDigit) && |c.minute| == 2 && AllOf(c.minute, IsDigit)
    && |c.second| == 2 && AllOf(c.second, IsDigit)
    && Digits(c.fraction) && (c.rest == [] || !IsDigit(c.rest[0]))
  }

  function ScanFineClock(s: string): (r: Option<FineClock>)
    ensures r.Some? ==> FineClockOk(r.value) && s == FineClockText(r.value)
  {
    var hour :- TakeExactly(s, IsDigit, 2);
    var r1 :- Literal(hour.rest, ':');
    var minute :- TakeExactly(r1, IsDigit, 2);
    var r2 :- Literal(minute.rest, ':');
    var second :- TakeExactly(r2, IsDigit, 2);
    var r3 :- Literal(second.rest, '.');
    var fraction :- Take(r3, IsDigit);
    Some(FineClock(hour.piece, minute.piece, second.piece, fraction.piece, fraction.rest))
  }

  lemma ScanFineClockOfText(c: FineClock)
    requires FineClockOk(c)
    ensures ScanFineClock(FineClockText(c)) == Some(c)
  {
    var r3 := "." + (c.fraction + c.rest);
    var r2 := ":" + (c.second + r3);
    var r1 := ":" + (c.minute + r2);
    TakeExactlyOfConcat(c.hour, r1, IsDigit);
    LiteralOfConcat(':', c.minute + r2);
    TakeExactlyOfConcat(c.minute, r2, IsDigit);
    LiteralOfConcat(':', c.second + r3);
    TakeExactlyOfConcat(c.second, r3, IsDigit);
    LiteralOfConcat('.', c.fraction + c.rest);
    TakeOfConcat(c.fraction, c.rest, IsDigit);
  }

  /** What `\s+(.*)$` splits the end of a line into. */
  datatype Tail = Tail(gap: string, content: string, eol: string)

  /**
   * `\s+(.*)$`: a maximal whitespace run, then the rest of the line up to the end or a final newline.
   * Python gives the run nothing back, since the rest of the line cannot begin earlier and still end
   * at the same place.
   */
  function GapThenRest(s: string): (r: Option<Tail>)
    ensures r.Some? ==> && IsGap(r.value.gap)
                        && '\n' !in r.value.content
                        && (r.value.eol == "" || r.value.eol == "\n")
                        && (r.value.content == [] || !IsSpace(r.value.content[0]))
                        && s == r.value.gap + (r.value.content + r.value.eol)
  {
    var g :- Take(s, IsSpace);
    var c :- LineRest(g.rest);
    if c == g.rest then
      assert g.rest == c + "";
      Some(Tail(g.piece, c, ""))
    else
      assert c != [] ==> c[0] == g.rest[0];
      Some(Tail(g.piece, c, "\n"))
  }

  /** A line ending whose content does not begin with whitespace is read back field by field. */
  lemma GapThenRestOfConcat(gap: string, content: string)
    requires IsGap(gap)
    requires '\n' !in content
    requires content == [] || !IsSpace(content[0])
    ensures GapThenRest(gap + content) == Some(Tail(gap, content, ""))
  {
    TakeOfConcat(gap, content, IsSpace);
  }

  /** `\s+(.*)$` cannot match where no whitespace begins. */
  lemma GapThenRestNeedsGap(s: string)
    requires s != [] && !IsSpace(s[0])
    ensures GapThenRest(s).None?
  {
  }

  /** On text without a newline, `\s+(.*)$` matches wherever whitespace begins. */
  lemma GapThenRestOfLine(s: string)
    requires s != [] && IsSpace(s[0]) && '\n' !in s
    ensures GapThenRest(s).Some?
  {
    var g := Take(s, IsSpace).value;
    assert s == g.piece + g.rest;
  }

  /** Concatenation is associative; stated once so that the scanners can regroup a text cheaply. */
  lemma AppendAssoc(a: string, b: string, c: string)
    ensures (a + b) + c == a + (b + c)
  {
  }

  /** No character of the classes the fields are drawn from is whitespace. */
  lemma SpaceIsNoField(c: char)
    requires IsSpace(c)
    ensures !IsDigit(c) && !IsUpper(c) && !IsWordChar(c) && c != '[' && c != ']' && c != ':'
    ensures c != '-' && c != '.'
  {
  }

  /** The same fact read the other way: a field character is not whitespace. */
  lemma FieldIsNoSpace(c: char)
    requires IsWordChar(c) || IsUpper(c) || IsDigit(c) || c == '[' || c == ']' || c == ':'
    ensures !IsSpace(c)
  {
    if IsSpace(c) { SpaceIsNoField(c); }
  }
}
