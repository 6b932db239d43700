/**
 * The Android log line grammar of `parse_android_log`:
 *   `^(\d{2}-\d{2})\s+(\d{2}:\d{2}:\d{2}\.\d+)\s+(\d+)\s+(\d+)\s+([A-Z])\s+(\S+):\s+(.*)$`
 * read as a deterministic scanner. Backtracking shows only in `(\S+):`: the greedy `\S+` takes the
 * whole run of non-whitespace and then gives back exactly its last character, which must be the `:`.
 */
module AndroidLog {
  import opened Wrappers
  import opened Chars
  import opened Scan

  /** One Android log record: the seven groups, with Date and Time kept in their fixed-width parts. */
  datatype AndroidLine = AndroidLine(month: string, day: string,
                                     hour: string, minute: string, second: string, fraction: string,
                                     pid: string, tid: string, level: char, component: string,
                                     content: string)
  {
    /** The character classes the pattern imposes on each group. */
    predicate Valid() {
      && |month| == 2 && AllOf(month, IsDigit) && |day| == 2 && AllOf(day, IsDigit)
      && |hour| == 2 && AllOf(hour, IsDigit) && |minute| == 2 && AllOf(minute, IsDigit)
      && |second| == 2 && AllOf(second, IsDigit) && Digits(fraction)
      && Digits(pid) && Digits(tid)
      && IsUpper(level)
      && Token(component)
      && '\n' !in content
    }

    /** The Date group, `\d{2}-\d{2}`. */
    function Date(): string { month + "-" + day }

    /** The Time group, `\d{2}:\d{2}:\d{2}\.\d+`. */
    function Time(): string { hour + ":" + minute + ":" + second + "." + fraction }

    /** `m.groups()`, in the order of the columns Date, Time, Pid, Tid, Level, Component, Content. */
    function Groups(): (g: seq<string>)
      ensures |g| == 7 && g[2] == pid && g[3] == tid && g[4] == [level]
    {
      [Date(), Time(), pid, tid, [level], component, content]
    }
  }

  /** The columns `parse_android_log` gives its frame. */
  const Columns: seq<string> := ["Date", "Time", "Pid", "Tid", "Level", "Component", "Content"]

  /** The six whitespace runs the `\s+` of the pattern consume, in order. */
  datatype AndroidGaps = AndroidGaps(g0: string, g1: string, g2: string, g3: string, g4: string, g5: string)
  {
    predicate Valid() { IsGap(g0) && IsGap(g1) && IsGap(g2) && IsGap(g3) && IsGap(g4) && IsGap(g5) }
  }

  /** A match: the record, the whitespace runs, and the newline `$` let through. */
  datatype AndroidParse = AndroidParse(line: AndroidLine, gaps: AndroidGaps, eol: string)

  /** The record is the one the scanner reads out of its own text: the Content does not begin with whitespace. */
  predicate Canonical(a: AndroidLine) {
    a.Valid() && (a.content == [] || !IsSpace(a.content[0]))
  }

  /** `\d{2}-\d{2}\s+\d{2}:\d{2}:\d{2}\.\d+`: the Date and Time groups and the whitespace between. */
  datatype Stamp = Stamp(month: string, day: string, gap: string,
                         hour: string, minute: string, second: string, fraction: string, rest: string)

  function StampText(t: Stamp): string {
    t.month + ("-" + (t.day + (t.gap + (t.hour + (":" + (t.minute + (":" + (t.second + ("." + (t.fraction + t.rest))))))))))
  }

  predicate StampOk(t: Stamp) {
    && |t.month| == 2 && AllOf(t.month, IsDigit) && |t.day| == 2 && AllOf(t.day, IsDigit)
    && IsGap(t.gap)
    && |t.hour| == 2 && AllOf(t.hour, IsDigit) && |t.minute| == 2 && AllOf(t.minute, IsDigit)
    && |t.second| == 2 && AllOf(t.second, IsDigit)
    && Digits(t.fraction) && (t.rest == [] || !IsDigit(t.rest[0]))
  }

  function ScanStamp(s: string): (r: Option<Stamp>)
    ensures r.Some? ==> StampOk(r.value) && s == StampText(r.value)
  {
    var month :- TakeExactly(s, IsDigit, 2);
    var r1 :- Literal(month.rest, '-');
    var day :- TakeExactly(r1, IsDigit, 2);
    var gap :- Take(day.rest, IsSpace);
    var c :- ScanFineClock(gap.rest);
    Some(Stamp(month.piece, day.piece, gap.piece, c.hour, c.minute, c.second, c.fraction, c.rest))
  }

  lemma ScanStampOfText(t: Stamp)
    requires StampOk(t)
    ensures ScanStamp(StampText(t)) == Some(t)
  {
    var c := FineClock(t.hour, t.minute, t.second, t.fraction, t.rest);
    assert StampText(t) == t.month + ("-" + (t.day + (t.gap + FineClockText(c))));
    TakeExactlyOfConcat(t.month, "-" + (t.day + (t.gap + FineClockText(c))), IsDigit);
    LiteralOfConcat('-', t.day + (t.gap + FineClockText(c)));
    TakeExactlyOfConcat(t.day, t.gap + FineClockText(c), IsDigit);
    FieldIsNoSpace(t.hour[0]);
    TakeOfConcat(t.gap, FineClockText(c), IsSpace);
    ScanFineClockOfText(c);
  }

  /** `(\S+):` after the Level: the non-whitespace run, given back by its final `:`. */
  function ScanColonTagged(u: string): (r: Option<Cut>)
    ensures r.Some? ==> && Token(r.value.piece)
                        && u == r.value.piece + (":" + r.value.rest)
                        && (r.value.rest == [] || IsSpace(r.value.rest[0]))
  {
    var run :- Take(u, IsNonSpace);
    var w := run.piece;
    if |w| >= 2 && w[|w| - 1] == ':' then
      assert w == w[..|w| - 1] + ":";
      Some(Cut(w[..|w| - 1], run.rest))
    else None
  }

  lemma ScanColonTaggedOfConcat(component: string, rest: string)
    requires Token(component)
    requires rest == [] || IsSpace(rest[0])
    ensures ScanColonTagged(component + (":" + rest)) == Some(Cut(component, rest))
  {
    var w := component + ":";
    assert component + (":" + rest) == w + rest;
    assert AllOf(w, IsNonSpace) by {
      forall i | 0 <= i < |w| ensures IsNonSpace(w[i]) {
        if i < |component| { assert w[i] == component[i]; }
      }
    }
    TakeOfConcat(w, rest, IsNonSpace);
    assert w[..|w| - 1] == component;
  }

  /** `\s+([A-Z])\s+(\S+):\s+(.*)$` after the Tid. */
  datatype AndroidTail = AndroidTail(gap: string, level: char, gap2: string, component: string,
                                     gap3: string, content: string, eol: string)

  function TailText(t: AndroidTail): string {
    t.gap + ([t.level] + (t.gap2 + (t.component + (":" + (t.gap3 + (t.content + t.eol))))))
  }

  predicate TailOk(t: AndroidTail) {
    && IsGap(t.gap) && IsUpper(t.level) && IsGap(t.gap2) && Token(t.component) && IsGap(t.gap3)
    && '\n' !in t.content && (t.content == [] || !IsSpace(t.content[0]))
    && (t.eol == "" || t.eol == "\n")
  }

  function ScanTail(u: string): (r: Option<AndroidTail>)
    ensures r.Some? ==> TailOk(r.value) && u == TailText(r.value)
  {
    var g :- Take(u, IsSpace);
    var level :- TakeExactly(g.rest, IsUpper, 1);
    var g2 :- Take(level.rest, IsSpace);
    var comp :- ScanColonTagged(g2.rest);
    var tail :- GapThenRest(comp.rest);
    assert level.piece == [level.piece[0]];
    Some(AndroidTail(g.piece, level.piece[0], g2.piece, comp.piece, tail.gap, tail.content, tail.eol))
  }

  lemma ScanTailOfText(t: AndroidTail)
    requires TailOk(t) && t.eol == ""
    ensures ScanTail(TailText(t)) == Some(t)
  {
    assert t.content + t.eol == t.content;
    var afterColon := t.gap3 + t.content;
    var afterLevel := t.gap2 + (t.component + (":" + afterColon));
    FieldIsNoSpace(t.level);
    TakeOfConcat(t.gap, [t.level] + afterLevel, IsSpace);
    TakeExactlyOfConcat([t.level], afterLevel, IsUpper);
    assert IsNonSpace(t.component[0]);
    TakeOfConcat(t.gap2, t.component + (":" + afterColon), IsSpace);
    ScanColonTaggedOfConcat(t.component, afterColon);
    GapThenRestOfConcat(t.gap3, t.content);
  }

  /** `\s+(\d+)\s+(\d+)` after the Time: Pid and Tid with the whitespace before each. */
  datatype Ids = Ids(gap: string, pid: string, gap2: string, tid: string, rest: string)

  function IdsText(d: Ids): string {
    d.gap + (d.pid + (d.gap2 + (d.tid + d.rest)))
  }

  predicate IdsOk(d: Ids) {
    IsGap(d.gap) && Digits(d.pid) && IsGap(d.gap2) && Digits(d.tid) && (d.rest == [] || !IsDigit(d.rest[0]))
  }

  function ScanIds(u: string): (r: Option<Ids>)
    ensures r.Some? ==> IdsOk(r.value) && u == IdsText(r.value)
  {
    var g1 :- Take(u, IsSpace);
    var pid :- Take(g1.rest, IsDigit);
    var g2 :- Take(pid.rest, IsSpace);
    var tid :- Take(g2.rest, IsDigit);
    Some(Ids(g1.piece, pid.piece, g2.piece, tid.piece, tid.rest))
  }

  lemma ScanIdsOfText(d: Ids)
    requires IdsOk(d)
    ensures ScanIds(IdsText(d)) == Some(d)
  {
    FieldIsNoSpace(d.pid[0]);
    FieldIsNoSpace(d.tid[0]);
    SpaceIsNoField(d.gap2[0]);
    TakeOfConcat(d.gap, d.pid + (d.gap2 + (d.tid + d.rest)), IsSpace);
    TakeOfConcat(d.pid, d.gap2 + (d.tid + d.rest), IsDigit);
    TakeOfConcat(d.gap2, d.tid + d.rest, IsSpace);
    TakeOfConcat(d.tid, d.rest, IsDigit);
  }

  /** The text a record spells out with the given whitespace runs and line end. */
  function AndroidText(a: AndroidLine, gaps: AndroidGaps, eol: string): string {
    StampText(Stamp(a.month, a.day, gaps.g0, a.hour, a.minute, a.second, a.fraction,
      IdsText(Ids(gaps.g1, a.pid, gaps.g2, a.tid,
        TailText(AndroidTail(gaps.g3, a.level, gaps.g4, a.component, gaps.g5, a.content, eol))))))
  }

  /** The Android pattern matched against a whole (stripped) line. */
  function ScanAndroid(s: string): (r: Option<AndroidParse>)
    ensures r.Some? ==> var p := r.value;
      && Canonical(p.line) && p.gaps.Valid() && (p.eol == "" || p.eol == "\n")
      && s == AndroidText(p.line, p.gaps, p.eol)
  {
    var st :- ScanStamp(s);
    var d :- ScanIds(st.rest);
    var t :- ScanTail(d.rest);
    var a := AndroidLine(st.month, st.day, st.hour, st.minute, st.second, st.fraction,
                         d.pid, d.tid, t.level, t.component, t.content);
    Some(AndroidParse(a, AndroidGaps(st.gap, d.gap, d.gap2, t.gap, t.gap2, t.gap3), t.eol))
  }

  /** A canonical record, written out with any whitespace runs, is read back with exactly those runs. */
  lemma ScanAndroidOfText(a: AndroidLine, gaps: AndroidGaps)
    requires Canonical(a) && gaps.Valid()
    ensures ScanAndroid(AndroidText(a, gaps, "")) == Some(AndroidParse(a, gaps, ""))
  {
    var t := AndroidTail(gaps.g3, a.level, gaps.g4, a.component, gaps.g5, a.content, "");
    var d := Ids(gaps.g1, a.pid, gaps.g2, a.tid, TailText(t));
    SpaceIsNoField(gaps.g1[0]);
    ScanStampOfText(Stamp(a.month, a.day, gaps.g0, a.hour, a.minute, a.second, a.fraction, IdsText(d)));
    SpaceIsNoField(gaps.g3[0]);
    ScanIdsOfText(d);
    ScanTailOfText(t);
  }

  /** `pattern.match(line)` for the Android pattern: the record, if the line matches. */
  function MatchAndroid(s: string): (r: Option<AndroidLine>)
    ensures r.Some? ==> Canonical(r.value) && r.value.Valid()
  {
    var p :- ScanAndroid(s);
    Some(p.line)
  }

  /** A record laid out with single spaces, as logcat's threadtime format writes one. */
  function Render(a: AndroidLine): string {
    AndroidText(a, AndroidGaps(" ", " ", " ", " ", " ", " "), "")
  }

  /** Matching the single-spaced rendering of a canonical record gives the record back. */
  lemma MatchAndroidRender(a: AndroidLine)
    requires Canonical(a)
    ensures MatchAndroid(Render(a)) == Some(a)
  {
    ScanAndroidOfText(a, AndroidGaps(" ", " ", " ", " ", " ", " "));
  }
}
