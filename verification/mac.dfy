/**
 * The Mac system-log line grammar of `parse_mac_log`:
 *   `^(\w+)\s+(\d+)\s+(\d+:\d+:\d+)\s+(\S+)\s+([^[]+)\[(\d+)\]:\s+(.*)$`
 * read as a deterministic scanner. The one place Python's backtracking shows is the Component group:
 * when `[` directly follows the whitespace after User, `[^[]+` can only match by taking the last
 * character of that whitespace, which needs at least two of them.
 */
module MacLog {
  import opened Wrappers
  import opened Chars
  import opened Scan

  /** One Mac log record: the seven groups of the pattern, with the clock group kept in its three parts. */
  datatype MacLine = MacLine(month: string, date: string, hour: string, minute: string, second: string,
                             user: string, component: string, pid: string, content: string)
  {
    /** The character classes the pattern imposes on each group. */
    predicate Valid() {
      && Word(month) && Digits(date)
      && Digits(hour) && Digits(minute) && Digits(second)
      && Token(user)
      && |component| > 0 && '[' !in component
      && Digits(pid)
      && '\n' !in content
    }

    /** The Time group, `\d+:\d+:\d+`. */
    function Time(): string { hour + ":" + minute + ":" + second }

    /** `m.groups()`, in the order of the columns Month, Date, Time, User, Component, PID, Content. */
    function Groups(): (g: seq<string>)
      ensures |g| == 7 && g[4] == component && g[5] == pid
    {
      [month, date, Time(), user, component, pid, content]
    }
  }

  /** The columns `parse_mac_log` gives its frame. */
  const Columns: seq<string> := ["Month", "Date", "Time", "User", "Component", "PID", "Content"]

  /** The five whitespace runs the `\s+` of the pattern consume, in order. */
  datatype MacGaps = MacGaps(g0: string, g1: string, g2: string, g3: string, g4: string)
  {
    predicate Valid() { IsGap(g0) && IsGap(g1) && IsGap(g2) && IsGap(g3) && IsGap(g4) }
  }

  /** A match: the record, the whitespace runs, and the newline `$` let through. */
  datatype MacParse = MacParse(line: MacLine, gaps: MacGaps, eol: string)

  /** The text a record spells out with the given whitespace runs and line end. */
  function MacText(m: MacLine, gaps: MacGaps, eol: string): string {
    FrontText(m.month, gaps.g0, m.date, gaps.g1,
      ClockText(m.hour, m.minute, m.second,
        gaps.g2 + (m.user + TailText(MacTail(gaps.g3, m.component, m.pid, gaps.g4, m.content, eol)))))
  }

  function FrontText(month: string, gap0: string, date: string, gap1: string, after: string): string {
    month + (gap0 + (date + (gap1 + after)))
  }

  /**
   * The record is the one the scanner reads out of its own text: the Component does not begin with
   * whitespace unless it is a single character, and the Content does not begin with whitespace.
   */
  predicate Canonical(m: MacLine) {
    && m.Valid()
    && (!IsSpace(m.component[0]) || |m.component| == 1)
    && (m.content == [] || !IsSpace(m.content[0]))
  }

  /** `\s+([^[]+)\[` after User: the whitespace run, the Component, and the text after the `[`. */
  datatype ComponentCut = ComponentCut(gap: string, component: string, rest: string)

  function ScanComponent(u: string): (r: Option<ComponentCut>)
    ensures r.Some? ==> var c := r.value;
      && IsGap(c.gap) && |c.component| > 0 && '[' !in c.component
      && (!IsSpace(c.component[0]) || |c.component| == 1)
      && u == c.gap + (c.component + ("[" + c.rest))
  {
    var g :- Take(u, IsSpace);
    if g.rest != [] && g.rest[0] == '[' then
      if |g.piece| >= 2 then
        LastSpaceComponent(u, g);
        Some(ComponentCut(g.piece[..|g.piece| - 1], [g.piece[|g.piece| - 1]], g.rest[1..]))
      else None
    else
      var c :- Take(g.rest, NotOpenBracket);
      var r :- Literal(c.rest, '[');
      BracketComponent(u, g, c, r);
      Some(ComponentCut(g.piece, c.piece, r))
  }

  /**
   * With `[` right after the whitespace, `[^[]+` can only take the run's last character, which the
   * greedy `\s+` gives back.
   */
  lemma LastSpaceComponent(u: string, g: Cut)
    requires MaximalCut(g, u, IsSpace) && |g.piece| >= 2 && g.rest != [] && g.rest[0] == '['
    ensures var n := |g.piece| - 1;
      && IsGap(g.piece[..n]) && IsSpace(g.piece[n]) && g.piece[n] != '['
      && u == g.piece[..n] + ([g.piece[n]] + ("[" + g.rest[1..]))
  {
    var n := |g.piece| - 1;
    assert g.piece == g.piece[..n] + [g.piece[n]];
    assert g.rest == "[" + g.rest[1..];
    SpaceIsNoField(g.piece[n]);
    AppendAssoc(g.piece[..n], [g.piece[n]], g.rest);
  }

  /** Otherwise the Component is the run of non-`[` characters after the whitespace. */
  lemma BracketComponent(u: string, g: Cut, c: Cut, r: string)
    requires MaximalCut(g, u, IsSpace) && MaximalCut(c, g.rest, NotOpenBracket) && c.rest == "[" + r
    ensures '[' !in c.piece && !IsSpace(c.piece[0])
    ensures u == g.piece + (c.piece + ("[" + r))
  {
    assert c.piece[0] == g.rest[0];
    assert forall i :: 0 <= i < |c.piece| ==> NotOpenBracket(c.piece[i]);
  }

  lemma ScanComponentOfConcat(gap: string, component: string, rest: string)
    requires IsGap(gap) && |component| > 0 && '[' !in component
    requires !IsSpace(component[0]) || |component| == 1
    ensures ScanComponent(gap + (component + ("[" + rest))) == Some(ComponentCut(gap, component, rest))
  {
    var u := gap + (component + ("[" + rest));
    if !IsSpace(component[0]) {
      TakeOfConcat(gap, component + ("[" + rest), IsSpace);
      assert component[0] != '[';
      TakeOfConcat(component, "[" + rest, NotOpenBracket);
      LiteralOfConcat('[', rest);
    } else {
      var w := gap + component;
      assert u == w + ("[" + rest);
      assert AllOf(w, IsSpace) by {
        forall i | 0 <= i < |w| ensures IsSpace(w[i]) {
          if i >= |gap| { assert w[i] == component[i - |gap|]; }
        }
      }
      TakeOfConcat(w, "[" + rest, IsSpace);
      assert w[..|w| - 1] == gap;
      assert [w[|w| - 1]] == component;
      assert ("[" + rest)[1..] == rest;
    }
  }

  /** `\d+:\d+:\d+`: the three parts of the clock and the text after it. */
  datatype ClockCut = ClockCut(hour: string, minute: string, second: string, rest: string)

  function ClockText(hour: string, minute: string, second: string, after: string): string {
    hour + (":" + (minute + (":" + (second + after))))
  }

  function ScanClock(s: string): (r: Option<ClockCut>)
    ensures r.Some? ==> var c := r.value;
      && Digits(c.hour) && Digits(c.minute) && Digits(c.second)
      && s == ClockText(c.hour, c.minute, c.second, c.rest)
      && (c.rest == [] || !IsDigit(c.rest[0]))
  {
    var hour :- Take(s, IsDigit);
    var r1 :- Literal(hour.rest, ':');
    var minute :- Take(r1, IsDigit);
    var r2 :- Literal(minute.rest, ':');
    var second :- Take(r2, IsDigit);
    Some(ClockCut(hour.piece, minute.piece, second.piece, second.rest))
  }

  lemma ScanClockOfConcat(hour: string, minute: string, second: string, rest: string)
    requires Digits(hour) && Digits(minute) && Digits(second)
    requires rest == [] || !IsDigit(rest[0])
    ensures ScanClock(ClockText(hour, minute, second, rest)) == Some(ClockCut(hour, minute, second, rest))
  {
    TakeOfConcat(hour, ":" + (minute + (":" + (second + rest))), IsDigit);
    LiteralOfConcat(':', minute + (":" + (second + rest)));
    TakeOfConcat(minute, ":" + (second + rest), IsDigit);
    LiteralOfConcat(':', second + rest);
    TakeOfConcat(second, rest, IsDigit);
  }

  /** `\s+([^[]+)\[(\d+)\]:\s+(.*)$` after User. */
  datatype MacTail = MacTail(gap: string, component: string, pid: string, gap2: string, content: string, eol: string)

  function TailText(t: MacTail): string {
    t.gap + (t.component + ("[" + (t.pid + ("]" + (":" + (t.gap2 + (t.content + t.eol)))))))
  }

  function ScanTail(u: string): (r: Option<MacTail>)
    ensures r.Some? ==> var t := r.value;
      && IsGap(t.gap) && |t.component| > 0 && '[' !in t.component
      && (!IsSpace(t.component[0]) || |t.component| == 1)
      && Digits(t.pid) && IsGap(t.gap2) && '\n' !in t.content
      && (t.content == [] || !IsSpace(t.content[0]))
      && (t.eol == "" || t.eol == "\n")
      && u == TailText(t)
  {
    var comp :- ScanComponent(u);
    var pid :- Take(comp.rest, IsDigit);
    var r3 :- Literal(pid.rest, ']');
    var r4 :- Literal(r3, ':');
    var tail :- GapThenRest(r4);
    Some(MacTail(comp.gap, comp.component, pid.piece, tail.gap, tail.content, tail.eol))
  }

  lemma ScanTailOfConcat(t: MacTail)
    requires IsGap(t.gap) && |t.component| > 0 && '[' !in t.component
    requires !IsSpace(t.component[0]) || |t.component| == 1
    requires Digits(t.pid) && IsGap(t.gap2) && '\n' !in t.content
    requires t.content == [] || !IsSpace(t.content[0])
    requires t.eol == ""
    ensures ScanTail(TailText(t)) == Some(t)
  {
    assert t.content + t.eol == t.content;
    var after := t.pid + ("]" + (":" + (t.gap2 + t.content)));
    assert TailText(t) == t.gap + (t.component + ("[" + after));
    ScanComponentOfConcat(t.gap, t.component, after);
    TakeOfConcat(t.pid, "]" + (":" + (t.gap2 + t.content)), IsDigit);
    LiteralOfConcat(']', ":" + (t.gap2 + t.content));
    LiteralOfConcat(':', t.gap2 + t.content);
    GapThenRestOfConcat(t.gap2, t.content);
  }

  /** `^(\w+)\s+(\d+)\s+`: Month, Date, and the whitespace after each. */
  datatype MacFront = MacFront(month: string, gap0: string, date: string, gap1: string, rest: string)

  function ScanFront(s: string): (r: Option<MacFront>)
    ensures r.Some? ==> var f := r.value;
      && Word(f.month) && IsGap(f.gap0) && Digits(f.date) && IsGap(f.gap1)
      && s == FrontText(f.month, f.gap0, f.date, f.gap1, f.rest)
      && (f.rest == [] || !IsSpace(f.rest[0]))
  {
    var month :- Take(s, IsWordChar);
    var g0 :- Take(month.rest, IsSpace);
    var date :- Take(g0.rest, IsDigit);
    var g1 :- Take(date.rest, IsSpace);
    Some(MacFront(month.piece, g0.piece, date.piece, g1.piece, g1.rest))
  }

  lemma ScanFrontOfConcat(f: MacFront)
    requires Word(f.month) && IsGap(f.gap0) && Digits(f.date) && IsGap(f.gap1)
    requires f.rest == [] || !IsSpace(f.rest[0])
    ensures ScanFront(FrontText(f.month, f.gap0, f.date, f.gap1, f.rest)) == Some(f)
  {
    SpaceIsNoField(f.gap0[0]);
    SpaceIsNoField(f.gap1[0]);
    TakeOfConcat(f.month, f.gap0 + (f.date + (f.gap1 + f.rest)), IsWordChar);
    TakeOfConcat(f.gap0, f.date + (f.gap1 + f.rest), IsSpace);
    TakeOfConcat(f.date, f.gap1 + f.rest, IsDigit);
    TakeOfConcat(f.gap1, f.rest, IsSpace);
  }

  /** The Mac pattern matched against a whole (stripped) line. */
  function ScanMac(s: string): (r: Option<MacParse>)
    ensures r.Some? ==> var p := r.value;
      && Canonical(p.line) && p.gaps.Valid() && (p.eol == "" || p.eol == "\n")
      && s == MacText(p.line, p.gaps, p.eol)
  {
    var f :- ScanFront(s);
    var clock :- ScanClock(f.rest);
    var g2 :- Take(clock.rest, IsSpace);
    var user :- Take(g2.rest, IsNonSpace);
    var t :- ScanTail(user.rest);
    var m := MacLine(f.month, f.date, clock.hour, clock.minute, clock.second,
                     user.piece, t.component, t.pid, t.content);
    var gaps := MacGaps(f.gap0, f.gap1, g2.piece, t.gap, t.gap2);
    Some(MacParse(m, gaps, t.eol))
  }

  /** A canonical record, written out with any whitespace runs, is read back with exactly those runs. */
  lemma ScanMacOfText(m: MacLine, gaps: MacGaps)
    requires Canonical(m) && gaps.Valid()
    ensures ScanMac(MacText(m, gaps, "")) == Some(MacParse(m, gaps, ""))
  {
    var t := MacTail(gaps.g3, m.component, m.pid, gaps.g4, m.content, "");
    var afterClock := gaps.g2 + (m.user + TailText(t));
    var afterFront := ClockText(m.hour, m.minute, m.second, afterClock);
    var f := MacFront(m.month, gaps.g0, m.date, gaps.g1, afterFront);
    ScanFrontOfConcat(f);
    SpaceIsNoField(gaps.g2[0]);
    ScanClockOfConcat(m.hour, m.minute, m.second, afterClock);
    TakeOfConcat(gaps.g2, m.user + TailText(t), IsSpace);
    TakeOfConcat(m.user, TailText(t), IsNonSpace);
    ScanTailOfConcat(t);
  }

  /** `pattern.match(line)` for the Mac pattern: the record, if the line matches. */
  function MatchMac(s: string): (r: Option<MacLine>)
    ensures r.Some? ==> Canonical(r.value) && r.value.Valid()
  {
    var p :- ScanMac(s);
    Some(p.line)
  }

  /** A record laid out with single spaces, as the system logger writes one. */
  function Render(m: MacLine): string {
    MacText(m, MacGaps(" ", " ", " ", " ", " "), "")
  }

  /** Matching the single-spaced rendering of a canonical record gives the record back. */
  lemma MatchMacRender(m: MacLine)
    requires Canonical(m)
    ensures MatchMac(Render(m)) == Some(m)
  {
    ScanMacOfText(m, MacGaps(" ", " ", " ", " ", " "));
  }
}
