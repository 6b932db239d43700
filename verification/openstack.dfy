/**
 * The OpenStack log line grammar of `load_openstack_logs`:
 *   `^(?P<Logrecord>\S+)\s+(?P<Date>\d{4}-\d{2}-\d{2})\s+(?P<Time>\d{2}:\d{2}:\d{2}\.\d+)\s+(?P<Pid>\d+)\s+`
 *   `(?P<Level>\w+)\s+(?P<Component>\S+)\s+(?P<ADDR>\[.*?\])\s+(?P<Content>.*)$`
 * read as a deterministic scanner. The request-id block is lazy: it closes at the first `]` after which
 * the rest of the pattern matches, and `.` keeps it from running past a newline.
 */
module OpenStackLog {
  import opened Wrappers
  import opened Chars
  import opened Scan

  /** One OpenStack log record: the eight named groups, Date and Time in their parts, ADDR without its brackets. */
  datatype OpenStackLine = OpenStackLine(logrecord: string, year: string, month: string, day: string,
                                         hour: string, minute: string, second: string, fraction: string,
                                         pid: string, level: string, component: string,
                                         addr: string, content: string)
  {
    /** The character classes the pattern imposes on each group. */
    predicate Valid() {
      && Token(logrecord)
      && |year| == 4 && AllOf(year, IsDigit) && |month| == 2 && AllOf(month, IsDigit)
      && |day| == 2 && AllOf(day, IsDigit)
      && |hour| == 2 && AllOf(hour, IsDigit) && |minute| == 2 && AllOf(minute, IsDigit)
      && |second| == 2 && AllOf(second, IsDigit) && Digits(fraction)
      && Digits(pid) && Word(level) && Token(component)
      && '\n' !in addr && '\n' !in content
    }

    function Date(): string { year + "-" + month + "-" + day }

    function Time(): string { hour + ":" + minute + ":" + second + "." + fraction }

    /** The ADDR group, brackets included. */
    function Addr(): string { "[" + addr + "]" }

    /** `match.groupdict()`, in the order of its keys. */
    function Groups(): (g: seq<string>)
      ensures |g| == 8 && g[3] == pid && g[4] == level && g[6] == Addr()
    {
      [logrecord, Date(), Time(), pid, level, component, Addr(), content]
    }
  }

  /** The keys of `match.groupdict()`: the columns of the frame built from the records. */
  const Columns: seq<string> := ["Logrecord", "Date", "Time", "Pid", "Level", "Component", "ADDR", "Content"]

  /** The seven whitespace runs the `\s+` of the pattern consume, in order. */
  datatype OpenStackGaps = OpenStackGaps(g0: string, g1: string, g2: string, g3: string, g4: string,
                                         g5: string, g6: string)
  {
    predicate Valid() {
      IsGap(g0) && IsGap(g1) && IsGap(g2) && IsGap(g3) && IsGap(g4) && IsGap(g5) && IsGap(g6)
    }
  }

  /** A match: the record, the whitespace runs, and the newline `$` let through. */
  datatype OpenStackParse = OpenStackParse(line: OpenStackLine, gaps: OpenStackGaps, eol: string)

  /** No `]` inside the block is followed by whitespace, so the block can only close at its own end. */
  predicate NoEarlyClose(addr: string) {
    forall i :: 0 <= i < |addr| - 1 && addr[i] == ']' ==> !IsSpace(addr[i + 1])
  }

  /** The record is the one the scanner reads out of its own text. */
  predicate Canonical(o: OpenStackLine) {
    && o.Valid()
    && NoEarlyClose(o.addr)
    && (o.content == [] || !IsSpace(o.content[0]))
  }

  /** `\d{4}-\d{2}-\d{2}` */
  datatype DateCut = DateCut(year: string, month: string, day: string, rest: string)

  function DateText(d: DateCut): string {
    d.year + ("-" + (d.month + ("-" + (d.day + d.rest))))
  }

  predicate DateOk(d: DateCut) {
    |d.year| == 4 && AllOf(d.year, IsDigit) && |d.month| == 2 && AllOf(d.month, IsDigit)
    && |d.day| == 2 && AllOf(d.day, IsDigit)
  }

  function ScanDate(s: string): (r: Option<DateCut>)
    ensures r.Some? ==> DateOk(r.value) && s == DateText(r.value)
  {
    var year :- TakeExactly(s, IsDigit, 4);
    var r1 :- Literal(year.rest, '-');
    var month :- TakeExactly(r1, IsDigit, 2);
    var r2 :- Literal(month.rest, '-');
    var day :- TakeExactly(r2, IsDigit, 2);
    Some(DateCut(year.piece, month.piece, day.piece, day.rest))
  }

  lemma ScanDateOfText(d: DateCut)
    requires DateOk(d)
    ensures ScanDate(DateText(d)) == Some(d)
  {
    TakeExactlyOfConcat(d.year, "-" + (d.month + ("-" + (d.day + d.rest))), IsDigit);
    LiteralOfConcat('-', d.month + ("-" + (d.day + d.rest)));
    TakeExactlyOfConcat(d.month, "-" + (d.day + d.rest), IsDigit);
    LiteralOfConcat('-', d.day + d.rest);
    TakeExactlyOfConcat(d.day, d.rest, IsDigit);
  }

  /** `(\S+)\s+(date)\s+(time)`: Logrecord, Date and Time with the whitespace between. */
  datatype Front = Front(logrecord: string, gap0: string, date: DateCut, gap1: string, clock: FineClock)

  function FrontText(f: Front): string {
    f.logrecord + (f.gap0 + DateText(DateCut(f.date.year, f.date.month, f.date.day,
      f.gap1 + FineClockText(f.clock))))
  }

  predicate FrontOk(f: Front) {
    Token(f.logrecord) && IsGap(f.gap0) && DateOk(f.date) && IsGap(f.gap1) && FineClockOk(f.clock)
  }

  function ScanFront(s: string): (r: Option<Front>)
    ensures r.Some? ==> FrontOk(r.value) && s == FrontText(r.value)
  {
    var rec :- Take(s, IsNonSpace);
    var g0 :- Take(rec.rest, IsSpace);
    var date :- ScanDate(g0.rest);
    var g1 :- Take(date.rest, IsSpace);
    var clock :- ScanFineClock(g1.rest);
    Some(Front(rec.piece, g0.piece, DateCut(date.year, date.month, date.day, ""), g1.piece, clock))
  }

  lemma ScanFrontOfText(f: Front)
    requires FrontOk(f) && f.date.rest == ""
    ensures ScanFront(FrontText(f)) == Some(f)
  {
    var d := DateCut(f.date.year, f.date.month, f.date.day, f.gap1 + FineClockText(f.clock));
    FieldIsNoSpace(f.date.year[0]);
    FieldIsNoSpace(f.clock.hour[0]);
    TakeOfConcat(f.logrecord, f.gap0 + DateText(d), IsNonSpace);
    TakeOfConcat(f.gap0, DateText(d), IsSpace);
    ScanDateOfText(d);
    TakeOfConcat(f.gap1, FineClockText(f.clock), IsSpace);
    ScanFineClockOfText(f.clock);
  }

  /** `\s+(\d+)\s+(\w+)` after the Time: Pid and Level with the whitespace before each. */
  datatype PidLevel = PidLevel(gap: string, pid: string, gap2: string, level: string, rest: string)

  function PidLevelText(m: PidLevel): string {
    m.gap + (m.pid + (m.gap2 + (m.level + m.rest)))
  }

  predicate PidLevelOk(m: PidLevel) {
    IsGap(m.gap) && Digits(m.pid) && IsGap(m.gap2) && Word(m.level) && (m.rest == [] || !IsWordChar(m.rest[0]))
  }

  function ScanPidLevel(u: string): (r: Option<PidLevel>)
    ensures r.Some? ==> PidLevelOk(r.value) && u == PidLevelText(r.value)
  {
    var g :- Take(u, IsSpace);
    var pid :- Take(g.rest, IsDigit);
    var g2 :- Take(pid.rest, IsSpace);
    var level :- Take(g2.rest, IsWordChar);
    Some(PidLevel(g.piece, pid.piece, g2.piece, level.piece, level.rest))
  }

  lemma ScanPidLevelOfText(m: PidLevel)
    requires PidLevelOk(m)
    ensures ScanPidLevel(PidLevelText(m)) == Some(m)
  {
    FieldIsNoSpace(m.pid[0]);
    FieldIsNoSpace(m.level[0]);
    SpaceIsNoField(m.gap2[0]);
    TakeOfConcat(m.gap, m.pid + (m.gap2 + (m.level + m.rest)), IsSpace);
    TakeOfConcat(m.pid, m.gap2 + (m.level + m.rest), IsDigit);
    TakeOfConcat(m.gap2, m.level + m.rest, IsSpace);
    TakeOfConcat(m.level, m.rest, IsWordChar);
  }

  /** `\s+(\S+)\s+\[` after the Level: the Component and the opening of the request-id block. */
  datatype ComponentCut = ComponentCut(gap: string, component: string, gap2: string, rest: string)

  function ComponentText(m: ComponentCut): string {
    m.gap + (m.component + (m.gap2 + ("[" + m.rest)))
  }

  predicate ComponentOk(m: ComponentCut) {
    IsGap(m.gap) && Token(m.component) && IsGap(m.gap2)
  }

  function ScanComponent(u: string): (r: Option<ComponentCut>)
    ensures r.Some? ==> ComponentOk(r.value) && u == ComponentText(r.value)
  {
    var g :- Take(u, IsSpace);
    var comp :- Take(g.rest, IsNonSpace);
    var g2 :- Take(comp.rest, IsSpace);
    var rest :- Literal(g2.rest, '[');
    Some(ComponentCut(g.piece, comp.piece, g2.piece, rest))
  }

  lemma ScanComponentOfText(m: ComponentCut)
    requires ComponentOk(m)
    ensures ScanComponent(ComponentText(m)) == Some(m)
  {
    var t3 := "[" + m.rest;
    var t2 := m.gap2 + t3;
    var t1 := m.component + t2;
    assert IsNonSpace(m.component[0]);
    assert t1[0] == m.component[0];
    TakeOfConcat(m.gap, t1, IsSpace);
    assert t2[0] == m.gap2[0];
    TakeOfConcat(m.component, t2, IsNonSpace);
    assert t3[0] == '[';
    FieldIsNoSpace('[');
    TakeOfConcat(m.gap2, t3, IsSpace);
    LiteralOfConcat('[', m.rest);
  }

  /** Where the request-id block closes, and the end of the line after it. */
  datatype Close = Close(addr: string, gap: string, content: string, eol: string)

  function CloseText(c: Close): string {
    c.addr + ("]" + (c.gap + (c.content + c.eol)))
  }

  /**
   * `.*?\]\s+(.*)$` after the `[`: the lazy `.*?` tries to close the block at each character in turn
   * and only consumes the character (never a newline) when the rest of the pattern fails there.
   */
  function ScanClose(u: string): (r: Option<Close>)
    ensures r.Some? ==> CloseOk(r.value) && u == CloseText(r.value)
    decreases |u|
  {
    if u == [] then None
    else
      var here := if u[0] == ']' then GapThenRest(u[1..]) else None;
      if here.Some? then
        CloseHere(u, here.value);
        Some(Close([], here.value.gap, here.value.content, here.value.eol))
      else if u[0] == '\n' then None
      else
        var c :- ScanClose(u[1..]);
        ConsCloseText(u[0], c);
        Some(Close([u[0]] + c.addr, c.gap, c.content, c.eol))
  }

  /** What the pattern guarantees of the block's end: no newline inside, then `\s+(.*)$`. */
  predicate CloseOk(c: Close) {
    && '\n' !in c.addr && IsGap(c.gap) && '\n' !in c.content
    && (c.content == [] || !IsSpace(c.content[0]))
    && (c.eol == "" || c.eol == "\n")
  }

  /** The block closing at the first character. */
  lemma CloseHere(u: string, t: Tail)
    requires u != [] && u[0] == ']' && GapThenRest(u[1..]) == Some(t)
    ensures CloseOk(Close([], t.gap, t.content, t.eol)) && u == CloseText(Close([], t.gap, t.content, t.eol))
  {
    assert u == [] + ("]" + u[1..]);
  }

  /** Moving one character, not a newline, from the text after the block into the block. */
  lemma ConsCloseText(x: char, c: Close)
    requires x != '\n' && CloseOk(c)
    ensures CloseOk(Close([x] + c.addr, c.gap, c.content, c.eol))
    ensures CloseText(Close([x] + c.addr, c.gap, c.content, c.eol)) == [x] + CloseText(c)
  {
    AppendAssoc([x], c.addr, "]" + (c.gap + (c.content + c.eol)));
  }

  /** The block closes at the first `]` at which the rest of the pattern matches: never at an earlier one. */
  lemma {:induction false} ScanCloseFirst(u: string)
    requires ScanClose(u).Some?
    ensures var c := ScanClose(u).value;
      forall i :: 0 <= i < |c.addr| && c.addr[i] == ']' ==> GapThenRest(u[i + 1..]).None?
    decreases |u|
  {
    if u[0] == ']' && GapThenRest(u[1..]).Some? {
    } else {
      assert u[0] != '\n' && ScanClose(u[1..]).Some?;
      assert u == [u[0]] + u[1..];
      ScanCloseStep(u[0], u[1..]);
      ScanCloseFirst(u[1..]);
      ScanCloseFirstStep(u, ScanClose(u).value, ScanClose(u[1..]).value);
    }
  }

  lemma ScanCloseFirstStep(u: string, c: Close, c1: Close)
    requires u != [] && c.addr == [u[0]] + c1.addr && |c.addr| < |u|
    requires u[0] == ']' ==> GapThenRest(u[1..]).None?
    requires forall i :: 0 <= i < |c1.addr| && c1.addr[i] == ']' ==> GapThenRest(u[1..][i + 1..]).None?
    ensures forall i :: 0 <= i < |c.addr| && c.addr[i] == ']' ==> GapThenRest(u[i + 1..]).None?
  {
    forall i | 0 <= i < |c.addr| && c.addr[i] == ']' ensures GapThenRest(u[i + 1..]).None? {
      if i > 0 {
        assert c.addr[i] == c1.addr[i - 1];
        assert u[i + 1..] == u[1..][i..];
      }
    }
  }

  /** One step of the lazy scan: a character that cannot close the block is consumed into it. */
  lemma ScanCloseStep(x: char, tail: string)
    requires x != '\n'
    requires x == ']' ==> GapThenRest(tail).None?
    requires ScanClose(tail).Some?
    ensures var c := ScanClose(tail).value;
      ScanClose([x] + tail) == Some(Close([x] + c.addr, c.gap, c.content, c.eol))
  {
    assert ([x] + tail)[1..] == tail;
  }

  /** The conditions of `ScanCloseOfText` carry over to the block without its first character. */
  lemma NoEarlyCloseTail(addr: string)
    requires addr != [] && '\n' !in addr && NoEarlyClose(addr)
    ensures '\n' !in addr[1..] && NoEarlyClose(addr[1..])
    ensures addr[0] != '\n'
    ensures addr[0] == ']' && |addr| > 1 ==> !IsSpace(addr[1])
  {
    var t := addr[1..];
    forall i | 0 <= i < |t| - 1 && t[i] == ']' ensures !IsSpace(t[i + 1]) {
      assert t[i] == addr[i + 1] && t[i + 1] == addr[i + 2];
    }
    forall i | 0 <= i < |t| ensures t[i] != '\n' { assert t[i] == addr[i + 1]; }
  }

  /** Putting a character in front of a block keeps it free of early closes unless a `]` meets whitespace. */
  lemma NoEarlyCloseCons(x: char, addr: string)
    requires NoEarlyClose(addr)
    requires x == ']' && addr != [] ==> !IsSpace(addr[0])
    ensures NoEarlyClose([x] + addr)
  {
    var a := [x] + addr;
    forall i | 0 <= i < |a| - 1 && a[i] == ']' ensures !IsSpace(a[i + 1]) {
      if i > 0 { assert a[i] == addr[i - 1] && a[i + 1] == addr[i]; }
    }
  }

  /**
   * On a line without a newline the lazy block closes at the first `]` followed by whitespace, so no
   * `]` inside it is followed by whitespace.
   */
  lemma {:induction false} ScanCloseNoEarly(u: string)
    requires ScanClose(u).Some?
    ensures '\n' !in u ==> NoEarlyClose(ScanClose(u).value.addr)
    decreases |u|
  {
    if '\n' in u || (u[0] == ']' && GapThenRest(u[1..]).Some?) {
    } else {
      assert ScanClose(u[1..]).Some?;
      ScanCloseStep(u[0], u[1..]);
      var c1 := ScanClose(u[1..]).value;
      assert '\n' !in u[1..] by {
        assert u == [u[0]] + u[1..];
      }
      ScanCloseNoEarly(u[1..]);
      if u[0] == ']' && c1.addr != [] && IsSpace(c1.addr[0]) {
        assert u[1..] == CloseText(c1);
        assert u[1..][0] == c1.addr[0];
        GapThenRestOfLine(u[1..]);
        assert false;
      }
      NoEarlyCloseCons(u[0], c1.addr);
    }
  }

  /** A block closed right after the `[`. */
  lemma ScanCloseAtOnce(gap: string, content: string)
    requires IsGap(gap) && '\n' !in content && (content == [] || !IsSpace(content[0]))
    ensures ScanClose("]" + (gap + content)) == Some(Close([], gap, content, ""))
  {
    assert ("]" + (gap + content))[1..] == gap + content;
    GapThenRestOfConcat(gap, content);
  }

  /** A block without an early close, written out, is read back up to its own closing bracket. */
  lemma {:induction false} ScanCloseOfText(c: Close)
    requires '\n' !in c.addr && NoEarlyClose(c.addr)
    requires IsGap(c.gap) && '\n' !in c.content && (c.content == [] || !IsSpace(c.content[0]))
    requires c.eol == ""
    ensures ScanClose(CloseText(c)) == Some(c)
    decreases |c.addr|
  {
    assert c.content + c.eol == c.content;
    if c.addr == [] {
      ScanCloseAtOnce(c.gap, c.content);
    } else {
      var c1 := Close(c.addr[1..], c.gap, c.content, c.eol);
      NoEarlyCloseTail(c.addr);
      ScanCloseOfText(c1);
      ScanCloseCons(c, c1);
    }
  }

  /** The inductive step of `ScanCloseOfText`. */
  lemma ScanCloseCons(c: Close, c1: Close)
    requires c.addr != [] && c1 == Close(c.addr[1..], c.gap, c.content, c.eol)
    requires c.addr[0] != '\n'
    requires c.addr[0] == ']' && |c.addr| > 1 ==> !IsSpace(c.addr[1])
    requires ScanClose(CloseText(c1)) == Some(c1)
    ensures ScanClose(CloseText(c)) == Some(c)
  {
    var x := c.addr[0];
    assert c.addr == [x] + c1.addr;
    ConsCloseText(x, c1);
    if x == ']' {
      var y := if c1.addr == [] then ']' else c1.addr[0];
      assert CloseText(c1)[0] == y;
      if IsSpace(y) { SpaceIsNoField(y); }
      GapThenRestNeedsGap(CloseText(c1));
    }
    ScanCloseStep(x, CloseText(c1));
  }

  /** The text a record spells out with the given whitespace runs and line end. */
  function OpenStackText(o: OpenStackLine, gaps: OpenStackGaps, eol: string): string {
    FrontText(Front(o.logrecord, gaps.g0, DateCut(o.year, o.month, o.day, ""), gaps.g1,
      FineClock(o.hour, o.minute, o.second, o.fraction,
        PidLevelText(PidLevel(gaps.g2, o.pid, gaps.g3, o.level,
          ComponentText(ComponentCut(gaps.g4, o.component, gaps.g5,
            CloseText(Close(o.addr, gaps.g6, o.content, eol)))))))))
  }

  /** The OpenStack pattern matched against a whole (stripped) line. */
  function ScanOpenStack(s: string): (r: Option<OpenStackParse>)
    ensures r.Some? ==> var p := r.value;
      && p.line.Valid() && p.gaps.Valid() && (p.eol == "" || p.eol == "\n")
      && (p.line.content == [] || !IsSpace(p.line.content[0]))
      && s == OpenStackText(p.line, p.gaps, p.eol)
      && ('\n' !in s ==> NoEarlyClose(p.line.addr))
  {
    var f :- ScanFront(s);
    var pl :- ScanPidLevel(f.clock.rest);
    var m :- ScanComponent(pl.rest);
    var c :- ScanClose(m.rest);
    ScanCloseNoEarly(m.rest);
    var o := OpenStackLine(f.logrecord, f.date.year, f.date.month, f.date.day,
                           f.clock.hour, f.clock.minute, f.clock.second, f.clock.fraction,
                           pl.pid, pl.level, m.component, c.addr, c.content);
    Some(OpenStackParse(o, OpenStackGaps(f.gap0, f.gap1, pl.gap, pl.gap2, m.gap, m.gap2, c.gap), c.eol))
  }

  /** A canonical record, written out with any whitespace runs, is read back with exactly those runs. */
  lemma ScanOpenStackOfText(o: OpenStackLine, gaps: OpenStackGaps)
    requires Canonical(o) && gaps.Valid()
    ensures ScanOpenStack(OpenStackText(o, gaps, "")) == Some(OpenStackParse(o, gaps, ""))
  {
    var c := Close(o.addr, gaps.g6, o.content, "");
    var m := ComponentCut(gaps.g4, o.component, gaps.g5, CloseText(c));
    var pl := PidLevel(gaps.g2, o.pid, gaps.g3, o.level, ComponentText(m));
    var clock := FineClock(o.hour, o.minute, o.second, o.fraction, PidLevelText(pl));
    SpaceIsNoField(gaps.g2[0]);
    SpaceIsNoField(gaps.g4[0]);
    ScanFrontOfText(Front(o.logrecord, gaps.g0, DateCut(o.year, o.month, o.day, ""), gaps.g1, clock));
    ScanPidLevelOfText(pl);
    ScanComponentOfText(m);
    ScanCloseOfText(c);
  }

  /** `log_pattern.match(line)`: the record, if the line matches. */
  function MatchOpenStack(s: string): (r: Option<OpenStackLine>)
    ensures r.Some? ==> r.value.Valid() && (r.value.content == [] || !IsSpace(r.value.content[0]))
    ensures r.Some? && '\n' !in s ==> Canonical(r.value)
  {
    var p :- ScanOpenStack(s);
    Some(p.line)
  }

  /** A record laid out with single spaces, as the OpenStack services write one. */
  function Render(o: OpenStackLine): string {
    OpenStackText(o, OpenStackGaps(" ", " ", " ", " ", " ", " ", " "), "")
  }

  /** Matching the single-spaced rendering of a canonical record gives the record back. */
  lemma MatchOpenStackRender(o: OpenStackLine)
    requires Canonical(o)
    ensures MatchOpenStack(Render(o)) == Some(o)
  {
    ScanOpenStackOfText(o, OpenStackGaps(" ", " ", " ", " ", " ", " ", " "));
  }
}
