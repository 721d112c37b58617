/** `fenced_block` of src/cpp/comment/doxygen_raw.cpp: a verbatim block printed as a fenced code block. */
module Fence {
  import opened Wrappers
  import Sequences

  // And the rule of section 4.5 of the CommonMark specification by which it is read back.

  predicate IsWs(c: char) { c == ' ' || c == '\t' }

  /** `is_blank`. */
  predicate Blank(s: string) { forall i | 0 <= i < |s| :: IsWs(s[i]) }

  /** `find_first_not_of(" \t")`, or the length. */
  function Lead(s: string): (r: nat)
    ensures r <= |s| && (forall i | 0 <= i < r :: IsWs(s[i])) && (r < |s| ==> !IsWs(s[r]))
    ensures r == |s| <==> Blank(s)
  {
    if s == "" || !IsWs(s[0]) then 0 else 1 + Lead(s[1..])
  }

  /** The backticks at the end of s. */
  function TailRun(s: string): (r: nat)
    ensures r <= |s| && forall i | |s| - r <= i < |s| :: s[i] == '`'
  {
    if s != "" && s[|s| - 1] == '`' then 1 + TailRun(s[..|s| - 1]) else 0
  }

  function Max(a: int, b: int): int { if a > b then a else b }

  function LongestRun(s: string): nat { if s == "" then 0 else Max(LongestRun(s[..|s| - 1]), TailRun(s)) }

  function LongestRunIn(lines: seq<string>): nat {
    if lines == [] then 0 else Max(LongestRunIn(lines[..|lines| - 1]), LongestRun(lines[|lines| - 1]))
  }

  /** Longer than any backtick run inside, and at least three. */
  function Ticks(lines: seq<string>): nat { Max(3, LongestRunIn(lines) + 1) }

  /** The common indent of the lines that are not blank. */
  function CommonLead(lines: seq<string>): Option<nat> {
    if lines == [] then None
    else
      var rest, s := CommonLead(lines[..|lines| - 1]), lines[|lines| - 1];
      if Blank(s) then rest
      else if rest == None || rest.value > Lead(s) then Some(Lead(s)) else rest
  }

  function IndentOf(lines: seq<string>): nat { match CommonLead(lines) case None => 0 case Some(n) => n }

  function DropFront(lines: seq<string>): seq<string> {
    if lines != [] && Blank(lines[0]) then DropFront(lines[1..]) else lines
  }

  function DropBack(lines: seq<string>): seq<string> {
    if lines != [] && Blank(lines[|lines| - 1]) then DropBack(lines[..|lines| - 1]) else lines
  }

  function Kept(lines: seq<string>): seq<string> { DropBack(DropFront(lines)) }

  /** One line of the body: blank lines are emptied, the others lose the common indent. */
  function Dedent(s: string, indent: nat): string { if Blank(s) || indent > |s| then "" else s[indent..] }

  function DedentAll(lines: seq<string>, indent: nat): seq<string> {
    seq(|lines|, i requires 0 <= i < |lines| => Dedent(lines[i], indent))
  }

  /** The example itself: what the lines hold apart from blank lines around them and their common indent. */
  function Body(lines: seq<string>): seq<string> {
    var kept := Kept(lines);
    DedentAll(kept, IndentOf(kept))
  }

  function Info(kind: string, language: string): string {
    if language == "" && kind == "code" then "cpp" else language
  }

  function Backticks(n: nat): string { seq(n, _ => '`') }

  function Terminated(lines: seq<string>): string {
    if lines == [] then "" else Terminated(lines[..|lines| - 1]) + lines[|lines| - 1] + "\n"
  }

  /** What `fenced_block` prints. */
  function Block(kind: string, language: string, lines: seq<string>): string {
    var kept := Kept(lines);
    if kept == [] then ""
    else
      var fence := Backticks(Ticks(kept));
      Terminated([fence + Info(kind, language)] + DedentAll(kept, IndentOf(kept))) + fence
  }

  method IsBlank(s: string) returns (blank: bool)
    ensures blank <==> Blank(s)
  {
    for i := 0 to |s|
      invariant Blank(s[..i])
    {
      if !IsWs(s[i]) {
        return false;
      }
      assert s[..i + 1] == s[..i] + [s[i]];
    }
    assert s[..|s|] == s;
    return true;
  }

  method TrimBlankLines(given: seq<string>) returns (lines: seq<string>)
    ensures lines == Kept(given)
  {
    lines := given;
    var blank := true;
    while lines != [] && blank
      invariant DropFront(lines) == DropFront(given) && (!blank ==> lines != [] && !Blank(lines[0]))
      decreases |lines|, blank
    {
      blank := IsBlank(lines[0]);
      if blank {
        lines := lines[1..];
      }
    }
    blank := true;
    while lines != [] && blank
      invariant DropBack(lines) == Kept(given) && (!blank ==> lines != [] && !Blank(lines[|lines| - 1]))
      decreases |lines|, blank
    {
      blank := IsBlank(lines[|lines| - 1]);
      if blank {
        lines := lines[..|lines| - 1];
      }
    }
  }

  method MeasureIndent(lines: seq<string>) returns (indent: nat)
    ensures indent == IndentOf(lines)
  {
    hide Lead, Blank;
    var least: Option<nat> := None;
    for i := 0 to |lines|
      invariant least == CommonLead(lines[..i])
    {
      Sequences.Added(lines[..i], lines[i]);
      assert lines[..i + 1] == lines[..i] + [lines[i]];
      var blank := IsBlank(lines[i]);
      if blank {
        continue;
      }
      var at := Lead(lines[i]);
      least := if least == None || least.value > at then Some(at) else least;
    }
    assert lines[..|lines|] == lines;
    indent := if least == None then 0 else least.value;
  }

  method MeasureTicks(lines: seq<string>) returns (ticks: nat)
    ensures ticks == Ticks(lines)
  {
    hide LongestRun;
    ticks := 3;
    for i := 0 to |lines|
      invariant ticks == Ticks(lines[..i])
    {
      assert lines[..i + 1][..i] == lines[..i];
      ticks := LongerThanRuns(lines[i], ticks);
    }
    assert lines[..|lines|] == lines;
  }

  /** The inner loop over the characters of one line. */
  method LongerThanRuns(line: string, ticks0: nat) returns (ticks: nat)
    requires ticks0 >= 3
    ensures ticks == Max(ticks0, LongestRun(line) + 1)
  {
    ticks := ticks0;
    var run := 0;
    for j := 0 to |line|
      invariant run == TailRun(line[..j]) && ticks == Max(ticks0, LongestRun(line[..j]) + 1)
    {
      assert line[..j + 1][..j] == line[..j];
      run := if line[j] == '`' then run + 1 else 0;
      ticks := Max(ticks, run + 1);
    }
    assert line[..|line|] == line;
  }

  /** `fenced_block`. */
  method FencedBlock(kind: string, language: string, given: seq<string>) returns (out: string)
    ensures out == Block(kind, language, given)
  {
    hide Terminated, DropFront, DropBack, Ticks, IndentOf, Dedent;
    var lines := TrimBlankLines(given);
    if lines == [] {
      return "";
    }
    var indent := MeasureIndent(lines);
    var ticks := MeasureTicks(lines);
    var info := language;
    if info == "" && kind == "code" {
      info := "cpp";
    }
    var fence := Backticks(ticks);
    out := fence + info + "\n";
    ghost var open := [fence + info];
    TerminatedOne(fence + info);
    for i := 0 to |lines|
      invariant out == Terminated(open + DedentAll(lines[..i], indent))
    {
      TerminatedAdd(open + DedentAll(lines[..i], indent), Dedent(lines[i], indent));
      assert open + DedentAll(lines[..i + 1], indent) == open + DedentAll(lines[..i], indent)
          + [Dedent(lines[i], indent)];
      out := out + Dedent(lines[i], indent) + "\n";
    }
    assert lines[..|lines|] == lines;
    out := out + fence;
  }

  lemma {:induction false} TerminatedStarts(lines: seq<string>)
    requires lines != []
    ensures lines[0] <= Terminated(lines)
  {
    if |lines| > 1 {
      TerminatedStarts(lines[..|lines| - 1]);
    }
  }

  /** A printed block starts with a fence. */
  lemma BlockStarts(kind: string, language: string, lines: seq<string>)
    ensures Block(kind, language, lines) != "" ==> "```" <= Block(kind, language, lines)
  {
    var kept := Kept(lines);
    var fence := Backticks(Ticks(kept));
    TerminatedStarts([fence + Info(kind, language)] + DedentAll(kept, IndentOf(kept)));
    assert "```" <= fence;
  }

  lemma TerminatedAdd(lines: seq<string>, s: string)
    ensures Terminated(lines + [s]) == Terminated(lines) + s + "\n"
  {
    Sequences.Added(lines, s);
  }

  lemma TerminatedOne(s: string)
    ensures Terminated([s] + DedentAll([], 0)) == s + "\n" && forall n :: DedentAll([], n) == DedentAll([], 0)
  {
    assert [s] + DedentAll([], 0) == [] + [s];
    TerminatedAdd([], s);
    assert "" + s == s;
  }

  // ---- reading a fenced code block ----

  /** A document cut at its line endings: a newline, a carriage return, or the two together. */
  function Lines(s: string): (r: seq<string>)
    ensures r != []
  {
    if s == "" then [""]
    else
      var rest := Lines(s[1..]);
      if s[0] == '\r' && |s| > 1 && s[1] == '\n' then rest
      else if s[0] == '\n' || s[0] == '\r' then [""] + rest
      else [[s[0]] + rest[0]] + rest[1..]
  }

  function LeadSpaces(s: string): (r: nat)
    ensures r <= |s| && (forall i | 0 <= i < r :: s[i] == ' ') && (r < |s| ==> s[r] != ' ')
  {
    if s == "" || s[0] != ' ' then 0 else 1 + LeadSpaces(s[1..])
  }

  function LeadTicks(s: string): (r: nat)
    ensures r <= |s| && (forall i | 0 <= i < r :: s[i] == '`') && (r < |s| ==> s[r] != '`')
  {
    if s == "" || s[0] != '`' then 0 else 1 + LeadTicks(s[1..])
  }

  function TrimEnd(s: string): string { if s != "" && IsWs(s[|s| - 1]) then TrimEnd(s[..|s| - 1]) else s }

  function Trim(s: string): string { TrimEnd(s[Lead(s)..]) }

  datatype Opening = Opening(indent: nat, ticks: nat, info: string)

  /** At most three spaces, at least three backticks, and an info string without backticks. */
  function ReadOpening(line: string): Option<Opening> {
    var s := line[LeadSpaces(line)..];
    var info := s[LeadTicks(s)..];
    if LeadSpaces(line) <= 3 && LeadTicks(s) >= 3 && '`' !in info
    then Some(Opening(LeadSpaces(line), LeadTicks(s), Trim(info))) else None
  }

  /** At most three spaces and at least as many backticks as the opening had, followed by nothing but blanks. */
  predicate Closes(line: string, ticks: nat) {
    var s := line[LeadSpaces(line)..];
    LeadSpaces(line) <= 3 && LeadTicks(s) >= ticks && Blank(s[LeadTicks(s)..])
  }

  /** The lines before the closing fence, or all of them; each loses as many leading spaces as the opening had. */
  function Content(lines: seq<string>, o: Opening): seq<string> {
    if lines == [] || Closes(lines[0], o.ticks) then []
    else
      var n := if LeadSpaces(lines[0]) < o.indent then LeadSpaces(lines[0]) else o.indent;
      [lines[0][n..]] + Content(lines[1..], o)
  }

  function AfterClosing(lines: seq<string>, ticks: nat): seq<string> {
    if lines == [] then [] else if Closes(lines[0], ticks) then lines[1..] else AfterClosing(lines[1..], ticks)
  }

  datatype CodeBlock = CodeBlock(info: string, content: seq<string>, following: seq<string>)

  /** The fenced code block a document starts with, if it starts with one, and the lines after it. */
  function ReadFence(doc: string): Option<CodeBlock> { ReadBlock(ReadOpening(Lines(doc)[0]), Lines(doc)[1..]) }

  function ReadBlock(open: Option<Opening>, lines: seq<string>): Option<CodeBlock> {
    match open
    case None => None
    case Some(o) => Some(CodeBlock(o.info, Content(lines, o), AfterClosing(lines, o.ticks)))
  }

  // ---- the round trip ----

  predicate OneLine(s: string) { '\n' !in s && '\r' !in s }

  lemma {:induction false} LinesOfOne(s: string)
    requires OneLine(s)
    ensures Lines(s) == [s]
  {
    if s != "" {
      LinesOfOne(s[1..]);
      assert s == [s[0]] + s[1..];
    }
  }

  lemma {:induction false} LinesAdd(a: string, x: string)
    requires OneLine(x) && (a == "" || a[|a| - 1] != '\r')
    ensures Lines(a + "\n" + x) == Lines(a) + [x]
  {
    var s := a + "\n" + x;
    if a == "" {
      assert s[1..] == x;
      LinesOfOne(x);
    } else {
      assert s[1..] == a[1..] + "\n" + x;
      LinesAdd(a[1..], x);
    }
  }

  lemma {:induction false} LinesOfTerminated(lines: seq<string>, x: string)
    requires OneLine(x) && forall i | 0 <= i < |lines| :: OneLine(lines[i])
    ensures Lines(Terminated(lines) + x) == lines + [x]
  {
    hide Lines, OneLine;
    if lines == [] {
      LinesOfOne(x);
      assert "" + x == x;
      assert [] + [x] == [x];
    } else {
      var init, last := lines[..|lines| - 1], lines[|lines| - 1];
      LinesOfTerminated(init, last);
      EndsInLine(init, last);
      LinesAdd(Terminated(init) + last, x);
      assert lines == init + [last];
    }
  }

  lemma EndsInLine(lines: seq<string>, x: string)
    requires OneLine(x)
    ensures var a := Terminated(lines) + x; a == "" || a[|a| - 1] != '\r'
  {
    if x != "" {
      var a := Terminated(lines) + x;
      assert a[|a| - 1] == x[|x| - 1];
    } else if lines != [] {
      var a := Terminated(lines);
      assert a[|a| - 1] == '\n';
    }
  }

  lemma {:induction false} LinesAreLines(s: string)
    ensures forall l <- Lines(s) :: OneLine(l)
  {
    if s != "" {
      LinesAreLines(s[1..]);
      var rest := Lines(s[1..]);
      assert rest[0] in rest;
      assert forall l <- rest[1..] :: l in rest;
    }
  }

  lemma {:induction false} ContentIsLines(lines: seq<string>, o: Opening)
    requires forall l <- lines :: OneLine(l)
    ensures forall l <- Content(lines, o) :: OneLine(l)
  {
    if lines != [] {
      hide Closes;
      assert lines[0] in lines;
      assert forall l <- lines[1..] :: l in lines;
      ContentIsLines(lines[1..], o);
    }
  }

  lemma {:induction false} TrimEndKeeps(s: string, c: char)
    requires !IsWs(c)
    ensures c in TrimEnd(s) <==> c in s
  {
    if s != "" && IsWs(s[|s| - 1]) {
      TrimEndKeeps(s[..|s| - 1], c);
      Sequences.ButLast(s);
    }
  }

  lemma TrimKeeps(s: string, c: char)
    requires !IsWs(c)
    ensures c in Trim(s) <==> c in s
  {
    Sequences.Split(s, Lead(s));
    TrimEndKeeps(s[Lead(s)..], c);
  }

  /** Whatever the document, what is read is made of lines. */
  lemma ReadsLines(doc: string)
    ensures var r := ReadFence(doc); r.Some? ==> '\r' !in r.value.info && forall l <- r.value.content :: OneLine(l)
  {
    var lines := Lines(doc);
    LinesAreLines(doc);
    assert lines[0] in lines && forall l <- lines[1..] :: l in lines;
    hide Lines;
    var open := ReadOpening(lines[0]);
    if open.Some? {
      ContentIsLines(lines[1..], open.value);
      var s := lines[0][LeadSpaces(lines[0])..];
      TrimKeeps(s[LeadTicks(s)..], '\r');
    }
  }

  predicate NoReturns(lines: seq<string>) { forall l <- lines :: '\r' !in l }

  lemma ReturnsOfConcat(a: seq<string>, b: seq<string>)
    ensures NoReturns(a + b) <==> NoReturns(a) && NoReturns(b)
  {
    assert forall l :: l in a + b <==> l in a || l in b;
  }

  lemma BlankHasNoReturn(s: string)
    requires Blank(s)
    ensures NoReturns([s])
  {
  }

  lemma {:induction false} FrontKeepsReturns(lines: seq<string>)
    ensures NoReturns(DropFront(lines)) <==> NoReturns(lines)
  {
    hide Blank, NoReturns;
    if lines != [] && Blank(lines[0]) {
      FrontKeepsReturns(lines[1..]);
      BlankHasNoReturn(lines[0]);
      ReturnsOfConcat([lines[0]], lines[1..]);
      assert lines == [lines[0]] + lines[1..];
    }
  }

  lemma {:induction false} BackKeepsReturns(lines: seq<string>)
    ensures NoReturns(DropBack(lines)) <==> NoReturns(lines)
  {
    hide Blank, NoReturns;
    if lines != [] && Blank(lines[|lines| - 1]) {
      var init, last := lines[..|lines| - 1], lines[|lines| - 1];
      BackKeepsReturns(init);
      BlankHasNoReturn(last);
      ReturnsOfConcat(init, [last]);
      Sequences.ButLast(lines);
    }
  }

  lemma DedentKeepsReturns(s: string, indent: nat)
    requires Blank(s) || indent <= Lead(s)
    ensures '\r' in Dedent(s, indent) <==> '\r' in s
  {
    if !Blank(s) {
      Sequences.Split(s, indent);
    }
  }

  /** The body holds a carriage return exactly when the lines do. */
  lemma BodyKeepsReturns(lines: seq<string>)
    ensures NoReturns(Body(lines)) <==> NoReturns(lines)
  {
    var kept, body := Kept(lines), Body(lines);
    hide NoReturns;
    FrontKeepsReturns(lines);
    BackKeepsReturns(DropFront(lines));
    forall i | 0 <= i < |kept| ensures '\r' in body[i] <==> '\r' in kept[i] {
      if !Blank(kept[i]) {
        CommonLeadIsLeast(kept, i);
      }
      DedentKeepsReturns(kept[i], IndentOf(kept));
    }
    hide Kept, Body;
    SameReturns(kept, body);
  }

  lemma SameReturns(a: seq<string>, b: seq<string>)
    requires |a| == |b| && forall i | 0 <= i < |a| :: '\r' in b[i] <==> '\r' in a[i]
    ensures NoReturns(b) <==> NoReturns(a)
  {
    assert NoReturns(a) <==> forall i | 0 <= i < |a| :: '\r' !in a[i];
    assert NoReturns(b) <==> forall i | 0 <= i < |b| :: '\r' !in b[i];
  }

  /** Backticks at a..a+k of s. */
  ghost predicate RunAt(s: string, a: nat, k: nat) { a + k <= |s| && forall i | a <= i < a + k :: s[i] == '`' }

  lemma {:induction false} RunIsBounded(s: string, a: nat, k: nat)
    requires RunAt(s, a, k)
    ensures k <= LongestRun(s)
    decreases |s|
  {
    if s != "" {
      if a + k < |s| {
        assert RunAt(s[..|s| - 1], a, k);
        RunIsBounded(s[..|s| - 1], a, k);
      } else {
        TailRunIsLongest(s, k);
      }
    }
  }

  lemma TailRunIsLongest(s: string, k: nat)
    requires k <= |s| && forall i | |s| - k <= i < |s| :: s[i] == '`'
    ensures k <= TailRun(s)
  {
    var r := TailRun(s);
    if r < k {
      assert s[|s| - r - 1] == '`';
      TailRunStops(s);
    }
  }

  lemma {:induction false} TailRunStops(s: string)
    ensures TailRun(s) < |s| ==> s[|s| - TailRun(s) - 1] != '`'
  {
    if s != "" && s[|s| - 1] == '`' {
      TailRunStops(s[..|s| - 1]);
    }
  }

  lemma {:induction false} LongestRunIsRun(s: string) returns (a: nat)
    ensures RunAt(s, a, LongestRun(s))
  {
    if s == "" || TailRun(s) >= LongestRun(s[..|s| - 1]) {
      a := |s| - TailRun(s);
    } else {
      a := LongestRunIsRun(s[..|s| - 1]);
    }
  }

  /** Leading white space holds no backtick. */
  lemma DedentKeepsRuns(s: string, n: nat)
    requires n <= |s| && forall i | 0 <= i < n :: IsWs(s[i])
    ensures LongestRun(s[n..]) == LongestRun(s)
  {
    var a := LongestRunIsRun(s[n..]);
    assert RunAt(s, a + n, LongestRun(s[n..]));
    RunIsBounded(s, a + n, LongestRun(s[n..]));
    var b := LongestRunIsRun(s);
    if LongestRun(s) > 0 {
      assert s[b] == '`';
      assert RunAt(s[n..], b - n, LongestRun(s));
      RunIsBounded(s[n..], b - n, LongestRun(s));
    }
  }

  lemma {:induction false} BlankHasNoRun(s: string)
    requires Blank(s)
    ensures LongestRun(s) == 0
  {
    if s != "" {
      assert IsWs(s[|s| - 1]);
      BlankHasNoRun(s[..|s| - 1]);
    }
  }

  lemma {:induction false} CommonLeadIsLeast(lines: seq<string>, i: nat)
    requires i < |lines| && !Blank(lines[i])
    ensures CommonLead(lines).Some? && CommonLead(lines).value <= Lead(lines[i])
  {
    hide Lead, Blank;
    var n := |lines| - 1;
    if i < n {
      CommonLeadIsLeast(lines[..n], i);
    }
  }

  lemma DedentedLine(lines: seq<string>, i: nat)
    requires i < |lines|
    ensures var s, indent := lines[i], IndentOf(lines);
            && LongestRun(Dedent(s, indent)) == LongestRun(s)
            && (Blank(Dedent(s, indent)) <==> Blank(s))
            && (Blank(s) ==> Dedent(s, indent) == "")
            && (!Blank(s) ==>
                  && indent <= |s| && Dedent(s, indent) == s[indent..]
                  && Lead(Dedent(s, indent)) == Lead(s) - indent)
  {
    var s, indent := lines[i], IndentOf(lines);
    if Blank(s) {
      BlankHasNoRun(s);
    } else {
      CommonLeadIsLeast(lines, i);
      DedentKeepsRuns(s, indent);
      LeadOfSuffix(s, indent);
    }
  }

  lemma {:induction false} LeadOfSuffix(s: string, n: nat)
    requires n <= Lead(s)
    ensures Lead(s[n..]) == Lead(s) - n && (Blank(s[n..]) <==> Blank(s))
  {
    if n == 0 {
      assert s[0..] == s;
    } else {
      LeadOfSuffix(s[1..], n - 1);
      assert s[1..][n - 1..] == s[n..];
    }
  }

  lemma {:induction false} RunsOfDedented(lines: seq<string>, dedented: seq<string>)
    requires |dedented| == |lines| && forall i | 0 <= i < |lines| :: LongestRun(dedented[i]) == LongestRun(lines[i])
    ensures LongestRunIn(dedented) == LongestRunIn(lines)
  {
    hide LongestRun;
    if lines != [] {
      RunsOfDedented(lines[..|lines| - 1], dedented[..|lines| - 1]);
    }
  }

  lemma {:induction false} RunInLines(lines: seq<string>, i: nat)
    requires i < |lines|
    ensures LongestRun(lines[i]) <= LongestRunIn(lines)
  {
    hide LongestRun;
    if i < |lines| - 1 {
      RunInLines(lines[..|lines| - 1], i);
    }
  }

  /** A line whose runs are shorter cannot close the fence. */
  lemma ShortRunsDoNotClose(s: string, ticks: nat)
    requires LongestRun(s) < ticks
    ensures !Closes(s, ticks)
  {
    var n := LeadSpaces(s);
    var k := LeadTicks(s[n..]);
    assert RunAt(s, n, k) by {
      assert forall i | n <= i < n + k :: s[i] == s[n..][i - n];
    }
    RunIsBounded(s, n, k);
  }

  /** Nowhere in s stand n backticks in a row. */
  ghost predicate NoRun(s: string, n: nat) { forall a {:trigger RunAt(s, a, n)} :: !RunAt(s, a, n) }

  lemma NoRunExactlyWhen(s: string, n: nat)
    ensures NoRun(s, n) <==> LongestRun(s) < n
  {
    var a := LongestRunIsRun(s);
    if LongestRun(s) >= n {
      assert RunAt(s, a, n);
    }
    forall b | RunAt(s, b, n) ensures n <= LongestRun(s) {
      RunIsBounded(s, b, n);
    }
  }

  /** The fence is the shortest of at least three backticks that no line holds. */
  lemma {:induction false} TicksAreLeast(lines: seq<string>, n: nat)
    ensures n >= Ticks(lines) <==> n >= 3 && forall i | 0 <= i < |lines| :: NoRun(lines[i], n)
  {
    if lines != [] {
      var init, s := lines[..|lines| - 1], lines[|lines| - 1];
      TicksAreLeast(init, n);
      NoRunExactlyWhen(s, n);
      hide NoRun, LongestRun;
      assert forall i | 0 <= i < |init| :: init[i] == lines[i];
    }
  }

  // ---- the body ----

  /** Of the lines, those from a to z, without n blanks in front of each that is not blank itself. */
  ghost predicate IsBody(body: seq<string>, lines: seq<string>, a: nat, z: nat, n: nat)
    requires a <= z <= |lines|
  {
    && (forall i | 0 <= i < a :: Blank(lines[i])) && (forall i | z <= i < |lines| :: Blank(lines[i]))
    && (a < z ==> !Blank(lines[a]) && !Blank(lines[z - 1]))
    && |body| == z - a
    && (forall i | 0 <= i < |body| :: Unindented(body[i], lines[a + i], n))
    && (a < z ==> exists i | a <= i < z :: !Blank(lines[i]) && Lead(lines[i]) == n)
  }

  predicate Unindented(t: string, s: string, n: nat) {
    if Blank(s) then t == "" else n <= Lead(s) && t == s[n..]
  }

  lemma {:induction false} DropFrontIs(lines: seq<string>) returns (a: nat)
    ensures a <= |lines| && DropFront(lines) == lines[a..] && forall i | 0 <= i < a :: Blank(lines[i])
  {
    a := 0;
    if lines != [] && Blank(lines[0]) {
      a := DropFrontIs(lines[1..]);
      assert lines[1..][a..] == lines[a + 1..];
      assert forall i | 0 < i < a + 1 :: lines[i] == lines[1..][i - 1];
      a := a + 1;
    } else {
      assert lines[0..] == lines;
    }
  }

  lemma {:induction false} DropBackIs(lines: seq<string>) returns (z: nat)
    ensures z <= |lines| && DropBack(lines) == lines[..z] && forall i | z <= i < |lines| :: Blank(lines[i])
  {
    z := |lines|;
    if lines != [] && Blank(lines[|lines| - 1]) {
      z := DropBackIs(lines[..|lines| - 1]);
      assert lines[..|lines| - 1][..z] == lines[..z];
      assert forall i | z <= i < |lines| - 1 :: lines[i] == lines[..|lines| - 1][i];
    } else {
      assert lines[..|lines|] == lines;
    }
  }

  lemma {:induction false} CommonLeadIsMet(lines: seq<string>)
    ensures CommonLead(lines).Some? ==>
              exists i | 0 <= i < |lines| :: !Blank(lines[i]) && Lead(lines[i]) == CommonLead(lines).value
  {
    hide Lead, Blank;
    if lines != [] {
      CommonLeadIsMet(lines[..|lines| - 1]);
    }
  }

  /** The body is what lies between the first and the last line that is not blank, without the indentation all of it
      shares: blank lines around are gone, blank lines inside are empty, and some line has no indentation left. */
  lemma BodyIsTrimmed(lines: seq<string>) returns (a: nat, z: nat, n: nat)
    ensures a <= z <= |lines| && IsBody(Body(lines), lines, a, z, n)
  {
    a := DropFrontIs(lines);
    var back := DropBackIs(lines[a..]);
    z, n := a + back, IndentOf(Kept(lines));
    var kept := Kept(lines);
    assert kept == lines[a..][..back] == lines[a..z];
    assert forall i | z <= i < |lines| :: lines[i] == lines[a..][i - a];
    KeptEnds(lines);
    KeptEnds(DropFront(lines));
    hide DropFront, DropBack, Kept;
    if a < z {
      assert kept[0] == lines[a] && kept[|kept| - 1] == lines[z - 1];
      CommonLeadIsLeast(kept, 0);
    }
    BodyIsDedented(lines, kept, a, z);
  }

  lemma BodyIsDedented(lines: seq<string>, kept: seq<string>, a: nat, z: nat)
    requires a <= z <= |lines| && kept == lines[a..z] && kept == Kept(lines)
    requires a < z ==> !Blank(lines[a])
    ensures |Body(lines)| == z - a
    ensures forall i | 0 <= i < z - a :: Unindented(Body(lines)[i], lines[a + i], IndentOf(kept))
    ensures a < z ==> exists i | a <= i < z :: !Blank(lines[i]) && Lead(lines[i]) == IndentOf(kept)
  {
    hide Kept, Lead, Blank;
    forall i | 0 <= i < z - a ensures Unindented(Body(lines)[i], lines[a + i], IndentOf(kept)) {
      UnindentedLine(kept, i);
      assert kept[i] == lines[a + i] && Body(lines)[i] == Dedent(kept[i], IndentOf(kept));
    }
    if a < z {
      assert kept[0] == lines[a];
      CommonLeadIsLeast(kept, 0);
      CommonLeadIsMet(kept);
      var i :| 0 <= i < |kept| && !Blank(kept[i]) && Lead(kept[i]) == CommonLead(kept).value;
      assert lines[a + i] == kept[i];
    }
  }

  lemma UnindentedLine(kept: seq<string>, i: nat)
    requires i < |kept|
    ensures Unindented(Dedent(kept[i], IndentOf(kept)), kept[i], IndentOf(kept))
  {
    if !Blank(kept[i]) {
      CommonLeadIsLeast(kept, i);
    }
  }

  lemma {:induction false} ContentIsAll(body: seq<string>, more: seq<string>, o: Opening)
    requires o.indent == 0 && forall i | 0 <= i < |body| :: !Closes(body[i], o.ticks)
    ensures Content(body + more, o) == body + Content(more, o)
    ensures AfterClosing(body + more, o.ticks) == AfterClosing(more, o.ticks)
  {
    if body == [] {
      assert body + more == more;
      assert [] + Content(more, o) == Content(more, o);
    } else {
      hide Closes;
      assert (body + more)[1..] == body[1..] + more;
      ContentIsAll(body[1..], more, o);
      assert body[0][0..] == body[0];
      assert [body[0]] + (body[1..] + Content(more, o)) == body + Content(more, o);
    }
  }

  lemma {:induction false} LeadTicksOf(n: nat, rest: string)
    ensures LeadTicks(Backticks(n) + rest) == n + LeadTicks(rest)
  {
    if n == 0 {
      assert Backticks(0) + rest == rest;
    } else {
      assert (Backticks(n) + rest)[1..] == Backticks(n - 1) + rest;
      LeadTicksOf(n - 1, rest);
    }
  }

  lemma FenceHasNoLead(n: nat, rest: string)
    requires n > 0
    ensures LeadSpaces(Backticks(n) + rest) == 0
  {
    assert (Backticks(n) + rest)[0] == '`';
  }

  lemma ReadOpeningOf(n: nat, info: string)
    requires n >= 3
    ensures var k := LeadTicks(info);
            ReadOpening(Backticks(n) + info) ==
            if '`' !in info[k..] then Some(Opening(0, n + k, Trim(info[k..]))) else None
  {
    hide LeadTicks, LeadSpaces, Trim;
    FenceHasNoLead(n, info);
    LeadTicksOf(n, info);
    var line := Backticks(n) + info;
    assert line[0..] == line;
    assert line[n + LeadTicks(info)..] == info[LeadTicks(info)..];
  }

  lemma FenceCloses(n: nat, ticks: nat)
    requires n >= 3
    ensures Closes(Backticks(n), ticks) <==> ticks <= n
  {
    hide LeadTicks, LeadSpaces;
    FenceHasNoLead(n, "");
    LeadTicksOf(n, "");
    var line := Backticks(n);
    assert line + "" == line && line[0..] == line;
    assert LeadTicks("") == 0;
    assert line[n..] == "";
  }

  lemma KeptLines(lines: seq<string>)
    requires forall i | 0 <= i < |lines| :: OneLine(lines[i])
    ensures var kept := Kept(lines); forall i | 0 <= i < |kept| :: OneLine(kept[i])
  {
    hide OneLine;
    DropKeeps(lines);
    DropKeeps(DropFront(lines));
    var kept := Kept(lines);
    forall i | 0 <= i < |kept| ensures OneLine(kept[i]) {
      assert kept[i] in kept;
    }
  }

  lemma BodyLine(kept: seq<string>, i: nat)
    requires i < |kept| && OneLine(kept[i])
    ensures var s := Dedent(kept[i], IndentOf(kept));
            OneLine(s) && LongestRun(s) == LongestRun(kept[i]) && !Closes(s, Ticks(kept))
  {
    hide LongestRun, IndentOf, LongestRunIn, Closes;
    DedentedLine(kept, i);
    RunInLines(kept, i);
    ShortRunsDoNotClose(Dedent(kept[i], IndentOf(kept)), Ticks(kept));
  }

  /** What the body of a block consists of. */
  lemma BodyLines(lines: seq<string>)
    requires forall i | 0 <= i < |lines| :: OneLine(lines[i])
    ensures var kept, body := Kept(lines), Body(lines);
            && |body| == |kept| && LongestRunIn(body) == LongestRunIn(kept)
            && forall i | 0 <= i < |body| :: OneLine(body[i]) && !Closes(body[i], Ticks(kept))
  {
    hide IndentOf, Dedent, Ticks, Closes, OneLine, Kept;
    var kept, body := Kept(lines), Body(lines);
    KeptLines(lines);
    forall i | 0 <= i < |body|
      ensures LongestRun(body[i]) == LongestRun(kept[i]) && OneLine(body[i]) && !Closes(body[i], Ticks(kept))
    {
      BodyLine(kept, i);
    }
    RunsOfDedented(kept, body);
  }

  lemma {:induction false} DropKeeps(lines: seq<string>)
    ensures forall s <- DropBack(lines) :: s in lines
    ensures forall s <- DropFront(lines) :: s in lines
  {
    if lines != [] {
      DropKeeps(lines[1..]);
      DropKeeps(lines[..|lines| - 1]);
    }
  }

  /** A printed block is read back as its info string and its body exactly when the info string has no backtick, which
      only a language attribute can put there, and neither it nor any line holds a carriage return, which the standard
      takes for a line ending and the source does not. */
  lemma FenceRoundTrip(kind: string, language: string, lines: seq<string>)
    requires '\n' !in language && (forall l <- lines :: '\n' !in l) && Body(lines) != []
    ensures ReadFence(Block(kind, language, lines)) == Some(CodeBlock(Trim(Info(kind, language)), Body(lines), []))
            <==> '`' !in Info(kind, language) && '\r' !in Info(kind, language) && NoReturns(lines)
  {
    var info := Info(kind, language);
    if '\r' !in info && NoReturns(lines) {
      assert OneLine(language) && forall i | 0 <= i < |lines| :: OneLine(lines[i]);
      FenceOfLines(kind, language, lines);
    } else {
      hide ReadFence, Block, Body, Trim;
      ReadsLines(Block(kind, language, lines));
      TrimKeeps(info, '\r');
      BodyKeepsReturns(lines);
    }
  }

  /** A block of code whose language is not said is read back as C++, a verbatim block as no language at all. */
  lemma UnsaidLanguage(lines: seq<string>)
    requires (forall l <- lines :: '\n' !in l) && Body(lines) != []
    ensures ReadFence(Block("code", "", lines)) == Some(CodeBlock("cpp", Body(lines), [])) <==> NoReturns(lines)
    ensures ReadFence(Block("verbatim", "", lines)) == Some(CodeBlock("", Body(lines), [])) <==> NoReturns(lines)
  {
    FenceRoundTrip("code", "", lines);
    FenceRoundTrip("verbatim", "", lines);
    hide Body, Block, ReadFence, NoReturns;
    assert Trim("cpp") == "cpp" && Trim("") == "" by {
      assert "cpp"[0..] == "cpp";
    }
  }

  lemma FenceOfLines(kind: string, language: string, lines: seq<string>)
    requires OneLine(Info(kind, language)) && (forall i | 0 <= i < |lines| :: OneLine(lines[i])) && Body(lines) != []
    ensures ReadFence(Block(kind, language, lines)) == Some(CodeBlock(Trim(Info(kind, language)), Body(lines), []))
            <==> '`' !in Info(kind, language)
  {
    var kept, body, info := Kept(lines), Body(lines), Info(kind, language);
    var n := Ticks(kept);
    hide *;
    BodyLines(lines);
    FenceLines(n, info);
    BlockIs(kind, language, lines);
    LinesOfTerminated([Backticks(n) + info] + body, Backticks(n));
    FenceReadsBack(Block(kind, language, lines), n, info, body);
  }

  lemma BlockIs(kind: string, language: string, lines: seq<string>)
    requires Body(lines) != []
    ensures var n := Ticks(Kept(lines));
            Block(kind, language, lines) == Terminated([Backticks(n) + Info(kind, language)] + Body(lines))
                + Backticks(n)
    ensures Ticks(Kept(lines)) >= 3
  {
    hide Kept, Terminated, IndentOf, Dedent, LongestRunIn, Info;
  }

  lemma FenceLines(n: nat, info: string)
    requires OneLine(info)
    ensures OneLine(Backticks(n)) && OneLine(Backticks(n) + info)
  {
  }

  /** A fence is read as it was printed, unless its info string starts with backticks of its own: then nothing
      closes it and the closing fence becomes content. */
  lemma FenceReads(n: nat, info: string, body: seq<string>)
    requires n >= 3 && forall i | 0 <= i < |body| :: !Closes(body[i], n)
    ensures var k, block := LeadTicks(info), ReadBlock(ReadOpening(Backticks(n) + info), body + [Backticks(n)]);
            block == if '`' in info[k..] then None
                     else if k == 0 then Some(CodeBlock(Trim(info[k..]), body, []))
                     else Some(CodeBlock(Trim(info[k..]), body + [Backticks(n)], []))
  {
    hide Closes, Backticks, ReadOpening, Trim, ReadBlock;
    ReadOpeningOf(n, info);
    ClosedContent(body, n, Opening(0, n + LeadTicks(info), Trim(info[LeadTicks(info)..])));
    NoBlock(body + [Backticks(n)]);
  }

  lemma NoBlock(lines: seq<string>)
    ensures ReadBlock(None, lines) == None
  {
  }

  lemma TailOf(open: string, body: seq<string>, close: string)
    ensures ([open] + body + [close])[0] == open && ([open] + body + [close])[1..] == body + [close]
  {
  }

  lemma ClosedContent(body: seq<string>, n: nat, o: Opening)
    requires n >= 3 && o.indent == 0 && o.ticks >= n && forall i | 0 <= i < |body| :: !Closes(body[i], n)
    ensures ReadBlock(Some(o), body + [Backticks(n)]) ==
            Some(CodeBlock(o.info, if o.ticks == n then body else body + [Backticks(n)], []))
  {
    forall i | 0 <= i < |body| ensures !Closes(body[i], o.ticks) {
      CannotCloseMore(body[i], n, o.ticks - n);
    }
    hide Closes;
    ContentIsAll(body, [Backticks(n)], o);
    FenceCloses(n, o.ticks);
    LastLine(Backticks(n), o);
    Sequences.AddNothing(body);
  }

  lemma FenceReadsBack(doc: string, n: nat, info: string, body: seq<string>)
    requires Lines(doc) == [Backticks(n) + info] + body + [Backticks(n)] && n >= 3
    requires forall i | 0 <= i < |body| :: !Closes(body[i], n)
    ensures ReadFence(doc) == Some(CodeBlock(Trim(info), body, [])) <==> '`' !in info
  {
    FenceReads(n, info, body);
    LeadingTicks(info);
    TailOf(Backticks(n) + info, body, Backticks(n));
    hide Backticks, ReadOpening, ReadBlock, Trim, Closes, LeadTicks;
    var k := LeadTicks(info);
    if k == 0 {
      assert info[0..] == info;
    } else {
      assert |body + [Backticks(n)]| > |body|;
    }
  }

  lemma LeadingTicks(info: string)
    ensures LeadTicks(info) > 0 ==> '`' in info
    ensures '`' in info[LeadTicks(info)..] ==> '`' in info
  {
    if LeadTicks(info) > 0 {
      assert info[0] == '`';
    }
  }

  lemma LastLine(s: string, o: Opening)
    requires o.indent == 0
    ensures Content([s], o) == (if Closes(s, o.ticks) then [] else [s]) && AfterClosing([s], o.ticks) == []
  {
    hide Closes;
    assert [s][1..] == [] && s[0..] == s;
  }

  lemma CannotCloseMore(s: string, n: nat, k: nat)
    requires !Closes(s, n)
    ensures !Closes(s, n + k)
  {
  }

  // ---- fencing again ----

  lemma {:induction false} KeptEnds(lines: seq<string>)
    ensures var kept := DropFront(lines); kept != [] ==> !Blank(kept[0])
    ensures var kept := DropBack(lines); kept != [] ==> !Blank(kept[|kept| - 1])
    ensures lines != [] && !Blank(lines[0]) ==> DropBack(lines) != [] && DropBack(lines)[0] == lines[0]
  {
    if lines != [] {
      KeptEnds(lines[1..]);
      KeptEnds(lines[..|lines| - 1]);
    }
  }

  lemma {:induction false} CommonLeadOfDedented(lines: seq<string>, dedented: seq<string>, indent: nat)
    requires |dedented| == |lines|
    requires forall i | 0 <= i < |lines| :: Blank(dedented[i]) <==> Blank(lines[i])
    requires forall i | 0 <= i < |lines| :: !Blank(lines[i]) ==> Lead(dedented[i]) == Lead(lines[i]) - indent
    ensures match CommonLead(lines)
            case None => CommonLead(dedented) == None
            case Some(m) => CommonLead(dedented).Some? && CommonLead(dedented).value == m - indent
  {
    hide Lead, Blank;
    if lines != [] {
      CommonLeadOfDedented(lines[..|lines| - 1], dedented[..|lines| - 1], indent);
    }
  }

  /** Fencing the body of a block once more prints the same block. */
  lemma FenceAgain(kind: string, language: string, lines: seq<string>)
    ensures Block(kind, language, Body(lines)) == Block(kind, language, lines)
  {
    var kept, body := Kept(lines), Body(lines);
    KeptEnds(lines);
    KeptEnds(DropFront(lines));
    forall i | 0 <= i < |kept|
      ensures LongestRun(body[i]) == LongestRun(kept[i]) && (Blank(body[i]) <==> Blank(kept[i]))
      ensures Blank(kept[i]) ==> body[i] == ""
      ensures !Blank(kept[i]) ==> Lead(body[i]) == Lead(kept[i]) - IndentOf(kept)
    {
      DedentedLine(kept, i);
    }
    RunsOfDedented(kept, body);
    CommonLeadOfDedented(kept, body, IndentOf(kept));
    if body != [] {
      assert DropFront(body) == body && DropBack(body) == body;
      assert IndentOf(body) == 0;
      forall i | 0 <= i < |body| ensures Dedent(body[i], 0) == body[i] {
        assert body[i][0..] == body[i];
      }
      assert DedentAll(body, 0) == body;
    }
  }
}
