/**
 `strip_markers` of src/cpp/comment/doxygen_raw.cpp: the documentation lines of a raw comment.
 */
module CommentMarkers {
  import Fence
  import Sequences
  import opened RawScan

  predicate IsEnd(c: char) { c == ' ' || c == '\t' || c == '\r' }

  /** `rtrim`. */
  function TrimRight(s: string): string { if s != "" && IsEnd(s[|s| - 1]) then TrimRight(s[..|s| - 1]) else s }

  predicate EndsWith(s: string, tail: string) { |s| >= |tail| && s[|s| - |tail|..] == tail }

  /** Without trailing white space and the end of a block comment. */
  function Clipped(line: string): string {
    var s := TrimRight(line);
    if EndsWith(s, "*/") then TrimRight(s[..|s| - 2]) else s
  }

  /** How long the opening marker in front of s is. */
  function MarkerLength(s: string): (n: nat)
    ensures n <= |s|
  {
    if "///<" <= s || "//!<" <= s || "/**<" <= s || "/*!<" <= s then 4
    else if "/**" <= s || "/*!" <= s || "///" <= s || "//!" <= s then 3
    else if "/*" <= s || "//" <= s then 2
    else 0
  }

  /** Only a lone `*` continues a block comment: any other is content. */
  predicate IsContinuation(s: string) { s != "" && s[0] == '*' && (|s| == 1 || s[1] == ' ' || s[1] == '\t') }

  function SkipOne(s: string): string { if s != "" && s[0] == ' ' then s[1..] else s }

  /** What is left of a line behind its marker. */
  function Content(s: string, block: bool): string {
    var text := s[Fence.Lead(s)..];
    var n := MarkerLength(text);
    if text == "" then ""
    else if n > 0 then SkipOne(text[n..])
    else if block && IsContinuation(text) then SkipOne(text[1..])
    else s
  }

  /** `strip_line_markers`. */
  function StripLine(line: string, block: bool): string { TrimRight(Content(Clipped(line), block)) }

  /** The lines of a text. */
  function RawLines(raw: string): (r: seq<string>)
    ensures r != []
  {
    if raw == "" then [""]
    else
      var init, c := RawLines(raw[..|raw| - 1]), raw[|raw| - 1];
      if c == '\n' then init + [""] else init[..|init| - 1] + [init[|init| - 1] + [c]]
  }

  function StripAll(lines: seq<string>, block: bool): seq<string> {
    seq(|lines|, i requires 0 <= i < |lines| => StripLine(lines[i], block))
  }

  function SpaceLength(s: string): (n: nat)
    ensures n <= |s|
  {
    if s != "" && (IsEnd(s[0]) || s[0] == '\n') then 1 + SpaceLength(s[1..]) else 0
  }

  predicate IsBlockStyle(raw: string) { "/*" <= raw[SpaceLength(raw)..] }

  /** The documentation lines. */
  function Stripped(raw: string): seq<string> { StripAll(RawLines(raw), IsBlockStyle(raw)) }

  method StripMarkers(raw: string) returns (lines: seq<string>)
    ensures lines == Stripped(raw)
  {
    hide StripLine, RawLines, StripAll;
    StartLines();
    var block := IsBlockStyle(raw);
    lines := [];
    var cur := "";
    ghost var done: seq<string> := [];
    for i := 0 to |raw|
      invariant RawLines(raw[..i]) == done + [cur] && lines == StripAll(done, block)
    {
      RawLinesNext(raw, i, done, cur);
      if raw[i] == '\n' {
        StripNext(done, cur, block);
        lines := lines + [StripLine(cur, block)];
        done := done + [cur];
        cur := "";
      } else {
        cur := cur + [raw[i]];
      }
    }
    assert raw[..|raw|] == raw;
    StripNext(done, cur, block);
    lines := lines + [StripLine(cur, block)];
  }

  lemma StartLines()
    ensures RawLines("") == [] + [""] && forall block :: StripAll([], block) == []
  {
  }

  lemma RawLinesNext(raw: string, i: nat, done: seq<string>, cur: string)
    requires i < |raw| && RawLines(raw[..i]) == done + [cur]
    ensures RawLines(raw[..i + 1]) == if raw[i] == '\n' then done + [cur] + [""] else done + [cur + [raw[i]]]
  {
    assert raw[..i + 1][..i] == raw[..i];
    Sequences.Added(done, cur);
  }

  lemma StripNext(done: seq<string>, cur: string, block: bool)
    ensures StripAll(done + [cur], block) == StripAll(done, block) + [StripLine(cur, block)]
  {
    hide StripLine;
  }

  /** `doxygen_parse_raw`. */
  method ParseComment(raw: string) returns (m: Comment)
    ensures m == Parse(Stripped(raw))
  {
    var lines := StripMarkers(raw);
    m := ParseRaw(lines);
  }

  // ---- marked and stripped again ----

  /** Nothing at the end of a line is taken for the end of the comment. */
  predicate EndsPlainly(line: string) { TrimRight(line) == line && !EndsWith(line, "*/") }

  /** It ends in none of the three blanks and not in the end mark. */
  lemma EndsPlainlyExactlyWhen(line: string)
    ensures EndsPlainly(line) <==>
            && (line == "" || line[|line| - 1] !in {' ', '\t', '\r'})
            && !(|line| >= 2 && line[|line| - 2] == '*' && line[|line| - 1] == '/')
  {
    TrimRightIs(line);
    EndsWithEnd(line);
  }

  lemma {:induction false} TrimRightIs(s: string)
    ensures TrimRight(s) <= s && (TrimRight(s) == "" || !IsEnd(TrimRight(s)[|TrimRight(s)| - 1]))
    ensures TrimRight(s) == s <==> s == "" || !IsEnd(s[|s| - 1])
  {
    if s != "" && IsEnd(s[|s| - 1]) {
      TrimRightIs(s[..|s| - 1]);
    }
  }

  /** A prefix that ends in a blank leaves the end of a line alone. */
  lemma PlainBehind(mark: string, line: string)
    requires mark != "" && mark[|mark| - 1] == ' ' && line != "" && EndsPlainly(line)
    ensures Clipped(mark + line) == mark + line
  {
    hide TrimRight, EndsWith;
    TrimRightBehind(mark, line);
    EndsWithBehind(mark, line);
  }

  lemma EndBehind(mark: string, line: string)
    requires mark != "" && mark[|mark| - 1] == ' ' && TrimRight(line) == line && EndsWith(line, "*/")
    ensures |line| >= 2 && Clipped(mark + line) == TrimRight(mark + line[..|line| - 2])
  {
    hide TrimRight, EndsWith;
    LongEnough(line);
    TrimRightBehind(mark, line);
    EndsWithBehind(mark, line);
    ButTwo(mark, line);
  }

  lemma TrimRightBehind(mark: string, line: string)
    requires line != "" && TrimRight(line) == line
    ensures TrimRight(mark + line) == mark + line
  {
    TrimRightIs(line);
    TrimRightIs(mark + line);
    assert (mark + line)[|mark + line| - 1] == line[|line| - 1];
  }

  lemma ButTwo(a: string, b: string)
    requires |b| >= 2
    ensures (a + b)[..|a + b| - 2] == a + b[..|b| - 2]
  {
  }

  lemma LongEnough(line: string)
    ensures EndsWith(line, "*/") ==> |line| >= 2
  {
  }

  lemma EndsWithBehind(mark: string, line: string)
    requires mark != "" && mark[|mark| - 1] == ' ' && line != ""
    ensures EndsWith(mark + line, "*/") <==> EndsWith(line, "*/")
  {
    var s := mark + line;
    if |line| >= 2 {
      assert s[|s| - 2..] == line[|line| - 2..];
    } else {
      assert s[|s| - 2..][0] == ' ';
    }
  }

  /** The markers that open a line, those of line comments and those of block comments. */
  predicate IsLineMarker(m: string) { m in ["///<", "//!<", "///", "//!", "//"] }

  predicate IsBlockMarker(m: string) { m in ["/**<", "/*!<", "/**", "/*!", "/*"] }

  predicate IsMarker(m: string) { IsLineMarker(m) || IsBlockMarker(m) }

  /** No marker holds a blank or looks like the end of a comment. */
  lemma MarkerChars(m: string)
    requires IsMarker(m)
    ensures |m| >= 2 && m[0] == '/' && (m[1] == '*' <==> IsBlockMarker(m))
    ensures !(m[|m| - 2] == '*' && m[|m| - 1] == '/') && !IsEnd(m[|m| - 1]) && '\n' !in m
  {
  }

  /** The end mark, character by character. */
  lemma EndsWithEnd(s: string)
    ensures EndsWith(s, "*/") <==> |s| >= 2 && s[|s| - 2] == '*' && s[|s| - 1] == '/'
  {
    if |s| >= 2 {
      assert s[|s| - 2..] == [s[|s| - 2], s[|s| - 1]];
    }
  }

  /** What would make a marker a longer one. */
  predicate Lengthens(c: char) { c == '/' || c == '!' || c == '*' || c == '<' }

  lemma MarkerOf(m: string, rest: string)
    requires IsMarker(m) && (rest == "" || !Lengthens(rest[0]))
    ensures MarkerLength(m + rest) == |m|
  {
    var s := m + rest;
    assert forall i | 0 <= i < |m| :: s[i] == m[i];
    if rest != "" {
      assert s[|m|] == rest[0];
    }
  }

  lemma LeadBehind(indent: string, s: string)
    requires Fence.Blank(indent) && s != "" && !Fence.IsWs(s[0])
    ensures Fence.Lead(indent + s) == |indent| && (indent + s)[|indent|..] == s
  {
    assert (indent + s)[|indent|] == s[0];
    assert forall r | 0 <= r < |indent| :: Fence.IsWs((indent + s)[r]);
  }

  lemma SkipOneOf(line: string)
    ensures SkipOne(" " + line) == line
  {
  }

  /** Behind a marker stands the content, a blank apart or not. */
  lemma OpeningContent(indent: string, m: string, rest: string, block: bool)
    requires Fence.Blank(indent) && IsMarker(m) && (rest == "" || !Lengthens(rest[0]))
    ensures Content(indent + m + rest, block) == SkipOne(rest)
  {
    var s := m + rest;
    MarkerOf(m, rest);
    MarkerChars(m);
    hide MarkerLength, IsMarker, Lengthens;
    assert indent + m + rest == indent + s && s[0] == m[0] == '/' && s[|m|..] == rest;
    LeadBehind(indent, s);
  }

  /** Behind the star of a block comment, a blank apart. */
  lemma StarContent(indent: string, rest: string)
    requires Fence.Blank(indent) && (rest == "" || rest[0] == ' ')
    ensures Content(indent + "*" + rest, true) == SkipOne(rest)
  {
    var s := "*" + rest;
    assert indent + "*" + rest == indent + s && s[0] == '*' && s[1..] == rest;
    LeadBehind(indent, s);
    assert MarkerLength(s) == 0 && IsContinuation(s);
  }

  lemma {:induction false} TrimRightKeeps(s: string, k: nat)
    requires k < |s| && !IsEnd(s[k])
    ensures |TrimRight(s)| > k
  {
    if IsEnd(s[|s| - 1]) {
      TrimRightKeeps(s[..|s| - 1], k);
    }
  }

  /** The content of a line behind a mark is the line. */
  ghost predicate Leaves(mark: string, block: bool) { forall line :: Content(mark + line, block) == line }

  /** What a mark is without its blank: it ends in neither a blank nor the end of a comment, and has no content. */
  predicate IsBare(bare: string, block: bool) {
    bare != "" && !IsEnd(bare[|bare| - 1]) && !EndsWith(bare, "*/") && Content(bare, block) == ""
  }

  ghost predicate IsMark(mark: string, block: bool) {
    |mark| >= 2 && mark[|mark| - 1] == ' ' && IsBare(mark[..|mark| - 1], block) && Leaves(mark, block)
  }

  /** A marker in front of a line: behind any indentation, and with the blank that belongs to it. */
  predicate IsLineMark(mark: string) { mark != "" && mark[|mark| - 1] == ' ' && IsLineMarker(Bare(mark)) }

  predicate IsBlockMark(mark: string) { mark != "" && mark[|mark| - 1] == ' ' && IsBlockMarker(Bare(mark)) }

  predicate IsStar(mark: string) { mark != "" && mark[|mark| - 1] == ' ' && Bare(mark) == "*" }

  /** A mark without its indentation and its blank. */
  function Bare(mark: string): string
    requires mark != ""
  {
    if Fence.Lead(mark) < |mark| then mark[Fence.Lead(mark)..|mark| - 1] else ""
  }

  /** Indentation, marker, blank. */
  lemma Parts(mark: string)
    requires mark != "" && mark[|mark| - 1] == ' ' && Bare(mark) != ""
    ensures Fence.Lead(mark) < |mark| && Fence.Blank(mark[..Fence.Lead(mark)])
    ensures mark == mark[..Fence.Lead(mark)] + Bare(mark) + " "
  {
    Indented(mark);
    hide Fence.Lead, Fence.Blank;
    var n, bare := Fence.Lead(mark), mark[..|mark| - 1];
    Sequences.ButLast(mark);
    assert bare[..n] == mark[..n];
    Sequences.Split(bare, n);
  }

  lemma Indented(s: string)
    ensures Fence.Blank(s[..Fence.Lead(s)])
  {
  }

  lemma MarksAreMarks(mark: string, block: bool)
    requires IsLineMark(mark) || IsBlockMark(mark)
    ensures IsMark(mark, block)
  {
    MarkerChars(Bare(mark));
    Parts(mark);
    hide *;
    MarkerIsMark(mark[..Fence.Lead(mark)], Bare(mark), block);
  }

  lemma MarkerIsMark(indent: string, m: string, block: bool)
    requires Fence.Blank(indent) && IsMarker(m)
    ensures IsMark(indent + m + " ", block)
  {
    MarkerChars(m);
    hide Content, IsMarker, Fence.Blank, IsEnd, EndsWith, IsMark;
    forall line ensures Content(indent + m + " " + line, block) == line {
      Sequences.Assoc(indent + m, " ", line);
      OpeningContent(indent, m, " " + line, block);
      SkipOneOf(line);
    }
    Sequences.AddNothing(indent + m);
    OpeningContent(indent, m, "", block);
    MarkOf(indent + m, m, block);
  }

  lemma MarkOf(bare: string, m: string, block: bool)
    requires |m| >= 2 && !(m[|m| - 2] == '*' && m[|m| - 1] == '/') && !IsEnd(m[|m| - 1])
    requires |bare| >= |m| && bare[|bare| - |m|..] == m
    requires (forall line :: Content(bare + " " + line, block) == line) && Content(bare, block) == ""
    ensures IsMark(bare + " ", block)
  {
    hide Content, IsEnd;
    assert (bare + " ")[..|bare|] == bare;
    assert bare[|bare| - 1] == m[|m| - 1] && bare[|bare| - 2] == m[|m| - 2];
    EndsWithEnd(bare);
  }

  lemma StarsAreMarks(mark: string)
    requires IsStar(mark)
    ensures IsMark(mark, true)
  {
    hide Content;
    Parts(mark);
    var indent, bare := mark[..Fence.Lead(mark)], mark[..|mark| - 1];
    assert bare == indent + "*" && bare[|bare| - 1] == '*';
    EndsWithEnd(bare);
    forall line ensures Content(mark + line, true) == line {
      assert mark + line == indent + "*" + (" " + line);
      StarContent(indent, " " + line);
      SkipOneOf(line);
    }
    assert bare == indent + "*" + "";
    StarContent(indent, "");
  }

  /** Of the mark and what follows it, at most the blank is trimmed away with the rest. */
  lemma TrimmedBehind(mark: string, rest: string, block: bool)
    requires IsMark(mark, block)
    ensures |Content(TrimRight(mark + rest), block)| <= |rest|
  {
    hide Content, TrimRight, EndsWith;
    var s, y := mark + rest, TrimRight(mark + rest);
    TrimRightIs(s);
    TrimRightKeeps(s, |mark| - 2);
    if |y| >= |mark| {
      var tail := y[|mark|..];
      assert y == mark + tail;
      assert Content(mark + tail, block) == tail;
    } else {
      assert y == mark[..|mark| - 1];
    }
  }

  /** A marked line is stripped to what it was exactly when nothing at its end is taken for something else. */
  lemma MarkedLineExactlyWhen(mark: string, line: string, block: bool)
    requires IsMark(mark, block)
    ensures StripLine(mark + line, block) == line <==> EndsPlainly(line)
  {
    TrimRightIs(line);
    TrimRightIs(Content(Clipped(mark + line), block));
    hide Content;
    if TrimRight(line) == line {
      if EndsWith(line, "*/") {
        EndBehind(mark, line);
        TrimmedBehind(mark, line[..|line| - 2], block);
      } else if line != "" {
        PlainBehind(mark, line);
      } else {
        BareMark(mark, block);
      }
    }
  }

  lemma BareMark(mark: string, block: bool)
    requires IsMark(mark, block)
    ensures StripLine(mark + "", block) == "" && TrimRight(mark) == mark[..|mark| - 1]
  {
    var bare := mark[..|mark| - 1];
    Sequences.ButLast(mark);
    Sequences.AddNothing(mark);
    hide Content, EndsWith, IsEnd, Leaves, TrimRight, StripLine;
    TrimsBlank(bare, mark);
    StripsToNothing(mark, bare, block);
  }

  lemma StripsToNothing(mark: string, bare: string, block: bool)
    requires TrimRight(mark) == bare && !EndsWith(bare, "*/") && Content(bare, block) == ""
    ensures StripLine(mark, block) == ""
  {
    hide Content, EndsWith;
  }

  lemma TrimsBlank(bare: string, mark: string)
    requires mark == bare + " " && bare != "" && !IsEnd(bare[|bare| - 1])
    ensures TrimRight(mark) == bare == TrimRight(bare)
  {
    assert mark[..|mark| - 1] == bare;
  }

  lemma BareLine(bare: string, mark: string, block: bool)
    requires mark == bare + " " && IsMark(mark, block)
    ensures StripLine(bare, block) == ""
  {
    hide Content;
    assert mark[..|mark| - 1] == bare;
    assert bare[|bare| - 1] == mark[|mark| - 2];
    TrimRightIs(bare);
    StripsToNothing(bare, bare, block);
  }

  // ---- whole comments ----

  function JoinLines(lines: seq<string>): string
    requires lines != []
  {
    if |lines| == 1 then lines[0] else JoinLines(lines[..|lines| - 1]) + "\n" + lines[|lines| - 1]
  }

  function MarkAll(marks: seq<string>, lines: seq<string>): seq<string>
    requires |marks| == |lines|
  {
    seq(|lines|, i requires 0 <= i < |lines| => marks[i] + lines[i])
  }

  /** A block comment that opens with a text of its own, ends on a line of its own, and has these lines between. */
  function BlockComment(opener: string, first: string, marks: seq<string>, lines: seq<string>): string
    requires |marks| == |lines|
  {
    JoinLines([opener + first] + MarkAll(marks, lines) + [" */"])
  }

  lemma {:induction false} RawLinesAdd(a: string, b: string)
    requires '\n' !in b
    ensures RawLines(a + "\n" + b) == RawLines(a) + [b]
  {
    var s := a + "\n" + b;
    if b == "" {
      assert s[..|s| - 1] == a;
    } else {
      var init := b[..|b| - 1];
      assert s[..|s| - 1] == a + "\n" + init;
      RawLinesAdd(a, init);
      assert b == init + [b[|b| - 1]];
    }
  }

  lemma {:induction false} RawLinesOfOne(s: string)
    requires '\n' !in s
    ensures RawLines(s) == [s]
  {
    if s != "" {
      RawLinesOfOne(s[..|s| - 1]);
      Sequences.ButLast(s);
    }
  }

  lemma PrefixOf(a: string, b: string, c: string, d: string)
    requires a <= b
    ensures a <= b + c + d
  {
  }

  ghost predicate Unbroken(lines: seq<string>) { forall i | 0 <= i < |lines| :: '\n' !in lines[i] }

  lemma {:induction false} RawLinesOfJoined(lines: seq<string>)
    requires lines != [] && Unbroken(lines)
    ensures RawLines(JoinLines(lines)) == lines && lines[0] <= JoinLines(lines)
  {
    if |lines| == 1 {
      RawLinesOfOne(lines[0]);
    } else {
      var init, last := lines[..|lines| - 1], lines[|lines| - 1];
      assert Unbroken(init) && '\n' !in last && JoinLines(lines) == JoinLines(init) + "\n" + last &&
          init[0] == lines[0];
      hide *;
      RawLinesOfJoined(init);
      RawLinesAdd(JoinLines(init), last);
      Sequences.ButLast(lines);
      PrefixOf(init[0], JoinLines(init), "\n", last);
    }
  }

  lemma MarkedLines(marks: seq<string>, lines: seq<string>, block: bool)
    requires |marks| == |lines| && forall m <- marks :: IsMark(m, block)
    ensures StripAll(MarkAll(marks, lines), block) == lines <==> AllPlain(lines)
  {
    hide StripLine, EndsPlainly, IsMark;
    forall i | 0 <= i < |lines| ensures StripLine(marks[i] + lines[i], block) == lines[i] <==> EndsPlainly(lines[i]) {
      MarkedLineExactlyWhen(marks[i], lines[i], block);
    }
    if StripAll(MarkAll(marks, lines), block) == lines {
      forall l <- lines ensures EndsPlainly(l) {
        var i :| 0 <= i < |lines| && lines[i] == l;
        assert StripAll(MarkAll(marks, lines), block)[i] == lines[i];
      }
    }
  }

  predicate AllPlain(lines: seq<string>) { forall l <- lines :: EndsPlainly(l) }

  /** Lines written as line comments, each behind any of their markers, come back exactly when each ends plainly. */
  lemma LineCommentRoundTrip(marks: seq<string>, lines: seq<string>)
    requires lines != [] && Unbroken(lines) && |marks| == |lines| && forall m <- marks :: IsLineMark(m)
    ensures Stripped(JoinLines(MarkAll(marks, lines))) == lines <==> AllPlain(lines)
  {
    var marked, raw := MarkAll(marks, lines), JoinLines(MarkAll(marks, lines));
    forall i | 0 <= i < |marked| ensures '\n' !in marked[i] {
      OneLine(marks[i]);
    }
    forall m <- marks ensures IsMark(m, IsBlockStyle(raw)) {
      MarksAreMarks(m, IsBlockStyle(raw));
    }
    hide StripAll, IsMark, IsLineMark, AllPlain, RawLines, JoinLines, MarkAll;
    RawLinesOfJoined(marked);
    MarkedLines(marks, lines, IsBlockStyle(raw));
  }

  /** A mark holds no line end. */
  lemma OneLine(mark: string)
    requires IsLineMark(mark) || IsBlockMark(mark) || IsStar(mark)
    ensures '\n' !in mark
  {
    var n, m := Fence.Lead(mark), Bare(mark);
    if !IsStar(mark) {
      MarkerChars(m);
    }
    hide IsLineMarker, IsBlockMarker;
    assert mark == mark[..n] + m + " ";
  }

  /** Text on the opening line, and lines behind stars, come back in front of one empty line under the same
      condition.  The opening line may also hold its marker alone. */
  lemma BlockCommentRoundTrip(opener: string, first: string, marks: seq<string>, lines: seq<string>)
    requires Unbroken([first] + lines) && |marks| == |lines| && forall m <- marks :: IsStar(m)
    requires IsBlockMark(opener) || (first == "" && IsBlockMark(opener + " "))
    ensures Stripped(BlockComment(opener, first, marks, lines)) == [first] + lines + [""] <==>
            AllPlain([first] + lines)
  {
    var marked, raw := MarkAll(marks, lines), BlockComment(opener, first, marks, lines);
    var all := [opener + first] + marked + [" */"];
    FramedUnbroken(opener, first, marks, lines);
    forall m <- marks ensures IsMark(m, true) {
      StarsAreMarks(m);
    }
    hide StripAll, IsMark, IsStar, IsBlockMark, AllPlain, RawLines, JoinLines, IsBlockStyle, MarkAll, Unbroken;
    RawLinesOfJoined(all);
    OpensBlockStyle(opener, first, raw);
    MarkedLines(marks, lines, true);
    OpeningLine(opener, first);
    Frame(opener + first, marked);
    FramedPlain(first, lines);
    hide *;
    SameInFrame(StripLine(opener + first, true), StripAll(marked, true), first, lines);
  }

  lemma FramedPlain(first: string, lines: seq<string>)
    ensures AllPlain([first] + lines) <==> EndsPlainly(first) && AllPlain(lines)
  {
    hide EndsPlainly;
    assert forall l :: l in [first] + lines <==> l == first || l in lines;
  }

  lemma FramedUnbroken(opener: string, first: string, marks: seq<string>, lines: seq<string>)
    requires Unbroken([first] + lines) && |marks| == |lines| && forall m <- marks :: IsStar(m)
    requires IsBlockMark(opener) || IsBlockMark(opener + " ")
    ensures Unbroken([opener + first] + MarkAll(marks, lines) + [" */"])
  {
    var all, marked := [first] + lines, MarkAll(marks, lines);
    OneLine(if IsBlockMark(opener) then opener else opener + " ");
    assert all[0] == first && '\n' !in opener + first;
    forall i | 0 <= i < |lines| ensures '\n' !in marked[i] {
      assert all[i + 1] == lines[i];
      OneLine(marks[i]);
    }
    hide IsBlockMark, IsStar;
    UnbrokenFrame(opener + first, marked);
  }

  lemma UnbrokenFrame(opening: string, marked: seq<string>)
    requires '\n' !in opening && Unbroken(marked)
    ensures Unbroken([opening] + marked + [" */"])
  {
  }

  lemma SameInFrame(x: string, a: seq<string>, y: string, b: seq<string>)
    ensures [x] + a + [""] == [y] + b + [""] <==> x == y && a == b
  {
    var s, t := [x] + a + [""], [y] + b + [""];
    assert s[0] == x && t[0] == y && s[1..|s| - 1] == a && t[1..|t| - 1] == b;
  }

  lemma OpensBlockStyle(opener: string, first: string, raw: string)
    requires opener + first <= raw
    requires IsBlockMark(opener) || IsBlockMark(opener + " ")
    ensures IsBlockStyle(raw)
  {
    var mark := if IsBlockMark(opener) then opener else opener + " ";
    MarkerChars(Bare(mark));
    Parts(mark);
    hide IsBlockMark, Bare, IsBlockStyle;
    StarBehind(mark[..Fence.Lead(mark)], Bare(mark), raw);
  }

  lemma StarBehind(indent: string, m: string, raw: string)
    requires Fence.Blank(indent) && |m| >= 2 && m[0] == '/' && m[1] == '*' && indent + m <= raw
    ensures IsBlockStyle(raw)
  {
    var rest := raw[|indent|..];
    assert raw == indent + rest && rest[0] == raw[|indent|] == m[0] && rest[1] == raw[|indent| + 1] == m[1];
    BlockStyleExactlyWhen(indent, rest);
  }

  /** Only what the first text of a comment opens with decides its style. */
  lemma {:induction false} BlockStyleExactlyWhen(space: string, raw: string)
    requires forall i | 0 <= i < |space| :: space[i] in {' ', '\t', '\r', '\n'}
    requires raw == "" || raw[0] !in {' ', '\t', '\r', '\n'}
    ensures IsBlockStyle(space + raw) <==> |raw| >= 2 && raw[0] == '/' && raw[1] == '*'
  {
    if space == "" {
      assert space + raw == raw == raw[0..];
    } else {
      BlockStyleExactlyWhen(space[1..], raw);
      assert (space + raw)[1..] == space[1..] + raw;
    }
  }

  lemma OpeningLine(opener: string, first: string)
    requires IsBlockMark(opener) || (first == "" && IsBlockMark(opener + " "))
    ensures StripLine(opener + first, true) == first <==> EndsPlainly(first)
  {
    hide StripLine, EndsPlainly, IsMark, IsBlockMark;
    if IsBlockMark(opener) {
      MarksAreMarks(opener, true);
      MarkedLineExactlyWhen(opener, first, true);
    } else {
      MarksAreMarks(opener + " ", true);
      BareLine(opener, opener + " ", true);
      Sequences.AddNothing(opener);
      NothingIsPlain();
    }
  }

  lemma NothingIsPlain()
    ensures EndsPlainly("")
  {
  }

  /** The last line of a block comment holds nothing. */
  lemma Frame(opening: string, marked: seq<string>)
    ensures StripAll([opening] + marked + [" */"], true) == [StripLine(opening, true)] + StripAll(marked, true) + [""]
  {
    LastLine();
    hide StripLine;
  }

  lemma LastLine()
    ensures StripLine(" */", true) == ""
  {
    var s := " */";
    assert TrimRight(s) == s && s[1..] == "*/" && s[..1] == " ";
    assert TrimRight(" ") == "" by { assert " "[..0] == ""; }
    assert Clipped(s) == "";
  }

  /** A comment that opens and ends on one line holds the text between, but for the blanks behind it. */
  lemma OneLineComment(mark: string, text: string)
    requires IsBlockMark(mark) && '\n' !in text
    ensures Stripped(mark + text + " */") == [TrimRight(text)]
  {
    var raw := mark + text + " */";
    OneLine(mark);
    RawLinesOfOne(raw);
    OpensBlockStyle(mark, text, raw);
    hide IsBlockStyle, RawLines, StripLine;
    MarksAreMarks(mark, true);
    ClosedLine(mark, text, true);
    assert StripAll([raw], true) == [StripLine(raw, true)];
  }

  lemma ClosedLine(mark: string, text: string, block: bool)
    requires IsMark(mark, block)
    ensures StripLine(mark + text + " */", block) == TrimRight(text)
  {
    var kept := TrimRight(text);
    assert Content(mark + kept, block) == kept && Content(mark[..|mark| - 1], block) == "";
    TrimRightIs(text);
    TrimRightIs(kept);
    hide Content, Clipped, EndsWith, IsEnd, TrimRight, IsMark;
    ClippedClosed(mark + text);
    TrimBehind(mark, text);
    BareMark(mark, block);
  }

  lemma ClippedClosed(s: string)
    ensures Clipped(s + " */") == TrimRight(s)
  {
    var line := s + " */";
    EndsWithEnd(line);
    assert line[..|line| - 2] == s + " ";
    TrimRightIs(line);
    hide EndsWith;
    TrimAgain(s);
  }

  lemma {:induction false} TrimBehind(mark: string, text: string)
    ensures TrimRight(mark + text) == if TrimRight(text) == "" then TrimRight(mark) else mark + TrimRight(text)
  {
    var s := mark + text;
    if text == "" {
      assert s == mark;
    } else if IsEnd(text[|text| - 1]) {
      assert s[..|s| - 1] == mark + text[..|text| - 1];
      TrimBehind(mark, text[..|text| - 1]);
    }
  }

  lemma TrimAgain(s: string)
    ensures TrimRight(s + " ") == TrimRight(s)
  {
    assert (s + " ")[..|s|] == s;
  }

  // ---- lines with no blank behind the marker, and with no marker ----

  /** A marker eats at most one blank: a text right behind it comes back whole. */
  lemma GluedLine(indent: string, m: string, line: string, block: bool)
    requires Fence.Blank(indent) && IsMarker(m) && line != "" && line[0] != ' ' && !Lengthens(line[0])
    ensures StripLine(indent + m + line, block) == line <==> EndsPlainly(line)
  {
    var p := indent + m;
    MarkerChars(m);
    hide IsMarker;
    assert p[|p| - 1] == m[|m| - 1];
    TrimRightIs(p);
    TrimRightIs(line);
    TrimRightIs(Content(Clipped(p + line), block));
    hide Content, TrimRight, IsEnd, EndsWith;
    if TrimRight(line) == line {
      TrimBehind(p, line);
      EndsWithGlued(p, line);
      hide Lengthens;
      OpeningContent(indent, m, line, block);
      if EndsWith(line, "*/") {
        GluedEnd(indent, m, line, block);
      }
    }
  }

  lemma GluedEnd(indent: string, m: string, line: string, block: bool)
    requires Fence.Blank(indent) && IsMarker(m) && line != "" && line[0] != ' ' && !Lengthens(line[0])
    requires TrimRight(line) == line && EndsWith(line, "*/")
    requires TrimRight(indent + m) == indent + m
    ensures |StripLine(indent + m + line, block)| < |line|
  {
    var p, rest := indent + m, line[..|line| - 2];
    var kept := TrimRight(rest);
    ClippedGlued(p, line);
    TrimRightIs(rest);
    assert kept != "" ==> kept[0] == line[0];
    TrimRightIs(Content(p + kept, block));
    hide Clipped, TrimRight, EndsWith, IsMarker, Content;
    OpeningContent(indent, m, kept, block);
  }

  lemma ClippedGlued(p: string, line: string)
    requires line != "" && line[0] != '/' && TrimRight(line) == line && EndsWith(line, "*/") && TrimRight(p) == p
    ensures |line| >= 2 && Clipped(p + line) == p + TrimRight(line[..|line| - 2])
  {
    LongEnough(line);
    hide TrimRight, EndsWith;
    TrimBehind(p, line);
    EndsWithGlued(p, line);
    ButTwo(p, line);
    TrimBehind(p, line[..|line| - 2]);
    Sequences.AddNothing(p);
  }

  lemma EndsWithGlued(p: string, line: string)
    requires line != "" && line[0] != '/'
    ensures EndsWith(p + line, "*/") <==> EndsWith(line, "*/")
  {
    EndsWithEnd(p + line);
    EndsWithEnd(line);
    hide EndsWith;
    assert forall i | 0 <= i < |line| :: (p + line)[|p| + i] == line[i];
  }

  /** What a line without a marker is not: an opening marker, or in a block comment a star of its own. */
  predicate IsMarked(line: string, block: bool) {
    var text := line[Fence.Lead(line)..];
    "//" <= text || "/*" <= text || (block && (text == "*" || "* " <= text || "*\t" <= text))
  }

  /** Bullets, emphasis and indentation are content: a line is kept as it is exactly when it ends plainly and carries
      no marker. */
  lemma UnmarkedLineExactlyWhen(line: string, block: bool)
    ensures StripLine(line, block) == line <==> EndsPlainly(line) && !IsMarked(line, block)
  {
    if EndsPlainly(line) {
      PlainLine(line, block);
    } else {
      TrimRightIs(Content(Clipped(line), block));
      if TrimRight(line) == line {
        ClippedIsShort(line);
        ContentIsShort(Clipped(line), block);
      } else {
        TrimRightIs(line);
      }
      hide Clipped, Content, TrimRight, EndsWith;
    }
  }

  lemma ClippedIsShort(line: string)
    requires TrimRight(line) == line && EndsWith(line, "*/")
    ensures |Clipped(line)| < |line|
  {
    TrimRightIs(line[..|line| - 2]);
  }

  lemma PlainLine(line: string, block: bool)
    requires EndsPlainly(line)
    ensures StripLine(line, block) == line <==> !IsMarked(line, block)
  {
    var text := line[Fence.Lead(line)..];
    TrimRightIs(line);
    assert line != "" ==> !Fence.IsWs(line[|line| - 1]);
    MarkedExactlyWhen(text);
    TrimRightIs(Content(line, block));
    hide MarkerLength, IsContinuation, TrimRight, EndsWith;
  }

  lemma ContentIsShort(s: string, block: bool)
    ensures |Content(s, block)| <= |s|
  {
    hide MarkerLength;
  }

  lemma MarkedExactlyWhen(text: string)
    ensures MarkerLength(text) > 0 <==> "//" <= text || "/*" <= text
    ensures IsContinuation(text) <==> text == "*" || "* " <= text || "*\t" <= text
  {
  }
}
