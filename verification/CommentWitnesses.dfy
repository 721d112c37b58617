/**
 The shortest comments on which the raw scanner, its rows or its fences fall short of what they are
 for, each worked out line by line.
 */
module CommentWitnesses {
  import opened Wrappers
  import opened Words
  import opened CommentRows
  import opened CopyCommands
  import opened RawScan
  import opened CommentSections
  import opened ParsedComment
  import opened LeadOrder
  import Fence
  import Sequences

  // ---- comments of one command ----

  predicate Lowered(name: string) { forall i | 0 <= i < |name| :: !('A' <= name[i] <= 'Z') && !Fence.IsWs(name[i]) }

  lemma LoweredIsLower(name: string)
    requires Lowered(name)
    ensures Lower(name) == name
  {
  }

  lemma {:induction false} WordRuns(line: string, i: nat, e: nat)
    requires i <= e < |line| && (forall k | i <= k < e :: !Fence.IsWs(line[k])) && Fence.IsWs(line[e])
    ensures WordEnd(line, i) == e
    decreases e - i
  {
    if i < e {
      WordRuns(line, i + 1, e);
    }
  }

  /** A command word in front of a blank is read as it stands. */
  lemma MarkedLine(name: string, rest: string)
    requires Lowered(name)
    ensures Marked("\\" + name + " " + rest) == Some((name, rest))
  {
    var line := "\\" + name + " " + rest;
    assert line[0] == '\\' && line[|name| + 1] == ' ';
    assert forall k | 1 <= k < |name| + 1 :: line[k] == name[k - 1];
    assert Fence.Lead(line) == 0;
    WordRuns(line, 1, |name| + 1);
    assert line[1..|name| + 1] == name && line[|name| + 2..] == rest;
    LoweredIsLower(name);
  }

  lemma CommandLine(line: string, name: string, rest: string)
    requires line == "\\" + name + " " + rest
    requires Lowered(name) && !IsInline(name) && (name == "" || (name[|name| - 1] != ']' && name[|name| - 1] != '}'))
    ensures Parsed(line) == Some((Word(name, "", ""), rest))
  {
    MarkedLine(name, rest);
    hide Marked, IsInline;
  }

  lemma ParagraphTaken(name: string)
    requires TakesParagraph(name)
    ensures !TakesNothing(name) && !TakesLine(name) && !TakesSingleName(name)
  {
  }

  lemma NothingFlushes()
    ensures Flush(START) == START
  {
    NothingNormalized();
    assert Normalized("") == "";
    NoNameNoItem();
    hide Normalized, IsListItem;
  }

  lemma Alone(line: string)
    ensures ScanLines(START, [line]) == ScanText(START, line)
    ensures CommandsIn([line]) == CommandsOf(line) && SectionsIn([line]) == NO_SECTIONS.Across(line)
  {
    assert [line][..0] == [];
    hide ScanText, CommandsOf;
    assert ScanLines(START, []) == START && OpenAfter([]) == "" && CommandsIn([]) == {} &&
        SectionsIn([]) == NO_SECTIONS;
  }

  lemma NoLead(m: Comment)
    ensures ApplyLead(m, [], false) == m
  {
    assert m.detail + [] == m.detail;
  }

  /** A comment of one line that starts with a paragraph command is that command's argument, routed. */
  lemma OneCommand(line: string, name: string, rest: string)
    requires Parsed(line) == Some((Word(name, "", ""), rest))
    requires name != "" && TakesParagraph(name) && !IsListItem(name) && !OpensBlock(name) && !IsBrief(name)
    ensures Parse([line]) == Routed(NOTHING, name, Normalized(rest), "") && name in CommandsIn([line])
    ensures SectionsIn([line]).All() == [Section(name, "", rest)]
  {
    hide Parsed, TakesParagraph, IsListItem, OpensBlock, IsBrief, Normalized, ApplyLead, Routed;
    NoNameNoItem();
    NothingFlushes();
    ParagraphTaken(name);
    hide TakesNothing, TakesLine, TakesSingleName;
    var open := START.(cmd := name, buf := rest);
    Alone(line);
    assert SectionsIn([line]).All() == [] + [] + [Section(name, "", rest)];
    assert ScanText(START, line) == Command(START, Word(name, "", ""), rest) == open;
    var s := Flush(open);
    assert s == START.(m := Routed(NOTHING, name, Normalized(rest), ""));
    NoLead(s.m);
  }

  /** Two words with one space between them are as they should be. */
  lemma TwoWords(a: string, b: string)
    requires IsWord(a) && IsWord(b)
    ensures Normalized(a + " " + b) == a + " " + b && SplitFirst(a + " " + b) == (a, b)
  {
    hide WordsOf, TokenLength;
    var s := a + " " + b;
    assert Joined([a, b]) == s by {
      assert [a, b][..1] == [a];
    }
    WordsOfJoined([a, b]);
    FirstEnds(a, b);
    assert s[|a|..] == " " + b && s[..|a|] == a;
    assert SpaceLength(" " + b) == 1;
    assert s[|a| + 1..] == b;
  }

  lemma FirstEnds(a: string, b: string)
    requires IsWord(a) && IsWord(b)
    ensures TokenLength(a + " " + b) == |a|
  {
    var s := a + " " + b;
    assert forall i | 0 <= i < |a| :: s[i] == a[i];
    assert s[|a|] == ' ';
  }

  lemma OneWord(a: string)
    requires IsWord(a)
    ensures Normalized(a) == a
  {
    WordsOfWord(a);
  }

  lemma NWord(a: string, w: string)
    requires IsWord(a)
    ensures N(a, w) == if a == w then 1 else 0
  {
    WordsOfWord(a);
    hide WordsOf;
    assert [a][..0] == [] && Count([], w) == 0;
  }

  // ---- copy commands ----

  const COPYDOC := "\\copydoc A::f(int) const"

  lemma CopydocIsRouted(text: string)
    requires CopyTarget(text) == "A::f"
    ensures Routed(NOTHING, "copydoc", text, "") == NOTHING.(see := ["A::f"])
  {
    hide CopyTarget, SplitFirst;
    assert TargetOf("copydoc") == ToCopies;
    hide TargetOf;
    assert NOTHING.see + ["A::f"] == ["A::f"];
  }

  lemma CopydocIsParsed()
    ensures Parse([COPYDOC]) == NOTHING.(see := ["A::f"])
  {
    CopydocIsPlain();
    CopydocText();
    DeclarationIsCut();
    hide *;
    CommandLine(COPYDOC, "copydoc", "A::f(int) const");
    OneCommand(COPYDOC, "copydoc", "A::f(int) const");
    CopydocIsRouted("A::f(int) const");
  }

  lemma CopydocIsPlain()
    ensures TakesParagraph("copydoc") && !IsListItem("copydoc") && !OpensBlock("copydoc") && !IsBrief("copydoc")
    ensures Lowered("copydoc") && !IsInline("copydoc")
    ensures COPYDOC == "\\" + "copydoc" + " " + "A::f(int) const"
  {
  }

  lemma CopydocText()
    ensures Normalized("A::f(int) const") == "A::f(int) const"
  {
    var a, b := "A::f(int)", "const";
    assert IsWord(a) && IsWord(b) && a + " " + b == "A::f(int) const";
    hide *;
    TwoWords(a, b);
  }

  lemma OnlySee(target: string, w: string)
    ensures NComment(NOTHING.(see := [target]), w) == N(target, w)
  {
    NNothing(w);
    NAllAdd([], target, w);
    assert [] + [target] == [target];
    hide N;
  }

  /** Of a whole declaration behind `\copydoc` only the name is stored: the qualifier is in no field. */
  lemma CopyTailIsDropped()
    ensures Parse([COPYDOC]) == NOTHING.(see := ["A::f"])
    ensures NComment(Parse([COPYDOC]), "const") == 0 && N(COPYDOC, "const") == 1
  {
    CopydocIsParsed();
    CopydocWords();
    hide *;
    OnlySee("A::f", "const");
    NSpaced("\\copydoc" + " " + "A::f(int)", "const", "const");
    NSpaced("\\copydoc", "A::f(int)", "const");
    NWord("\\copydoc", "const");
    NWord("A::f(int)", "const");
    NWord("const", "const");
    NWord("A::f", "const");
  }

  lemma CopydocWords()
    ensures IsWord("\\copydoc") && IsWord("A::f(int)") && IsWord("const") && IsWord("A::f")
    ensures COPYDOC == ("\\copydoc" + " " + "A::f(int)") + " " + "const"
    ensures "\\copydoc" != "const" && "A::f(int)" != "const" && "A::f" != "const"
  {
    assert "\\copydoc"[0] != "const"[0] && "A::f(int)"[0] != "const"[0] && "A::f"[0] != "const"[0];
  }

  // ---- rows ----

  const DETAIL := "\\detail x"
  const BRACKETS := "\\param [in] x"

  lemma DetailIsPlain()
    ensures TakesParagraph("detail") && !IsListItem("detail") && !OpensBlock("detail") && !IsBrief("detail")
    ensures Lowered("detail") && !IsInline("detail") && IsWord("x") && TargetOf("detail") == ToCustom
  {
  }

  lemma ParamIsPlain()
    ensures TakesParagraph("param") && !IsListItem("param") && !OpensBlock("param") && !IsBrief("param")
    ensures Lowered("param") && !IsInline("param") && IsWord("[in]") && IsWord("x") && TargetOf("param") == ToParams
  {
  }

  lemma DetailIsParsed()
    ensures Parse([DETAIL]) == NOTHING.(custom := map["detail" := ["x"]]) && "detail" in CommandsIn([DETAIL])
  {
    DetailIsPlain();
    assert DETAIL == "\\" + "detail" + " " + "x";
    hide *;
    CommandLine(DETAIL, "detail", "x");
    OneWord("x");
    OneCommand(DETAIL, "detail", "x");
    CustomIsRouted("detail", "x");
  }

  lemma CustomIsRouted(name: string, text: string)
    requires TargetOf(name) == ToCustom
    ensures Routed(NOTHING, name, text, "") == NOTHING.(custom := map[name := [text]])
  {
    hide TargetOf, SplitFirst, ListRow;
    assert [] + [text] == [text];
  }

  lemma BracketsAreParsed()
    ensures Parse([BRACKETS]) == NOTHING.(params := [Param("[in]", "x", "")])
    ensures SectionsIn([BRACKETS]).All() == [Section("param", "", "[in] x")]
    ensures ParamOf(Section("param", "", "[in] x")) == Param("[in]", "x", "")
  {
    ParamIsPlain();
    assert BRACKETS == "\\" + "param" + " " + "[in] x" && "[in]" + " " + "x" == "[in] x";
    hide *;
    CommandLine(BRACKETS, "param", "[in] x");
    TwoWords("[in]", "x");
    OneCommand(BRACKETS, "param", "[in] x");
    ParamIsRouted("[in] x", "[in]", "x");
    ParamIs(Section("param", "", "[in] x"), "[in]", "x");
  }

  lemma ParamIs(s: Section, a: string, b: string)
    requires Normalized(s.text) == a + " " + b && SplitFirst(a + " " + b) == (a, b)
    ensures ParamOf(s) == Param(a, b, s.direction)
  {
    hide Normalized, SplitFirst;
  }

  lemma ParamIsRouted(text: string, a: string, b: string)
    requires SplitFirst(text) == (a, b) && TargetOf("param") == ToParams
    ensures Routed(NOTHING, "param", text, "") == NOTHING.(params := [Param(a, b, "")])
  {
    hide TargetOf, SplitFirst;
    assert [] + [Param(a, b, "")] == [Param(a, b, "")];
  }

  /** A `\detail` command does not come back from its rows. */
  lemma DetailDoesNotSurvive()
    ensures var m := Stored(Parse([DETAIL]));
            Walks(["detail"], m.custom) && FromRows(ToRows(m, ["detail"])) != m
  {
    DetailIsParsed();
    hide *;
    StoredCustom(Parse([DETAIL]));
    OneKey();
    ParsedRoundTrip([DETAIL], ["detail"]);
  }

  lemma StoredCustom(c: Comment)
    ensures Stored(c).custom == c.custom && Stored(c).params == c.params
  {
    hide TextFields, BlockTexts;
  }

  lemma OneKey()
    ensures Walks(["detail"], map["detail" := ["x"]])
    ensures NOTHING.(custom := map["detail" := ["x"]]).custom == map["detail" := ["x"]]
  {
  }

  /** Nor does an undirected parameter whose name reads as a direction. */
  lemma BracketedNameDoesNotSurvive()
    ensures var m := Stored(Parse([BRACKETS]));
            m.params == [Param("[in]", "x", "")] && Walks([], m.custom) && FromRows(ToRows(m, [])) != m
  {
    BracketsAreParsed();
    BracketsRead();
    hide *;
    MisreadParam(BRACKETS, Section("param", "", "[in] x"), Param("[in]", "x", ""));
  }

  lemma BracketsRead()
    ensures NameReads(Param("[in]", "x", "")) && IsParam("param")
  {
  }

  lemma MisreadParam(line: string, s: Section, p: Param)
    requires Parse([line]) == NOTHING.(params := [p]) && SectionsIn([line]).All() == [s]
    requires IsParam(s.name) && ParamOf(s) == p && NameReads(p)
    ensures var m := Stored(Parse([line]));
            m.params == [p] && Walks([], m.custom) && FromRows(ToRows(m, [])) != m
  {
    hide Parse, SectionsIn, IsParam, ParamOf, NameReads, FromRows, ToRows, Stored, CommandsIn;
    StoredCustom(Parse([line]));
    ParsedRoundTrip([line], []);
    assert s in SectionsIn([line]).All();
  }

  // ---- order ----

  const ITEM := "\\li a"
  const BLOCK := "\\code"
  const END := "\\endcode"

  /** A code block that opens while a list is open comes before the list. */
  lemma BlockOvertakesItsList()
    ensures OpenAfter([ITEM, BLOCK, "x"]) == "code" && EndsBlock(END, "code") && ListPending([ITEM, BLOCK, "x"])
    ensures Parse([ITEM, BLOCK, "x", END]).detail == [Code("code", "", ["x"]), Bullets(["a"])]
  {
    ItemIsRead();
    BlockIsRead();
    EndIsRead();
    XIsPrinted();
    OneWordA();
    XEndsNothing();
    hide *;
    Overtaken(ITEM, BLOCK, "x", END);
  }

  lemma ItemIsRead()
    ensures Parsed(ITEM) == Some((Word("li", "", ""), "a"))
  {
    assert Lowered("li") && !IsInline("li") && ITEM == "\\" + "li" + " " + "a";
    hide *;
    CommandLine(ITEM, "li", "a");
  }

  lemma LoneWord(line: string, name: string)
    requires line == "\\" + name && Lowered(name)
    ensures Marked(line) == Some((name, ""))
  {
    assert line[0] == '\\' && forall k | 1 <= k < |line| :: line[k] == name[k - 1];
    assert Fence.Lead(line) == 0;
    NoBlankAhead(line, 1);
    assert line[1..|line|] == name;
    LoweredIsLower(name);
  }

  lemma BlockIsRead()
    ensures Parsed(BLOCK) == Some((Word("code", "", ""), ""))
  {
    assert Lowered("code") && !IsInline("code") && BLOCK == "\\" + "code";
    CodeIsAWord();
    hide IsInline, Lowered, SplitCommandWord, Marked;
    LoneWord(BLOCK, "code");
  }

  lemma CodeIsAWord()
    ensures SplitCommandWord("code") == Word("code", "", "")
  {
  }

  lemma EndIsRead()
    ensures EndsBlock(END, "code")
  {
    assert Lowered("endcode") && END == "\\" + "endcode" && "end" + "code" == "endcode";
    LoneWord(END, "endcode");
    hide Marked;
  }

  lemma XIsPrinted()
    ensures Fence.Block("code", "", ["x"]) != ""
  {
    OneLineBody("x");
    hide Fence.Kept, Fence.Ticks, Fence.IndentOf, Fence.DedentAll, Fence.Terminated;
    assert |Fence.Backticks(Fence.Ticks(Fence.Kept(["x"])))| >= 3;
  }

  lemma XEndsNothing()
    ensures !EndsBlock("x", "code")
  {
    assert Fence.Lead("x") == 0 && "x"[0] == 'x';
  }

  lemma OneWordA()
    ensures Normalized("a") == "a" && Normalized("") == ""
  {
    assert IsWord("a");
    OneWord("a");
    NothingNormalized();
  }

  lemma Overtaken(item: string, block: string, x: string, end: string)
    requires Parsed(item) == Some((Word("li", "", ""), "a")) && Parsed(block) == Some((Word("code", "", ""), ""))
    requires !EndsBlock(x, "code") && EndsBlock(end, "code") && Fence.Block("code", "", [x]) != ""
    requires Normalized("a") == "a" && Normalized("") == ""
    ensures OpenAfter([item, block, x]) == "code" && ListPending([item, block, x])
    ensures Parse([item, block, x, end]).detail == [Code("code", "", [x]), Bullets(["a"])]
  {
    ItemStep(item);
    BlockStep(block);
    BodyStep(x);
    ListFollows(x);
    EndStep(x, end);
    hide *;
    FourLines(item, block, x, end);
    ListIsPending([item, block, x], x);
    ParseIsFinish([item, block, x, end]);
  }

  lemma FourLines(a: string, b: string, c: string, d: string)
    ensures ScanLines(START, [a, b, c]) == ScanLine(ScanLine(ScanText(START, a), b), c)
    ensures ScanLines(START, [a, b, c, d]) == ScanLine(ScanLines(START, [a, b, c]), d)
  {
    Alone(a);
    assert [a] + [b] == [a, b] && [a, b] + [c] == [a, b, c] && [a, b, c] + [d] == [a, b, c, d];
    hide *;
    Next([a], b);
    Next([a, b], c);
    Next([a, b, c], d);
  }

  /** The states between the lines. */
  function Waiting(x: string): State { START.(items := ["a"], verbatim := "code", body := [x]) }

  lemma ItemStep(item: string)
    requires Parsed(item) == Some((Word("li", "", ""), "a"))
    ensures ScanText(START, item) == START.(cmd := "li", buf := "a")
  {
    ItemOpens();
    NamesTakeSomething();
    hide Parsed, Command, TakesNothing;
  }

  lemma BlockStep(block: string)
    requires Parsed(block) == Some((Word("code", "", ""), "")) && Normalized("a") == "a"
    ensures ScanLine(START.(cmd := "li", buf := "a"), block) == START.(items := ["a"], verbatim := "code")
  {
    ListWaits();
    NamesTakeSomething();
    hide Parsed, Command, TakesNothing, Normalized;
  }

  lemma BodyStep(x: string)
    requires !EndsBlock(x, "code")
    ensures ScanLine(START.(items := ["a"], verbatim := "code"), x) == Waiting(x)
  {
    hide EndsBlock;
    assert [] + [x] == [x];
  }

  lemma EndStep(x: string, end: string)
    requires EndsBlock(end, "code")
    ensures ScanLine(Waiting(x), end) == CloseVerbatim(Waiting(x))
  {
    hide EndsBlock, CloseVerbatim;
  }

  lemma ListIsPending(lines: seq<string>, x: string)
    requires ScanLines(START, lines) == Waiting(x)
    ensures OpenAfter(lines) == "code" && ListPending(lines)
  {
    ScanLists(lines);
    ScanKeepsWords(lines, "");
    hide ScanLines, OpenAfter, ListPending, Held, WordsIn, NTargets, SameOpen;
  }

  lemma ParseIsFinish(lines: seq<string>)
    ensures Parse(lines) == Finish(ScanLines(START, lines))
  {
  }

  lemma Next(lines: seq<string>, line: string)
    ensures ScanLines(START, lines + [line]) == ScanLine(ScanLines(START, lines), line)
  {
    Sequences.Added(lines, line);
    hide ScanLine;
  }

  lemma NamesTakeSomething()
    ensures !TakesNothing("li") && !TakesNothing("code")
  {
  }

  lemma ItemOpens()
    ensures Command(START, Word("li", "", ""), "a") == START.(cmd := "li", buf := "a")
  {
    NothingFlushes();
    assert !OpensBlock("li") && !TakesNothing("li") && !TakesLine("li");
    hide Flush;
  }

  lemma ListWaits()
    requires Normalized("a") == "a"
    ensures Command(START.(cmd := "li", buf := "a"), Word("code", "", ""), "")
        == START.(items := ["a"], verbatim := "code")
  {
    var s := START.(cmd := "li", buf := "a");
    assert IsListItem("li") && OpensBlock("code") && Fence.Blank("") && [] + ["a"] == ["a"];
    hide Normalized, FlushSection;
    assert Flush(s) == START.(items := ["a"]);
  }

  /** What is left once the block is closed: the block is in the lead, the list comes behind it. */
  lemma ListFollows(x: string)
    requires Fence.Block("code", "", [x]) != "" && Normalized("") == ""
    ensures var s := CloseVerbatim(Waiting(x));
            Finish(s).detail == [Code("code", "", [x]), Bullets(["a"])]
  {
    var code, list := Code("code", "", [x]), Bullets(["a"]);
    var s := START.(items := ["a"], lead := [code]);
    Fence.BlockStarts("code", "", [x]);
    BulletTextStarts(["a"]);
    assert IsBlockParagraph(BlockText(code)) && IsBlockParagraph(BlockText(list));
    NoNameNoItem();
    hide Fence.Block, Normalized, IsBlockParagraph, BlockText, BulletText, IsListItem;
    assert [] + [code] == [code] && [code] + [list] == [code, list];
    assert CloseVerbatim(START.(items := ["a"], verbatim := "code", body := [x])) == s;
    assert CloseList(Flush(s)) == START.(lead := [code, list]);
    NoBrief([code, list]);
    assert NOTHING.detail + [code, list] == [code, list];
  }

  lemma NoBrief(lead: seq<Block>)
    requires |lead| == 2 && IsBlockParagraph(BlockText(lead[0])) && IsBlockParagraph(BlockText(lead[1]))
    ensures BriefAt(lead) == 2
  {
    hide IsBlockParagraph, BlockText;
    assert lead[1..][0] == lead[1] && lead[1..][1..] == [];
    assert BriefAt(lead[1..]) == 1;
  }

  // ---- fences ----

  const OPENING := "\\code{`}"

  /** A language attribute may be a backtick. */
  lemma BacktickIsALanguage()
    ensures Parsed(OPENING) == Some((Word("code", "", "`"), ""))
  {
    OpeningIsMarked();
    BacktickIsSplit();
    assert !IsInline("code");
    hide Marked, SplitCommandWord, IsInline;
  }

  lemma OpeningIsMarked()
    ensures Marked(OPENING) == Some(("code{`}", ""))
  {
    var line := OPENING;
    assert |line| == 8 && line[0] == '\\' && forall k | 1 <= k < 8 :: !Fence.IsWs(line[k]);
    assert Fence.Lead(line) == 0;
    NoBlankAhead(line, 1);
    assert line[1..8] == "code{`}";
    assert Lowered("code{`}");
    LoweredIsLower("code{`}");
  }

  lemma {:induction false} NoBlankAhead(line: string, i: nat)
    requires i <= |line| && forall k | i <= k < |line| :: !Fence.IsWs(line[k])
    ensures WordEnd(line, i) == |line|
    decreases |line| - i
  {
    if i < |line| {
      NoBlankAhead(line, i + 1);
    }
  }

  lemma BacktickIsSplit()
    ensures SplitCommandWord("code{`}") == Word("code", "", "`")
  {
    var cmd := "code{`}";
    assert cmd[..4] == "code" && cmd[5..6] == "`" && cmd[4] == '{' && '{' !in cmd[..4];
    FindIs(cmd, '{', 4);
    assert Lower("`") == "`";
  }

  /** A block printed with such a language is not read back. */
  lemma BacktickLanguageDoesNotSurvive()
    ensures Fence.ReadFence(Fence.Block("code", "`", ["x"])) !=
            Some(Fence.CodeBlock(Fence.Trim(Fence.Info("code", "`")), Fence.Body(["x"]), []))
  {
    OneLineBody("x");
    assert '\n' !in "`" && '\n' !in "x" && '`' in Fence.Info("code", "`");
    hide *;
    Fence.FenceRoundTrip("code", "`", ["x"]);
  }

  /** A line that holds a carriage return is read back as two. */
  lemma CarriageReturnDoesNotSurvive()
    ensures Fence.ReadFence(Fence.Block("code", "", ["x\ry"])) !=
            Some(Fence.CodeBlock(Fence.Trim(Fence.Info("code", "")), Fence.Body(["x\ry"]), []))
  {
    var line := "x\ry";
    assert line[1] == '\r' && line[0] == 'x';
    OneLineBody(line);
    assert '\n' !in line && '\r' in line && line in [line];
    assert !Fence.NoReturns([line]);
    hide *;
    Fence.FenceRoundTrip("code", "", [line]);
  }

  lemma OneLineBody(line: string)
    requires line != "" && !Fence.IsWs(line[0])
    ensures Fence.Body([line]) != []
  {
    assert !Fence.Blank(line);
    hide Fence.Blank;
    assert Fence.DropFront([line]) == [line] && Fence.DropBack([line]) == [line];
  }
}
