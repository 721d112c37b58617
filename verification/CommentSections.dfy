/**
 A comment as the routed sections of its lines (`route_command` of src/cpp/comment/doxygen_raw.cpp).
 */
module CommentSections {
  import opened Wrappers
  import opened Words
  import opened CommentRows
  import opened RawScan
  import CommentMarkers
  import Fence
  import Sequences

  // The sections are read off the lines alone.  Whatever buffers the scanner goes through, its model is what
  // routing them one after the other leaves.

  /** What becomes of a whole section. */
  function RoutedSection(m: Comment, s: Section): Comment {
    if IsListItem(s.name) then m
    else if TakesSingleName(s.name) then Routed(m, s.name, SplitFirst(Normalized(s.text)).0, "")
    else if TakesNothing(s.name) then Routed(m, s.name, "", "")
    else Routed(m, s.name, Normalized(s.text), s.direction)
  }

  function RoutedAll(sections: seq<Section>): Comment {
    if sections == [] then NOTHING
    else RoutedSection(RoutedAll(sections[..|sections| - 1]), sections[|sections| - 1])
  }

  lemma RoutedAdd(sections: seq<Section>, s: Section)
    ensures RoutedAll(sections + [s]) == RoutedSection(RoutedAll(sections), s)
  {
    Sequences.Added(sections, s);
  }

  lemma FlushRoutes(s: State)
    ensures Flush(s).m == if s.cmd == "" then s.m else RoutedSection(s.m, Section(s.cmd, s.dir, s.buf))
    ensures Flush(s).explicitBrief == (s.explicitBrief || IsBrief(s.cmd))
  {
    BriefIsPlain(s.cmd);
    NoNameNoItem();
    CloseListKeepsCommand(s);
    hide IsListItem, TakesSingleName, TakesNothing, Routed, SplitFirst, Normalized, IsBrief, AddProse;
  }

  lemma BriefIsPlain(name: string)
    ensures IsBrief(name) ==> !IsListItem(name) && !TakesSingleName(name) && !TakesNothing(name) && name != ""
  {
  }

  /** Some section is a brief. */
  ghost predicate HasBrief(sections: seq<Section>) { exists x <- sections :: IsBrief(x.name) }

  lemma BriefAdd(sections: seq<Section>, s: Section)
    ensures HasBrief(sections + [s]) <==> HasBrief(sections) || IsBrief(s.name)
  {
    hide IsBrief;
    assert forall x :: x in sections + [s] <==> x in sections || x == s;
  }

  /** The model holds the closed sections, routed, it is known whether one is a brief, and the open one is open. */
  ghost predicate Holds(s: State, c: Sections) {
    SameOpen(s, c) && s.m == RoutedAll(c.closed) && (s.explicitBrief <==> HasBrief(c.closed))
  }

  lemma FlushHolds(s: State, c: Sections)
    requires Holds(s, c)
    ensures Flush(s).m == RoutedAll(c.All()) && (Flush(s).explicitBrief <==> HasBrief(c.All()))
  {
    FlushRoutes(s);
    BriefIsPlain(s.cmd);
    hide Flush, RoutedSection, IsBrief, HasBrief, RoutedAll;
    if c.open.Some? {
      RoutedAdd(c.closed, c.open.value);
      BriefAdd(c.closed, c.open.value);
    }
  }

  lemma LineHolds(s: State, line: string, c: Sections)
    requires Holds(s, c)
    ensures Holds(BlankLine(s), c.Closed()) && Holds(ProseLine(s, line), c.Extended(line))
  {
    LineKeepsOpen(s, line, c);
    FlushHolds(s, c);
    NoNameNoItem();
    hide Flush, RoutedAll, TakesParagraph, CloseList, SameOpen, HasBrief;
    CloseListKeepsCommand(if s.cmd != "" || s.haveLeadPara then Flush(s) else s);
    assert c.open == if s.cmd == "" then None else Some(Section(s.cmd, s.dir, s.buf)) by { OpenIs(s, c); }
  }

  lemma OpenIs(s: State, c: Sections)
    requires SameOpen(s, c)
    ensures c.open == if s.cmd == "" then None else Some(Section(s.cmd, s.dir, s.buf))
  {
  }

  lemma CommandHolds(s: State, word: Word, rest: string, c: Sections)
    requires Holds(s, c) && (word.name == "" ==> word.direction == "")
    ensures Holds(Command(s, word, rest), c.Then(Begun(word, rest)))
  {
    CommandKeepsOpen(s, word, rest, c);
    FlushHolds(s, c);
    BlockIsNotNothing(word.name);
    NoNameNoItem();
    NoNameTakesNoLine();
    NothingIsPlain(word.name);
    var open := Flush(s).(cmd := word.name, dir := word.direction, buf := rest);
    FlushRoutes(open);
    BriefIsPlain(word.name);
    var b := Begun(word, rest);
    hide Flush, RoutedAll, HasBrief, IsBrief, SameOpen, TakesNothing, TakesLine, OpensBlock, IsListItem;
    hide TakesSingleName, Routed, Normalized;
    if b.closed != [] {
      RoutedAdd(c.All(), b.closed[0]);
      BriefAdd(c.All(), b.closed[0]);
      assert c.All() + b.closed == c.All() + [b.closed[0]];
    } else {
      Sequences.AddNothing(c.All());
    }
  }

  lemma NothingIsPlain(name: string)
    ensures TakesNothing(name) ==> !IsListItem(name) && !TakesSingleName(name)
  {
  }

  lemma {:induction false} TextHolds(s: State, line: string, c: Sections)
    requires Holds(s, c)
    ensures Holds(ScanText(s, line), c.Across(line))
    decreases |line|
  {
    hide Command, BlankLine, ProseLine, Parsed, TakesNothing, Begun, Holds, RoutedAll;
    match Parsed(line)
    case None => LineHolds(s, line, c);
    case Some((word, rest)) =>
      NoDirectionWithoutName(line);
      CommandHolds(s, word, rest, c);
      if TakesNothing(word.name) {
        AcrossRest(c, line, word, rest, "");
        if !Fence.Blank(rest) {
          TextHolds(Command(s, word, rest), rest, c.Then(Begun(word, rest)));
        }
      }
  }

  lemma {:induction false} ScanHolds(lines: seq<string>)
    ensures Holds(ScanLines(START, lines), SectionsIn(lines))
  {
    if lines != [] {
      var init, line := lines[..|lines| - 1], lines[|lines| - 1];
      ScanHolds(init);
      ScanKeepsWords(init, "");
      var s := ScanLines(START, init);
      hide ScanText, EndsBlock, Held, WordsIn, NTargets, RoutedAll, HasBrief, CloseVerbatim, Holds, SameOpen;
      if s.verbatim == "" {
        TextHolds(s, line, SectionsIn(init));
      } else {
        VerbatimHolds(s, line, SectionsIn(init));
      }
    }
  }

  lemma VerbatimHolds(s: State, line: string, c: Sections)
    requires Holds(s, c)
    ensures Holds(CloseVerbatim(s), c) && Holds(s.(body := s.body + [line]), c)
  {
    hide RoutedAll, HasBrief, Fence.Block;
  }

  // ---- the parameters of a comment ----

  function ParamOf(s: Section): Param {
    var (name, description) := SplitFirst(Normalized(s.text));
    Param(name, description, s.direction)
  }

  /** The parameters the sections with this target name. */
  function ParamsOf(sections: seq<Section>, target: Target): seq<Param> {
    if sections == [] then []
    else
      var s := sections[|sections| - 1];
      ParamsOf(sections[..|sections| - 1], target) + if TargetOf(s.name) == target then [ParamOf(s)] else []
  }

  lemma ParamIsPlain(name: string)
    ensures TargetOf(name) == ToParams || TargetOf(name) == ToTparams ==>
              !IsListItem(name) && !TakesSingleName(name) && !TakesNothing(name)
  {
  }

  lemma SectionParams(m: Comment, s: Section)
    ensures var r := RoutedSection(m, s);
            && r.params == m.params + (if TargetOf(s.name) == ToParams then [ParamOf(s)] else [])
            && r.tparams == m.tparams + if TargetOf(s.name) == ToTparams then [ParamOf(s)] else []
  {
    ParamIsPlain(s.name);
    RouteChanges(m, s.name, SplitFirst(Normalized(s.text)).0, "");
    RouteChanges(m, s.name, "", "");
    RouteChanges(m, s.name, Normalized(s.text), s.direction);
    Sequences.AddNothing(m.params);
    Sequences.AddNothing(m.tparams);
    hide TargetOf, Routed, IsListItem, TakesSingleName, TakesNothing, SplitFirst, Normalized;
  }

  /** Every parameter section becomes one parameter, in order. */
  lemma {:induction false} ParamsOfSections(sections: seq<Section>)
    ensures RoutedAll(sections).params == ParamsOf(sections, ToParams)
    ensures RoutedAll(sections).tparams == ParamsOf(sections, ToTparams)
  {
    if sections != [] {
      var init, s := sections[..|sections| - 1], sections[|sections| - 1];
      ParamsOfSections(init);
      SectionParams(RoutedAll(init), s);
      hide RoutedSection, ParamOf, TargetOf;
    }
  }

  /** Some section with this target has this property of its parameter. */
  lemma {:induction false} EachParam(sections: seq<Section>, target: Target, ok: Param -> bool)
    ensures (forall p <- ParamsOf(sections, target) :: ok(p)) <==>
            forall s <- sections :: TargetOf(s.name) == target ==> ok(ParamOf(s))
  {
    if sections != [] {
      var init, s := sections[..|sections| - 1], sections[|sections| - 1];
      EachParam(init, target, ok);
      hide TargetOf, ParamOf;
      Sequences.ButLast(sections);
      assert forall x <- sections :: x in init || x == s;
      assert forall x <- init :: x in sections;
      assert s in sections;
    }
  }

  // ---- commands that are told apart by name alone ----

  /** A command that only has another name for what one does is routed as that one. */
  lemma OtherNames(m: Comment, text: string, dir: string)
    ensures Routed(m, "attention", text, dir) == Routed(m, "warning", text, dir)
    ensures Routed(m, "remark", text, dir) == Routed(m, "remarks", text, dir) == Routed(m, "note", text, dir)
    ensures Routed(m, "authors", text, dir) == Routed(m, "author", text, dir)
    ensures Routed(m, "short", text, dir) == Routed(m, "brief", text, dir)
    ensures Routed(m, "result", text, dir) == Routed(m, "returns", text, dir) == Routed(m, "return", text, dir)
    ensures Routed(m, "exception", text, dir) == Routed(m, "throw", text, dir) == Routed(m, "throws", text, dir)
    ensures Routed(m, "sa", text, dir) == Routed(m, "see", text, dir)
    ensures Routed(m, "par", text, dir) == Routed(m, "details", text, dir)
  {
    WarningNames();
    NoteNames();
    AuthorNames();
    SameTargets();
    hide SplitFirst, Push, TargetOf, ListRow;
  }

  lemma WarningNames()
    ensures TargetOf("attention") == TargetOf("warning") == ToList && ListRow("attention") == ListRow("warning")
  {
  }

  lemma NoteNames()
    ensures TargetOf("remark") == TargetOf("remarks") == TargetOf("note") == ToList
    ensures ListRow("remark") == ListRow("remarks") == ListRow("note")
  {
  }

  lemma AuthorNames()
    ensures TargetOf("authors") == TargetOf("author") == ToList && ListRow("authors") == ListRow("author")
  {
  }

  lemma SameTargets()
    ensures TargetOf("short") == TargetOf("brief") == ToBrief && TargetOf("par") == TargetOf("details") == ToDetail
    ensures TargetOf("result") == TargetOf("returns") == TargetOf("return") == ToReturns
    ensures TargetOf("exception") == TargetOf("throw") == TargetOf("throws") == ToThrows
    ensures TargetOf("sa") == TargetOf("see") == ToSee
  {
  }

  /** A grouping command takes its line and no more: what follows is free text. */
  lemma GroupCommandTakesItsLine(s: State, name: string, rest: string)
    requires name in {"ingroup", "defgroup", "addtogroup"} && s.cmd == "" && s.buf == "" && s.items == []
    ensures Command(s, Word(name, "", ""), rest) ==
            s.(m := s.m.(custom := Push(s.m.custom, name, Normalized(rest))), dir := "",
               haveLeadPara := false)
  {
    GroupNames(name);
    NothingToFlush(s);
    var flushed := s.(dir := "", haveLeadPara := false);
    GroupFlushes(flushed.(cmd := name, buf := rest));
    hide Flush, TakesLine, TakesNothing, TakesSingleName, OpensBlock, IsListItem, TargetOf, IsBrief, Normalized;
    assert Command(s, Word(name, "", ""), rest) == Flush(flushed.(cmd := name, buf := rest));
  }

  lemma NothingToFlush(s: State)
    requires s.cmd == "" && s.buf == "" && s.items == []
    ensures Flush(s) == s.(dir := "", haveLeadPara := false)
  {
    NoNameNoItem();
    assert Normalized("") == "";
    hide Normalized, IsListItem;
  }

  lemma GroupFlushes(s: State)
    requires s.cmd in {"ingroup", "defgroup", "addtogroup"} && s.dir == "" && s.items == []
    ensures Flush(s) == s.(m := s.m.(custom := Push(s.m.custom, s.cmd, Normalized(s.buf))), cmd := "", buf := "")
  {
    GroupNames(s.cmd);
    hide Normalized, SplitFirst, Push, TakesNothing, TakesSingleName, IsListItem, TargetOf, IsBrief;
  }

  lemma GroupNames(name: string)
    requires name in {"ingroup", "defgroup", "addtogroup"}
    ensures name != "" && TakesLine(name) && !TakesNothing(name) && !TakesSingleName(name) && !OpensBlock(name)
    ensures !IsListItem(name) && !IsBrief(name) && TargetOf(name) == ToCustom
  {
    GroupTargets();
    hide TargetOf;
  }

  lemma GroupTargets()
    ensures TargetOf("ingroup") == TargetOf("defgroup") == TargetOf("addtogroup") == ToCustom
  {
  }

  // ---- which lines are commands ----

  lemma {:induction false} WordEndIs(line: string, i: nat, e: nat)
    requires i <= e <= |line| && (forall k | i <= k < e :: !Fence.IsWs(line[k]))
    requires e < |line| ==> Fence.IsWs(line[e])
    ensures WordEnd(line, i) == e
    decreases e - i
  {
    if i < e {
      WordEndIs(line, i + 1, e);
    }
  }

  /** A `@` or `\` and a word behind it, however indented, start a command unless the word is inline markup, which is
      prose. */
  lemma CommandExactlyWhen(indent: string, mark: char, word: string, rest: string)
    requires Fence.Blank(indent) && (mark == '@' || mark == '\\')
    requires (forall k | 0 <= k < |word| :: !Fence.IsWs(word[k])) && (word != "" ==> word[|word| - 1] !in {']', '}'})
    ensures Parsed(indent + [mark] + word + " " + rest) ==
            if Lower(word) in {"c", "p", "b", "e", "em", "a", "ref", "link", "n"} then None
            else Some((Word(Lower(word), "", ""), rest))
  {
    MarkedWord(indent, mark, word, rest);
    LowerKeepsBrackets(word);
    hide Lower, Marked, Fence.Blank;
    assert SplitCommandWord(Lower(word)) == Word(Lower(word), "", "");
    hide SplitCommandWord;
  }

  lemma MarkedWord(indent: string, mark: char, word: string, rest: string)
    requires Fence.Blank(indent) && (mark == '@' || mark == '\\') && forall k | 0 <= k < |word| :: !Fence.IsWs(word[k])
    ensures Marked(indent + [mark] + word + " " + rest) == Some((Lower(word), rest))
  {
    var line, s := indent + [mark] + word + " " + rest, |indent|;
    assert line == indent + ([mark] + word + " " + rest);
    CommentMarkers.LeadBehind(indent, [mark] + word + " " + rest);
    var e := s + 1 + |word|;
    assert line[s + 1..e] == word && line[e + 1..] == rest && line[e] == ' ';
    WordEndIs(line, s + 1, e);
    hide WordEnd, Fence.Lead, Fence.Blank, Lower;
  }

  lemma LowerKeepsBrackets(word: string)
    ensures |Lower(word)| == |word|
    ensures word != "" && word[|word| - 1] !in {']', '}'} ==> Lower(word)[|word| - 1] !in {']', '}'}
  {
  }
}
