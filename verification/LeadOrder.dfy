/** The order of the free text of a comment (`parse_raw` of src/cpp/comment/doxygen_raw.cpp). */
module LeadOrder {
  import opened Wrappers
  import opened Words
  import opened RawScan
  import opened CommentSections
  import opened ParsedComment
  import Fence
  import Sequences

  // Lead entries are only ever added behind those that are there, so the free text follows the order of the lines
  // except for what is still pending while a later line adds an entry: the items of a list, when a block is closed.

  /** Whether list items are pending once the open section is flushed. */
  predicate ListFlushed(pending: bool, open: Option<Section>) {
    open.Some? && IsListItem(open.value.name) && (pending || Normalized(open.value.text) != "")
  }

  /** Whether list items are pending behind a line outside verbatim blocks. */
  predicate ListAcross(pending: bool, open: Option<Section>, line: string)
    decreases |line|
  {
    match Parsed(line)
    case None =>
      !Fence.Blank(line) && pending && (open.Some? ==> TakesParagraph(open.value.name))
    case Some((word, rest)) =>
      if TakesNothing(word.name) && !Fence.Blank(rest) then ListAcross(ListFlushed(pending, open), None, rest)
      else ListFlushed(pending, open) && !TakesLine(word.name)
  }

  /** Whether list items are pending behind these lines. */
  predicate ListPending(lines: seq<string>) {
    if lines == [] then false
    else
      var init, line := lines[..|lines| - 1], lines[|lines| - 1];
      if OpenAfter(init) == "" then ListAcross(ListPending(init), SectionsIn(init).open, line) else ListPending(init)
  }

  lemma FlushLists(s: State)
    ensures var open := if s.cmd == "" then None else Some(Section(s.cmd, s.dir, s.buf));
            Flush(s).items != [] <==> ListFlushed(s.items != [], open)
    ensures s.lead <= Flush(s).lead
  {
    NoNameNoItem();
    hide IsListItem, TakesSingleName, TakesNothing, Routed, SplitFirst, Normalized, IsBrief;
  }

  lemma CommandLists(s: State, word: Word, rest: string, open: Option<Section>)
    requires open == if s.cmd == "" then None else Some(Section(s.cmd, s.dir, s.buf))
    ensures Command(s, word, rest).items != [] <==> ListFlushed(s.items != [], open) && !TakesLine(word.name)
    ensures s.lead <= Command(s, word, rest).lead
  {
    var begun := Flush(s).(cmd := word.name, dir := word.direction, buf := rest);
    FlushLists(s);
    FlushLists(begun);
    BlockIsNotNothing(word.name);
    LineIsNothingElse(word.name);
    hide Flush, OpensBlock, TakesNothing, TakesLine, IsListItem, Routed, Normalized;
  }

  lemma LineIsNothingElse(name: string)
    ensures TakesLine(name) ==> !TakesNothing(name) && !IsListItem(name) && name != ""
  {
  }

  lemma LineLists(s: State, line: string, open: Option<Section>)
    requires open == if s.cmd == "" then None else Some(Section(s.cmd, s.dir, s.buf))
    ensures BlankLine(s).items == [] && s.lead <= BlankLine(s).lead && s.lead <= ProseLine(s, line).lead
    ensures ProseLine(s, line).items != [] <==> s.items != [] && (open.Some? ==> TakesParagraph(open.value.name))
  {
    FlushLists(s);
    ItemTakesParagraph(s.cmd);
    hide Flush, TakesParagraph, IsListItem, Normalized, Sentence;
  }

  lemma ItemTakesParagraph(name: string)
    ensures IsListItem(name) ==> TakesParagraph(name)
  {
  }

  lemma {:induction false} TextLists(s: State, line: string, c: Sections)
    requires SameOpen(s, c)
    ensures ScanText(s, line).items != [] <==> ListAcross(s.items != [], c.open, line)
    ensures s.lead <= ScanText(s, line).lead
    decreases |line|
  {
    hide Command, BlankLine, ProseLine, Parsed, TakesNothing, TakesLine, ListFlushed, Begun, TakesParagraph;
    match Parsed(line)
    case None => LineLists(s, line, c.open);
    case Some((word, rest)) =>
      NoDirectionWithoutName(line);
      CommandLists(s, word, rest, c.open);
      CommandKeepsOpen(s, word, rest, c);
      LineIsNothingElse(word.name);
      if TakesNothing(word.name) && !Fence.Blank(rest) {
        NothingOpens(c, word, rest);
        TextLists(Command(s, word, rest), rest, c.Then(Begun(word, rest)));
      }
  }

  lemma NothingOpens(c: Sections, word: Word, rest: string)
    requires TakesNothing(word.name)
    ensures c.Then(Begun(word, rest)).open == None
  {
    BlockIsNotNothing(word.name);
    NoNameNoItem();
    hide TakesNothing, OpensBlock;
  }

  lemma VerbatimLists(s: State)
    ensures CloseVerbatim(s).items == s.items && s.lead <= CloseVerbatim(s).lead
  {
    hide Fence.Block;
  }

  lemma LineStep(s: State, line: string, c: Sections)
    requires SameOpen(s, c)
    ensures ScanLine(s, line).items != [] <==>
            if s.verbatim == "" then ListAcross(s.items != [], c.open, line) else s.items != []
    ensures s.lead <= ScanLine(s, line).lead
  {
    hide ScanText, EndsBlock, CloseVerbatim, ListAcross, SameOpen;
    VerbatimLists(s);
    if s.verbatim == "" {
      TextLists(s, line, c);
    }
  }

  /** The scanner holds list items exactly when the lines leave some pending, and its lead only grows. */
  lemma {:induction false} ScanLists(lines: seq<string>)
    ensures ScanLines(START, lines).items != [] <==> ListPending(lines)
    ensures lines != [] ==> ScanLines(START, lines[..|lines| - 1]).lead <= ScanLines(START, lines).lead
  {
    if lines != [] {
      var init, line := lines[..|lines| - 1], lines[|lines| - 1];
      ScanKeepsWords(init, "");
      var s := ScanLines(START, init);
      hide ScanLine, ListAcross, Held, WordsIn, NTargets, SameOpen;
      ScanLists(init);
      LineStep(s, line, SectionsIn(init));
    }
  }

  /** What is in the lead stays in front of whatever later lines add. */
  lemma {:induction false} LeadGrows(lines: seq<string>, more: seq<string>)
    ensures ScanLines(START, lines).lead <= ScanLines(START, lines + more).lead
  {
    hide ScanLines;
    if more == [] {
      Sequences.AddNothing(lines);
    } else {
      var init, all := more[..|more| - 1], lines + more;
      LeadGrows(lines, init);
      ScanLists(all);
      assert all[..|all| - 1] == lines + init;
    }
  }

  /** A closed block stands behind everything above it, with nothing pending, exactly when no list items were. */
  lemma BlockIsInOrderExactlyWhen(lines: seq<string>, end: string)
    requires OpenAfter(lines) != "" && EndsBlock(end, OpenAfter(lines))
    ensures Idle(ScanLines(START, lines + [end])) <==> !ListPending(lines)
    ensures ScanLines(START, lines + [end]).items == ScanLines(START, lines).items
  {
    ScanLists(lines);
    ScanSettles(lines);
    ScanKeepsWords(lines, "");
    Sequences.Added(lines, end);
    hide EndsBlock, Held, WordsIn, NTargets, SameOpen, Fence.Block, ListPending, Bare;
    assert ScanLines(START, lines + [end]) == CloseVerbatim(ScanLines(START, lines));
  }

  // ---- the brief ----

  predicate IsText(line: string) { Parsed(line) == None && !Fence.Blank(line) }

  /** Lines of text with one space between them. */
  function Paragraph(lines: seq<string>): string {
    if lines == [] then "" else Sentence(Paragraph(lines[..|lines| - 1]), lines[|lines| - 1])
  }

  lemma {:induction false} ParagraphScan(s: State, lines: seq<string>)
    requires Idle(s) && lines != [] && forall l <- lines :: IsText(l)
    ensures ScanLines(s, lines) == s.(buf := Paragraph(lines), haveLeadPara := true)
  {
    var init, line := lines[..|lines| - 1], lines[|lines| - 1];
    hide Parsed, TakesParagraph, EndsBlock, CloseVerbatim;
    assert forall l <- init :: l in lines;
    if init != [] {
      ParagraphScan(s, init);
    }
    TextIsProse(ScanLines(s, init), line);
  }

  lemma TextIsProse(s: State, line: string)
    requires s.verbatim == "" && s.cmd == "" && IsText(line)
    ensures ScanLine(s, line) == s.(buf := Sentence(s.buf, line), haveLeadPara := true)
  {
    hide Parsed, TakesParagraph, EndsBlock, CloseVerbatim, Flush;
  }

  /** A line that is no text flushes what is open first. */
  lemma FlushedFirst(s: State, line: string)
    requires s.verbatim == "" && s.haveLeadPara && !IsText(line)
    ensures Flush(s).lead <= ScanLine(s, line).lead
  {
    hide Flush, Parsed, Command, TakesNothing, ProseLine, EndsBlock, CloseVerbatim;
    match Parsed(line)
    case None =>
    case Some((word, rest)) =>
      CommandGrows(s, word, rest);
      var t := Command(s, word, rest);
      TextLists(t, rest, Sections([], if t.cmd == "" then None else Some(Section(t.cmd, t.dir, t.buf))));
  }

  lemma CommandGrows(s: State, word: Word, rest: string)
    ensures Flush(s).lead <= Command(s, word, rest).lead
  {
    FlushLists(Flush(s).(cmd := word.name, dir := word.direction, buf := rest));
    hide Flush, OpensBlock, TakesNothing, TakesLine, Routed;
  }

  lemma ClosedGrows(s: State)
    ensures s.lead <= Closed(s).lead
    ensures s.verbatim == "" ==> Flush(s).lead <= Closed(s).lead
  {
    var t := if s.verbatim == "" then s else CloseVerbatim(s);
    VerbatimLists(s);
    FlushLists(t);
    hide Flush, CloseVerbatim;
  }

  lemma {:induction false} ScanOn(a: seq<string>, b: seq<string>)
    ensures ScanLines(START, a + b) == ScanLines(ScanLines(START, a), b)
  {
    if b == [] {
      Sequences.AddNothing(a);
    } else {
      var init := b[..|b| - 1];
      ScanOn(a, init);
      assert (a + b)[..|a + b| - 1] == a + init;
      hide ScanLine;
    }
  }

  /** The lines behind a paragraph decide nothing about its place in the free text. */
  lemma ParagraphLands(before: seq<string>, paragraph: seq<string>, rest: seq<string>)
    requires Idle(ScanLines(START, before))
    requires paragraph != [] && (forall l <- paragraph :: IsText(l)) && (rest != [] ==> !IsText(rest[0]))
    ensures AddProse(ScanLines(START, before).lead, Normalized(Paragraph(paragraph)))
         <= FreeText(before + paragraph + rest)
  {
    ParagraphIsHeld(before, paragraph);
    hide Flush, ScanLines, IsText, Paragraph, Idle, AddProse, Normalized, FreeText;
    HeldTextLands(before + paragraph, rest);
  }

  lemma HeldTextLands(held: seq<string>, rest: seq<string>)
    requires ScanLines(START, held).verbatim == "" && ScanLines(START, held).haveLeadPara
    requires rest != [] ==> !IsText(rest[0])
    ensures Flush(ScanLines(START, held)).lead <= FreeText(held + rest)
  {
    ClosedGrows(ScanLines(START, held + rest));
    hide Flush, ScanLine, ScanLines, IsText, Closed;
    if rest == [] {
      Sequences.AddNothing(held);
    } else {
      FlushedFirst(ScanLines(START, held), rest[0]);
      ScanOne(held, rest[0]);
      LeadGrows(held + [rest[0]], rest[1..]);
      Sequences.Assoc(held, [rest[0]], rest[1..]);
      Sequences.Split(rest, 1);
      assert rest[..1] == [rest[0]];
    }
  }

  lemma ParagraphIsHeld(before: seq<string>, paragraph: seq<string>)
    requires Idle(ScanLines(START, before)) && paragraph != [] && forall l <- paragraph :: IsText(l)
    ensures var t := ScanLines(START, before + paragraph);
            && t.verbatim == "" && t.haveLeadPara
            && Flush(t).lead == AddProse(ScanLines(START, before).lead, Normalized(Paragraph(paragraph)))
  {
    ParagraphScan(ScanLines(START, before), paragraph);
    ScanOn(before, paragraph);
    NoNameNoItem();
    hide ScanLines, Paragraph, Normalized, IsListItem, IsText;
  }

  lemma ScanOne(lines: seq<string>, line: string)
    ensures ScanLines(START, lines + [line]) == ScanLine(ScanLines(START, lines), line)
  {
    Sequences.Added(lines, line);
  }

  /** The first paragraph that reads as a sentence is the brief, whatever lines follow it, unless some section of the
      comment is a brief.  Only lists and blocks stand in front of it. */
  lemma FirstSentenceIsBrief(before: seq<string>, paragraph: seq<string>, rest: seq<string>)
    requires Idle(ScanLines(START, before))
    requires forall b <- ScanLines(START, before).lead :: IsBlockParagraph(BlockText(b))
    requires paragraph != [] && (forall l <- paragraph :: IsText(l)) && (rest != [] ==> !IsText(rest[0]))
    requires var text := Normalized(Paragraph(paragraph)); text != "" && !IsBlockParagraph(text)
    ensures var lines := before + paragraph + rest;
            var all := SectionsIn(lines).All();
            Parse(lines).brief == if HasBrief(all) then RoutedAll(all).brief else Normalized(Paragraph(paragraph))
  {
    var lines, text, lead := before + paragraph + rest, Normalized(Paragraph(paragraph)), ScanLines(START, before).lead;
    var all, free := SectionsIn(lines).All(), FreeText(lines);
    ParagraphLands(before, paragraph, rest);
    CommentIsItsSections(lines);
    hide ScanLines, FreeText, Parse, Paragraph, IsText, Idle, Normalized, RoutedAll, HasBrief, SectionsIn;
    assert free[|lead|] == (lead + [Prose(text)])[|lead|] && free[..|lead|] == lead;
    hide IsBlockParagraph, ApplyLead;
    assert FirstProse(free, |lead|);
    FirstProseIsBrief(RoutedAll(all), free, HasBrief(all));
  }

  /** In particular the paragraph a comment starts with. */
  lemma {:induction false} FirstParagraphIsBrief(blanks: seq<string>, paragraph: seq<string>, rest: seq<string>)
    requires forall l <- blanks :: Fence.Blank(l)
    requires paragraph != [] && (forall l <- paragraph :: IsText(l)) && (rest != [] ==> !IsText(rest[0]))
    requires var text := Normalized(Paragraph(paragraph)); text != "" && !IsBlockParagraph(text)
    ensures var lines := blanks + paragraph + rest;
            var all := SectionsIn(lines).All();
            Parse(lines).brief == if HasBrief(all) then RoutedAll(all).brief else Normalized(Paragraph(paragraph))
  {
    BlanksLeaveNothing(blanks);
    FirstSentenceIsBrief(blanks, paragraph, rest);
  }

  lemma {:induction false} BlanksLeaveNothing(blanks: seq<string>)
    requires forall l <- blanks :: Fence.Blank(l)
    ensures ScanLines(START, blanks) == START
  {
    if blanks != [] {
      var init, line := blanks[..|blanks| - 1], blanks[|blanks| - 1];
      assert forall l <- init :: l in blanks;
      BlanksLeaveNothing(init);
      BlankIsNoCommand(line);
      hide Parsed;
    }
  }
}
