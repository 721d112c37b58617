/** What `parse_raw` of src/cpp/comment/doxygen_raw.cpp promises about a whole comment. */
module ParsedComment {
  import opened Wrappers
  import opened Words
  import opened CommentRows
  import opened RawScan
  import opened CommentSections
  import Fence
  import Sequences

  // Every word lands in one field, a blank line ends whatever section is open, and the result survives
  // being stored as rows.

  // ---- no word is lost ----

  /** The state once the last line has been read. */
  function Closed(s: State): State { CloseList(Flush(if s.verbatim == "" then s else CloseVerbatim(s))) }

  lemma ClosedKeepsWords(s: State, w: string)
    requires s.verbatim == "" ==> s.body == []
    ensures Held(Closed(s), w) == Held(s, w)
    ensures var s' := Closed(s); s'.buf == "" && s'.body == [] && s'.items == [] && s'.cmd == ""
  {
    CloseVerbatimKeepsWords(s, w);
    var t := if s.verbatim == "" then s else CloseVerbatim(s);
    FlushKeepsWords(t, w);
    Flushed(t);
    CloseListKeepsWords(Flush(t), w);
    hide Flush, Held;
  }

  lemma ClosedKeepsShape(s: State)
    requires Shaped(s)
    ensures Shaped(Closed(s)) && Customs(Closed(s)) == Customs(s)
  {
    CloseVerbatimKeepsShape(s);
    var t := if s.verbatim == "" then s else CloseVerbatim(s);
    FlushKeepsShape(t);
    Flushed(t);
    FlushesOf("");
    CloseListKeepsShape(Flush(t));
    hide Flush, Shaped, Flushes, CloseVerbatim;
  }

  lemma HeldWhenClosed(s: State, w: string)
    requires s.buf == "" && s.cmd == "" && s.body == [] && s.items == []
    ensures Held(s, w) == NComment(s.m, w) + NBlocks(s.lead, w)
  {
    NNothing(w);
    NotCopied("", "", w);
  }

  lemma ShapedMeans(s: State)
    requires Shaped(s)
    ensures LeadShaped(s.lead) && (s.m.brief != "" ==> s.explicitBrief) && ModelShaped(s.m)
  {
  }

  /** Every word of the lines, apart from command words with their attributes, the arguments of copy commands and lines
      that close a verbatim block, occurs in the fields of the comment exactly as often as in the lines, and of each
      copy command its target is stored, and nothing else. */
  lemma NoWordIsLost(lines: seq<string>, w: string)
    ensures NComment(Parse(lines), w) == WordsIn(lines, w) + NTargets(SectionsIn(lines).All(), w)
  {
    var s := ScanLines(START, lines);
    ScanKeepsWords(lines, w);
    ScanKeepsShape(lines);
    ClosedKeepsWords(s, w);
    ClosedKeepsShape(s);
    var s' := Closed(s);
    HeldWhenClosed(s', w);
    ShapedMeans(s');
    assert Parse(lines) == ApplyLead(s'.m, s'.lead, s'.explicitBrief);
    hide *;
    ApplyLeadKeepsWords(s'.m, s'.lead, s'.explicitBrief, w);
  }

  /** The free text of the lines: paragraphs, lists and blocks. */
  function FreeText(lines: seq<string>): seq<Block> { Closed(ScanLines(START, lines)).lead }

  /** The comment is its sections, routed in order, under the free text around them: every field but the two that
      take free text is what the sections make of it, and those start with it.  The free text has no say in the brief
      exactly when some section is one. */
  lemma CommentIsItsSections(lines: seq<string>)
    ensures var c, r := Parse(lines), RoutedAll(SectionsIn(lines).All());
            && c == r.(brief := c.brief, detail := c.detail)
            && (r.brief != "" ==> c.brief == r.brief) && r.detail <= c.detail
    ensures var all := SectionsIn(lines).All();
            Parse(lines) == ApplyLead(RoutedAll(all), FreeText(lines), HasBrief(all))
  {
    var s := ScanLines(START, lines);
    ScanHolds(lines);
    ScanKeepsWords(lines, "");
    ScanKeepsShape(lines);
    ClosedKeepsShape(s);
    ClosedRoutes(s, SectionsIn(lines));
    ShapedMeans(Closed(s));
    LeadIsAdded(Closed(s).m, Closed(s).lead, Closed(s).explicitBrief);
    assert Parse(lines) == ApplyLead(Closed(s).m, Closed(s).lead, Closed(s).explicitBrief);
  }

  lemma ClosedRoutes(s: State, c: Sections)
    requires Holds(s, c)
    ensures Closed(s).m == RoutedAll(c.All()) && (Closed(s).explicitBrief <==> HasBrief(c.All()))
  {
    var t := if s.verbatim == "" then s else CloseVerbatim(s);
    VerbatimHolds(s, "", c);
    FlushHolds(t, c);
    CloseListKeepsCommand(Flush(t));
    hide Flush, RoutedAll, CloseVerbatim, CloseList;
  }

  lemma LeadIsAdded(m: Comment, lead: seq<Block>, explicitBrief: bool)
    requires m.brief != "" ==> explicitBrief
    ensures var c := ApplyLead(m, lead, explicitBrief);
            c == m.(brief := c.brief, detail := c.detail) && (m.brief != "" ==> c.brief == m.brief) &&
                m.detail <= c.detail
  {
    hide BlockText, BriefAt;
  }

  // ---- a blank line ends what is open ----

  /** Nothing is open: what follows starts afresh. */
  ghost predicate Idle(s: State) {
    s == START.(m := s.m, lead := s.lead, explicitBrief := s.explicitBrief)
  }

  /** Text behind a marker that names no command. */
  ghost predicate Bare(s: State) { s.cmd == "" && !s.haveLeadPara && s.buf != "" }

  ghost predicate Settled(s: State) {
    && (s.cmd == "" ==> s.dir == "") && (s.cmd != "" ==> !s.haveLeadPara)
    && (s.verbatim == "" ==> s.body == [] && s.language == "")
    && (s.verbatim != "" ==> s.cmd == "" && s.buf == "" && !s.haveLeadPara)
  }

  /** A `@` or `\` that stands alone in front of some text. */
  predicate BareLine(line: string)
    decreases |line|
  {
    match Parsed(line)
    case None => false
    case Some((word, rest)) => if TakesNothing(word.name) then BareLine(rest) else word.name == "" && rest != ""
  }

  /** The last line with text, outside a verbatim block, starts with a bare marker. */
  predicate BareAfter(lines: seq<string>) {
    if lines == [] then false
    else
      var init, line := lines[..|lines| - 1], lines[|lines| - 1];
      OpenAfter(init) == "" && if Fence.Blank(line) then BareAfter(init) else BareLine(line)
  }

  lemma BlankEndsAllButBare(s: State)
    requires Settled(s) && s.verbatim == ""
    ensures Settled(BlankLine(s)) && BlankLine(s).verbatim == ""
    ensures (Idle(BlankLine(s)) <==> !Bare(s)) && (Bare(BlankLine(s)) <==> Bare(s))
  {
    Flushed(s);
    hide Flush;
  }

  lemma ProseIsNotBare(s: State, line: string)
    requires Settled(s) && s.verbatim == ""
    ensures Settled(ProseLine(s, line)) && !Bare(ProseLine(s, line)) && ProseLine(s, line).verbatim == ""
  {
    Flushed(s);
    hide Flush, TakesParagraph;
  }

  lemma CommandSettles(s: State, w: Word, rest: string)
    requires Settled(s) && s.verbatim == "" && (w.name == "" ==> w.direction == "")
    ensures Settled(Command(s, w, rest)) && (TakesNothing(w.name) ==> Command(s, w, rest).verbatim == "")
    ensures Bare(Command(s, w, rest)) <==> w.name == "" && rest != ""
  {
    BlockIsNotNothing(w.name);
    NoNameNoItem();
    NoNameTakesNoLine();
    Flushed(s);
    var open := Flush(s).(cmd := w.name, dir := w.direction, buf := rest);
    Flushed(open);
    hide Flush, OpensBlock, TakesNothing, TakesLine, Routed, IsListItem;
  }

  lemma BlankIsNoCommand(line: string)
    requires Fence.Blank(line)
    ensures Parsed(line) == None && !BareLine(line)
  {
  }

  lemma {:induction false} TextSettles(s: State, line: string)
    requires Settled(s) && s.verbatim == ""
    ensures Settled(ScanText(s, line))
    ensures Bare(ScanText(s, line)) <==> if Fence.Blank(line) then Bare(s) else BareLine(line)
    decreases |line|
  {
    hide Command, BlankLine, ProseLine, Parsed, TakesNothing, Settled, Bare, OpensBlock;
    if Fence.Blank(line) {
      BlankIsNoCommand(line);
    }
    NoDirectionWithoutName(line);
    match Parsed(line)
    case None =>
      if Fence.Blank(line) {
        BlankEndsAllButBare(s);
      } else {
        ProseIsNotBare(s, line);
      }
    case Some((word, rest)) =>
      CommandSettles(s, word, rest);
      NoNameNoItem();
      if TakesNothing(word.name) {
        if Fence.Blank(rest) {
          BlankIsNoCommand(rest);
        } else {
          TextSettles(Command(s, word, rest), rest);
        }
      }
  }

  lemma BodySettles(s: State, line: string)
    requires Settled(s) && s.verbatim != ""
    ensures Settled(CloseVerbatim(s)) && Settled(s.(body := s.body + [line]))
    ensures !Bare(CloseVerbatim(s)) && !Bare(s.(body := s.body + [line]))
  {
    hide Fence.Block;
  }

  lemma {:induction false} ScanSettles(lines: seq<string>)
    ensures var s := ScanLines(START, lines); Settled(s) && (Bare(s) <==> BareAfter(lines))
  {
    if lines != [] {
      var init, line := lines[..|lines| - 1], lines[|lines| - 1];
      ScanSettles(init);
      ScanKeepsWords(init, "");
      var s := ScanLines(START, init);
      hide ScanText, EndsBlock, BareLine, OpenAfter, Settled, Bare, Held, WordsIn, CloseVerbatim;
      if s.verbatim == "" {
        TextSettles(s, line);
      } else {
        BodySettles(s, line);
      }
    }
  }

  /** A blank line outside a verbatim block ends whatever is open, so no paragraph argument runs past it, exactly
      when the last text before it does not start with a bare marker. */
  lemma BlankLineEnds(lines: seq<string>, blank: string)
    requires OpenAfter(lines) == "" && Fence.Blank(blank)
    ensures Idle(ScanLines(START, lines + [blank])) <==> !BareAfter(lines)
  {
    ScanSettles(lines);
    ScanKeepsWords(lines, "");
    var s := ScanLines(START, lines);
    BlankEndsAllButBare(s);
    BlankIsNoCommand(blank);
    Sequences.Added(lines, blank);
    hide BlankLine, Settled, Bare, BareAfter, OpenAfter, Held, WordsIn, Parsed;
    assert ScanLine(s, blank) == BlankLine(s);
  }

  /** Such text does run on: a bare marker, a blank line and more prose make one paragraph. */
  lemma BareMarkerRunsOn()
    ensures BareAfter(["@ a"]) && ScanLines(START, ["@ a", "", "b"]).buf == "a b"
  {
    var l := "@ a";
    assert Fence.Lead(l) == 0 && WordEnd(l, 1) == 1;
    assert l[1..1] == "" && l[2..] == "a" && Lower("") == "";
    assert Parsed(l) == Some((Word("", "", ""), "a"));
    assert Fence.Lead("") == 0 && Parsed("") == None;
    assert Fence.Lead("b") == 0 && Parsed("b") == None;
    var all := ["@ a", "", "b"];
    assert all[..2] == ["@ a", ""] && ["@ a", ""][..1] == ["@ a"] && ["@ a"][..0] == [];
    NoNameNoItem();
    NoNameTakesNoLine();
    var s1 := ScanLine(START, l);
    assert s1 == ScanLines(START, ["@ a"]) && s1.buf == "a" && s1.cmd == "" && !s1.haveLeadPara && s1.verbatim == "";
    var s2 := ScanLine(s1, "");
    assert s2 == ScanLines(START, ["@ a", ""]) && s2.buf == "a" && s2.cmd == "" && s2.verbatim == "";
    assert ScanLine(s2, "b").buf == "a" + " " + "b";
  }

  // ---- the stored form ----

  function BlockTexts(bs: seq<Block>): seq<string> { seq(|bs|, i requires 0 <= i < |bs| => BlockText(bs[i])) }

  /** The comment as it is handed to the row encoder. */
  function Stored(c: Comment): Model {
    Model(c.brief, c.returned, c.params, c.tparams, c.retvals, c.throws,
          map f | f in TextFields() :: if f == "detail" then BlockTexts(c.detail)
                                       else if f == "see" then c.see
                                       else if f in c.lists then c.lists[f] else [],
          c.custom)
  }

  lemma ParseIsShaped(lines: seq<string>)
    ensures ModelShaped(Parse(lines)) && Parse(lines).custom.Keys == OnlyCustom(CommandsIn(lines))
  {
    var s := ScanLines(START, lines);
    ScanKeepsShape(lines);
    ClosedKeepsShape(s);
    ClosedKeepsWordsEmpty(lines);
    var s' := Closed(s);
    ShapedMeans(s');
    FlushesOf("");
    assert Parse(lines) == ApplyLead(s'.m, s'.lead, s'.explicitBrief);
    hide ModelShaped, LeadShaped, Flushes, OnlyCustom, CommandsIn, ScanLines, Closed, BriefAt, BlockText;
    assert Customs(s') == s'.m.custom.Keys + Flushes("");
    BriefChangesNoRows(s'.m, s'.lead, s'.explicitBrief);
  }

  lemma ClosedKeepsWordsEmpty(lines: seq<string>)
    ensures Closed(ScanLines(START, lines)).cmd == ""
  {
    ScanKeepsWords(lines, "");
    ClosedKeepsWords(ScanLines(START, lines), "");
  }

  lemma BriefChangesNoRows(m: Comment, lead: seq<Block>, explicitBrief: bool)
    ensures ApplyLead(m, lead, explicitBrief).custom == m.custom
    ensures ModelShaped(m) ==> ModelShaped(ApplyLead(m, lead, explicitBrief))
  {
    hide ParamsShaped, CustomShaped, BriefAt, BlockText;
  }

  predicate NameReads(p: Param) { p.direction == "" && ReadsDirected(p.name) }

  predicate IsParam(name: string) { TargetOf(name) == ToParams || TargetOf(name) == ToTparams }

  /** What `parse_raw` returns survives being stored as rows exactly when the lines hold no `\detail` command and no
      parameter section without a direction whose first word starts with a bracketed one. */
  lemma ParsedRoundTrip(lines: seq<string>, keys: seq<string>)
    ensures var m := Stored(Parse(lines));
            Walks(keys, m.custom) ==>
              (FromRows(ToRows(m, keys)) == m <==>
               && "detail" !in CommandsIn(lines)
               && forall s <- SectionsIn(lines).All() :: IsParam(s.name) ==> !NameReads(ParamOf(s)))
  {
    var c := Parse(lines);
    var m := Stored(c);
    if Walks(keys, m.custom) {
      StoredIsValid(c);
      ParseIsShaped(lines);
      RowRoundTrip(m, keys);
      hide FromRows, ToRows, Parse, CommandsIn, Fields;
      SafeParams(c.params);
      SafeParams(c.tparams);
      DetailIsCustom();
      SafeCustom(c.custom);
      ParamsOnLines(lines);
      hide ParamSafe, NameReads, IsCustom, CustomShaped, ParamsShaped, CustomSafe, SectionsIn, IsParam, ParamOf;
    }
  }

  /** The parameters of the comment read like directions exactly when the lines say so. */
  lemma ParamsOnLines(lines: seq<string>)
    ensures var c := Parse(lines);
            (forall s <- SectionsIn(lines).All() :: IsParam(s.name) ==> !NameReads(ParamOf(s))) <==>
            && (forall i | 0 <= i < |c.params| :: !NameReads(c.params[i]))
            && (forall i | 0 <= i < |c.tparams| :: !NameReads(c.tparams[i]))
  {
    var c, sections := Parse(lines), SectionsIn(lines).All();
    CommentIsItsSections(lines);
    ParamsOfSections(sections);
    hide Parse, SectionsIn, NameReads, TargetOf, ParamOf, ParamsOf, RoutedAll;
    EachParam(sections, ToParams, (p: Param) => !NameReads(p));
    EachParam(sections, ToTparams, (p: Param) => !NameReads(p));
    EachAt(c.params, (p: Param) => !NameReads(p));
    EachAt(c.tparams, (p: Param) => !NameReads(p));
  }

  lemma EachAt(ps: seq<Param>, ok: Param -> bool)
    ensures (forall p <- ps :: ok(p)) <==> forall i | 0 <= i < |ps| :: ok(ps[i])
  {
  }

  /** How the router's targets answer to the shapes of the row table. */
  predicate Answers(name: string, shape: Shape) {
    match shape
    case Brief => TargetOf(name) == ToBrief
    case Returns => TargetOf(name) == ToReturns
    case Params => TargetOf(name) == ToParams
    case Tparams => TargetOf(name) == ToTparams
    case Retvals => TargetOf(name) == ToRetvals
    case Throws => TargetOf(name) == ToThrows
    case Texts => if name == "see" then TargetOf(name) == ToSee else TargetOf(name) == ToList && ListRow(name) == name
    case Unlisted => false
  }

  predicate EarlyText(name: string) { name == "since" || name == "deprecated" || name == "note" || name == "warning" }

  predicate MiddleText(name: string) { name == "pre" || name == "post" || name == "invariant" || name == "todo" }

  predicate LateText(name: string) { name == "bug" || name == "author" || name == "version" || name == "date" }

  predicate OwnField(name: string) {
    || name == "brief" || name == "returns" || name == "param" || name == "tparam" || name == "retval"
    || name == "throws" || name == "see"
  }

  lemma FieldNames(name: string)
    requires name in Fields() && name != "detail"
    ensures EarlyText(name) || MiddleText(name) || LateText(name) || OwnField(name)
  {
  }

  lemma EarlyTextAnswers(name: string)
    requires EarlyText(name)
    ensures Answers(name, Texts)
  {
  }

  lemma MiddleTextAnswers(name: string)
    requires MiddleText(name)
    ensures Answers(name, Texts)
  {
  }

  lemma LateTextAnswers(name: string)
    requires LateText(name)
    ensures Answers(name, Texts)
  {
  }

  lemma OwnFieldAnswers(name: string)
    requires OwnField(name) && name in Fields()
    ensures Answers(name, ShapeOf(name))
  {
    hide Fields;
  }

  lemma TextShape(name: string)
    requires name in Fields() && !OwnField(name)
    ensures ShapeOf(name) == Texts
  {
    hide Fields;
  }

  lemma RowNamesAnswer(name: string)
    requires name in Fields() && name != "detail"
    ensures Answers(name, ShapeOf(name))
  {
    hide *;
    FieldNames(name);
    if OwnField(name) {
      OwnFieldAnswers(name);
    } else {
      TextShape(name);
      if EarlyText(name) {
        EarlyTextAnswers(name);
      } else if MiddleText(name) {
        MiddleTextAnswers(name);
      } else {
        LateTextAnswers(name);
      }
    }
  }

  /** One command with this text, routed into an empty comment. */
  ghost predicate HoldsOnly(c: Comment, name: string, text: string) {
    var t := TargetOf(name);
    && (c.brief != "" <==> t == ToBrief) && (c.returned != "" <==> t == ToReturns)
    && (c.params != [] <==> t == ToParams) && (c.tparams != [] <==> t == ToTparams)
    && (c.retvals != [] <==> t == ToRetvals) && (c.throws != [] <==> t == ToThrows)
    && (t == ToSee ==> c.see == [] + [text]) && (t != ToSee && t != ToCopies ==> c.see == [])
    && (t != ToDetail ==> c.detail == [])
    && c.lists == if t == ToList then map[ListRow(name) := [] + [text]] else map[]
  }

  lemma RoutedFromNothing(name: string, text: string, dir: string)
    requires text != ""
    ensures HoldsOnly(Routed(NOTHING, name, text, dir), name, text)
  {
    hide TargetOf, ListRow, SplitFirst, IsBrief;
  }

  lemma TextRowHome(c: Comment, name: string, text: string, f: string)
    requires HoldsOnly(c, name, text) && Answers(name, ShapeOf(name)) && name != "detail" && ShapeOf(f) == Texts
    ensures TextsOf(Stored(c), f) != [] <==> f == name
  {
    TextFieldsAre(f);
    StoredTexts(c, f);
    hide ShapeOf, TargetOf, ListRow, Stored, TextsOf;
  }

  lemma OtherRowHome(c: Comment, name: string, text: string, f: string)
    requires HoldsOnly(c, name, text) && Answers(name, ShapeOf(name)) && ShapeOf(f) != Texts && ShapeOf(f) != Unlisted
    ensures FieldRows(Stored(c), f) != [] <==> f == name
  {
    SameShapeSameName(name, f);
    StoredTexts(c, f);
    hide ShapeOf, TargetOf, ListRow, Stored, TextsOf, TextRows, EncodeArg;
  }

  lemma TextRowsOf(m: Model, f: string)
    requires ShapeOf(f) == Texts
    ensures FieldRows(m, f) != [] <==> TextsOf(m, f) != []
  {
    hide ShapeOf, TextsOf;
  }

  /** A command named like a row is stored under that row and no other: router and row table agree. */
  lemma RowNamesRouteHome(name: string, text: string, dir: string, f: string)
    requires name in Fields() && name != "detail" && text != "" && f in Fields()
    ensures FieldRows(Stored(Routed(NOTHING, name, text, dir)), f) != [] <==> f == name
  {
    hide *;
    RowNamesAnswer(name);
    RoutedFromNothing(name, text, dir);
    FieldShapes(f);
    var c := Routed(NOTHING, name, text, dir);
    if ShapeOf(f) == Texts {
      TextRowHome(c, name, text, f);
      TextRowsOf(Stored(c), f);
    } else {
      OtherRowHome(c, name, text, f);
    }
  }

  lemma SameShapeSameName(a: string, b: string)
    ensures ShapeOf(a) == ShapeOf(b) && ShapeOf(a) != Texts && ShapeOf(a) != Unlisted ==> a == b
  {
    hide Fields;
  }

  /** What the stored form holds, field by field. */
  lemma StoredTexts(c: Comment, f: string)
    ensures var m := Stored(c);
            && m.brief == c.brief && m.returned == c.returned && m.params == c.params && m.tparams == c.tparams
            && m.retvals == c.retvals && m.throws == c.throws
            && (f in TextFields() ==>
                  TextsOf(m, f) == if f == "detail" then BlockTexts(c.detail) else if f == "see" then c.see
                                   else if f in c.lists then c.lists[f] else [])
  {
    hide TextFields, BlockTexts;
  }

  /** The one row name that is no command of the router's own. */
  lemma OnlyDetailClashes(name: string)
    requires name in Fields()
    ensures TargetOf(name) == ToCustom <==> name == "detail"
  {
    DetailIsCustom();
    if name != "detail" {
      RowNamesAnswer(name);
    }
    hide TargetOf, ShapeOf, Fields;
  }

  lemma StoredIsValid(c: Comment)
    ensures Valid(Stored(c))
  {
    hide TextFields, BlockTexts;
  }

  lemma SafeParams(ps: seq<Param>)
    requires ParamsShaped(ps)
    ensures (forall i | 0 <= i < |ps| :: ParamSafe(ps[i])) <==> forall i | 0 <= i < |ps| :: !NameReads(ps[i])
  {
    forall i | 0 <= i < |ps| ensures ParamSafe(ps[i]) <==> !NameReads(ps[i]) {
    }
    hide ParamSafe, NameReads;
  }

  lemma DetailIsCustom()
    ensures IsCustom("detail")
  {
  }

  lemma SafeCustom(custom: map<string, seq<string>>)
    requires CustomShaped(custom)
    ensures CustomSafe(custom) <==> "detail" !in custom
  {
    hide TargetOf, Fields;
    DetailIsAField();
    forall k <- custom ensures k in Fields() <==> k == "detail" {
      if k in Fields() {
        OnlyDetailClashes(k);
      }
    }
  }

  lemma DetailIsAField()
    ensures "detail" in Fields()
  {
    assert Fields()[1] == "detail";
  }
}
