/**
 The raw Doxygen scanner, `parse_raw` of src/cpp/comment/doxygen_raw.cpp: a line-driven state
 machine over the stripped lines of a comment.  Inline markup is taken as it stands.
 */
module RawScan {
  import opened Wrappers
  import opened Words
  import opened CommentRows
  import opened CopyCommands
  import Fence
  import Sequences

  // ---- commands ----

  predicate TakesLine(cmd: string) { cmd == "ingroup" || cmd == "defgroup" || cmd == "addtogroup" }

  predicate TakesNothing(cmd: string) {
    cmd == "internal" || cmd == "endinternal" || cmd == "endcode" || cmd == "endverbatim"
  }

  predicate IsListItem(cmd: string) { cmd == "li" || cmd == "arg" }

  predicate TakesSingleName(cmd: string) {
    || cmd == "class" || cmd == "struct" || cmd == "union" || cmd == "enum" || cmd == "namespace"
    || cmd == "fn" || cmd == "var" || cmd == "typedef" || cmd == "relates"
  }

  predicate TakesParagraph(cmd: string) { !TakesLine(cmd) && !TakesNothing(cmd) && !TakesSingleName(cmd) }

  predicate IsInline(name: string) {
    || name == "c" || name == "p" || name == "b" || name == "e" || name == "em" || name == "a"
    || name == "ref" || name == "link" || name == "n"
  }

  predicate OpensBlock(cmd: string) { cmd == "code" || cmd == "verbatim" }

  predicate IsBrief(cmd: string) { cmd == "brief" || cmd == "short" }

  function LowerChar(c: char): char { if 'A' <= c <= 'Z' then (c as int + 32) as char else c }

  function Lower(s: string): string { seq(|s|, i requires 0 <= i < |s| => LowerChar(s[i])) }

  function CodeLanguage(attr: string): string {
    var lang := if attr != "" && Lower(attr)[0] == '.' then Lower(attr)[1..] else Lower(attr);
    if lang == "unparsed" then "" else lang
  }

  function CanonicalDirection(attr: string): string {
    var t := Lower(attr);
    if t == "in" then "in" else if t == "out" then "out" else if t == "inout" || t == "in,out" then "in,out" else ""
  }

  /** A command word and the attribute glued onto it. */
  datatype Word = Word(name: string, direction: string, language: string)

  /** `split_command_word`. */
  function SplitCommandWord(cmd: string): Word {
    if cmd == "" || (cmd[|cmd| - 1] != ']' && cmd[|cmd| - 1] != '}') then Word(cmd, "", "")
    else
      var close := cmd[|cmd| - 1];
      match Find(cmd, if close == ']' then '[' else '{')
      case None => Word(cmd, "", "")
      case Some(open) =>
        var name, attr := cmd[..open], cmd[open + 1..|cmd| - 1];
        if close == ']' && (name == "param" || name == "tparam") && CanonicalDirection(attr) != ""
        then Word(name, CanonicalDirection(attr), "")
        else if close == '}' && name == "code" then Word(name, "", CodeLanguage(attr))
        else Word(cmd, "", "")
  }

  /** The index of the next blank at or after i, or the end. */
  function WordEnd(line: string, i: nat): (r: nat)
    requires i <= |line|
    ensures i <= r <= |line|
    decreases |line| - i
  {
    if i < |line| && !Fence.IsWs(line[i]) then WordEnd(line, i + 1) else i
  }

  /** The lower-cased word behind a `@` or `\` that starts the line, and the rest of the line. */
  function Marked(line: string): (r: Option<(string, string)>)
    ensures r.Some? ==> |r.value.1| < |line|
  {
    var s := Fence.Lead(line);
    if s == |line| || (line[s] != '@' && line[s] != '\\') then None
    else
      var e := WordEnd(line, s + 1);
      Some((Lower(line[s + 1..e]), if e == |line| then "" else line[e + 1..]))
  }

  /** The block command a line starts with: inline markup is prose. */
  function Parsed(line: string): (r: Option<(Word, string)>)
    ensures r.Some? ==> |r.value.1| < |line|
  {
    match Marked(line)
    case None => None
    case Some((text, rest)) =>
      if IsInline(SplitCommandWord(text).name) then None else Some((SplitCommandWord(text), rest))
  }

  predicate EndsBlock(line: string, verbatim: string) {
    Marked(line).Some? && Marked(line).value.0 == "end" + verbatim
  }

  // ---- the model being filled ----

  datatype Block =
    | Prose(text: string)
    | Bullets(items: seq<string>)
    | Code(kind: string, language: string, lines: seq<string>)

  datatype Comment = Comment(brief: string, returned: string, params: seq<Param>, tparams: seq<Param>,
                             retvals: seq<Pair>, throws: seq<Pair>, see: seq<string>, detail: seq<Block>,
                             lists: map<string, seq<string>>, custom: map<string, seq<string>>)

  const NOTHING := Comment("", "", [], [], [], [], [], [], map[], map[])

  /** The text list a command's argument goes to. */
  function ListRow(name: string): string {
    if name == "remark" || name == "remarks" then "note"
    else if name == "attention" then "warning"
    else if name == "authors" then "author"
    else if name == "note" || name == "warning" || name == "author" || name == "since" || name == "deprecated"
         || name == "pre" || name == "post" || name == "invariant" || name == "todo" || name == "bug"
         || name == "version" || name == "date" then name
    else ""
  }

  datatype Target = ToBrief | ToDetail | ToReturns | ToParams | ToTparams | ToRetvals | ToThrows | ToSee | ToCopies
                  | ToList | ToCustom

  function TargetOf(name: string): Target {
    if IsBrief(name) then ToBrief
    else if name == "details" || name == "par" then ToDetail
    else if name == "return" || name == "returns" || name == "result" then ToReturns
    else if name == "param" then ToParams
    else if name == "tparam" then ToTparams
    else if name == "retval" then ToRetvals
    else if name == "throw" || name == "throws" || name == "exception" then ToThrows
    else if name == "see" || name == "sa" then ToSee
    else if name == "copydoc" || name == "copybrief" || name == "copydetails" then ToCopies
    else if ListRow(name) != "" then ToList
    else ToCustom
  }

  function Sentence(before: string, text: string): string { if before == "" then text else before + " " + text }

  /** `route_command`. */
  function Routed(m: Comment, name: string, text: string, direction: string): Comment {
    var (first, rest) := SplitFirst(text);
    match TargetOf(name)
    case ToBrief => if text == "" then m else m.(brief := Sentence(m.brief, text))
    case ToDetail => if text == "" then m else m.(detail := m.detail + [Prose(text)])
    case ToReturns => m.(returned := Sentence(m.returned, text))
    case ToParams => m.(params := m.params + [Param(first, rest, direction)])
    case ToTparams => m.(tparams := m.tparams + [Param(first, rest, direction)])
    case ToRetvals => m.(retvals := m.retvals + [Pair(first, rest)])
    case ToThrows => m.(throws := m.throws + [Pair(first, rest)])
    case ToSee => m.(see := m.see + [text])
    case ToCopies => if CopyTarget(text) == "" then m else m.(see := m.see + [CopyTarget(text)])
    case ToList => m.(lists := Push(m.lists, ListRow(name), text))
    case ToCustom => m.(custom := Push(m.custom, name, text))
  }

  // ---- the scanner ----

  datatype State = State(m: Comment, lead: seq<Block>, explicitBrief: bool, cmd: string, dir: string, buf: string,
                         haveLeadPara: bool, verbatim: string, language: string, body: seq<string>, items: seq<string>)

  const START := State(NOTHING, [], false, "", "", "", false, "", "", [], [])

  function AddProse(lead: seq<Block>, text: string): seq<Block> { if text == "" then lead else lead + [Prose(text)] }

  function CloseList(s: State): State {
    if s.items == [] then s else s.(lead := s.lead + [Bullets(s.items)], items := [])
  }

  function CloseVerbatim(s: State): State {
    s.(lead := if Fence.Block(s.verbatim, s.language, s.body) == "" then s.lead
               else s.lead + [Code(s.verbatim, s.language, s.body)],
       verbatim := "", language := "", body := [])
  }

  /** A finished bullet. */
  function FlushItem(s: State, text: string): State {
    s.(items := if text == "" then s.items else s.items + [text], buf := "", cmd := "", dir := "")
  }

  /** Any other finished section: lead prose, or the argument of the open command. */
  function FlushSection(s: State, text: string): State {
    var s' := s.(buf := "", cmd := "", dir := "");
    if s.cmd == "" then s'.(lead := AddProse(s.lead, text), haveLeadPara := false)
    else if TakesSingleName(s.cmd) then
      s'.(m := Routed(s.m, s.cmd, SplitFirst(text).0, ""), lead := AddProse(s.lead, SplitFirst(text).1))
    else if TakesNothing(s.cmd) then s'.(m := Routed(s.m, s.cmd, "", ""), lead := AddProse(s.lead, text))
    else s'.(m := Routed(s.m, s.cmd, text, s.dir), explicitBrief := s.explicitBrief || IsBrief(s.cmd))
  }

  function Flush(s: State): State {
    if IsListItem(s.cmd) then FlushItem(s, Normalized(s.buf)) else FlushSection(CloseList(s), Normalized(s.buf))
  }

  /** What a command does; one without an argument leaves the rest of the line to be scanned. */
  function Command(s: State, w: Word, rest: string): State {
    var s' := Flush(s);
    if OpensBlock(w.name) then
      s'.(verbatim := w.name, language := w.language, body := if Fence.Blank(rest) then s'.body else s'.body + [rest])
    else if TakesNothing(w.name) then s'.(m := Routed(s'.m, w.name, "", ""))
    else
      var open := s'.(cmd := w.name, dir := w.direction, buf := rest);
      if TakesLine(w.name) then Flush(open) else open
  }

  function BlankLine(s: State): State { CloseList(if s.cmd != "" || s.haveLeadPara then Flush(s) else s) }

  function ProseLine(s: State, line: string): State {
    var s' := if s.cmd != "" && !TakesParagraph(s.cmd) then Flush(s) else s;
    s'.(buf := Sentence(s'.buf, line), haveLeadPara := s'.haveLeadPara || s'.cmd == "")
  }

  function ScanText(s: State, line: string): State
    decreases |line|
  {
    match Parsed(line)
    case None => if Fence.Blank(line) then BlankLine(s) else ProseLine(s, line)
    case Some((w, rest)) =>
      if TakesNothing(w.name) && !Fence.Blank(rest) then ScanText(Command(s, w, rest), rest) else Command(s, w, rest)
  }

  function ScanLine(s: State, line: string): State {
    if s.verbatim == "" then ScanText(s, line)
    else if EndsBlock(line, s.verbatim) then CloseVerbatim(s)
    else s.(body := s.body + [line])
  }

  function ScanLines(s: State, lines: seq<string>): State {
    if lines == [] then s else ScanLine(ScanLines(s, lines[..|lines| - 1]), lines[|lines| - 1])
  }

  // ---- the lead ----

  /** A `detail` entry as it is stored. */
  function BlockText(b: Block): string {
    match b
    case Prose(text) => text
    case Bullets(items) => BulletText(items)
    case Code(kind, language, lines) => Fence.Block(kind, language, lines)
  }

  function BulletText(items: seq<string>): string {
    if items == [] then ""
    else
      var before := BulletText(items[..|items| - 1]);
      (if before == "" then "" else before + "\n") + "- " + items[|items| - 1]
  }

  predicate IsBlockParagraph(s: string) { "```" <= s || "- " <= s }

  /** The first lead entry that reads as a sentence. */
  function BriefAt(lead: seq<Block>): (r: nat)
    ensures r <= |lead| && forall j | 0 <= j < r :: IsBlockParagraph(BlockText(lead[j]))
    ensures r < |lead| ==> !IsBlockParagraph(BlockText(lead[r]))
  {
    if lead == [] then 0 else if IsBlockParagraph(BlockText(lead[0])) then 1 + BriefAt(lead[1..]) else 0
  }

  /** `apply_lead`. */
  function ApplyLead(m: Comment, lead: seq<Block>, explicitBrief: bool): Comment {
    var at := BriefAt(lead);
    if explicitBrief || at == |lead| then m.(detail := m.detail + lead)
    else m.(brief := BlockText(lead[at]), detail := m.detail + (lead[..at] + lead[at + 1..]))
  }

  /** The entry at i reads as a sentence, and none in front of it does. */
  predicate FirstProse(lead: seq<Block>, i: nat)
    requires i < |lead|
  {
    !IsBlockParagraph(BlockText(lead[i])) && forall j | 0 <= j < i :: IsBlockParagraph(BlockText(lead[j]))
  }

  /** Without a brief of its own a comment is summed up by that entry, and the others are its detail in order. */
  lemma FirstProseIsBrief(m: Comment, lead: seq<Block>, explicitBrief: bool)
    ensures explicitBrief || (forall b <- lead :: IsBlockParagraph(BlockText(b))) ==>
              ApplyLead(m, lead, explicitBrief) == m.(detail := m.detail + lead)
    ensures forall i {:trigger lead[i]} | 0 <= i < |lead| && !explicitBrief && FirstProse(lead, i) ::
              ApplyLead(m, lead, explicitBrief) ==
              m.(brief := BlockText(lead[i]), detail := m.detail + (lead[..i] + lead[i + 1..]))
  {
    var at := BriefAt(lead);
    hide BlockText, IsBlockParagraph;
    forall i {:trigger lead[i]} | 0 <= i < |lead| && FirstProse(lead, i) ensures i == at {
    }
  }

  function Finish(s: State): Comment {
    var s' := CloseList(Flush(if s.verbatim == "" then s else CloseVerbatim(s)));
    ApplyLead(s'.m, s'.lead, s'.explicitBrief)
  }

  /** What `parse_raw` makes of the stripped lines. */
  function Parse(lines: seq<string>): Comment { Finish(ScanLines(START, lines)) }

  method FindBrief(lead: seq<Block>) returns (at: nat)
    ensures at == BriefAt(lead)
  {
    hide BlockText, IsBlockParagraph;
    at := 0;
    assert lead[0..] == lead;
    while at < |lead| && IsBlockParagraph(BlockText(lead[at]))
      invariant at <= |lead| && BriefAt(lead) == at + BriefAt(lead[at..])
    {
      assert lead[at..][0] == lead[at] && lead[at..][1..] == lead[at + 1..];
      at := at + 1;
    }
    assert at < |lead| ==> lead[at..][0] == lead[at];
  }

  method ApplyLeadInto(m0: Comment, lead: seq<Block>, explicitBrief: bool) returns (m: Comment)
    ensures m == ApplyLead(m0, lead, explicitBrief)
    ensures explicitBrief || (forall b <- lead :: IsBlockParagraph(BlockText(b))) ==>
              m == m0.(detail := m0.detail + lead)
    ensures forall i {:trigger lead[i]} | 0 <= i < |lead| && !explicitBrief && FirstProse(lead, i) ::
              m == m0.(brief := BlockText(lead[i]), detail := m0.detail + (lead[..i] + lead[i + 1..]))
  {
    FirstProseIsBrief(m0, lead, explicitBrief);
    hide BlockText, BriefAt, FirstProse, IsBlockParagraph;
    m := m0;
    var at := |lead|;
    if !explicitBrief {
      at := FindBrief(lead);
    }
    if at < |lead| {
      m := m.(brief := BlockText(lead[at]));
    }
    ghost var briefed := m;
    for i := 0 to |lead|
      invariant m == briefed.(detail := m0.detail + if i <= at then lead[..i] else lead[..at] + lead[at + 1..i])
    {
      if i != at {
        m := m.(detail := m.detail + [lead[i]]);
      }
    }
    assert lead[..|lead|] == lead;
  }

  /** `parse_raw`: one pass over the lines, rescanning a line behind a command that takes no argument. */
  method ParseRaw(lines: seq<string>) returns (m: Comment)
    ensures m == Parse(lines)
  {
    hide Command, CloseVerbatim, BlankLine, ProseLine, EndsBlock, Parsed, TakesNothing, ApplyLead, CloseList, Flush;
    var s := START;
    for i := 0 to |lines|
      invariant s == ScanLines(START, lines[..i])
    {
      assert lines[..i + 1][..i] == lines[..i];
      if s.verbatim != "" {
        s := if EndsBlock(lines[i], s.verbatim) then CloseVerbatim(s) else s.(body := s.body + [lines[i]]);
        continue;
      }
      ghost var scanned := ScanText(s, lines[i]);
      var line := lines[i];
      var again := true;
      while again
        invariant scanned == if again then ScanText(s, line) else s
        decreases again, |line|
      {
        again := false;
        var word := Parsed(line);
        if word == None {
          s := if Fence.Blank(line) then BlankLine(s) else ProseLine(s, line);
        } else {
          var (w, rest) := word.value;
          s := Command(s, w, rest);
          again := TakesNothing(w.name) && !Fence.Blank(rest);
          line := rest;
        }
      }
    }
    assert lines[..|lines|] == lines;
    if s.verbatim != "" {
      s := CloseVerbatim(s);
    }
    s := CloseList(Flush(s));
    m := ApplyLeadInto(s.m, s.lead, s.explicitBrief);
  }

  // ---- no word is lost ----

  function NParams(ps: seq<Param>, w: string): nat {
    if ps == [] then 0
    else NParams(ps[..|ps| - 1], w) + N(ps[|ps| - 1].name, w) + N(ps[|ps| - 1].description, w)
  }

  function NPairs(ps: seq<Pair>, w: string): nat {
    if ps == [] then 0
    else NPairs(ps[..|ps| - 1], w) + N(ps[|ps| - 1].arg, w) + N(ps[|ps| - 1].description, w)
  }

  function NBlock(b: Block, w: string): nat {
    match b
    case Prose(text) => N(text, w)
    case Bullets(items) => NAll(items, w)
    case Code(_, _, lines) => NAll(lines, w)
  }

  function NBlocks(bs: seq<Block>, w: string): nat {
    if bs == [] then 0 else NBlocks(bs[..|bs| - 1], w) + NBlock(bs[|bs| - 1], w)
  }

  ghost function NMap(m: map<string, seq<string>>, w: string): nat
    decreases |m.Keys|
  {
    if m == map[] then 0
    else
      var k :| k in m;
      assert |(m - {k}).Keys| < |m.Keys| by { Fewer(m, k); }
      NAll(m[k], w) + NMap(m - {k}, w)
  }

  lemma Fewer(m: map<string, seq<string>>, k: string)
    requires k in m
    ensures |(m - {k}).Keys| < |m.Keys|
  {
    assert (m - {k}).Keys == m.Keys - {k};
  }

  /** How often w occurs in the fields of a comment. */
  ghost function NComment(m: Comment, w: string): nat {
    N(m.brief, w) + N(m.returned, w) + NParams(m.params, w) + NParams(m.tparams, w) + NPairs(m.retvals, w)
    + NPairs(m.throws, w) + NAll(m.see, w) + NBlocks(m.detail, w) + NMap(m.lists, w) + NMap(m.custom, w)
  }

  /** How often w occurs in what becomes of a command's argument: a copy command keeps its target only. */
  function NKept(name: string, text: string, w: string): nat {
    if TargetOf(name) == ToCopies then N(CopyTarget(Normalized(text)), w) else N(text, w)
  }

  /** How often w occurs in what the scanner holds. */
  ghost function Held(s: State, w: string): nat {
    NComment(s.m, w) + NBlocks(s.lead, w) + NKept(s.cmd, s.buf, w) + NAll(s.body, w) + NAll(s.items, w)
  }

  // ---- the sections of a comment ----

  /** A command and its whole argument as it stands in the lines. */
  datatype Section = Section(name: string, direction: string, text: string)

  /** The sections so far; the last may still run on. */
  datatype Sections = Sections(closed: seq<Section>, open: Option<Section>) {
    function All(): seq<Section> { match open case None => closed case Some(s) => closed + [s] }

    function Closed(): Sections { Sections(All(), None) }

    /** Prose carries a paragraph on. */
    function Extended(line: string): Sections {
      if open.Some? && TakesParagraph(open.value.name)
      then Sections(closed, Some(open.value.(text := Sentence(open.value.text, line)))) else Closed()
    }

    function Then(more: Sections): Sections { Sections(All() + more.closed, more.open) }

    /** Across a line outside verbatim blocks: prose carries an argument on, a blank line or a command ends it. */
    function Across(line: string): Sections {
      match Parsed(line)
      case None => if Fence.Blank(line) then Closed() else Extended(line)
      case Some(_) => Then(SectionsOf(line))
    }

    predicate Copying() { open.Some? && TargetOf(open.value.name) == ToCopies }
  }

  const NO_SECTIONS := Sections([], None)

  /** What a command at the start of a line opens. */
  function Begun(word: Word, rest: string): Sections {
    var s := Section(word.name, word.direction, rest);
    if OpensBlock(word.name) || word.name == "" then NO_SECTIONS
    else if TakesNothing(word.name) then Sections([Section(word.name, "", "")], None)
    else if TakesLine(word.name) then Sections([s], None)
    else Sections([], Some(s))
  }

  /** The sections a line starts with its commands. */
  function SectionsOf(line: string): Sections
    decreases |line|
  {
    match Parsed(line)
    case None => NO_SECTIONS
    case Some((word, rest)) =>
      if TakesNothing(word.name) then Begun(word, rest).Then(SectionsOf(rest)) else Begun(word, rest)
  }

  /** The sections of the lines, by the lines alone. */
  function SectionsIn(lines: seq<string>): Sections {
    if lines == [] then NO_SECTIONS
    else
      var init, line := lines[..|lines| - 1], lines[|lines| - 1];
      if OpenAfter(init) == "" then SectionsIn(init).Across(line) else SectionsIn(init)
  }

  /** How often w occurs in the targets of the copy commands among these sections. */
  function NTargets(sections: seq<Section>, w: string): nat {
    if sections == [] then 0
    else NTargets(sections[..|sections| - 1], w) + NTarget(sections[|sections| - 1], w)
  }

  function NTarget(s: Section, w: string): nat {
    if TargetOf(s.name) == ToCopies then N(CopyTarget(Normalized(s.text)), w) else 0
  }

  lemma NTargetsAdd(sections: seq<Section>, s: Section, w: string)
    ensures NTargets(sections + [s], w) == NTargets(sections, w) + NTarget(s, w)
  {
    Sequences.Added(sections, s);
  }

  /** How often w occurs in a line outside a verbatim block, apart from command words with their attributes and the
      arguments of copy commands. */
  function LineWords(line: string, copying: bool, w: string): nat
    decreases |line|
  {
    match Parsed(line)
    case None => if copying then 0 else N(line, w)
    case Some((word, rest)) =>
      if TakesNothing(word.name) then LineWords(rest, false, w)
      else if TargetOf(word.name) == ToCopies then 0 else N(rest, w)
  }

  /** The verbatim block a line leaves open. */
  function Opened(line: string): string
    decreases |line|
  {
    match Parsed(line)
    case None => ""
    case Some((word, rest)) =>
      if OpensBlock(word.name) then word.name else if TakesNothing(word.name) then Opened(rest) else ""
  }

  /** The verbatim block that is open after these lines. */
  function OpenAfter(lines: seq<string>): string {
    if lines == [] then ""
    else
      var open, line := OpenAfter(lines[..|lines| - 1]), lines[|lines| - 1];
      if open == "" then Opened(line) else if EndsBlock(line, open) then "" else open
  }

  /** How often w occurs in the lines, apart from command words, their attributes, the arguments of copy commands, and
      lines that close a block. */
  function WordsIn(lines: seq<string>, w: string): nat {
    if lines == [] then 0
    else
      var init, line := lines[..|lines| - 1], lines[|lines| - 1];
      var open := OpenAfter(init);
      WordsIn(init, w) + if open == "" then LineWords(line, SectionsIn(init).Copying(), w)
                         else if EndsBlock(line, open) then 0 else N(line, w)
  }

  lemma {:induction false} NMapRemove(m: map<string, seq<string>>, k: string, w: string)
    requires k in m
    ensures NMap(m, w) == NAll(m[k], w) + NMap(m - {k}, w)
    decreases |m.Keys|
  {
    var k' :| k' in m && NMap(m, w) == NAll(m[k'], w) + NMap(m - {k'}, w);
    if k' != k {
      Fewer(m, k');
      NMapRemove(m - {k'}, k, w);
      Fewer(m, k);
      NMapRemove(m - {k}, k', w);
      assert m - {k} - {k'} == m - {k'} - {k};
    }
  }

  lemma NMapPush(m: map<string, seq<string>>, k: string, v: string, w: string)
    ensures NMap(Push(m, k, v), w) == NMap(m, w) + N(v, w)
  {
    var m' := Push(m, k, v);
    NMapRemove(m', k, w);
    NAllAdd(if k in m then m[k] else [], v, w);
    if k in m {
      NMapRemove(m, k, w);
      assert m' - {k} == m - {k};
    } else {
      assert m' - {k} == m;
    }
  }

  lemma NSentence(before: string, text: string, w: string)
    ensures N(Sentence(before, text), w) == N(before, w) + N(text, w)
  {
    NNothing(w);
    NSpaced(before, text, w);
  }

  lemma AddedBlock(bs: seq<Block>, b: Block, w: string)
    ensures NBlocks(bs + [b], w) == NBlocks(bs, w) + NBlock(b, w)
  {
    Sequences.Added(bs, b);
  }

  lemma AddedParam(ps: seq<Param>, p: Param, w: string)
    ensures NParams(ps + [p], w) == NParams(ps, w) + N(p.name, w) + N(p.description, w)
  {
    Sequences.Added(ps, p);
  }

  lemma AddedPair(ps: seq<Pair>, p: Pair, w: string)
    ensures NPairs(ps + [p], w) == NPairs(ps, w) + N(p.arg, w) + N(p.description, w)
  {
    Sequences.Added(ps, p);
  }

  lemma RouteKeepsWords(m: Comment, name: string, text: string, dir: string, w: string)
    ensures NComment(Routed(m, name, text, dir), w) ==
            NComment(m, w) + if TargetOf(name) == ToCopies then N(CopyTarget(text), w) else N(text, w)
  {
    hide TargetOf, ListRow, NMap, Push, N, Sentence, SplitFirst, NParams, NPairs, NAll, NBlocks, CopyTarget;
    var (first, rest) := SplitFirst(text);
    NSplitFirst(text, w);
    NNothing(w);
    match TargetOf(name)
    case ToBrief => NSentence(m.brief, text, w);
    case ToDetail => AddedBlock(m.detail, Prose(text), w);
    case ToReturns => NSentence(m.returned, text, w);
    case ToParams => AddedParam(m.params, Param(first, rest, dir), w);
    case ToTparams => AddedParam(m.tparams, Param(first, rest, dir), w);
    case ToRetvals => AddedPair(m.retvals, Pair(first, rest), w);
    case ToThrows => AddedPair(m.throws, Pair(first, rest), w);
    case ToSee => NAllAdd(m.see, text, w);
    case ToCopies => NAllAdd(m.see, CopyTarget(text), w);
    case ToList => NMapPush(m.lists, ListRow(name), text, w);
    case ToCustom => NMapPush(m.custom, name, text, w);
  }

  lemma ProseKeepsWords(lead: seq<Block>, text: string, w: string)
    ensures NBlocks(AddProse(lead, text), w) == NBlocks(lead, w) + N(text, w)
  {
    NNothing(w);
    AddedBlock(lead, Prose(text), w);
  }

  lemma CloseListKeepsWords(s: State, w: string)
    ensures Held(CloseList(s), w) == Held(s, w)
  {
    AddedBlock(s.lead, Bullets(s.items), w);
    NNothing(w);
  }

  lemma CloseVerbatimKeepsWords(s: State, w: string)
    ensures Held(CloseVerbatim(s), w) == Held(s, w)
  {
    NNothing(w);
    AddedBlock(s.lead, Code(s.verbatim, s.language, s.body), w);
    if Fence.Block(s.verbatim, s.language, s.body) == "" {
      EmptyBlockHasNoWords(s.verbatim, s.language, s.body, w);
    }
  }

  /** A verbatim block that prints as nothing holds nothing. */
  lemma EmptyBlockHasNoWords(kind: string, language: string, lines: seq<string>, w: string)
    requires Fence.Block(kind, language, lines) == ""
    ensures NAll(lines, w) == 0
  {
    PrintedIsNotEmpty(kind, language, lines);
    BodyKeepsWords(lines, w);
    NNothing(w);
  }

  lemma PrintedIsNotEmpty(kind: string, language: string, lines: seq<string>)
    ensures Fence.Block(kind, language, lines) == "" ==> Fence.Kept(lines) == []
  {
    hide Fence.Terminated, Fence.Kept, Fence.IndentOf, Fence.DedentAll;
    assert Fence.Kept(lines) != [] ==> |Fence.Backticks(Fence.Ticks(Fence.Kept(lines)))| >= 3;
  }

  /** What is printed of a verbatim block holds every word of it. */
  lemma BodyKeepsWords(lines: seq<string>, w: string)
    ensures NAll(Fence.Body(lines), w) == NAll(lines, w)
  {
    var kept := Fence.Kept(lines);
    DropKeepsWords(lines, w);
    DropKeepsWords(Fence.DropFront(lines), w);
    forall i | 0 <= i < |kept| ensures N(Fence.Dedent(kept[i], Fence.IndentOf(kept)), w) == N(kept[i], w) {
      KeptLineKeepsWords(kept, i, w);
    }
    SameWords(kept, Fence.Body(lines), w);
  }

  lemma KeptLineKeepsWords(kept: seq<string>, i: nat, w: string)
    requires i < |kept|
    ensures N(Fence.Dedent(kept[i], Fence.IndentOf(kept)), w) == N(kept[i], w)
  {
    hide N, Fence.Blank, Fence.Lead;
    if !Fence.Blank(kept[i]) {
      Fence.CommonLeadIsLeast(kept, i);
    }
    DedentKeepsWords(kept[i], Fence.IndentOf(kept), w);
  }

  lemma {:induction false} SameWords(a: seq<string>, b: seq<string>, w: string)
    requires |a| == |b| && forall i | 0 <= i < |a| :: N(a[i], w) == N(b[i], w)
    ensures NAll(a, w) == NAll(b, w)
  {
    hide N;
    if a != [] {
      SameWords(a[..|a| - 1], b[..|b| - 1], w);
    }
  }

  lemma DedentKeepsWords(s: string, indent: nat, w: string)
    requires Fence.Blank(s) || indent <= Fence.Lead(s)
    ensures N(Fence.Dedent(s, indent), w) == N(s, w)
  {
    NNothing(w);
    if Fence.Blank(s) {
      NBlank(s, w);
    } else {
      Sequences.Split(s, indent);
      NBlank(s[..indent], w);
      NConcat(s[..indent], s[indent..], w);
    }
  }

  lemma {:induction false} DropKeepsWords(lines: seq<string>, w: string)
    ensures NAll(Fence.DropFront(lines), w) == NAll(lines, w)
    ensures NAll(Fence.DropBack(lines), w) == NAll(lines, w)
  {
    if lines != [] {
      DropKeepsWords(lines[1..], w);
      DropKeepsWords(lines[..|lines| - 1], w);
      NAllCons(lines[0], lines[1..], w);
      assert lines == [lines[0]] + lines[1..];
      if Fence.Blank(lines[0]) {
        NBlank(lines[0], w);
      }
      if Fence.Blank(lines[|lines| - 1]) {
        NBlank(lines[|lines| - 1], w);
      }
    }
  }

  lemma {:induction false} NAllCons(s: string, lines: seq<string>, w: string)
    ensures NAll([s] + lines, w) == N(s, w) + NAll(lines, w)
  {
    hide N;
    if lines == [] {
      assert [s] + lines == [] + [s];
      NAllAdd([], s, w);
    } else {
      assert ([s] + lines)[..|lines|] == [s] + lines[..|lines| - 1];
      NAllCons(s, lines[..|lines| - 1], w);
    }
  }

  /** A copy command takes a paragraph and is nothing else. */
  lemma CopyIsNothingElse(name: string)
    ensures TargetOf(name) == ToCopies ==>
              && name != "" && !IsListItem(name) && !TakesSingleName(name) && !TakesNothing(name) && !TakesLine(name)
              && !OpensBlock(name) && TakesParagraph(name)
  {
  }

  lemma NotCopied(name: string, text: string, w: string)
    requires name == "" || TakesSingleName(name) || TakesNothing(name) || IsListItem(name) || TakesLine(name)
    ensures TargetOf(name) != ToCopies && NKept(name, text, w) == N(text, w)
  {
    CopyIsNothingElse(name);
    hide TargetOf;
  }

  lemma FlushSectionKeepsWords(s: State, text: string, w: string)
    requires text == Normalized(s.buf)
    ensures Held(FlushSection(s, text), w) == Held(s, w)
  {
    hide TakesSingleName, TakesNothing, IsBrief, Routed, NComment, AddProse, SplitFirst, N, NAll, NBlocks, TargetOf;
    hide Normalized, CopyTarget;
    NNothing(w);
    NNormalized(s.buf, w);
    NotCopied("", "", w);
    if s.cmd == "" {
      ProseKeepsWords(s.lead, text, w);
    } else if TakesSingleName(s.cmd) {
      NotCopied(s.cmd, s.buf, w);
      NSplitFirst(text, w);
      ProseKeepsWords(s.lead, SplitFirst(text).1, w);
      RouteKeepsWords(s.m, s.cmd, SplitFirst(text).0, "", w);
    } else if TakesNothing(s.cmd) {
      NotCopied(s.cmd, s.buf, w);
      ProseKeepsWords(s.lead, text, w);
      RouteKeepsWords(s.m, s.cmd, "", "", w);
    } else {
      RouteKeepsWords(s.m, s.cmd, text, s.dir, w);
    }
  }

  lemma FlushKeepsWords(s: State, w: string)
    ensures Held(Flush(s), w) == Held(s, w)
  {
    hide IsListItem, Normalized, FlushSection, N, NAll, NBlocks, NComment, TargetOf, CopyTarget;
    NNormalized(s.buf, w);
    NNothing(w);
    NotCopied("", "", w);
    if IsListItem(s.cmd) {
      NotCopied(s.cmd, s.buf, w);
      NAllAdd(s.items, Normalized(s.buf), w);
    } else {
      CloseListKeepsWords(s, w);
      FlushSectionKeepsWords(CloseList(s), Normalized(s.buf), w);
    }
  }

  /** What flushing leaves behind. */
  lemma Flushed(s: State)
    ensures var s' := Flush(s);
            && s'.cmd == "" && s'.dir == "" && s'.buf == "" && s'.verbatim == s.verbatim && s'.body == s.body
            && s'.language == s.language
            && (s.cmd == "" ==> !s'.haveLeadPara) && (s.cmd != "" ==> s'.haveLeadPara == s.haveLeadPara)
            && (!IsListItem(s.cmd) ==> s'.items == [])
  {
    hide IsListItem, Normalized, Routed, TakesSingleName, TakesNothing, IsBrief, AddProse;
    assert s.cmd == "" ==> !IsListItem(s.cmd) by { NoNameNoItem(); }
  }

  lemma NoNameNoItem()
    ensures !IsListItem("") && !TakesSingleName("") && !TakesNothing("") && TakesParagraph("") && !OpensBlock("")
  {
  }

  lemma CommandKeepsWords(s: State, word: Word, rest: string, w: string)
    requires s.verbatim == "" && s.body == []
    ensures Held(Command(s, word, rest), w) ==
            Held(s, w) + if TakesNothing(word.name) then 0 else NKept(word.name, rest, w)
  {
    CopyIsNothingElse(word.name);
    NotCopied("", "", w);
    BlockIsNotNothing(word.name);
    Flushed(s);
    FlushKeepsWords(s, w);
    NNothing(w);
    hide Flush, N, NAll, NBlocks, NComment, TakesNothing, TakesLine, OpensBlock, Routed, TargetOf, CopyTarget;
    hide Normalized;
    var s' := Flush(s);
    if OpensBlock(word.name) {
      NAllAdd(s'.body, rest, w);
      if Fence.Blank(rest) {
        NBlank(rest, w);
      }
    } else if TakesNothing(word.name) {
      RouteKeepsWords(s'.m, word.name, "", "", w);
    } else {
      FlushKeepsWords(s'.(cmd := word.name, dir := word.direction, buf := rest), w);
    }
  }

  lemma BlockIsNotNothing(name: string)
    ensures OpensBlock(name) ==> !TakesNothing(name) && !TakesLine(name) && name != ""
  {
  }

  lemma LineKeepsWords(s: State, line: string, w: string)
    ensures Held(BlankLine(s), w) == Held(s, w)
    ensures Held(ProseLine(s, line), w) ==
            Held(s, w) + if TargetOf(s.cmd) == ToCopies
                         then NKept(s.cmd, Sentence(s.buf, line), w) - NKept(s.cmd, s.buf, w)
                         else N(line, w)
  {
    FlushKeepsWords(s, w);
    CloseListKeepsWords(if s.cmd != "" || s.haveLeadPara then Flush(s) else s, w);
    ProseKeepsLine(if s.cmd != "" && !TakesParagraph(s.cmd) then Flush(s) else s, line, w);
    CopyIsNothingElse(s.cmd);
    NotCopied("", "", w);
    Flushed(s);
    hide Flush, Held, NKept, TakesParagraph, CloseList, TargetOf, Sentence;
  }

  /** A line of prose joins what is open. */
  lemma ProseKeepsLine(s: State, line: string, w: string)
    ensures var s' := s.(buf := Sentence(s.buf, line), haveLeadPara := s.haveLeadPara || s.cmd == "");
            Held(s', w) == Held(s, w) + if TargetOf(s.cmd) == ToCopies
                                        then NKept(s.cmd, s'.buf, w) - NKept(s.cmd, s.buf, w)
                                        else N(line, w)
  {
    hide N, NAll, NBlocks, NComment, TargetOf, CopyTarget, Normalized, Sentence;
    NSentence(s.buf, line, w);
  }

  lemma LineKeepsBlock(s: State, line: string)
    ensures BlankLine(s).verbatim == s.verbatim && BlankLine(s).body == s.body
    ensures ProseLine(s, line).verbatim == s.verbatim && ProseLine(s, line).body == s.body
  {
    Flushed(s);
    hide Flush;
  }

  /** What a command leaves open. */
  lemma CommandOpens(s: State, word: Word, rest: string)
    requires s.verbatim == "" && s.body == []
    ensures var s' := Command(s, word, rest);
            && s'.verbatim == (if OpensBlock(word.name) then word.name else "")
            && (s'.verbatim == "" ==> s'.body == [])
  {
    BlockIsNotNothing(word.name);
    Flushed(s);
    Flushed(Flush(s).(cmd := word.name, dir := word.direction, buf := rest));
    hide Flush, OpensBlock, TakesLine, TakesNothing, Routed;
  }

  /** The scanner and the reading of the lines agree on the section that is open. */
  ghost predicate SameOpen(s: State, c: Sections) {
    c.open == if s.cmd == "" then None else Some(Section(s.cmd, s.dir, s.buf))
  }

  lemma LineKeepsOpen(s: State, line: string, c: Sections)
    requires SameOpen(s, c)
    ensures SameOpen(BlankLine(s), c.Closed()) && SameOpen(ProseLine(s, line), c.Extended(line))
  {
    NoNameNoItem();
    Flushed(s);
    hide Flush, TakesParagraph, CloseList;
    CloseListKeepsCommand(if s.cmd != "" || s.haveLeadPara then Flush(s) else s);
  }

  lemma CloseListKeepsCommand(s: State)
    ensures CloseList(s).cmd == s.cmd && CloseList(s).buf == s.buf && CloseList(s).m == s.m
  {
  }

  lemma CommandKeepsOpen(s: State, word: Word, rest: string, c: Sections)
    requires word.name == "" ==> word.direction == ""
    ensures SameOpen(Command(s, word, rest), c.Then(Begun(word, rest)))
  {
    BlockIsNotNothing(word.name);
    NoNameNoItem();
    NoNameTakesNoLine();
    Flushed(s);
    Flushed(Flush(s).(cmd := word.name, dir := word.direction, buf := rest));
    hide Flush, TakesNothing, TakesLine, OpensBlock, Routed;
  }

  lemma NoNameTakesNoLine()
    ensures !TakesLine("")
  {
  }

  lemma NoDirectionWithoutName(line: string)
    ensures Parsed(line).Some? && Parsed(line).value.0.name == "" ==> Parsed(line).value.0.direction == ""
  {
    hide Marked, IsInline, CodeLanguage, CanonicalDirection;
  }

  /** Only a copy command has a target, and what it opens is its argument. */
  lemma BegunTargets(word: Word, rest: string, c: Sections, w: string)
    ensures NTargets(c.Then(Begun(word, rest)).All(), w) ==
            NTargets(c.All(), w) + if TargetOf(word.name) == ToCopies then NKept(word.name, rest, w) else 0
  {
    CopyIsNothingElse(word.name);
    NotCopied("", "", w);
    var b, all := Begun(word, rest), c.All();
    hide TargetOf, OpensBlock, TakesNothing, TakesLine, TakesParagraph, NTargets;
    if b.All() != [] {
      assert c.Then(b).All() == all + [b.All()[0]];
      NTargetsAdd(all, b.All()[0], w);
    } else {
      assert c.Then(b).All() == all;
    }
  }

  /** Prose changes what the open copy command names, and nothing else. */
  lemma ExtendedTargets(s: State, line: string, c: Sections, w: string)
    requires SameOpen(s, c)
    ensures NTargets(c.Extended(line).All(), w) ==
            NTargets(c.All(), w) +
            if c.Copying() then NKept(s.cmd, Sentence(s.buf, line), w) - NKept(s.cmd, s.buf, w) else 0
    ensures c.Copying() <==> TargetOf(s.cmd) == ToCopies
  {
    CopyIsNothingElse(s.cmd);
    NotCopied("", "", w);
    hide TargetOf, TakesParagraph, NTargets, Sentence;
    if c.open.Some? {
      NTargetsAdd(c.closed, c.open.value, w);
      NTargetsAdd(c.closed, c.open.value.(text := Sentence(c.open.value.text, line)), w);
    }
  }

  /** Behind a command without an argument the rest of the line counts as a line of its own. */
  lemma AcrossRest(c: Sections, line: string, word: Word, rest: string, w: string)
    requires Parsed(line) == Some((word, rest)) && TakesNothing(word.name)
    ensures if Fence.Blank(rest) then c.Across(line) == c.Then(Begun(word, rest))
            else c.Then(Begun(word, rest)).Across(rest) == c.Across(line)
    ensures !c.Then(Begun(word, rest)).Copying() && LineWords(line, c.Copying(), w) == LineWords(rest, false, w)
    ensures TargetOf(word.name) != ToCopies
  {
    CopyIsNothingElse(word.name);
    BlockIsNotNothing(word.name);
    NoNameNoItem();
    if Fence.Blank(rest) {
      BlankRest(rest, w);
    }
    hide Parsed, TargetOf, TakesNothing, OpensBlock, TakesLine, N, Fence.Blank;
    var b, more := Begun(word, rest), SectionsOf(rest);
    assert b == Sections([Section(word.name, "", "")], None);
    assert SectionsOf(line) == b.Then(more);
    assert Parsed(rest) == None ==> more == NO_SECTIONS;
    Sequences.Assoc(c.All(), b.closed, more.closed);
    Sequences.AddNothing(c.All() + b.closed);
    Sequences.AddNothing(b.closed);
  }

  lemma {:induction false} TextKeepsWords(s: State, line: string, c: Sections, w: string)
    requires s.verbatim == "" && s.body == [] && SameOpen(s, c)
    ensures var s', c' := ScanText(s, line), c.Across(line);
            && Held(s', w) + NTargets(c.All(), w) == Held(s, w) + LineWords(line, c.Copying(), w)
                + NTargets(c'.All(), w)
            && s'.verbatim == Opened(line) && (s'.verbatim == "" ==> s'.body == []) && SameOpen(s', c')
    decreases |line|
  {
    hide Command, Held, BlankLine, ProseLine, Parsed, TakesNothing, TakesLine, OpensBlock, TargetOf, NTargets, Begun;
    hide NKept, TakesParagraph, Sentence;
    match Parsed(line)
    case None =>
      LineKeepsWords(s, line, w);
      LineKeepsBlock(s, line);
      LineKeepsOpen(s, line, c);
      ExtendedTargets(s, line, c, w);
      if Fence.Blank(line) {
        NBlank(line, w);
      }
    case Some((word, rest)) =>
      NoDirectionWithoutName(line);
      CommandKeepsWords(s, word, rest, w);
      CommandOpens(s, word, rest);
      CommandKeepsOpen(s, word, rest, c);
      BegunTargets(word, rest, c, w);
      BlockIsNotNothing(word.name);
      if TakesNothing(word.name) {
        AcrossRest(c, line, word, rest, w);
        if Fence.Blank(rest) {
          BlankRest(rest, w);
        } else {
          TextKeepsWords(Command(s, word, rest), rest, c.Then(Begun(word, rest)), w);
        }
      } else {
        PlainKept(word.name, rest, w);
      }
  }

  lemma PlainKept(name: string, text: string, w: string)
    ensures TargetOf(name) != ToCopies ==> NKept(name, text, w) == N(text, w)
  {
    hide TargetOf;
  }

  lemma BlankRest(line: string, w: string)
    requires Fence.Blank(line)
    ensures LineWords(line, false, w) == 0 && Opened(line) == "" && SectionsOf(line) == NO_SECTIONS
  {
    NBlank(line, w);
  }

  lemma {:induction false} ScanKeepsWords(lines: seq<string>, w: string)
    ensures var s, c := ScanLines(START, lines), SectionsIn(lines);
            && Held(s, w) == WordsIn(lines, w) + NTargets(c.All(), w) && SameOpen(s, c)
            && s.verbatim == OpenAfter(lines) && (s.verbatim == "" ==> s.body == [])
  {
    if lines == [] {
      NNothing(w);
      NotCopied("", "", w);
    } else {
      var init, line := lines[..|lines| - 1], lines[|lines| - 1];
      ScanKeepsWords(init, w);
      var s := ScanLines(START, init);
      hide LineWords, Opened, EndsBlock, ScanText, TargetOf, N, NTargets;
      if s.verbatim == "" {
        TextKeepsWords(s, line, SectionsIn(init), w);
      } else {
        CloseVerbatimKeepsWords(s, w);
        NAllAdd(s.body, line, w);
      }
    }
  }

  /** Whatever is not prose reads as a block. */
  ghost predicate LeadShaped(lead: seq<Block>) {
    forall i | 0 <= i < |lead| :: lead[i].Prose? || IsBlockParagraph(BlockText(lead[i]))
  }

  lemma ApplyLeadKeepsWords(m: Comment, lead: seq<Block>, explicitBrief: bool, w: string)
    requires m.brief != "" ==> explicitBrief
    requires LeadShaped(lead)
    ensures NComment(ApplyLead(m, lead, explicitBrief), w) == NComment(m, w) + NBlocks(lead, w)
  {
    var at := BriefAt(lead);
    NBlocksConcat(m.detail, lead, w);
    if !explicitBrief && at < |lead| {
      BriefIsProse(lead);
      ProseText(lead[at]);
      NBlocksWithout(lead, at, w);
      NBlocksConcat(m.detail, lead[..at] + lead[at + 1..], w);
      NNothing(w);
    }
    hide BlockText, N, NMap, NParams, NPairs, NAll, NBlocks, BriefAt;
  }

  lemma NBlocksWithout(lead: seq<Block>, at: nat, w: string)
    requires at < |lead|
    ensures NBlocks(lead, w) == NBlocks(lead[..at] + lead[at + 1..], w) + NBlock(lead[at], w)
  {
    hide NBlock;
    Sequences.Split(lead, at + 1);
    NBlocksConcat(lead[..at + 1], lead[at + 1..], w);
    NBlocksConcat(lead[..at], lead[at + 1..], w);
    assert lead[..at + 1] == lead[..at] + [lead[at]];
    AddedBlock(lead[..at], lead[at], w);
  }

  lemma ProseText(b: Block)
    requires b.Prose?
    ensures BlockText(b) == b.text
  {
  }

  lemma {:induction false} BriefIsProse(lead: seq<Block>)
    requires LeadShaped(lead)
    ensures BriefAt(lead) < |lead| ==> lead[BriefAt(lead)].Prose?
  {
    hide BlockText, IsBlockParagraph;
    if lead != [] && IsBlockParagraph(BlockText(lead[0])) {
      BriefIsProse(lead[1..]);
    }
  }

  lemma {:induction false} NBlocksConcat(a: seq<Block>, b: seq<Block>, w: string)
    ensures NBlocks(a + b, w) == NBlocks(a, w) + NBlocks(b, w)
  {
    hide NBlock;
    if b == [] {
      assert a + b == a;
    } else {
      assert (a + b)[..|a + b| - 1] == a + b[..|b| - 1];
      NBlocksConcat(a, b[..|b| - 1], w);
    }
  }

  lemma {:induction false} BulletTextStarts(items: seq<string>)
    requires items != []
    ensures "- " <= BulletText(items)
  {
    if |items| > 1 {
      BulletTextStarts(items[..|items| - 1]);
    }
  }

  // ---- what the scanner keeps true ----

  /** What every routed command leaves in the model: directions are canonical, names start with no space, custom
      entries are commands nothing else claims. */
  ghost predicate ModelShaped(m: Comment) {
    ParamsShaped(m.params) && ParamsShaped(m.tparams) && CustomShaped(m.custom)
  }

  ghost predicate CustomShaped(custom: map<string, seq<string>>) {
    forall k <- custom :: custom[k] != [] && TargetOf(k) == ToCustom
  }

  ghost predicate ParamsShaped(ps: seq<Param>) {
    forall i | 0 <= i < |ps| :: DirectionOk(ps[i].direction) && (ps[i].name == "" || ps[i].name[0] != ' ')
  }

  predicate DirectionOk(dir: string) { dir == "" || Canonical(dir) }

  ghost predicate Shaped(s: State) {
    LeadShaped(s.lead) && (s.m.brief != "" ==> s.explicitBrief) && ModelShaped(s.m) && DirectionOk(s.dir)
  }

  lemma PushKeys(m: map<string, seq<string>>, k: string, v: string)
    ensures var m' := Push(m, k, v);
            m'.Keys == m.Keys + {k} && m'[k] != [] && forall k' <- m :: k' != k ==> m'[k'] == m[k']
  {
  }

  lemma PushShaped(custom: map<string, seq<string>>, k: string, v: string)
    requires CustomShaped(custom) && TargetOf(k) == ToCustom
    ensures CustomShaped(Push(custom, k, v))
  {
    hide TargetOf;
    PushKeys(custom, k, v);
  }

  lemma BriefTarget(name: string)
    ensures TargetOf(name) == ToBrief <==> IsBrief(name)
  {
  }

  lemma AddParamShaped(ps: seq<Param>, p: Param)
    requires ParamsShaped(ps) && DirectionOk(p.direction) && (p.name == "" || p.name[0] != ' ')
    ensures ParamsShaped(ps + [p])
  {
  }

  lemma RouteKeepsShape(m: Comment, name: string, text: string, dir: string)
    requires ModelShaped(m) && DirectionOk(dir) && (text == "" || !IsSpace(text[0]))
    ensures ModelShaped(Routed(m, name, text, dir))
    ensures !IsBrief(name) ==> Routed(m, name, text, dir).brief == m.brief
    ensures Routed(m, name, text, dir).custom.Keys == m.custom.Keys + if TargetOf(name) == ToCustom then {name} else {}
  {
    RouteChanges(m, name, text, dir);
    SplitStarts(text);
    var (first, rest) := SplitFirst(text);
    hide TargetOf, IsBrief, DirectionOk, SplitFirst, Push, ParamsShaped, CustomShaped, Routed;
    AddParamShaped(m.params, Param(first, rest, dir));
    AddParamShaped(m.tparams, Param(first, rest, dir));
    if TargetOf(name) == ToCustom {
      PushShaped(m.custom, name, text);
      PushKeys(m.custom, name, text);
    }
  }

  lemma RouteChanges(m: Comment, name: string, text: string, dir: string)
    ensures var (r, p) := (Routed(m, name, text, dir), Param(SplitFirst(text).0, SplitFirst(text).1, dir));
            && r.params == (if TargetOf(name) == ToParams then m.params + [p] else m.params)
            && r.tparams == (if TargetOf(name) == ToTparams then m.tparams + [p] else m.tparams)
            && r.custom == (if TargetOf(name) == ToCustom then Push(m.custom, name, text) else m.custom)
            && (!IsBrief(name) ==> r.brief == m.brief)
  {
    BriefTarget(name);
    hide TargetOf, IsBrief, SplitFirst, Push, Sentence, ListRow;
  }

  lemma AddProseShaped(lead: seq<Block>, text: string)
    requires LeadShaped(lead)
    ensures LeadShaped(AddProse(lead, text))
  {
    hide IsBlockParagraph;
  }

  lemma CloseListKeepsShape(s: State)
    requires Shaped(s)
    ensures Shaped(CloseList(s))
  {
    if s.items != [] {
      BulletTextStarts(s.items);
    }
    hide BulletText, ModelShaped;
  }

  /** The custom keys a flush adds. */
  ghost function Flushes(cmd: string): set<string> {
    if cmd != "" && !IsListItem(cmd) && TargetOf(cmd) == ToCustom then {cmd} else {}
  }

  lemma FlushSectionKeepsShape(s: State, text: string)
    requires Shaped(s) && !IsListItem(s.cmd) && (text == "" || !IsSpace(text[0]))
    ensures Shaped(FlushSection(s, text))
    ensures FlushSection(s, text).m.custom.Keys == s.m.custom.Keys + Flushes(s.cmd)
  {
    SplitStarts(text);
    SinglesAreNotBrief(s.cmd);
    NoDirection();
    AddProseShaped(s.lead, text);
    AddProseShaped(s.lead, SplitFirst(text).1);
    hide SplitFirst, Routed, TakesSingleName, TakesNothing, IsBrief, IsListItem, AddProse, LeadShaped, DirectionOk;
    hide ModelShaped, TargetOf;
    if s.cmd != "" {
      if TakesSingleName(s.cmd) {
        RouteKeepsState(s, SplitFirst(text).0, "", AddProse(s.lead, SplitFirst(text).1), s.explicitBrief);
      } else if TakesNothing(s.cmd) {
        RouteKeepsState(s, "", "", AddProse(s.lead, text), s.explicitBrief);
      } else {
        RouteKeepsState(s, text, s.dir, s.lead, s.explicitBrief || IsBrief(s.cmd));
      }
      hide Flushes, Shaped;
    }
  }

  lemma RouteKeepsState(s: State, text: string, dir: string, lead: seq<Block>, given: bool)
    requires Shaped(s) && DirectionOk(dir) && (text == "" || !IsSpace(text[0])) && LeadShaped(lead)
    requires (s.explicitBrief || IsBrief(s.cmd) ==> given) && s.cmd != "" && !IsListItem(s.cmd)
    ensures var r := s.(buf := "", cmd := "", dir := "", m := Routed(s.m, s.cmd, text, dir), lead := lead,
                        explicitBrief := given);
            Shaped(r) && r.m.custom.Keys == s.m.custom.Keys + Flushes(s.cmd)
  {
    RouteKeepsShape(s.m, s.cmd, text, dir);
    NoDirection();
    hide Routed, IsBrief, IsListItem, LeadShaped, DirectionOk, ModelShaped, TargetOf;
  }

  lemma NoDirection()
    ensures DirectionOk("")
  {
  }

  lemma FlushKeepsShape(s: State)
    requires Shaped(s)
    ensures Shaped(Flush(s))
    ensures Flush(s).m.custom.Keys == s.m.custom.Keys + Flushes(s.cmd)
  {
    NormalizedStarts(s.buf);
    CloseListKeepsShape(s);
    NoDirection();
    hide Normalized, FlushSection, IsListItem, ModelShaped, LeadShaped, DirectionOk;
    if !IsListItem(s.cmd) {
      FlushSectionKeepsShape(CloseList(s), Normalized(s.buf));
    }
  }

  lemma SplitStarts(text: string)
    requires text == "" || !IsSpace(text[0])
    ensures SplitFirst(text).0 == "" || !IsSpace(SplitFirst(text).0[0])
  {
  }

  lemma SinglesAreNotBrief(cmd: string)
    ensures TakesSingleName(cmd) || TakesNothing(cmd) ==> !IsBrief(cmd)
  {
  }

  lemma CloseVerbatimKeepsShape(s: State)
    requires Shaped(s)
    ensures Shaped(CloseVerbatim(s)) && Customs(CloseVerbatim(s)) == Customs(s)
  {
    Fence.BlockStarts(s.verbatim, s.language, s.body);
    hide ModelShaped, DirectionOk, Flushes, Fence.Block;
  }

  /** The block commands of a line. */
  function CommandsOf(line: string): set<string>
    decreases |line|
  {
    match Parsed(line)
    case None => {}
    case Some((word, rest)) => {word.name} + if TakesNothing(word.name) then CommandsOf(rest) else {}
  }

  /** The block commands of the lines outside verbatim blocks. */
  function CommandsIn(lines: seq<string>): set<string> {
    if lines == [] then {}
    else
      var init := lines[..|lines| - 1];
      CommandsIn(init) + if OpenAfter(init) == "" then CommandsOf(lines[|lines| - 1]) else {}
  }

  /** Commands that end up in the custom map. */
  predicate IsCustom(k: string) { k != "" && TargetOf(k) == ToCustom && !IsListItem(k) && !OpensBlock(k) }

  /** The custom commands of a state: those recorded and the open one. */
  ghost function Customs(s: State): set<string> { s.m.custom.Keys + Flushes(s.cmd) }

  ghost function OnlyCustom(ks: set<string>): set<string> { set k | k in ks && IsCustom(k) }

  lemma DirectionOfWord(line: string)
    ensures Parsed(line).Some? ==> DirectionOk(Parsed(line).value.0.direction)
  {
    hide Marked, Lower, IsInline, CodeLanguage;
  }

  lemma CommandKeepsShape(s: State, w: Word, rest: string)
    requires Shaped(s) && DirectionOk(w.direction)
    ensures Shaped(Command(s, w, rest))
    ensures Customs(Command(s, w, rest)) == Customs(s) + OnlyCustom({w.name})
  {
    FlushKeepsShape(s);
    Flushed(s);
    BlockIsNotNothing(w.name);
    NoDirection();
    FlushesOf(w.name);
    var s' := Flush(s);
    if TakesNothing(w.name) {
      RouteKeepsShape(s'.m, w.name, "", "");
    } else if !OpensBlock(w.name) {
      OpenKeepsShape(s', w, rest);
    }
    hide Flush, Routed, TakesNothing, TakesLine, OpensBlock, IsListItem, TargetOf, IsBrief, ModelShaped, LeadShaped,
      DirectionOk, Flushes, OnlyCustom;
  }

  lemma OpenKeepsShape(s: State, w: Word, rest: string)
    requires Shaped(s) && DirectionOk(w.direction)
    ensures var open := s.(cmd := w.name, dir := w.direction, buf := rest);
            && Shaped(open) && Shaped(Flush(open))
            && Customs(open) == s.m.custom.Keys + Flushes(w.name) == Customs(Flush(open))
  {
    var open := s.(cmd := w.name, dir := w.direction, buf := rest);
    FlushesOf("");
    hide ModelShaped, LeadShaped, DirectionOk, Flushes;
    assert Shaped(open);
    FlushKeepsShape(open);
    Flushed(open);
    hide Flush;
  }

  lemma FlushesOf(name: string)
    ensures Flushes("") == {} && OnlyCustom({name}) == if IsCustom(name) then {name} else {}
    ensures TakesNothing(name) ==> IsCustom(name) && !IsBrief(name) && TargetOf(name) == ToCustom
    ensures OpensBlock(name) ==> OnlyCustom({name}) == {}
    ensures !OpensBlock(name) ==> Flushes(name) == OnlyCustom({name})
  {
    NothingIsCustom(name);
    hide TargetOf, IsListItem, OpensBlock, TakesNothing, IsBrief;
  }

  lemma InternalIsCustom()
    ensures IsCustom("internal") && !IsBrief("internal") && IsCustom("endinternal") && !IsBrief("endinternal")
  {
  }

  lemma StrayEndIsCustom()
    ensures IsCustom("endcode") && !IsBrief("endcode") && IsCustom("endverbatim") && !IsBrief("endverbatim")
  {
  }

  lemma NothingIsCustom(name: string)
    ensures TakesNothing(name) ==> IsCustom(name) && !IsBrief(name)
  {
    InternalIsCustom();
    StrayEndIsCustom();
    hide IsCustom, IsBrief;
  }

  lemma LineKeepsShape(s: State, line: string)
    requires Shaped(s)
    ensures Shaped(BlankLine(s)) && Customs(BlankLine(s)) == Customs(s)
    ensures Shaped(ProseLine(s, line)) && Customs(ProseLine(s, line)) == Customs(s)
  {
    FlushKeepsShape(s);
    Flushed(s);
    CloseListKeepsShape(s);
    hide Flush, TakesParagraph, ModelShaped, LeadShaped, DirectionOk, IsListItem, TargetOf;
    CloseListKeepsShape(Flush(s));
  }

  lemma {:induction false} TextKeepsShape(s: State, line: string)
    requires Shaped(s)
    ensures Shaped(ScanText(s, line)) && Customs(ScanText(s, line)) == Customs(s) + OnlyCustom(CommandsOf(line))
    decreases |line|
  {
    hide Command, BlankLine, ProseLine, Parsed, TakesNothing, Shaped, Customs, IsCustom;
    match Parsed(line)
    case None => LineKeepsShape(s, line);
    case Some((word, rest)) =>
      DirectionOfWord(line);
      CommandKeepsShape(s, word, rest);
      if TakesNothing(word.name) {
        if Fence.Blank(rest) {
          BlankHasNoCommand(rest);
        } else {
          TextKeepsShape(Command(s, word, rest), rest);
        }
      }
  }

  lemma BlankHasNoCommand(line: string)
    requires Fence.Blank(line)
    ensures CommandsOf(line) == {}
  {
  }

  lemma OnlyCustomUnion(a: set<string>, b: set<string>)
    ensures OnlyCustom(a + b) == OnlyCustom(a) + OnlyCustom(b) && OnlyCustom({}) == {}
  {
    hide IsCustom;
  }

  lemma CommandsInAdd(lines: seq<string>, line: string)
    ensures OnlyCustom(CommandsIn(lines + [line])) ==
            OnlyCustom(CommandsIn(lines)) + if OpenAfter(lines) == "" then OnlyCustom(CommandsOf(line)) else {}
  {
    Sequences.Added(lines, line);
    OnlyCustomUnion(CommandsIn(lines), if OpenAfter(lines) == "" then CommandsOf(line) else {});
    OnlyCustomUnion({}, {});
    hide OnlyCustom, CommandsOf, OpenAfter;
  }

  lemma StartIsShaped()
    ensures Shaped(START) && Customs(START) == {} == OnlyCustom(CommandsIn([]))
  {
    NoDirection();
    FlushesOf("");
    OnlyCustomUnion({}, {});
  }

  lemma {:induction false} ScanKeepsShape(lines: seq<string>)
    ensures var s := ScanLines(START, lines);
            Shaped(s) && Customs(s) == OnlyCustom(CommandsIn(lines))
  {
    if lines == [] {
      StartIsShaped();
    } else {
      var init, line := lines[..|lines| - 1], lines[|lines| - 1];
      ScanKeepsShape(init);
      ScanKeepsWords(init, "");
      CommandsInAdd(init, line);
      Sequences.ButLast(lines);
      var s := ScanLines(START, init);
      assert ScanLines(START, lines) == ScanLine(s, line);
      hide ScanText, EndsBlock, CommandsOf, OpenAfter, ScanLines, OnlyCustom, Held, WordsIn, Shaped, Customs;
      hide CommandsIn, CloseVerbatim;
      if s.verbatim == "" {
        TextKeepsShape(s, line);
      } else {
        CloseVerbatimKeepsShape(s);
        BodyKeepsShape(s, line);
      }
    }
  }

  lemma BodyKeepsShape(s: State, line: string)
    requires Shaped(s)
    ensures Shaped(s.(body := s.body + [line])) && Customs(s.(body := s.body + [line])) == Customs(s)
  {
    hide ModelShaped, LeadShaped, DirectionOk, Flushes;
  }
}
