/** Template parameter lists recovered from raw tokens. */
module TemplateHead {
  import opened Wrappers
  import opened TokenText
  import Words
  import Sequences

  // `template_head` of src/cpp/parser/cursor_utils.cpp.
  //
  // The closers of nested lists may arrive fused as `>>`.  A token list is first read as units:
  // the same tokens with every list-closing `>>` split in two.  A unit list is balanced when the
  // list it sits in is still open throughout and it closes everything it opened.

  predicate Opens(t: string) { t == "(" || t == "[" || t == "{" }
  predicate Closes(t: string) { t == ")" || t == "]" || t == "}" }

  /** How many angle lists and how many `(`, `[`, `{` groups are open. */
  datatype Depth = Depth(angle: nat, paren: nat)

  const TOP := Depth(1, 0)  // directly inside the parameter list

  /** `in_group`: a bracket, or anything while a bracket is open, is plain text. */
  predicate InGroup(d: Depth, t: string) { Opens(t) || Closes(t) || d.paren > 0 }

  function ParenAfter(paren: nat, t: string): nat {
    if Opens(t) then paren + 1 else if Closes(t) && paren > 0 then paren - 1 else paren
  }

  /** `angle_closes`. */
  function AngleCloses(t: string, angle: int): nat {
    if t == ">" then 1 else if t == ">>" && angle >= 2 then 2 else 0
  }

  /** The effect of one unit. */
  function After(d: Depth, t: string): Depth {
    if InGroup(d, t) then Depth(d.angle, ParenAfter(d.paren, t))
    else if t == "<" then Depth(d.angle + 1, 0)
    else if t == ">" && d.angle > 0 then Depth(d.angle - 1, 0)
    else d
  }

  function AfterAll(d: Depth, u: Tokens): Depth {
    if u == [] then d else After(AfterAll(d, u[..|u| - 1]), u[|u| - 1])
  }

  // ---- what a head is ----

  /** From depth d, `u` keeps the outermost list open and ends directly inside it. */
  ghost predicate Balanced(d: Depth, u: Tokens)
    decreases u
  {
    if u == [] then d == TOP else After(d, u[0]).angle >= 1 && Balanced(After(d, u[0]), u[1..])
  }

  /** `toks` is `u` with some adjacent list closers fused into `>>`: two at a time, outside any group. */
  ghost predicate Fuses(d: Depth, toks: Tokens, u: Tokens)
    decreases toks
  {
    if toks == [] || u == [] then toks == [] && u == []
    else if toks[0] == ">>" && d.paren == 0 && d.angle >= 2
    then |u| >= 2 && u[0] == ">" && u[1] == ">" && Fuses(After(After(d, ">"), ">"), toks[1..], u[2..])
    else toks[0] == u[0] && Fuses(After(d, u[0]), toks[1..], u[1..])
  }

  /** The units up to the closer of the list that is open at depth d, if it is ever closed. */
  function Units(d: Depth, toks: Tokens): Option<Tokens>
    requires d.angle >= 1
    decreases |toks|, 0
  {
    if toks == [] then None
    else
      var t := toks[0];
      if InGroup(d, t) || AngleCloses(t, d.angle) == 0 then Cons([t], Units(After(d, t), toks[1..]))
      else ClosersThen(d.angle, AngleCloses(t, d.angle), toks[1..])
  }

  /** The same when the token just read still has n closers to apply. */
  function ClosersThen(angle: nat, n: nat, rest: Tokens): Option<Tokens>
    requires angle >= 1
    decreases |rest|, n + 1
  {
    if n == 0 then Units(Depth(angle, 0), rest)
    else if angle == 1 then Some([])
    else Cons([">"], ClosersThen(angle - 1, n - 1, rest))
  }

  function Cons(u: Tokens, rest: Option<Tokens>): Option<Tokens> {
    match rest case None => None case Some(v) => Some(u + v)
  }

  /** The tokens of the parameter list: the first `template` must be followed by `<`, and that list must close. */
  function HeadUnits(toks: Tokens): Option<Tokens> {
    if toks == [] then None
    else if toks[0] != "template" then HeadUnits(toks[1..])
    else if |toks| < 2 || toks[1] != "<" then None
    else Units(TOP, toks[2..])
  }

  /** The parameters: the units cut at the commas directly inside the list. */
  function Parameters(u: Tokens): (ps: seq<Tokens>)
    ensures ps != []
  {
    if u == [] then [[]]
    else
      var ps, t := Parameters(u[..|u| - 1]), u[|u| - 1];
      if t == "," && AfterAll(TOP, u[..|u| - 1]) == TOP then ps + [[]]
      else ps[..|ps| - 1] + [ps[|ps| - 1] + [t]]
  }

  /** The text after the first `=` directly inside the list, if the parameter has one. */
  function DefaultOf(p: Tokens): Option<Tokens> {
    if p == [] then None
    else
      var t := p[|p| - 1];
      match DefaultOf(p[..|p| - 1])
      case Some(text) => Some(text + [t])
      case None => if t == "=" && AfterAll(TOP, p[..|p| - 1]) == TOP then Some([]) else None
  }

  function DefaultText(p: Tokens): string { match DefaultOf(p) case None => "" case Some(text) => Joined(text) }

  function DefaultTexts(ps: seq<Tokens>): seq<string> { seq(|ps|, i requires 0 <= i < |ps| => DefaultText(ps[i])) }

  // ---- the scanner ----

  /** Where the loop is: the segments closed so far, the open one, and its default. */
  datatype Scan = Scan(segs: seq<string>, defaults: seq<string>, cur: string, curDefault: string, inDefault: bool) {
    function PushSeg(): Scan { Scan(segs + [cur], defaults + [curDefault], "", "", false) }
    function Emit(t: string): Scan {
      this.(cur := Append(cur, t), curDefault := if inDefault then Append(curDefault, t) else curDefault)
    }
  }

  /** The loop state after the units u: a comma directly inside the list closes a segment, an `=` there starts
      the default, anything else is text. */
  function ScanOf(u: Tokens): Scan {
    if u == [] then Scan([], [], "", "", false)
    else
      var s, t, top := ScanOf(u[..|u| - 1]), u[|u| - 1], AfterAll(TOP, u[..|u| - 1]) == TOP;
      if t == "," && top then s.PushSeg()
      else if t == "=" && top then s.Emit(t).(inDefault := true)
      else s.Emit(t)
  }

  lemma ConsNil(rest: Option<Tokens>)
    ensures Cons([], rest) == rest
  {
    if rest.Some? {
      assert [] + rest.value == rest.value;
    }
  }

  lemma ConsSome(u: Tokens)
    ensures Cons(u, Some([])) == Some(u)
  {
    assert u + [] == u;
  }

  lemma ScanOfAdd(u: Tokens, t: string)
    ensures AfterAll(TOP, u + [t]) == After(AfterAll(TOP, u), t)
    ensures var s, top := ScanOf(u), AfterAll(TOP, u) == TOP;
            ScanOf(u + [t]) == if t == "," && top then s.PushSeg()
                               else if t == "=" && top then s.Emit(t).(inDefault := true)
                               else s.Emit(t)
  {
    assert (u + [t])[..|u|] == u;
  }

  lemma ConsAssoc(u: Tokens, v: Tokens, rest: Option<Tokens>)
    ensures Cons(u, Cons(v, rest)) == Cons(u + v, rest)
  {
    if rest.Some? {
      assert u + (v + rest.value) == u + v + rest.value;
    }
  }

  /** The loop before token i: still looking for `template`, just past it, or inside the list. */
  ghost predicate Scanning(toks: Tokens, i: nat, started: bool, d: Depth, u: Tokens)
    requires i <= |toks|
  {
    && if d.angle > 0 then
         && started
         && AfterAll(TOP, u) == d
         && HeadUnits(toks) == Cons(u, Units(d, toks[i..]))
       else
         && d.paren == 0 && u == []
         && HeadUnits(toks) ==
              if !started then HeadUnits(toks[i..])
              else if i < |toks| && toks[i] == "<" then Units(TOP, toks[i + 1..]) else None
  }

  /** One token that does not close the outermost list becomes the units v. */
  lemma ScanningStep(toks: Tokens, i: nat, d: Depth, u: Tokens, v: Tokens, d': Depth)
    requires i < |toks| && d.angle >= 1 && d'.angle >= 1
    requires HeadUnits(toks) == Cons(u, Units(d, toks[i..]))
    requires Units(d, toks[i..]) == Cons(v, Units(d', toks[i + 1..]))
    ensures HeadUnits(toks) == Cons(u + v, Units(d', toks[i + 1..]))
  {
    ConsAssoc(u, v, Units(d', toks[i + 1..]));
  }

  /** `template_head` on the declaration's tokens. */
  method ReadTemplateHead(toks: Tokens) returns (head: string, defaults: seq<string>)
    ensures match HeadUnits(toks)
            case None => head == "" && defaults == []
            case Some(u) =>
              if Texts(Parameters(u)) == [""] then head == "template<>" && defaults == []
              else head == "template<" + CommaJoined(Texts(Parameters(u))) + ">" &&
                   defaults == DefaultTexts(Parameters(u))
    ensures HeadUnits(toks).Some? && AllClean(toks) ==> Spells(head, defaults, Parameters(HeadUnits(toks).value))
  {
    if AllClean(toks) {
      HeadSpells(toks);
    }
    StartsAtTop();
    hide AllClean, Spells, Texts, CommaJoined, DefaultTexts, Parameters, Units, ClosersThen, AfterAll, ScanOf;
    var s := Scan([], [], "", "", false);
    var started, done := false, false;
    var depth: nat, paren: nat := 0, 0;
    ghost var u: Tokens := [];
    var i := 0;
    assert toks[0..] == toks;
    while i < |toks| && !done
      invariant 0 <= i <= |toks|
      invariant !done ==> Scanning(toks, i, started, Depth(depth, paren), u) && s == ScanOf(u)
      invariant done ==> HeadUnits(toks) == Some(u) && started && s == ScanOf(u).PushSeg()
      decreases |toks| - i
    {
      var t := toks[i];
      assert toks[i..][0] == t && toks[i..][1..] == toks[i + 1..];
      if !started {
        assert t == "template" && i + 1 < |toks| ==> toks[i..][1] == toks[i + 1] && toks[i..][2..] == toks[i + 2..];
        started := t == "template";
      } else if depth == 0 {
        if t != "<" {
          break;
        }
        ConsNil(Units(TOP, toks[i + 1..]));
        depth := 1;
      } else {
        ghost var d := Depth(depth, paren);
        if InGroup(Depth(depth, paren), t) {
          paren := ParenAfter(paren, t);
          s := s.Emit(t);
        } else if t == "<" {
          depth := depth + 1;
          s := s.Emit(t);
        } else if AngleCloses(t, depth) > 0 {
          CloserUnits(d, toks[i..]);
          s, depth, done, u := CloseLists(s, depth, AngleCloses(t, depth), u, toks[i + 1..]);
        } else if t == "," && depth == 1 {
          s := s.PushSeg();
        } else if t == "=" && depth == 1 {
          s := s.Emit(t).(inDefault := true);
        } else {
          s := s.Emit(t);
        }
        if InGroup(d, t) || AngleCloses(t, d.angle) == 0 {
          PlainUnits(d, toks[i..]);
          ScanningStep(toks, i, d, u, [t], After(d, t));
          ScanOfAdd(u, t);
          u := u + [t];
        }
      }
      i := i + 1;
    }
    if done {
      ScanSegments(u);
    }
    if !started || s.segs == [] || !done {
      return "", [];
    }
    if |s.segs| == 1 && s.segs[0] == "" {
      return "template<>", [];
    }
    head := RenderHead(s.segs);
    defaults := s.defaults;
  }

  /** The inner loop: each closer of one token either closes a nested list or ends the head. */
  method CloseLists(s0: Scan, depth0: nat, closes: nat, ghost u0: Tokens, ghost rest: Tokens)
    returns (s: Scan, depth: nat, done: bool, ghost u: Tokens)
    requires 1 <= closes <= depth0 && s0 == ScanOf(u0) && AfterAll(TOP, u0) == Depth(depth0, 0)
    ensures done ==> s == ScanOf(u).PushSeg() && Cons(u0, ClosersThen(depth0, closes, rest)) == Some(u)
    ensures !done ==>
              && depth == depth0 - closes > 0 && s == ScanOf(u) && AfterAll(TOP, u) == Depth(depth, 0)
              && Cons(u0, ClosersThen(depth0, closes, rest)) == Cons(u, Units(Depth(depth, 0), rest))
  {
    hide AfterAll, ScanOf, Units, Cons;
    s, depth, done, u := s0, depth0, false, u0;
    for k := 0 to closes
      invariant !done && depth == depth0 - k > 0 && s == ScanOf(u) && AfterAll(TOP, u) == Depth(depth, 0)
      invariant Cons(u0, ClosersThen(depth0, closes, rest)) == Cons(u, ClosersThen(depth, closes - k, rest))
    {
      depth := depth - 1;
      if depth == 0 {
        ConsSome(u);
        s := s.PushSeg();
        done := true;
        return;
      }
      ScanOfAdd(u, ">");
      AfterCloser(Depth(depth + 1, 0));
      ConsAssoc(u, [">"], ClosersThen(depth, closes - k - 1, rest));
      s := s.Emit(">");
      u := u + [">"];
    }
  }

  method RenderHead(segs: seq<string>) returns (head: string)
    ensures head == "template<" + CommaJoined(segs) + ">"
  {
    head := "template<";
    for k := 0 to |segs|
      invariant head == "template<" + CommaJoined(segs[..k])
    {
      if k != 0 {
        head := head + ", ";
      }
      head := head + segs[k];
      assert segs[..k + 1][..k] == segs[..k];
    }
    assert segs[..|segs|] == segs;
    head := head + ">";
  }

  lemma OneCloser(angle: nat, rest: Tokens)
    requires angle >= 1
    ensures ClosersThen(angle, 1, rest) ==
            if angle == 1 then Some([]) else Cons([">"], Units(Depth(angle - 1, 0), rest))
  {
    if angle > 1 {
      assert ClosersThen(angle - 1, 0, rest) == Units(Depth(angle - 1, 0), rest);
    }
  }

  lemma TwoClosers(angle: nat, rest: Tokens)
    requires angle >= 2
    ensures ClosersThen(angle, 2, rest) ==
            if angle == 2 then Some([">"]) else Cons([">", ">"], Units(Depth(angle - 2, 0), rest))
  {
    OneCloser(angle - 1, rest);
    assert ClosersThen(angle, 2, rest) == Cons([">"], ClosersThen(angle - 1, 1, rest));
    if angle > 2 {
      ConsAssoc([">"], [">"], Units(Depth(angle - 2, 0), rest));
      assert [">"] + [">"] == [">", ">"];
    } else {
      assert [">"] + [] == [">"];
    }
  }

  /** The segments the loop has closed and the one it is filling are the parameters read so far. */
  ghost predicate Reads(s: Scan, u: Tokens) {
    var ps := Parameters(u);
    var p := ps[|ps| - 1];
    && s.segs == Texts(ps[..|ps| - 1]) && s.defaults == DefaultTexts(ps[..|ps| - 1])
    && s.cur == Joined(p) && s.curDefault == DefaultText(p) && (s.inDefault <==> DefaultOf(p).Some?)
    && AfterAll(TOP, p) == AfterAll(TOP, u)
  }

  lemma DefaultTextsAdd(ps: seq<Tokens>, p: Tokens)
    ensures Texts(ps + [p]) == Texts(ps) + [Joined(p)] && DefaultTexts(ps + [p]) == DefaultTexts(ps) + [DefaultText(p)]
  {
    hide Joined, DefaultText;
  }

  lemma ReadsComma(s: Scan, u: Tokens)
    requires Reads(s, u) && AfterAll(TOP, u) == TOP
    ensures Reads(s.PushSeg(), u + [","])
  {
    hide Texts, DefaultTexts, Parameters;
    var ps := Parameters(u);
    var p := ps[|ps| - 1];
    ParametersAdd(u, ",");
    AfterAllAdd(u, ",");
    assert (ps + [[]])[..|ps|] == ps == ps[..|ps| - 1] + [p];
    DefaultTextsAdd(ps[..|ps| - 1], p);
    hide AfterAll;
    assert AfterAll(TOP, []) == TOP by { StartsAtTop(); }
  }

  lemma StartsAtTop()
    ensures AfterAll(TOP, []) == TOP && ScanOf([]) == Scan([], [], "", "", false)
  {
  }

  lemma ReadsToken(s: Scan, u: Tokens, t: string)
    requires Reads(s, u) && !(t == "," && AfterAll(TOP, u) == TOP)
    ensures Reads(s.Emit(t).(inDefault := s.inDefault || (t == "=" && AfterAll(TOP, u) == TOP)), u + [t])
  {
    var ps := Parameters(u);
    var init, p := ps[..|ps| - 1], ps[|ps| - 1];
    ParametersAdd(u, t);
    ScanOfAdd(u, t);
    DefaultOfAdd(p, t);
    JoinedAdd(p, t);
    AfterAllAdd(p, t);
    assert (init + [p + [t]])[..|init|] == init;
    if DefaultOf(p).Some? {
      JoinedAdd(DefaultOf(p).value, t);
    }
  }

  lemma JoinedAdd(ts: Tokens, t: string)
    ensures Joined(ts + [t]) == Append(Joined(ts), t)
  {
    assert (ts + [t])[..|ts|] == ts;
  }

  lemma {:induction false} ScanReads(u: Tokens)
    ensures Reads(ScanOf(u), u)
  {
    if u != [] {
      hide Reads, Parameters, DefaultOf;
      var v, t := u[..|u| - 1], u[|u| - 1];
      assert u == v + [t];
      ScanReads(v);
      ScanOfAdd(v, t);
      if t == "," && AfterAll(TOP, v) == TOP {
        ReadsComma(ScanOf(v), v);
      } else {
        ReadsToken(ScanOf(v), v, t);
        ScanEmits(v, t);
      }
    }
  }

  lemma ScanEmits(v: Tokens, t: string)
    requires !(t == "," && AfterAll(TOP, v) == TOP)
    ensures var s := ScanOf(v);
            ScanOf(v + [t]) == s.Emit(t).(inDefault := s.inDefault || (t == "=" && AfterAll(TOP, v) == TOP))
  {
    ScanOfAdd(v, t);
  }

  lemma ScanSegments(u: Tokens)
    ensures ScanOf(u).PushSeg().segs == Texts(Parameters(u))
    ensures ScanOf(u).PushSeg().defaults == DefaultTexts(Parameters(u))
  {
    ScanReads(u);
  }

  // ---- the text of a head ----

  /** The text tells the parameters token for token, and each default's text the tokens of that default. */
  predicate Spells(head: string, defaults: seq<string>, ps: seq<Tokens>) {
    && |head| > |"template<"| && "template<" <= head && head[|head| - 1] == '>'
    && Spelt(head[|"template<"|..|head| - 1]) == ps
    && if ps == [[]] then defaults == []
       else |defaults| == |ps| && forall k | 0 <= k < |ps| :: Words.WordsOf(defaults[k]) == DefaultTokens(ps[k])
  }

  function DefaultTokens(p: Tokens): Tokens { match DefaultOf(p) case None => [] case Some(text) => text }

  lemma {:induction false} UnitsClean(d: Depth, toks: Tokens)
    requires d.angle >= 1 && AllClean(toks)
    ensures Units(d, toks).Some? ==> AllClean(Units(d, toks).value)
    decreases |toks|, 0
  {
    if toks != [] {
      var t := toks[0];
      assert t in toks && forall x <- toks[1..] :: x in toks;
      hide IsClean, After;
      if InGroup(d, t) || AngleCloses(t, d.angle) == 0 {
        if After(d, t).angle >= 1 {
          UnitsClean(After(d, t), toks[1..]);
        }
      } else {
        ClosersClean(d.angle, AngleCloses(t, d.angle), toks[1..]);
      }
    }
  }

  lemma {:induction false} ClosersClean(angle: nat, n: nat, rest: Tokens)
    requires angle >= 1 && AllClean(rest)
    ensures ClosersThen(angle, n, rest).Some? ==> AllClean(ClosersThen(angle, n, rest).value)
    decreases |rest|, n + 1
  {
    if n == 0 {
      UnitsClean(Depth(angle, 0), rest);
    } else if angle > 1 {
      ClosersClean(angle - 1, n - 1, rest);
      assert IsClean(">");
    }
  }

  lemma {:induction false} HeadClean(toks: Tokens)
    requires AllClean(toks)
    ensures HeadUnits(toks).Some? ==> AllClean(HeadUnits(toks).value)
  {
    hide Units;
    if toks != [] {
      assert forall x <- toks[1..] :: x in toks;
      if toks[0] != "template" {
        HeadClean(toks[1..]);
      } else if |toks| >= 2 {
        assert forall x <- toks[2..] :: x in toks;
        UnitsClean(TOP, toks[2..]);
      }
    }
  }

  lemma {:induction false} ParametersClean(u: Tokens)
    requires AllClean(u)
    ensures forall p <- Parameters(u) :: AllClean(p)
  {
    if u != [] {
      var v := u[..|u| - 1];
      assert u[|u| - 1] in u && forall x <- v :: x in u;
      ParametersClean(v);
      hide IsClean, AfterAll;
      var ps := Parameters(v);
      assert forall p <- ps[..|ps| - 1] :: p in ps;
      assert ps[|ps| - 1] in ps;
    }
  }

  lemma {:induction false} NoTopStarts(p: Tokens, t: string)
    requires NoTop(p, t) && p != []
    ensures p[0] != t
  {
    if |p| > 1 {
      NoTopStarts(p[..|p| - 1], t);
    } else {
      StartsAtTop();
      assert p[..0] == [];
    }
  }

  lemma {:induction false} DefaultClean(p: Tokens)
    requires AllClean(p)
    ensures AllClean(DefaultTokens(p))
  {
    if p != [] {
      assert p[|p| - 1] in p && forall x <- p[..|p| - 1] :: x in p;
      DefaultClean(p[..|p| - 1]);
      hide IsClean, AfterAll;
    }
  }

  lemma DefaultWords(ps: seq<Tokens>)
    requires forall p <- ps :: AllClean(p)
    ensures forall k | 0 <= k < |ps| :: Words.WordsOf(DefaultTexts(ps)[k]) == DefaultTokens(ps[k])
  {
    forall k | 0 <= k < |ps| ensures Words.WordsOf(DefaultTexts(ps)[k]) == DefaultTokens(ps[k]) {
      assert ps[k] in ps;
      DefaultClean(ps[k]);
      JoinedWords(DefaultTokens(ps[k]));
    }
  }

  lemma ParametersAreCut(u: Tokens)
    requires AllClean(u)
    ensures forall p <- Parameters(u) :: IsCut(p)
  {
    ParametersClean(u);
    ParametersHoldNoComma(u);
    hide Parameters, AllClean, NoTop;
    forall p | p in Parameters(u) && p != [] ensures p[0] != "," {
      NoTopStarts(p, ",");
    }
  }

  /** For tokens without white space the text of the head, whatever it says elsewhere, says the parameters. */
  lemma HeadSpells(toks: Tokens)
    requires AllClean(toks)
    ensures HeadUnits(toks).Some? ==>
              var ps := Parameters(HeadUnits(toks).value);
              Spells("template<" + CommaJoined(Texts(ps)) + ">", if ps == [[]] then [] else DefaultTexts(ps), ps) &&
              (Texts(ps) == [""] <==> ps == [[]])
  {
    if HeadUnits(toks).Some? {
      var u := HeadUnits(toks).value;
      HeadClean(toks);
      ParametersAreCut(u);
      hide HeadUnits, Parameters, AllClean;
      var ps := Parameters(u);
      TextSpellsParameters(ps);
      DefaultWords(ps);
      OnlyNothing(ps);
      hide Texts, CommaJoined, Spelt, DefaultTokens, Words.WordsOf;
      var inner := CommaJoined(Texts(ps));
      var head := "template<" + inner + ">";
      assert head[|"template<"|..|head| - 1] == inner;
    }
  }

  lemma OnlyNothing(ps: seq<Tokens>)
    requires forall p <- ps :: AllClean(p)
    ensures Texts(ps) == [""] <==> ps == [[]]
  {
    if |ps| == 1 {
      assert ps[0] in ps;
      JoinedIsSpaced(ps[0]);
      assert Texts(ps) == [Joined(ps[0])] && ps == [ps[0]];
    }
  }

  // ---- a head is never partial ----

  /** One more token in front that stands for itself. */
  lemma FusesOne(d: Depth, t: string, toks: Tokens, m: nat, v: Tokens)
    requires toks != [] && toks[0] == t && m <= |toks| - 1 && !(t == ">>" && d.paren == 0 && d.angle >= 2)
    ensures Fuses(d, toks[..m + 1], [t] + v + [">"]) <==> Fuses(After(d, t), toks[1..][..m], v + [">"])
  {
    assert toks[..m + 1][1..] == toks[1..][..m];
    assert ([t] + v + [">"])[1..] == v + [">"];
  }

  /** One more fused pair of closers in front. */
  lemma FusesTwo(d: Depth, toks: Tokens, m: nat, v: Tokens)
    requires toks != [] && toks[0] == ">>" && m <= |toks| - 1 && d.paren == 0 && d.angle >= 2
    ensures Fuses(d, toks[..m + 1], [">", ">"] + v + [">"]) <==>
            Fuses(After(After(d, ">"), ">"), toks[1..][..m], v + [">"])
  {
    assert toks[..m + 1][1..] == toks[1..][..m];
    assert ([">", ">"] + v + [">"])[2..] == v + [">"];
  }

  lemma BalancedCons(d: Depth, t: string, v: Tokens)
    ensures Balanced(d, [t] + v) <==> After(d, t).angle >= 1 && Balanced(After(d, t), v)
  {
    assert ([t] + v)[1..] == v;
  }

  lemma AfterCloser(d: Depth)
    requires d.paren == 0 && d.angle >= 1
    ensures After(d, ">") == Depth(d.angle - 1, 0)
  {
  }

  lemma BalancedTwo(d: Depth, v: Tokens)
    requires d.paren == 0 && d.angle >= 2
    ensures Balanced(d, [">", ">"] + v) <==> d.angle > 2 && Balanced(Depth(d.angle - 2, 0), v)
  {
    AfterCloser(d);
    AfterCloser(After(d, ">"));
    hide *;
    BalancedCons(d, ">", [">"] + v);
    BalancedCons(After(d, ">"), ">", v);
    assert [">", ">"] + v == [">"] + ([">"] + v);
  }

  /** Units, one token at a time: a token that stands for itself, ... */
  lemma UnitsOne(d: Depth, toks: Tokens)
    requires d.angle >= 1 && toks != [] && After(d, toks[0]).angle >= 1
    requires !(toks[0] == ">>" && d.paren == 0 && d.angle >= 2)
    ensures Units(d, toks) == Cons([toks[0]], Units(After(d, toks[0]), toks[1..]))
  {
    hide Units, ClosersThen, Cons;
    if toks[0] == ">" && d.paren == 0 {
      OneCloser(d.angle, toks[1..]);
      CloserUnits(d, toks);
      AfterCloser(d);
    } else {
      PlainUnits(d, toks);
    }
  }

  lemma PlainUnits(d: Depth, toks: Tokens)
    requires d.angle >= 1 && toks != [] && After(d, toks[0]).angle >= 1
    requires InGroup(d, toks[0]) || AngleCloses(toks[0], d.angle) == 0
    ensures Units(d, toks) == Cons([toks[0]], Units(After(d, toks[0]), toks[1..]))
  {
    hide ClosersThen, After, InGroup, AngleCloses, Cons;
  }

  lemma CloserUnits(d: Depth, toks: Tokens)
    requires d.angle >= 1 && toks != [] && !InGroup(d, toks[0]) && AngleCloses(toks[0], d.angle) > 0
    ensures Units(d, toks) == ClosersThen(d.angle, AngleCloses(toks[0], d.angle), toks[1..])
  {
    hide ClosersThen;
  }

  /** ... two fused closers, ... */
  lemma UnitsTwo(d: Depth, toks: Tokens)
    requires d.paren == 0 && d.angle >= 2 && toks != [] && toks[0] == ">>"
    ensures Units(d, toks) ==
            if d.angle == 2 then Some([">"]) else Cons([">", ">"], Units(Depth(d.angle - 2, 0), toks[1..]))
  {
    hide ClosersThen;
    TwoClosers(d.angle, toks[1..]);
  }

  /** ... or the closer of the list itself. */
  lemma UnitsEnd(toks: Tokens)
    requires toks != [] && toks[0] == ">"
    ensures Units(TOP, toks) == Some([])
  {
    OneCloser(1, toks[1..]);
  }

  lemma OnlyTheCloserEnds(d: Depth, t: string)
    requires d.angle >= 1 && After(d, t).angle < 1
    ensures t == ">" && d == TOP
  {
  }

  lemma {:induction false} UnitsSound(d: Depth, toks: Tokens) returns (m: nat)
    requires d.angle >= 1 && Units(d, toks).Some?
    ensures m <= |toks| && Balanced(d, Units(d, toks).value) && Fuses(d, toks[..m], Units(d, toks).value + [">"])
    decreases toks
  {
    assert toks != [];
    var t, u := toks[0], Units(d, toks).value;
    if t == ">>" && d.paren == 0 && d.angle >= 2 {
      m := TwoSound(d, toks);
    } else if After(d, t).angle >= 1 {
      hide Balanced, Fuses;
      UnitsOne(d, toks);
      hide Units;
      m := UnitsSound(After(d, t), toks[1..]);
      var v := Units(After(d, t), toks[1..]).value;
      BalancedCons(d, t, v);
      FusesOne(d, t, toks, m, v);
      m := m + 1;
    } else {
      OnlyTheCloserEnds(d, t);
      UnitsEnd(toks);
      hide Units;
      m := 1;
      assert toks[..1] == [t];
    }
  }

  lemma {:induction false} TwoSound(d: Depth, toks: Tokens) returns (m: nat)
    requires d.paren == 0 && d.angle >= 2 && Units(d, toks).Some? && toks != [] && toks[0] == ">>"
    ensures m <= |toks| && Balanced(d, Units(d, toks).value) && Fuses(d, toks[..m], Units(d, toks).value + [">"])
    decreases toks, 0
  {
    UnitsTwo(d, toks);
    hide Units;
    if d.angle == 2 {
      m := 1;
      AfterCloser(d);
      assert toks[..1] == [">>"];
    } else {
      hide *;
      m := UnitsSound(Depth(d.angle - 2, 0), toks[1..]);
      var v := Units(Depth(d.angle - 2, 0), toks[1..]).value;
      BalancedTwo(d, v);
      FusesTwo(d, toks, m, v);
      m := m + 1;
    }
  }

  lemma {:induction false} UnitsComplete(d: Depth, toks: Tokens, m: nat, u: Tokens)
    requires d.angle >= 1 && m <= |toks| && Balanced(d, u) && Fuses(d, toks[..m], u + [">"])
    ensures Units(d, toks) == Some(u)
    decreases toks
  {
    hide Units;
    if toks[0] == ">>" && d.paren == 0 && d.angle >= 2 {
      TwoComplete(d, toks, m, u);
    } else if u == [] {
      UnitsEnd(toks);
    } else {
      var v := u[1..];
      assert u == [u[0]] + v;
      assert toks[0] == u[0];
      BalancedCons(d, u[0], v);
      FusesOne(d, u[0], toks, m - 1, v);
      hide Fuses, Balanced;
      UnitsOne(d, toks);
      UnitsComplete(After(d, u[0]), toks[1..], m - 1, v);
    }
  }

  lemma {:induction false} TwoComplete(d: Depth, toks: Tokens, m: nat, u: Tokens)
    requires d.paren == 0 && d.angle >= 2 && 1 <= m <= |toks| && toks[0] == ">>"
    requires Balanced(d, u) && Fuses(d, toks[..m], u + [">"])
    ensures Units(d, toks) == Some(u)
    decreases toks, 0
  {
    hide Units;
    UnitsTwo(d, toks);
    if |u| >= 2 {
      var v := u[2..];
      assert u == [">", ">"] + v;
      BalancedTwo(d, v);
      FusesTwo(d, toks, m - 1, v);
      hide Balanced, Fuses;
      UnitsComplete(Depth(d.angle - 2, 0), toks[1..], m - 1, v);
    } else {
      assert u == [">"];
      AfterCloser(d);
      assert Balanced(After(d, ">"), u[1..]);
    }
  }

  /** The units are found exactly when the list closes, and then they are, up to the fusing of closers, the
      tokens between `<` and its matching closer. */
  lemma UnitsExactlyWhen(d: Depth, toks: Tokens, u: Tokens)
    requires d.angle >= 1
    ensures Units(d, toks) == Some(u) <==>
            Balanced(d, u) && exists m | 0 <= m <= |toks| :: Fuses(d, toks[..m], u + [">"])
  {
    if Units(d, toks) == Some(u) {
      var m := UnitsSound(d, toks);
    }
    if m :| 0 <= m <= |toks| && Fuses(d, toks[..m], u + [">"]) && Balanced(d, u) {
      UnitsComplete(d, toks, m, u);
    }
  }

  lemma {:induction false} AfterAllConcat(d: Depth, a: Tokens, b: Tokens)
    ensures AfterAll(d, a + b) == AfterAll(AfterAll(d, a), b)
  {
    if b == [] {
      assert a + b == a;
    } else {
      assert (a + b)[..|a + b| - 1] == a + b[..|b| - 1];
      AfterAllConcat(d, a, b[..|b| - 1]);
    }
  }

  /** Balanced in terms of prefixes: the list stays open all along and everything is closed at the end. */
  lemma {:induction false} BalancedExactlyWhen(d: Depth, u: Tokens)
    ensures Balanced(d, u) <==> AfterAll(d, u) == TOP && forall k | 0 < k <= |u| :: AfterAll(d, u[..k]).angle >= 1
    decreases u
  {
    if u != [] {
      BalancedExactlyWhen(After(d, u[0]), u[1..]);
      forall k | 0 < k <= |u| ensures AfterAll(d, u[..k]) == AfterAll(After(d, u[0]), u[1..][..k - 1]) {
        assert u[..k] == [u[0]] + u[1..][..k - 1];
        AfterAllConcat(d, [u[0]], u[1..][..k - 1]);
        assert [u[0]][..0] == [];
      }
      assert u[..|u|] == u && u[1..][..|u| - 1] == u[1..];
      if Balanced(After(d, u[0]), u[1..]) && After(d, u[0]).angle >= 1 {
        forall k | 0 < k <= |u| ensures AfterAll(d, u[..k]).angle >= 1 {
          assert k == 1 || AfterAll(After(d, u[0]), u[1..][..k - 1]).angle >= 1;
        }
      }
      if AfterAll(d, u) == TOP && forall k | 0 < k <= |u| :: AfterAll(d, u[..k]).angle >= 1 {
        assert AfterAll(d, u[..1]).angle >= 1;
        forall k | 0 < k <= |u| - 1 ensures AfterAll(After(d, u[0]), u[1..][..k]).angle >= 1 {
          assert AfterAll(d, u[..k + 1]).angle >= 1;
        }
      }
    }
  }

  /** No token t stands directly inside the parameter list. */
  predicate NoTop(p: Tokens, t: string) {
    p == [] || (NoTop(p[..|p| - 1], t) && !(p[|p| - 1] == t && AfterAll(TOP, p[..|p| - 1]) == TOP))
  }

  lemma NoTopAdd(p: Tokens, x: string, t: string)
    ensures NoTop(p + [x], t) <==> NoTop(p, t) && !(x == t && AfterAll(TOP, p) == TOP)
  {
    assert (p + [x])[..|p|] == p;
  }

  lemma ParametersAdd(u: Tokens, t: string)
    ensures var ps := Parameters(u);
            Parameters(u + [t]) == if t == "," && AfterAll(TOP, u) == TOP then ps + [[]]
                                   else ps[..|ps| - 1] + [ps[|ps| - 1] + [t]]
  {
    assert (u + [t])[..|u|] == u;
  }

  lemma ParametersAddTo(w: Tokens, init: seq<Tokens>, q: Tokens, t: string)
    requires Parameters(w) == init + [q] && !(t == "," && AfterAll(TOP, w) == TOP)
    ensures Parameters(w + [t]) == init + [q + [t]]
  {
    ParametersAdd(w, t);
    assert (init + [q])[..|init|] == init;
  }

  lemma DefaultOfAdd(p: Tokens, t: string)
    ensures DefaultOf(p + [t]) == if DefaultOf(p).Some? then Some(DefaultOf(p).value + [t])
                                  else if t == "=" && AfterAll(TOP, p) == TOP then Some([]) else None
  {
    assert (p + [t])[..|p|] == p;
  }

  /** The parameters printed with their separating commas. */
  function Commas(ps: seq<Tokens>): Tokens
    requires ps != []
  {
    if |ps| == 1 then ps[0] else Commas(ps[..|ps| - 1]) + [","] + ps[|ps| - 1]
  }

  lemma CommasLast(ps: seq<Tokens>, p: Tokens)
    requires ps != []
    ensures Commas(ps + [p]) == Commas(ps) + [","] + p
  {
    assert (ps + [p])[..|ps|] == ps;
  }

  lemma CommasExtend(init: seq<Tokens>, p: Tokens, t: string)
    ensures Commas(init + [p + [t]]) == Commas(init + [p]) + [t]
  {
    if init == [] {
      assert init + [p] == [p] && init + [p + [t]] == [p + [t]];
    } else {
      CommasLast(init, p + [t]);
      CommasLast(init, p);
      assert Commas(init) + [","] + (p + [t]) == Commas(init) + [","] + p + [t];
    }
  }

  /** Cutting loses nothing. */
  lemma {:induction false} ParametersCut(u: Tokens)
    ensures Commas(Parameters(u)) == u
  {
    if u != [] {
      hide *;
      var v, t, ps := u[..|u| - 1], u[|u| - 1], Parameters(u[..|u| - 1]);
      assert u == v + [t];
      ParametersCut(v);
      ParametersAdd(v, t);
      if t == "," && AfterAll(TOP, v) == TOP {
        CommasLast(ps, []);
        assert v + [","] + [] == v + [","];
      } else {
        var init, p := ps[..|ps| - 1], ps[|ps| - 1];
        assert ps == init + [p];
        CommasExtend(init, p, t);
      }
    }
  }

  /** No parameter holds a separator, and each one ends where the units do. */
  lemma {:induction false} ParametersHoldNoComma(u: Tokens)
    ensures forall p <- Parameters(u) :: NoTop(p, ",")
    ensures AfterAll(TOP, Parameters(u)[|Parameters(u)| - 1]) == AfterAll(TOP, u)
  {
    if u != [] {
      var v, t, ps := u[..|u| - 1], u[|u| - 1], Parameters(u[..|u| - 1]);
      ParametersHoldNoComma(v);
      var p := ps[|ps| - 1];
      AfterAllAdd(v, t);
      Sequences.ButLast(u);
      StartsAtTop();
      hide AfterAll, After;
      if !(t == "," && AfterAll(TOP, v) == TOP) {
        NoTopAdd(p, t, ",");
        AfterAllAdd(p, t);
        assert forall r <- ps[..|ps| - 1] :: r in ps;
      }
    }
  }

  /** Reading on after a separator (or from the start) puts the tokens read into one new parameter. */
  lemma {:induction false} ParametersGrow(w: Tokens, init: seq<Tokens>, p: Tokens)
    requires Parameters(w) == init + [[]] && AfterAll(TOP, w) == TOP && NoTop(p, ",")
    ensures Parameters(w + p) == init + [p]
  {
    hide *;
    if p == [] {
      Sequences.AddNothing(w);
    } else {
      var q, t := p[..|p| - 1], p[|p| - 1];
      assert p == q + [t];
      NoTopAdd(q, t, ",");
      ParametersGrow(w, init, q);
      AfterAllConcat(TOP, w, q);
      ParametersAddTo(w + q, init, q, t);
      Sequences.Assoc(w, q, [t]);
    }
  }

  lemma ParametersOfAppend(u: Tokens, p: Tokens)
    requires AfterAll(TOP, u) == TOP && NoTop(p, ",")
    ensures Parameters(u + [","] + p) == Parameters(u) + [p]
  {
    ParametersAdd(u, ",");
    AfterAllAdd(u, ",");
    ParametersGrow(u + [","], Parameters(u), p);
  }

  lemma AfterAllAdd(u: Tokens, t: string)
    ensures AfterAll(TOP, u + [t]) == After(AfterAll(TOP, u), t)
  {
    assert (u + [t])[..|u|] == u;
  }

  lemma ParametersOfOne(p: Tokens)
    requires NoTop(p, ",")
    ensures Parameters(p) == [p]
  {
    assert Parameters([]) == [] + [[]];
    ParametersGrow([], [], p);
    hide Parameters, NoTop;
    assert [] + p == p;
    assert [] + [p] == [p];
  }

  lemma {:induction false} BalancedConcat(d: Depth, a: Tokens, b: Tokens)
    requires Balanced(d, a) && Balanced(TOP, b)
    ensures Balanced(d, a + b)
    decreases a
  {
    if a == [] {
      assert a + b == b;
    } else {
      assert (a + b)[1..] == a[1..] + b;
      BalancedConcat(After(d, a[0]), a[1..], b);
    }
  }

  lemma CommaIsBalanced()
    ensures Balanced(TOP, [","])
  {
  }

  lemma {:induction false} ParametersOfCommas(ps: seq<Tokens>)
    requires ps != [] && forall p <- ps :: Balanced(TOP, p) && NoTop(p, ",")
    ensures Parameters(Commas(ps)) == ps && Balanced(TOP, Commas(ps))
  {
    hide Balanced, Parameters, NoTop, AfterAll;
    if |ps| == 1 {
      ParametersOfOne(ps[0]);
    } else {
      var qs, p := ps[..|ps| - 1], ps[|ps| - 1];
      ParametersOfCommas(qs);
      BalancedExactlyWhen(TOP, Commas(qs));
      ParametersOfAppend(Commas(qs), p);
      CommaIsBalanced();
      BalancedConcat(TOP, Commas(qs), [","]);
      BalancedConcat(TOP, Commas(qs) + [","], p);
      assert ps == qs + [p];
    }
  }

  /** A parameter's default is the text after its first `=` directly inside the list. */
  lemma {:induction false} DefaultExactlyWhen(p: Tokens)
    ensures DefaultOf(p) == None <==> NoTop(p, "=")
    ensures DefaultOf(p).Some? ==>
              exists k | 0 <= k < |p| ::
                NoTop(p[..k], "=") && AfterAll(TOP, p[..k]) == TOP && p == p[..k] + ["="] + DefaultOf(p).value
  {
    if p != [] {
      var q, t := p[..|p| - 1], p[|p| - 1];
      assert p == q + [t];
      DefaultExactlyWhen(q);
      DefaultOfAdd(q, t);
      NoTopAdd(q, t, "=");
      if DefaultOf(q).Some? {
        var k :| 0 <= k < |q| && NoTop(q[..k], "=") && AfterAll(TOP, q[..k]) == TOP &&
            q == q[..k] + ["="] + DefaultOf(q).value;
        assert p[..k] == q[..k];
        assert p == p[..k] + ["="] + (DefaultOf(q).value + [t]);
      } else if DefaultOf(p).Some? {
        assert p[..|q|] == q;
      }
    }
  }

  lemma {:induction false} DefaultOfPrinted(decl: Tokens, text: Tokens)
    requires NoTop(decl, "=") && AfterAll(TOP, decl) == TOP
    ensures DefaultOf(decl + ["="] + text) == Some(text)
  {
    if text == [] {
      assert decl + ["="] + text == decl + ["="];
      DefaultExactlyWhen(decl);
      DefaultOfAdd(decl, "=");
    } else {
      var q, t := text[..|text| - 1], text[|text| - 1];
      DefaultOfPrinted(decl, q);
      assert text == q + [t];
      assert decl + ["="] + text == decl + ["="] + q + [t];
      DefaultOfAdd(decl + ["="] + q, t);
    }
  }

  /** The first `template` is at i, a `<` follows it, and the units u and their closer end before m. */
  ghost predicate HeadAt(toks: Tokens, i: int, m: int, u: Tokens) {
    && 0 <= i <= i + 2 <= m <= |toks|
    && "template" !in toks[..i] && toks[i] == "template" && toks[i + 1] == "<"
    && Fuses(TOP, toks[i + 2..m], u + [">"])
  }

  /** For any tokens at all: there is a head exactly when the first `template` is followed by a `<` that closes,
      and then its parameters are the tokens in between, list-closing `>>` split in two, cut at the commas
      directly inside the list.  Never an answer that is missing its tail. */
  lemma NeverPartial(toks: Tokens, ps: seq<Tokens>)
    requires ps != []
    ensures HeadUnits(toks).Some? && Parameters(HeadUnits(toks).value) == ps <==>
            && (forall p <- ps :: NoTop(p, ",")) && Balanced(TOP, Commas(ps)) && Parameters(Commas(ps)) == ps
            && exists i, m :: HeadAt(toks, i, m, Commas(ps))
  {
    if HeadUnits(toks).Some? && Parameters(HeadUnits(toks).value) == ps {
      ParametersCut(HeadUnits(toks).value);
      ParametersHoldNoComma(HeadUnits(toks).value);
      var i, m := HeadSound(toks);
    }
    if i, m :| HeadAt(toks, i, m, Commas(ps)) && Balanced(TOP, Commas(ps)) {
      HeadComplete(toks, i, m, Commas(ps));
    }
  }

  lemma {:induction false} HeadSound(toks: Tokens) returns (i: nat, m: nat)
    requires HeadUnits(toks).Some?
    ensures HeadAt(toks, i, m, HeadUnits(toks).value) && Balanced(TOP, HeadUnits(toks).value)
    decreases toks
  {
    if toks[0] == "template" {
      m := UnitsSound(TOP, toks[2..]);
      i, m := 0, m + 2;
      assert toks[2..m] == toks[2..][..m - 2];
    } else {
      i, m := HeadSound(toks[1..]);
      assert toks[1..][i + 2..m] == toks[i + 3..m + 1];
      assert toks[..i + 1] == [toks[0]] + toks[1..][..i];
      i, m := i + 1, m + 1;
    }
  }

  lemma {:induction false} HeadComplete(toks: Tokens, i: nat, m: nat, u: Tokens)
    requires HeadAt(toks, i, m, u) && Balanced(TOP, u)
    ensures HeadUnits(toks) == Some(u)
    decreases i
  {
    if i == 0 {
      assert toks[2..m] == toks[2..][..m - 2];
      UnitsComplete(TOP, toks[2..], m - 2, u);
    } else {
      assert toks[..i][0] == toks[0] && toks[1..][..i - 1] == toks[..i][1..];
      assert toks[1..][i + 1..m - 1] == toks[i + 2..m];
      HeadComplete(toks[1..], i - 1, m - 1, u);
    }
  }

  // ---- printing a parameter list ----

  /** A piece of declaration text: a token, a bracketed group, or a template-argument list. */
  datatype Piece = Word(w: string) | Group(open: string, inner: seq<Piece>, close: string) | List(inner: seq<Piece>) {
    predicate Valid(grouped: bool) {
      match this
      case Word(w) => w !in {"(", "[", "{", ")", "]", "}"} && (grouped || (w != "<" && w != ">" && w != ">>"))
      case Group(open, inner, close) =>
        open in {"(", "[", "{"} && close in {")", "]", "}"} && forall p <- inner :: p.Valid(true)
      case List(inner) => !grouped && forall p <- inner :: p.Valid(false)
    }

    function Print(): Tokens {
      match this
      case Word(w) => [w]
      case Group(open, inner, close) => [open] + PrintAll(inner) + [close]
      case List(inner) => ["<"] + PrintAll(inner) + [">"]
    }
  }

  predicate AllValid(ps: seq<Piece>, grouped: bool) { forall p <- ps :: p.Valid(grouped) }

  function PrintAll(ps: seq<Piece>): Tokens {
    if ps == [] then [] else ps[0].Print() + PrintAll(ps[1..])
  }

  /** A template parameter as declared: `decl` or `decl = default`. */
  datatype Parameter = Parameter(decl: seq<Piece>, default: Option<seq<Piece>>) {
    predicate Valid() {
      && AllValid(decl, false) && Word(",") !in decl && Word("=") !in decl
      && (default.Some? ==> AllValid(default.value, false) && Word(",") !in default.value)
    }

    function Print(): Tokens {
      PrintAll(decl) + match default case None => [] case Some(text) => ["="] + PrintAll(text)
    }
  }

  function PrintParameters(ps: seq<Parameter>): seq<Tokens> { seq(|ps|, i requires 0 <= i < |ps| => ps[i].Print()) }

  /** d is at least as deep as e. */
  predicate Deeper(d: Depth, e: Depth) { d.angle > e.angle || (d.angle == e.angle && d.paren >= e.paren) }

  /** From depth d, the tokens u never come out above depth e. */
  ghost predicate Stays(e: Depth, d: Depth, u: Tokens)
    decreases u
  {
    Deeper(d, e) && (u != [] ==> Stays(e, After(d, u[0]), u[1..]))
  }

  lemma {:induction false} StaysConcat(e: Depth, d: Depth, a: Tokens, b: Tokens)
    requires Stays(e, d, a) && Stays(e, AfterAll(d, a), b)
    ensures Stays(e, d, a + b)
    decreases a
  {
    if a == [] {
      assert a + b == b;
    } else {
      assert a == [a[0]] + a[1..] && (a + b)[1..] == a[1..] + b;
      AfterAllConcat(d, [a[0]], a[1..]);
      assert [a[0]][..0] == [];
      StaysConcat(e, After(d, a[0]), a[1..], b);
    }
  }

  lemma {:induction false} StaysWeaken(e: Depth, e': Depth, d: Depth, u: Tokens)
    requires Stays(e, d, u) && Deeper(e, e')
    ensures Stays(e', d, u)
    decreases u
  {
    if u != [] {
      StaysWeaken(e, e', After(d, u[0]), u[1..]);
    }
  }

  /** A printed piece comes back to the depth it started from and never above it. */
  lemma {:induction false} PieceStays(p: Piece, d: Depth)
    requires p.Valid(d.paren > 0) && d.angle >= 1
    ensures AfterAll(d, p.Print()) == d && Stays(d, d, p.Print())
    decreases p, 0
  {
    match p
    case Word(w) => assert [w][..0] == [];
    case Group(open, inner, close) =>
      PiecesStay(inner, Depth(d.angle, d.paren + 1));
      WrapStays(d, open, Depth(d.angle, d.paren + 1), PrintAll(inner), close);
    case List(inner) =>
      PiecesStay(inner, Depth(d.angle + 1, 0));
      WrapStays(d, "<", Depth(d.angle + 1, 0), PrintAll(inner), ">");
  }

  lemma {:induction false} PiecesStay(ps: seq<Piece>, d: Depth)
    requires AllValid(ps, d.paren > 0) && d.angle >= 1
    ensures AfterAll(d, PrintAll(ps)) == d && Stays(d, d, PrintAll(ps))
    decreases ps
  {
    if ps != [] {
      PieceStays(ps[0], d);
      PiecesStay(ps[1..], d);
      AfterAllConcat(d, ps[0].Print(), PrintAll(ps[1..]));
      StaysConcat(d, d, ps[0].Print(), PrintAll(ps[1..]));
    }
  }

  lemma WrapStays(d: Depth, open: string, e: Depth, inner: Tokens, close: string)
    requires After(d, open) == e && After(e, close) == d && Deeper(e, d)
    requires AfterAll(e, inner) == e && Stays(e, e, inner)
    ensures AfterAll(d, [open] + inner + [close]) == d && Stays(d, d, [open] + inner + [close])
  {
    assert [open][..0] == [] && [close][..0] == [];
    AfterAllConcat(d, [open], inner);
    AfterAllConcat(d, [open] + inner, [close]);
    StaysWeaken(e, d, e, inner);
    StaysConcat(d, d, [open], inner);
    StaysConcat(d, d, [open] + inner, [close]);
  }

  lemma {:induction false} StaysBalanced(d: Depth, u: Tokens)
    requires Stays(TOP, d, u) && AfterAll(d, u) == TOP
    ensures Balanced(d, u)
    decreases u
  {
    if u != [] {
      assert u == [u[0]] + u[1..] && [u[0]][..0] == [];
      AfterAllConcat(d, [u[0]], u[1..]);
      StaysBalanced(After(d, u[0]), u[1..]);
    }
  }

  /** Nothing printed strictly inside the list is directly inside it. */
  lemma {:induction false} DeepIsNotTop(w: Tokens, u: Tokens, t: string, e: Depth)
    requires NoTop(w, t) && Stays(e, AfterAll(TOP, w), u) && Deeper(e, TOP) && e != TOP
    ensures NoTop(w + u, t)
    decreases u
  {
    if u == [] {
      assert w + u == w;
    } else {
      NoTopAdd(w, u[0], t);
      AfterAllAdd(w, u[0]);
      DeepIsNotTop(w + [u[0]], u[1..], t, e);
      assert w + [u[0]] + u[1..] == w + u;
    }
  }

  lemma {:induction false} NoTopConcat(a: Tokens, b: Tokens, t: string)
    requires NoTop(a, t) && AfterAll(TOP, a) == TOP && NoTop(b, t)
    ensures NoTop(a + b, t)
  {
    if b == [] {
      assert a + b == a;
    } else {
      var q := b[..|b| - 1];
      NoTopConcat(a, q, t);
      AfterAllConcat(TOP, a, q);
      NoTopAdd(a + q, b[|b| - 1], t);
      assert a + q + [b[|b| - 1]] == a + b;
    }
  }

  lemma PieceNoTop(p: Piece, t: string)
    requires p.Valid(false) && p != Word(t) && !Opens(t) && !Closes(t) && t != "<" && t != ">"
    ensures NoTop(p.Print(), t)
  {
    match p
    case Word(w) => NoTopAdd([], w, t); assert [] + [w] == [w];
    case Group(open, inner, close) => WrapNoTop(open, Depth(1, 1), inner, close, t);
    case List(inner) => WrapNoTop("<", Depth(2, 0), inner, ">", t);
  }

  lemma WrapNoTop(open: string, e: Depth, inner: seq<Piece>, close: string, t: string)
    requires After(TOP, open) == e && e != TOP && Deeper(e, TOP) && open != t && close != t
    requires AllValid(inner, e.paren > 0)
    ensures NoTop([open] + PrintAll(inner) + [close], t)
  {
    PiecesStay(inner, e);
    assert [open][..0] == [];
    DeepIsNotTop([open], PrintAll(inner), t, e);
    NoTopAdd([open] + PrintAll(inner), close, t);
  }

  lemma {:induction false} PiecesNoTop(ps: seq<Piece>, t: string)
    requires AllValid(ps, false) && Word(t) !in ps
    requires !Opens(t) && !Closes(t) && t != "<" && t != ">"
    ensures NoTop(PrintAll(ps), t)
  {
    if ps != [] {
      PieceNoTop(ps[0], t);
      PieceStays(ps[0], TOP);
      PiecesNoTop(ps[1..], t);
      NoTopConcat(ps[0].Print(), PrintAll(ps[1..]), t);
    }
  }

  /** Text printed directly inside the list is balanced there. */
  lemma TextPrints(ps: seq<Piece>)
    requires AllValid(ps, false)
    ensures Balanced(TOP, PrintAll(ps)) && AfterAll(TOP, PrintAll(ps)) == TOP
  {
    PiecesStay(ps, TOP);
    StaysBalanced(TOP, PrintAll(ps));
  }

  lemma DeclWithDefault(decl: Tokens, text: Tokens)
    requires Balanced(TOP, decl) && AfterAll(TOP, decl) == TOP && NoTop(decl, ",") && NoTop(decl, "=")
    requires Balanced(TOP, text) && NoTop(text, ",")
    ensures Balanced(TOP, decl + ["="] + text) && NoTop(decl + ["="] + text, ",")
    ensures DefaultOf(decl + ["="] + text) == Some(text)
  {
    var left := decl + ["="];
    assert Balanced(TOP, ["="]);
    BalancedConcat(TOP, decl, ["="]);
    BalancedConcat(TOP, left, text);
    NoTopAdd(decl, "=", ",");
    AfterAllAdd(decl, "=");
    NoTopConcat(left, text, ",");
    DefaultOfPrinted(decl, text);
  }

  lemma DeclPrints(decl: seq<Piece>)
    requires AllValid(decl, false) && Word(",") !in decl && Word("=") !in decl
    ensures Balanced(TOP, PrintAll(decl)) && AfterAll(TOP, PrintAll(decl)) == TOP
    ensures NoTop(PrintAll(decl), ",") && NoTop(PrintAll(decl), "=")
  {
    TextPrints(decl);
    PiecesNoTop(decl, ",");
    PiecesNoTop(decl, "=");
  }

  lemma PrintIs(p: Parameter)
    ensures p.Print() ==
            if p.default.Some? then PrintAll(p.decl) + ["="] + PrintAll(p.default.value) else PrintAll(p.decl)
  {
  }

  lemma NoDefault(decl: Tokens)
    requires NoTop(decl, "=")
    ensures DefaultOf(decl) == None
  {
    DefaultExactlyWhen(decl);
  }

  lemma ParameterPrints(p: Parameter)
    requires p.Valid()
    ensures Balanced(TOP, p.Print()) && NoTop(p.Print(), ",")
    ensures DefaultOf(p.Print()) == if p.default.Some? then Some(PrintAll(p.default.value)) else None
  {
    PrintIs(p);
    DeclPrints(p.decl);
    if p.default.Some? {
      TextPrints(p.default.value);
      PiecesNoTop(p.default.value, ",");
      DeclWithDefault(PrintAll(p.decl), PrintAll(p.default.value));
    } else {
      NoDefault(PrintAll(p.decl));
    }
  }

  /** Print then parse: whatever precedes and follows the head, and however adjacent closers were fused, reading
      a printed parameter list gives back exactly its parameters and their defaults. */
  lemma PrintThenParse(ps: seq<Parameter>, before: Tokens, printed: Tokens, after: Tokens)
    requires ps != [] && (forall p <- ps :: p.Valid()) && "template" !in before
    requires Fuses(TOP, printed, Commas(PrintParameters(ps)) + [">"])
    ensures var u := HeadUnits(before + ["template", "<"] + printed + after);
            && u.Some? && Parameters(u.value) == PrintParameters(ps)
            && forall i | 0 <= i < |ps| ::
                 DefaultOf(Parameters(u.value)[i]) ==
                 if ps[i].default.Some? then Some(PrintAll(ps[i].default.value)) else None
  {
    var texts := PrintParameters(ps);
    forall i | 0 <= i < |ps| ensures
      && Balanced(TOP, texts[i]) && NoTop(texts[i], ",")
      && DefaultOf(texts[i]) == if ps[i].default.Some? then Some(PrintAll(ps[i].default.value)) else None
    {
      ParameterPrints(ps[i]);
    }
    ParametersOfCommas(texts);
    var toks := before + ["template", "<"] + printed + after;
    var i, m := |before|, |before| + 2 + |printed|;
    assert toks[..i] == before && toks[i + 2..m] == printed;
    HeadComplete(toks, i, m, Commas(texts));
  }
}
