/** What the text of a template parameter list tells. */
module TokenText {
  import Words
  import Sequences

  // The text is the one `template_head` of src/cpp/parser/cursor_utils.cpp builds.

  type Tokens = seq<string>

  /** `append_token` over a token list. */
  function Joined(ts: Tokens): string {
    if ts == [] then "" else Append(Joined(ts[..|ts| - 1]), ts[|ts| - 1])
  }

  function Append(buf: string, t: string): string { (if buf != "" then buf + " " else buf) + t }

  function Texts(ps: seq<Tokens>): seq<string> { seq(|ps|, i requires 0 <= i < |ps| => Joined(ps[i])) }

  function CommaJoined(ss: seq<string>): string {
    if ss == [] then "" else if |ss| == 1 then ss[0] else CommaJoined(ss[..|ss| - 1]) + ", " + ss[|ss| - 1]
  }

  // ---- the text, read back ----

  /** A token as it stands in most sources: no white space in it, and no comma at its end unless it is one. */
  predicate IsClean(t: string) { Words.IsWord(t) && (t == "," || t[|t| - 1] != ',') }

  predicate AllClean(ts: Tokens) { forall t <- ts :: IsClean(t) }

  /** A parameter never starts with a comma: that would have been a separator. */
  predicate IsCut(p: Tokens) { AllClean(p) && (p == [] || p[0] != ",") }

  /** A comma is a separator where it ends a word, or stands where a parameter would start. */
  predicate Separates(w: string, cur: Tokens) { w != "" && w[|w| - 1] == ',' && (w != "," || cur == []) }

  /** The words of a text cut at its separators. */
  function CutWords(ws: Tokens): (ps: seq<Tokens>)
    ensures ps != []
  {
    if ws == [] then [[]]
    else
      var ps, w := CutWords(ws[..|ws| - 1]), ws[|ws| - 1];
      var init, cur := ps[..|ps| - 1], ps[|ps| - 1];
      if Separates(w, cur) then init + [if w == "," then cur else cur + [w[..|w| - 1]]] + [[]] else init + [cur + [w]]
  }

  /** The parameters a text spells. */
  function Spelt(text: string): seq<Tokens> { CutWords(Words.WordsOf(text)) }

  lemma CutWordsAdd(ws: Tokens, init: seq<Tokens>, cur: Tokens, w: string)
    requires CutWords(ws) == init + [cur]
    ensures CutWords(ws + [w]) ==
            if Separates(w, cur) then init + [if w == "," then cur else cur + [w[..|w| - 1]]] + [[]]
            else init + [cur + [w]]
  {
    Sequences.Added(ws, w);
    Sequences.Added(init, cur);
  }

  lemma {:induction false} JoinedIsSpaced(ts: Tokens)
    requires forall t <- ts :: t != ""
    ensures Joined(ts) == Words.Joined(ts) && (Joined(ts) == "" <==> ts == [])
  {
    if ts != [] {
      var init := ts[..|ts| - 1];
      assert forall t <- init :: t in ts;
      JoinedIsSpaced(init);
      assert ts[|ts| - 1] in ts;
      assert "" + ts[|ts| - 1] == ts[|ts| - 1];
    }
  }

  /** The words of a parameter's text are its tokens, with one space between them. */
  lemma JoinedWords(ts: Tokens)
    requires AllClean(ts)
    ensures Words.WordsOf(Joined(ts)) == ts && Joined(ts) == Words.Joined(ts)
  {
    JoinedIsSpaced(ts);
    assert forall i | 0 <= i < |ts| :: ts[i] in ts;
    Words.WordsOfJoined(ts);
  }

  lemma {:induction false} JoinedEnds(ts: Tokens)
    requires AllClean(ts)
    ensures Words.EndsWord(Joined(ts)) <==> ts != []
  {
    if ts != [] {
      var t := ts[|ts| - 1];
      assert t in ts;
      assert Joined(ts)[|Joined(ts)| - 1] == t[|t| - 1];
    }
  }

  lemma CommaJoinedAdd(ss: seq<string>, s: string)
    ensures CommaJoined(ss + [s]) == if ss == [] then s else CommaJoined(ss) + ", " + s
  {
    Sequences.Added(ss, s);
  }

  lemma TextsAdd(ps: seq<Tokens>, p: Tokens)
    ensures Texts(ps + [p]) == Texts(ps) + [Joined(p)]
  {
    hide Joined;
  }

  /** The text of a list ends in a word exactly when its last parameter has one. */
  lemma ListEnds(init: seq<Tokens>, p: Tokens)
    requires AllClean(p)
    ensures Words.EndsWord(CommaJoined(Texts(init + [p]))) <==> p != []
  {
    TextsAdd(init, p);
    CommaJoinedAdd(Texts(init), Joined(p));
    JoinedEnds(p);
    hide Texts, CommaJoined, AllClean;
    var text := Joined(p);
    hide Joined;
    if text != "" {
      var whole := CommaJoined(Texts(init) + [text]);
      assert whole[|whole| - 1] == text[|text| - 1];
    }
  }

  /** Tokens behind a separator are read into one parameter. */
  lemma {:induction false} CutTokens(ws: Tokens, init: seq<Tokens>, p: Tokens)
    requires CutWords(ws) == init + [[]] && IsCut(p)
    ensures CutWords(ws + p) == init + [p]
  {
    if p == [] {
      Sequences.AddNothing(ws);
    } else {
      var q, t := p[..|p| - 1], p[|p| - 1];
      assert t in p && forall x <- q :: x in p;
      hide CutWords;
      CutTokens(ws, init, q);
      CutWordsAdd(ws + q, init, q, t);
      Sequences.ButLast(p);
      Sequences.Assoc(ws, q, [t]);
    }
  }

  /** A comma behind the text of a list separates what follows. */
  lemma CutComma(text: string, init: seq<Tokens>, p: Tokens)
    requires Spelt(text) == init + [p] && (Words.EndsWord(text) <==> p != [])
    ensures Spelt(text + ",") == init + [p] + [[]]
  {
    var ws := Words.WordsOf(text);
    Words.WordsAdd(text, ',');
    hide Words.WordsOf;
    if p == [] {
      CutWordsAdd(ws, init, p, ",");
    } else {
      var head, w := ws[..|ws| - 1], ws[|ws| - 1];
      Sequences.ButLast(ws);
      var ps := CutWords(head);
      Sequences.ButLast(ps);
      hide CutWords;
      CutWordsAdd(head, ps[..|ps| - 1], ps[|ps| - 1], w);
      CutWordsAdd(head, ps[..|ps| - 1], ps[|ps| - 1], w + [',']);
      WordKept(ps[..|ps| - 1], ps[|ps| - 1], w, init, p);
    }
  }

  /** A word that left something to read on was no separator. */
  lemma WordKept(before: seq<Tokens>, cur: Tokens, w: string, init: seq<Tokens>, p: Tokens)
    requires p != [] && w != ""
    requires init + [p] == if Separates(w, cur) then before + [if w == "," then cur else cur + [w[..|w| - 1]]] + [[]]
                           else before + [cur + [w]]
    ensures before == init && cur + [w] == p && (w + [','])[..|w|] == w
  {
    Sequences.Added(init, p);
    Sequences.Added(before, cur + [w]);
    hide Separates;
    assert (init + [p])[|init + [p]| - 1] == p;
    assert !Separates(w, cur);
  }

  /** The text of a parameter list spells every parameter, token for token and in order: none is missing and none is
      run together with the next. */
  lemma {:induction false} TextSpellsParameters(ps: seq<Tokens>)
    requires ps != [] && forall p <- ps :: IsCut(p)
    ensures Spelt(CommaJoined(Texts(ps))) == ps
  {
    var init, p := ps[..|ps| - 1], ps[|ps| - 1];
    Sequences.ButLast(ps);
    assert p in ps && forall q <- init :: q in ps;
    TextsAdd(init, p);
    CommaJoinedAdd(Texts(init), Joined(p));
    JoinedWords(p);
    if init == [] {
      assert CutWords([]) == [] + [[]];
      CutTokens([], [], p);
      Sequences.AddNothing(p);
    } else {
      TextSpellsParameters(init);
      SpeltOn(init, p);
    }
  }

  lemma SpeltOn(init: seq<Tokens>, p: Tokens)
    requires init != [] && IsCut(p) && (forall q <- init :: IsCut(q)) && Spelt(CommaJoined(Texts(init))) == init
    ensures Spelt(CommaJoined(Texts(init)) + ", " + Joined(p)) == init + [p]
  {
    var before, last := init[..|init| - 1], init[|init| - 1];
    Sequences.ButLast(init);
    assert last in init;
    JoinedWords(p);
    ListEnds(before, last);
    hide Joined, Texts, CommaJoined, Spelt, IsCut, AllClean, Words.EndsWord, Words.WordsOf;
    var text := CommaJoined(Texts(init));
    CutComma(text, before, last);
    TokensBehind(text + ",", init, p, Joined(p));
    assert text + ", " == text + "," + " ";
  }

  lemma TokensBehind(text: string, init: seq<Tokens>, p: Tokens, last: string)
    requires Spelt(text) == init + [[]] && IsCut(p) && Words.WordsOf(last) == p
    ensures Spelt(text + " " + last) == init + [p]
  {
    hide CutWords, Words.WordsOf, IsCut;
    Words.SpaceAdded(text);
    Words.WordsConcat(text + " ", last);
    CutTokens(Words.WordsOf(text), init, p);
  }
}
