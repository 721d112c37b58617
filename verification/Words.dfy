/**
 Text as words: `normalize_ws` and `split_first_token` of src/cpp/comment/doxygen_raw.cpp, and
 how often a word occurs in a text.

 That no word is lost is stated on such counts.  A count adds up over concatenation only where
 the cut does not fall inside a word, so every lemma that joins texts says where a word may end.
 */
module Words {
  import Sequences

  /** `std::isspace`. */
  predicate IsSpace(c: char) {
    c == ' ' || c == '\t' || c == '\n' || c == '\r' || c == '\U{0B}' || c == '\U{0C}'
  }

  predicate IsWord(w: string) { w != "" && forall i | 0 <= i < |w| :: !IsSpace(w[i]) }

  predicate EndsWord(s: string) { s != "" && !IsSpace(s[|s| - 1]) }

  /** One more character at the end of the last word. */
  function Grown(ws: seq<string>, c: char): seq<string>
    requires ws != []
  {
    ws[..|ws| - 1] + [ws[|ws| - 1] + [c]]
  }

  /** The maximal runs of characters that are not white space. */
  function WordsOf(s: string): (r: seq<string>)
    ensures forall i | 0 <= i < |r| :: IsWord(r[i])
    ensures EndsWord(s) ==> r != []
  {
    if s == "" then []
    else
      var init, c := s[..|s| - 1], s[|s| - 1];
      var ws := WordsOf(init);
      if IsSpace(c) then ws
      else if EndsWord(init) then Grown(ws, c)
      else ws + [[c]]
  }

  /** Words with one space between them. */
  function Joined(ws: seq<string>): string {
    if ws == [] then ""
    else if |ws| == 1 then ws[0]
    else Joined(ws[..|ws| - 1]) + " " + ws[|ws| - 1]
  }

  function Normalized(s: string): string { Joined(WordsOf(s)) }

  lemma WordsAdd(s: string, c: char)
    ensures WordsOf(s + [c]) == if IsSpace(c) then WordsOf(s)
                                else if EndsWord(s) then Grown(WordsOf(s), c) else WordsOf(s) + [[c]]
  {
    Sequences.Added(s, c);
  }

  lemma JoinedAdd(ws: seq<string>, w: string)
    ensures Joined(ws + [w]) == if ws == [] then w else Joined(ws) + " " + w
  {
    Sequences.Added(ws, w);
  }

  lemma JoinedExtend(ws: seq<string>, w: string, c: char)
    ensures Joined(ws + [w + [c]]) == Joined(ws + [w]) + [c]
  {
    JoinedAdd(ws, w);
    JoinedAdd(ws, w + [c]);
    if ws != [] {
      assert Joined(ws) + " " + (w + [c]) == Joined(ws) + " " + w + [c];
    }
  }

  lemma {:induction false} JoinedIsEmpty(ws: seq<string>)
    requires forall i | 0 <= i < |ws| :: IsWord(ws[i])
    ensures Joined(ws) == "" <==> ws == []
  {
  }

  /** `normalize_ws`. */
  method NormalizeWs(s: string) returns (out: string)
    ensures out == Normalized(s)
  {
    hide WordsOf, Joined;
    NothingNormalized();
    out := "";
    var pendingSpace := false;
    for i := 0 to |s|
      invariant out == Joined(WordsOf(s[..i])) && pendingSpace == (out != "" && !EndsWord(s[..i]))
    {
      WordsAdd(s[..i], s[i]);
      assert s[..i + 1] == s[..i] + [s[i]];
      ghost var ws := WordsOf(s[..i]);
      JoinedIsEmpty(ws);
      if IsSpace(s[i]) {
        pendingSpace := out != "";
      } else {
        if EndsWord(s[..i]) {
          JoinedExtend(ws[..|ws| - 1], ws[|ws| - 1], s[i]);
          Sequences.ButLast(ws);
        } else {
          JoinedAdd(ws, [s[i]]);
        }
        if pendingSpace {
          out := out + " ";
        }
        pendingSpace := false;
        out := out + [s[i]];
        assert "" + [s[i]] == [s[i]];
      }
    }
    assert s[..|s|] == s;
  }

  lemma NothingNormalized()
    ensures WordsOf("") == [] && Joined([]) == ""
  {
  }

  predicate Cuttable(a: string, b: string) { a == "" || b == "" || IsSpace(a[|a| - 1]) || IsSpace(b[0]) }

  lemma WordsConcatOne(a: string, c: char)
    requires Cuttable(a, [c])
    ensures WordsOf(a + [c]) == WordsOf(a) + WordsOf([c])
  {
    WordsAdd(a, c);
    WordsAdd("", c);
    NothingNormalized();
    assert "" + [c] == [c];
    hide WordsOf;
    Sequences.AddNothing(WordsOf(a));
    Sequences.AddNothing([[c]]);
  }

  lemma WordsConcatAdd(a: string, b: string, c: char)
    requires b != "" && WordsOf(a + b) == WordsOf(a) + WordsOf(b)
    ensures WordsOf(a + (b + [c])) == WordsOf(a) + WordsOf(b + [c])
  {
    WordsAdd(b, c);
    WordsAdd(a + b, c);
    Sequences.Assoc(a, b, [c]);
    EndsWordConcat(a, b);
    if EndsWord(b) {
      GrownConcat(WordsOf(a), WordsOf(b), c);
    }
    hide WordsOf, Grown, EndsWord;
    Sequences.Assoc(WordsOf(a), WordsOf(b), [[c]]);
  }

  lemma EndsWordConcat(a: string, b: string)
    requires b != ""
    ensures EndsWord(a + b) <==> EndsWord(b)
  {
  }

  lemma CuttableInit(a: string, b: string)
    requires Cuttable(a, b) && b != ""
    ensures Cuttable(a, b[..|b| - 1])
  {
  }

  /** Text can be cut at white space. */
  lemma {:induction false} WordsConcat(a: string, b: string)
    requires Cuttable(a, b)
    ensures WordsOf(a + b) == WordsOf(a) + WordsOf(b)
  {
    if b == "" {
      Sequences.AddNothing(a);
    } else if |b| == 1 {
      WordsConcatOne(a, b[0]);
      assert b == [b[0]];
    } else {
      CuttableInit(a, b);
      hide *;
      var init, c := b[..|b| - 1], b[|b| - 1];
      WordsConcat(a, init);
      WordsConcatAdd(a, init, c);
      Sequences.ButLast(b);
    }
  }

  lemma GrownConcat(x: seq<string>, y: seq<string>, c: char)
    requires y != []
    ensures Grown(x + y, c) == x + Grown(y, c)
  {
  }

  lemma {:induction false} WordsOfWord(w: string)
    requires IsWord(w)
    ensures WordsOf(w) == [w]
  {
    var init := w[..|w| - 1];
    Sequences.ButLast(w);
    if init == "" {
      assert [] + [w] == [w];
    } else {
      assert IsWord(init);
      WordsOfWord(init);
    }
  }

  lemma SpaceAdded(a: string)
    ensures WordsOf(a + " ") == WordsOf(a)
  {
    WordsAdd(a, ' ');
  }

  lemma {:induction false} WordsOfJoined(ws: seq<string>)
    requires forall i | 0 <= i < |ws| :: IsWord(ws[i])
    ensures WordsOf(Joined(ws)) == ws
  {
    if |ws| == 1 {
      WordsOfWord(ws[0]);
    } else if ws != [] {
      var init, w := ws[..|ws| - 1], ws[|ws| - 1];
      hide WordsOf;
      WordsOfJoined(init);
      SpaceAdded(Joined(init));
      WordsConcat(Joined(init) + " ", w);
      WordsOfWord(w);
      Sequences.ButLast(ws);
    }
  }

  // ---- counting words ----

  function Count(ws: seq<string>, w: string): nat {
    if ws == [] then 0 else Count(ws[..|ws| - 1], w) + if ws[|ws| - 1] == w then 1 else 0
  }

  lemma {:induction false} CountConcat(a: seq<string>, b: seq<string>, w: string)
    ensures Count(a + b, w) == Count(a, w) + Count(b, w)
  {
    if b == [] {
      assert a + b == a;
    } else {
      assert (a + b)[..|a + b| - 1] == a + b[..|b| - 1];
      CountConcat(a, b[..|b| - 1], w);
    }
  }

  /** How often the word w occurs in s. */
  function N(s: string, w: string): nat { Count(WordsOf(s), w) }

  function NAll(lines: seq<string>, w: string): nat {
    if lines == [] then 0 else NAll(lines[..|lines| - 1], w) + N(lines[|lines| - 1], w)
  }

  lemma NAllAdd(lines: seq<string>, s: string, w: string)
    ensures NAll(lines + [s], w) == NAll(lines, w) + N(s, w)
  {
    Sequences.Added(lines, s);
  }

  lemma NSpaced(a: string, b: string, w: string)
    ensures N(a + " " + b, w) == N(a, w) + N(b, w) && N("", w) == 0
  {
    SpaceAdded(a);
    WordsConcat(a + " ", b);
    CountConcat(WordsOf(a), WordsOf(b), w);
  }

  lemma NNormalized(s: string, w: string)
    ensures N(Normalized(s), w) == N(s, w)
  {
    WordsOfJoined(WordsOf(s));
  }

  lemma NNothing(w: string)
    ensures N("", w) == 0 && NAll([], w) == 0
  {
  }

  /** A text of white space has no words. */
  lemma {:induction false} NBlank(s: string, w: string)
    requires forall i | 0 <= i < |s| :: IsSpace(s[i])
    ensures N(s, w) == 0 && WordsOf(s) == []
  {
    if s != "" {
      NBlank(s[..|s| - 1], w);
    }
  }

  function TokenLength(s: string): (r: nat)
    ensures r <= |s| && (forall i | 0 <= i < r :: !IsSpace(s[i])) && (r < |s| ==> IsSpace(s[r]))
  {
    if s == "" || IsSpace(s[0]) then 0 else 1 + TokenLength(s[1..])
  }

  function SpaceLength(s: string): (r: nat)
    ensures r <= |s| && (forall i | 0 <= i < r :: IsSpace(s[i])) && (r < |s| ==> !IsSpace(s[r]))
  {
    if s == "" || !IsSpace(s[0]) then 0 else 1 + SpaceLength(s[1..])
  }

  /** `split_first_token`: the first token, and what follows the white space behind it. */
  function SplitFirst(s: string): (string, string) {
    var n := TokenLength(s);
    (s[..n], s[n + SpaceLength(s[n..])..])
  }

  lemma SplitFirstParts(s: string) returns (gap: string)
    ensures s == SplitFirst(s).0 + (gap + SplitFirst(s).1)
    ensures (forall i | 0 <= i < |gap| :: IsSpace(gap[i])) && (gap == "" ==> SplitFirst(s).1 == "")
  {
    var n := TokenLength(s);
    var tail := s[n..];
    var k := SpaceLength(tail);
    gap := tail[..k];
    assert tail != "" ==> IsSpace(tail[0]);
    hide IsSpace;
    Sequences.Split(s, n);
    Sequences.Split(tail, k);
    Sequences.SliceSlice(s, n, k);
  }

  lemma NSplitFirst(s: string, w: string)
    ensures N(SplitFirst(s).0, w) + N(SplitFirst(s).1, w) == N(s, w)
  {
    var gap := SplitFirstParts(s);
    hide WordsOf, SplitFirst, N;
    var first, rest := SplitFirst(s).0, SplitFirst(s).1;
    NConcat(gap, rest, w);
    NConcat(first, gap + rest, w);
    NBlank(gap, w);
  }

  lemma NConcat(a: string, b: string, w: string)
    requires Cuttable(a, b)
    ensures N(a + b, w) == N(a, w) + N(b, w)
  {
    WordsConcat(a, b);
    CountConcat(WordsOf(a), WordsOf(b), w);
  }

  /** Normalized text starts with a word. */
  lemma NormalizedStarts(s: string)
    ensures Normalized(s) != "" ==> !IsSpace(Normalized(s)[0])
  {
    JoinedStarts(WordsOf(s));
  }

  lemma {:induction false} JoinedStarts(ws: seq<string>)
    requires forall i | 0 <= i < |ws| :: IsWord(ws[i])
    ensures Joined(ws) != "" ==> !IsSpace(Joined(ws)[0])
  {
    if |ws| > 1 {
      JoinedStarts(ws[..|ws| - 1]);
      JoinedIsEmpty(ws[..|ws| - 1]);
    }
  }
}
