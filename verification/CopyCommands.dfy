/** `copy_target` of src/cpp/comment/doxygen_raw.cpp: the entity a copy command names, reduced to a qualified name. */
module CopyCommands {
  import Sequences

  predicate IsGap(c: char) { c == ' ' || c == '\t' || c == '\r' || c == '\n' }

  /** How deep in template arguments one is after this character. */
  function Deeper(depth: nat, c: char): nat {
    if c == '<' then depth + 1 else if c == '>' && depth > 0 then depth - 1 else depth
  }

  function DepthAfter(text: string): nat {
    if text == "" then 0 else Deeper(DepthAfter(text[..|text| - 1]), text[|text| - 1])
  }

  /** Where the parameter list starts: the first parenthesis outside template arguments, or the end. */
  predicate OpensParameters(text: string, i: nat)
    requires i < |text|
  {
    text[i] == '(' && DepthAfter(text[..i]) == 0
  }

  /** The characters outside template arguments. */
  function Outside(text: string): string {
    if text == "" then ""
    else
      var init, c := text[..|text| - 1], text[|text| - 1];
      Outside(init) + if c == '<' || c == '>' || DepthAfter(init) > 0 then "" else [c]
  }

  function ParametersAt(text: string, i: nat): (r: nat)
    requires i <= |text|
    ensures i <= r <= |text| && (forall k | i <= k < r :: !OpensParameters(text, k))
    ensures r < |text| ==> OpensParameters(text, r)
    decreases |text| - i
  {
    if i == |text| || OpensParameters(text, i) then i else ParametersAt(text, i + 1)
  }

  function GapLength(s: string): (r: nat)
    ensures r <= |s| && (forall i | 0 <= i < r :: IsGap(s[i])) && (r < |s| ==> !IsGap(s[r]))
  {
    if s == "" || !IsGap(s[0]) then 0 else 1 + GapLength(s[1..])
  }

  function NameLength(s: string): (r: nat)
    ensures r <= |s| && (forall i | 0 <= i < r :: !IsGap(s[i])) && (r < |s| ==> IsGap(s[r]))
  {
    if s == "" || IsGap(s[0]) then 0 else 1 + NameLength(s[1..])
  }

  /** The first word, without a leading `::`. */
  function FirstName(s: string): string {
    var from := s[GapLength(s)..];
    var name := from[..NameLength(from)];
    if "::" <= name then name[2..] else name
  }

  /** What `copy_target` yields. */
  function CopyTarget(text: string): string { FirstName(Outside(text[..ParametersAt(text, 0)])) }

  method CopyTargetOf(text: string) returns (target: string)
    ensures target == CopyTarget(text)
  {
    var out := NamedPart(text);
    target := TakeName(out);
    if "::" <= target {
      target := target[2..];
    }
  }

  method NamedPart(text: string) returns (out: string)
    ensures out == Outside(text[..ParametersAt(text, 0)])
  {
    hide Outside, DepthAfter;
    Nothing();
    out := "";
    var depth := 0;
    for i := 0 to |text|
      invariant depth == DepthAfter(text[..i]) && out == Outside(text[..i])
      invariant ParametersAt(text, 0) == ParametersAt(text, i)
    {
      OneMore(text, i);
      var c := text[i];
      if c == '<' {
        depth := depth + 1;
      } else if c == '>' {
        if depth > 0 {
          depth := depth - 1;
        }
      } else if c == '(' && depth == 0 {
        return out;
      } else if depth == 0 {
        out := out + [c];
      }
    }
  }

  method TakeName(out: string) returns (name: string)
    ensures name == out[GapLength(out)..][..NameLength(out[GapLength(out)..])]
  {
    var a := 0;
    while a < |out| && IsGap(out[a])
      invariant 0 <= a <= |out| && forall i | 0 <= i < a :: IsGap(out[i])
    {
      a := a + 1;
    }
    assert GapLength(out) == a;
    var b := a;
    while b < |out| && !IsGap(out[b])
      invariant a <= b <= |out| && forall i | a <= i < b :: !IsGap(out[i])
    {
      b := b + 1;
    }
    var from := out[a..];
    assert forall i | 0 <= i < |from| :: from[i] == out[a + i];
    assert NameLength(from) == b - a;
    name := out[a..b];
  }

  lemma Nothing()
    ensures Outside("") == "" && DepthAfter("") == 0
  {
  }

  lemma OneMore(text: string, i: nat)
    requires i < |text|
    ensures DepthAfter(text[..i + 1]) == Deeper(DepthAfter(text[..i]), text[i])
    ensures Outside(text[..i + 1]) ==
            Outside(text[..i]) + if text[i] == '<' || text[i] == '>' || DepthAfter(text[..i]) > 0 then "" else [text[i]]
  {
    assert text[..i + 1][..i] == text[..i];
  }

  predicate Bare(s: string) { forall i | 0 <= i < |s| :: s[i] != '<' && s[i] != '>' && s[i] != '(' }

  predicate IsPlain(s: string) { Bare(s) && forall i | 0 <= i < |s| :: !IsGap(s[i]) }

  /** Whatever is copied, the target is one word without template arguments or a parameter list. */
  lemma TargetIsPlain(text: string)
    ensures IsPlain(CopyTarget(text))
  {
    var n := ParametersAt(text, 0);
    forall k | 0 <= k < n ensures !OpensParameters(text[..n], k) {
      assert text[..n][..k] == text[..k] && !OpensParameters(text, k);
    }
    OutsideIsBare(text[..n]);
    FirstNameIsIn(Outside(text[..n]));
  }

  lemma FirstNameIsIn(s: string)
    ensures Bare(s) ==> IsPlain(FirstName(s))
  {
  }

  lemma {:induction false} OutsideIsBare(text: string)
    requires forall k | 0 <= k < |text| :: !OpensParameters(text, k)
    ensures Bare(Outside(text))
  {
    if text != "" {
      var init := text[..|text| - 1];
      assert !OpensParameters(text, |text| - 1);
      forall k | 0 <= k < |init| ensures !OpensParameters(init, k) {
        assert !OpensParameters(text, k) && init[..k] == text[..k];
      }
      OutsideIsBare(init);
    }
  }

  lemma {:induction false} PlainIsOutside(name: string)
    requires Bare(name)
    ensures Outside(name) == name && DepthAfter(name) == 0
  {
    if name != "" {
      var init := name[..|name| - 1];
      PlainIsOutside(init);
      assert name == init + [name[|name| - 1]];
    }
  }

  lemma {:induction false} OutsidePrefix(a: string, b: string)
    ensures Outside(a) <= Outside(a + b)
  {
    if b == "" {
      assert a + b == a;
    } else {
      var init := b[..|b| - 1];
      OutsidePrefix(a, init);
      assert (a + b)[..|a + b| - 1] == a + init;
    }
  }

  /** No parameter list starts in front of the end. */
  predicate NoParameters(text: string) { forall k | 0 <= k < |text| :: !OpensParameters(text, k) }

  lemma ParametersBehind(head: string, rest: string)
    requires NoParameters(head)
    ensures ParametersAt(head + rest, 0) >= |head|
  {
    var text := head + rest;
    forall k | 0 <= k < |head| ensures !OpensParameters(text, k) {
      assert !OpensParameters(head, k) && text[k] == head[k] && text[..k] == head[..k];
    }
  }

  lemma ParametersEnd(head: string, rest: string)
    requires NoParameters(head) && rest != "" && rest[0] == '(' && DepthAfter(head) == 0
    ensures ParametersAt(head + rest, 0) == |head|
  {
    ParametersBehind(head, rest);
    assert (head + rest)[..|head|] == head;
    assert OpensParameters(head + rest, |head|);
  }

  /** Outside its template arguments a name is a plain one, and a parameter list or qualifiers stand behind it: then the
      name is what is copied, without a leading scope. */
  lemma HeadIsKept(head: string, name: string, rest: string)
    requires NoParameters(head) && DepthAfter(head) == 0 && Outside(head) == name && IsPlain(name) && name != ""
    requires rest == "" || rest[0] == '(' || rest[0] == ' '
    ensures CopyTarget(head + rest) == if "::" <= name then name[2..] else name
  {
    var text := head + rest;
    var n := ParametersAt(text, 0);
    ParametersBehind(head, rest);
    if n == |head| {
      assert text[..n] == head;
      hide IsPlain, Outside, DepthAfter, OpensParameters, FirstName;
      NameStarts(name, name);
    } else {
      if rest != "" && rest[0] == '(' {
        ParametersEnd(head, rest);
      }
      var tail := rest[1..n - |head|];
      assert text[..n] == (head + " ") + tail;
      BlankBehind(head);
      hide IsPlain, Outside, DepthAfter, OpensParameters, FirstName;
      OutsidePrefix(head + " ", tail);
      NameStarts(name, Outside(text[..n]));
    }
  }

  lemma BlankBehind(head: string)
    requires DepthAfter(head) == 0
    ensures Outside(head + " ") == Outside(head) + " "
  {
    assert (head + " ")[..|head|] == head;
  }

  /** A plain name is its own target, whatever parameter list or qualifiers stand behind it. */
  lemma PlainNameIsKept(name: string, rest: string)
    requires name != "" && IsPlain(name) && (rest == "" || rest[0] == '(' || rest[0] == ' ')
    ensures CopyTarget(name + rest) == if "::" <= name then name[2..] else name
  {
    PlainIsOutside(name);
    HeadIsKept(name, name, rest);
  }

  /** What may stand between `<` and its `>`. */
  predicate Nested(args: string) {
    (forall k | 0 <= k <= |args| :: DepthAfter("<" + args[..k]) >= 1) && DepthAfter("<" + args) == 1
  }

  lemma {:induction false} DepthBehind(a: string, s: string)
    requires DepthAfter(a) == 0
    ensures DepthAfter(a + s) == DepthAfter(s)
  {
    if s == "" {
      assert a + s == a;
    } else {
      DepthBehind(a, s[..|s| - 1]);
      assert (a + s)[..|a + s| - 1] == a + s[..|s| - 1];
    }
  }

  /** Nothing of the template arguments is outside them, and no parameter list starts in them. */
  lemma {:induction false} ArgumentsAreInside(a: string, args: string)
    requires IsPlain(a) && forall k | 0 <= k <= |args| :: DepthAfter("<" + args[..k]) >= 1
    ensures Outside(a + ("<" + args)) == a && NoParameters(a + ("<" + args))
  {
    PlainIsOutside(a);
    if args == "" {
      assert "<" + args == "<" && (a + "<")[..|a|] == a;
      PlainHasNone(a);
      NoneInPrefix(a, '<');
    } else {
      var init, c := args[..|args| - 1], args[|args| - 1];
      assert forall k | 0 <= k <= |init| :: init[..k] == args[..k];
      assert args[..|init|] == init;
      hide Outside, NoParameters, IsPlain, DepthAfter;
      ArgumentsAreInside(a, init);
      var before := a + ("<" + init);
      assert a + ("<" + args) == before + [c];
      DepthBehind(a, "<" + init);
      InsideOn(before, c);
      NoneInPrefix(before, c);
    }
  }

  lemma InsideOn(s: string, c: char)
    requires DepthAfter(s) >= 1
    ensures Outside(s + [c]) == Outside(s)
  {
    Sequences.Added(s, c);
    Sequences.AddNothing(Outside(s));
  }

  lemma PlainHasNone(a: string)
    requires Bare(a)
    ensures NoParameters(a)
  {
  }

  lemma NoneInPrefix(s: string, c: char)
    requires NoParameters(s) && (c != '(' || DepthAfter(s) > 0)
    ensures NoParameters(s + [c])
  {
    forall k | 0 <= k < |s + [c]| ensures !OpensParameters(s + [c], k) {
      if k < |s| {
        assert !OpensParameters(s, k) && (s + [c])[..k] == s[..k];
      } else {
        assert (s + [c])[..k] == s;
      }
    }
  }

  lemma {:induction false} PlainOutsideBehind(s: string, b: string)
    requires DepthAfter(s) == 0 && NoParameters(s) && Bare(b)
    ensures Outside(s + b) == Outside(s) + b && DepthAfter(s + b) == 0 && NoParameters(s + b)
  {
    if b == "" {
      assert s + b == s;
    } else {
      var init, c := b[..|b| - 1], b[|b| - 1];
      PlainOutsideBehind(s, init);
      assert s + b == (s + init) + [c] && ((s + init) + [c])[..|s + init|] == s + init;
      NoneInPrefix(s + init, c);
      assert b == init + [c];
    }
  }

  /** Template arguments are dropped whole, however they nest and whatever stands in them. */
  lemma ArgumentsAreDropped(a: string, args: string, b: string, rest: string)
    requires IsPlain(a) && IsPlain(b) && a + b != "" && Nested(args)
    requires rest == "" || rest[0] == '(' || rest[0] == ' '
    ensures CopyTarget(a + ("<" + args) + ">" + b + rest) == if "::" <= a + b then (a + b)[2..] else a + b
  {
    var inner := a + ("<" + args);
    assert args[..|args|] == args;
    ArgumentsAreInside(a, args);
    PlainIsOutside(a);
    DepthBehind(a, "<" + args);
    var closed := inner + ">";
    assert closed[..|inner|] == inner;
    NoneInPrefix(inner, '>');
    hide Outside, DepthAfter, OpensParameters;
    ClosingKeepsOutside(inner);
    PlainOutsideBehind(closed, b);
    HeadIsKept(closed + b, a + b, rest);
  }

  lemma ClosingKeepsOutside(s: string)
    requires DepthAfter(s) == 1
    ensures Outside(s + ">") == Outside(s) && DepthAfter(s + ">") == 0
  {
    assert (s + ">")[..|s|] == s;
    Sequences.AddNothing(Outside(s));
  }

  lemma NameStarts(name: string, s: string)
    requires name != "" && IsPlain(name) && (s == name || name + " " <= s)
    ensures FirstName(s) == if "::" <= name then name[2..] else name
  {
    assert forall i | 0 <= i < |name| :: s[i] == name[i];
    assert |s| > |name| ==> s[|name|] == ' ';
    assert GapLength(s) == 0 && s[0..] == s;
    assert NameLength(s) == |name|;
  }

  /** A whole declaration behind the command is cut down to the name. */
  lemma DeclarationIsCut()
    ensures CopyTarget("A::f(int) const") == "A::f"
  {
    var name, rest := "A::f", "(int) const";
    assert name[0] != ':';
    PlainNameIsKept(name, rest);
    assert name + rest == "A::f(int) const";
  }
}
