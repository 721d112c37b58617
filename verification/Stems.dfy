/**
 Page stems of src/clangquill/generator.py: `_slug`, `_stem` and the two passes in which
 `plan_pages` settles them.  A digest is any function of a name; how it is computed does not
 matter here.
 */
module Stems {
  import opened Wrappers
  import Sequences

  const MAX_STEM := 96
  const DIGEST := 8

  type Digest = string -> string

  predicate AlNum(c: char) { '0' <= c <= '9' || 'A' <= c <= 'Z' || 'a' <= c <= 'z' }

  /** Every run of other characters becomes one underscore. */
  function Squeezed(name: string): string {
    if name == "" then ""
    else
      var init, c := name[..|name| - 1], name[|name| - 1];
      if AlNum(c) then Squeezed(init) + [c]
      else if init != "" && !AlNum(init[|init| - 1]) then Squeezed(init)
      else Squeezed(init) + "_"
  }

  function StripEnd(s: string): string { if s != "" && s[|s| - 1] == '_' then StripEnd(s[..|s| - 1]) else s }

  function StripStart(s: string): string { if s != "" && s[0] == '_' then StripStart(s[1..]) else s }

  /** `_slug`. */
  function Slug(name: string): string {
    var slug := StripEnd(StripStart(Squeezed(name)));
    if slug == "" then "global" else slug
  }

  // ---- what a slug keeps ----

  /** The maximal runs of letters and digits. */
  function Runs(s: string): (r: seq<string>)
    ensures EndsRun(s) ==> r != []
  {
    if s == "" then []
    else
      var init, c := s[..|s| - 1], s[|s| - 1];
      var runs := Runs(init);
      if !AlNum(c) then runs
      else if EndsRun(init) then runs[..|runs| - 1] + [runs[|runs| - 1] + [c]]
      else runs + [[c]]
  }

  predicate EndsRun(s: string) { s != "" && AlNum(s[|s| - 1]) }

  /** Letters, digits and underscores, no two of which meet and none of which is first or last. */
  predicate IsSlug(s: string) { s != "" && s[0] != '_' && s[|s| - 1] != '_' && IsSqueezed(s) }

  predicate IsSqueezed(s: string) {
    && (forall i | 0 <= i < |s| :: AlNum(s[i]) || s[i] == '_')
    && forall i | 0 < i < |s| :: s[i - 1] != '_' || s[i] != '_'
  }

  lemma RunsAdd(s: string, c: char)
    ensures Runs(s + [c]) == if !AlNum(c) then Runs(s)
                             else if EndsRun(s) then Runs(s)[..|Runs(s)| - 1] + [Runs(s)[|Runs(s)| - 1] + [c]]
                             else Runs(s) + [[c]]
  {
    Sequences.Added(s, c);
  }

  lemma {:induction false} SqueezedKeepsRuns(name: string)
    ensures Runs(Squeezed(name)) == Runs(name) && IsSqueezed(Squeezed(name))
    ensures (EndsRun(Squeezed(name)) <==> EndsRun(name)) && (Squeezed(name) == "" <==> name == "")
  {
    if name != "" {
      var init, c := name[..|name| - 1], name[|name| - 1];
      SqueezedKeepsRuns(init);
      RunsAdd(Squeezed(init), c);
      RunsAdd(Squeezed(init), '_');
    }
  }

  lemma {:induction false} StripEndKeepsRuns(s: string)
    requires IsSqueezed(s)
    ensures Runs(StripEnd(s)) == Runs(s) && IsSqueezed(StripEnd(s)) && StripEnd(s) <= s
    ensures StripEnd(s) != "" ==> StripEnd(s)[|StripEnd(s)| - 1] != '_'
  {
    if s != "" && s[|s| - 1] == '_' {
      StripEndKeepsRuns(s[..|s| - 1]);
    }
  }

  lemma {:induction false} StripStartKeepsRuns(s: string)
    requires IsSqueezed(s)
    ensures Runs(StripStart(s)) == Runs(s) && IsSqueezed(StripStart(s))
    ensures StripStart(s) != "" ==> StripStart(s)[0] != '_'
  {
    if s != "" && s[0] == '_' {
      StripStartKeepsRuns(s[1..]);
      RunsBehind(s[1..]);
      assert s == "_" + s[1..];
    }
  }

  lemma {:induction false} RunsBehind(s: string)
    ensures Runs("_" + s) == Runs(s)
  {
    if s == "" {
      assert "_" + s == "" + ['_'];
      RunsAdd("", '_');
    } else {
      var init, c := s[..|s| - 1], s[|s| - 1];
      RunsBehind(init);
      RunsAdd("_" + init, c);
      RunsAdd(init, c);
      assert s == init + [c] && "_" + s == "_" + init + [c];
    }
  }

  lemma {:induction false} RunsOfRun(s: string)
    requires s != "" && forall i | 0 <= i < |s| :: AlNum(s[i])
    ensures Runs(s) == [s]
  {
    var init := s[..|s| - 1];
    Sequences.ButLast(s);
    if init == "" {
      assert [] + [s] == [s];
    } else {
      RunsOfRun(init);
    }
  }

  /** The slug of a name is one, and it spells the name's letters and digits, run by run; a name without any is called
      `global`. */
  lemma SlugKeepsRuns(name: string)
    ensures IsSlug(Slug(name)) && Runs(Slug(name)) == if Runs(name) == [] then ["global"] else Runs(name)
  {
    SqueezedKeepsRuns(name);
    StripStartKeepsRuns(Squeezed(name));
    StripEndKeepsRuns(StripStart(Squeezed(name)));
    RunsOfRun("global");
    hide Squeezed, StripEnd, StripStart, Runs;
    var slug := StripEnd(StripStart(Squeezed(name)));
    if slug == "" {
      NoRuns();
    } else {
      assert EndsRun(slug);
    }
  }

  lemma NoRuns()
    ensures Runs("") == []
  {
  }

  /** `_stem`; a tag is at most a digest, so the cut never goes below the first character. */
  function Stem(name: string, tag: string, digest: Digest): string {
    var slug := Slug(name);
    var suffix := if tag == "" then "" else "_" + tag;
    var room := MAX_STEM - |suffix|;
    var cut := room - |digest(name)| - 1;
    (if |slug| > room
     then StripEnd(slug[..if cut < 0 then 0 else if cut > |slug| then |slug| else cut]) + "_" + digest(name)
     else slug) + suffix
  }

  lemma {:induction false} StripEndShortens(s: string)
    ensures |StripEnd(s)| <= |s| && StripEnd(s) <= s
  {
    if s != "" && s[|s| - 1] == '_' {
      StripEndShortens(s[..|s| - 1]);
    }
  }

  /** However long the name, its stem fits a file name. */
  lemma StemIsShort(name: string, tag: string, digest: Digest)
    requires |tag| <= DIGEST && |digest(name)| == DIGEST
    ensures |Stem(name, tag, digest)| <= MAX_STEM
  {
    var slug := Slug(name);
    var suffix := if tag == "" then "" else "_" + tag;
    var room := MAX_STEM - |suffix|;
    if |slug| > room {
      var cut := slug[..room - DIGEST - 1];
      StripEndShortens(cut);
      hide Slug, StripEnd;
      assert |StripEnd(cut) + "_" + digest(name)| <= room;
    }
  }

  /** A name keeps its slug exactly when that fits; an overlong one keeps the start of it and ends in a digest of the
      whole name. */
  lemma StemExactlyWhen(name: string, digest: Digest)
    requires |digest(name)| == DIGEST
    ensures Stem(name, "", digest) == Slug(name) <==> |Slug(name)| <= MAX_STEM
    ensures |Slug(name)| > MAX_STEM ==>
              exists k | 0 < k <= MAX_STEM - DIGEST - 1 ::
                Stem(name, "", digest) == Slug(name)[..k] + "_" + digest(name)
  {
    var slug := Slug(name);
    SlugKeepsRuns(name);
    hide Slug, StripEnd, Runs;
    if |slug| > MAX_STEM {
      var cut := slug[..MAX_STEM - DIGEST - 1];
      StripEndShortens(cut);
      StripEndKeepsFirst(cut);
      assert StripEnd(cut) == slug[..|StripEnd(cut)|];
      assert Stem(name, "", digest) == StripEnd(cut) + "_" + digest(name) + "";
    }
  }

  lemma {:induction false} StripEndKeepsFirst(s: string)
    requires s != "" && s[0] != '_'
    ensures StripEnd(s) != ""
  {
    if s[|s| - 1] == '_' {
      StripEndKeepsFirst(s[..|s| - 1]);
    }
  }

  /** `str.casefold` of a stem, whose letters are ASCII. */
  function Fold(s: string): string { seq(|s|, i requires 0 <= i < |s| => FoldChar(s[i])) }

  function FoldChar(c: char): char { if 'A' <= c <= 'Z' then (c as int + 32) as char else c }

  lemma FoldLength(s: string)
    ensures |Fold(s)| == |s|
  {
  }

  function Base(name: string, digest: Digest): string { Stem(name, "", digest) }

  function Tagged(name: string, digest: Digest): string { Stem(name, digest(name), digest) }

  function SetOf(names: seq<string>): set<string> { set n | n in names }

  /** The names that ask for the same bare stem. */
  function Claimants(f: string, names: set<string>, digest: Digest): set<string> {
    set n | n in names && Fold(Base(n, digest)) == f
  }

  /** The stem that a name should get: the bare one, unless another name asks for it too. */
  function Assigned(name: string, names: set<string>, digest: Digest): string {
    if |Claimants(Fold(Base(name, digest)), names, digest)| > 1 then Tagged(name, digest) else Base(name, digest)
  }

  ghost predicate DistinctFolds(stems: seq<string>, reserved: set<string>) {
    && (forall i, j | 0 <= i < j < |stems| :: Fold(stems[i]) != Fold(stems[j]))
    && forall i | 0 <= i < |stems| :: Fold(stems[i]) !in reserved
  }

  function Underscores(k: nat): string { seq(k, _ => '_') }

  /** What a discovery pass has recorded: per folded stem, the names that asked for it. */
  ghost predicate Records(claims: map<string, set<string>>, names: set<string>, digest: Digest) {
    && (forall f <- claims :: claims[f] == Claimants(f, names, digest))
    && forall n <- names :: Fold(Base(n, digest)) in claims
  }

  lemma RecordsAdd(claims: map<string, set<string>>, names: set<string>, name: string, digest: Digest)
    requires Records(claims, names, digest)
    ensures var f := Fold(Base(name, digest));
            Records(claims[f := (if f in claims then claims[f] else {}) + {name}], names + {name}, digest)
  {
    hide Base, Fold;
    var f := Fold(Base(name, digest));
    forall g
      ensures Claimants(g, names + {name}, digest) == Claimants(g, names, digest) + if g == f then {name} else {}
    {
    }
    if f !in claims {
      assert Claimants(f, names, digest) == {};
    }
    assert (if f in claims then claims[f] else {}) == Claimants(f, names, digest);
  }

  /** A discovery pass notes who asks for which stem. */
  function Claimed(claims: Option<map<string, set<string>>>, name: string, digest: Digest)
    : Option<map<string, set<string>>>
  {
    match claims
    case None => None
    case Some(c) =>
      var f := Fold(Base(name, digest));
      Some(c[f := (if f in c then c[f] else {}) + {name}])
  }

  /** The stems that more than one name has asked for. */
  function Contested(claims: map<string, set<string>>): set<string> { set f | f in claims && |claims[f]| > 1 }

  /** The bare stem, or the tagged one once it is known to be contested. */
  function Wanted(name: string, deciding: bool, contested: set<string>, digest: Digest): string {
    if deciding && Fold(Base(name, digest)) in contested then Tagged(name, digest) else Base(name, digest)
  }

  function AllWanted(names: seq<string>, deciding: bool, contested: set<string>, digest: Digest): seq<string> {
    seq(|names|, i requires 0 <= i < |names| => Wanted(names[i], deciding, contested, digest))
  }

  ghost predicate Padded(stem: string, wanted: string) { exists k :: stem == wanted + Underscores(k) }

  /** The last resort: underscores until the stem is free. */
  method PadUntilFree(wanted: string, seen: set<string>) returns (stem: string)
    ensures Fold(stem) !in seen && Padded(stem, wanted)
    ensures Fold(wanted) !in seen ==> stem == wanted
  {
    hide Fold;
    stem := wanted;
    ghost var k := 0;
    assert wanted + Underscores(0) == wanted;
    while Fold(stem) in seen
      invariant stem == wanted + Underscores(k) && (Fold(wanted) !in seen ==> k == 0)
      decreases |Longer(seen, |stem|)|
    {
      LongerShrinks(seen, stem);
      assert wanted + Underscores(k) + "_" == wanted + Underscores(k + 1);
      stem := stem + "_";
      k := k + 1;
    }
  }

  /** The stems given so far to the first pages of a walk that wants `want`. */
  ghost predicate Walked(stems: seq<string>, want: seq<string>, seen: set<string>) {
    && |stems| <= |want| && DistinctFolds(stems, seen)
    && (forall i | 0 <= i < |stems| :: Padded(stems[i], want[i]))
    && (DistinctFolds(want, seen) ==> stems <= want)
  }

  function Folds(stems: seq<string>): set<string> { set s | s in stems :: Fold(s) }

  lemma WalkedAdd(stems: seq<string>, want: seq<string>, seen: set<string>, stem: string)
    requires Walked(stems, want, seen) && |stems| < |want|
    requires Fold(stem) !in seen + Folds(stems) && Padded(stem, want[|stems|])
    requires Fold(want[|stems|]) !in seen + Folds(stems) ==> stem == want[|stems|]
    ensures Walked(stems + [stem], want, seen) && Folds(stems + [stem]) == Folds(stems) + {Fold(stem)}
  {
    hide Fold, Padded;
    forall i | 0 <= i < |stems| ensures Fold(stems[i]) in Folds(stems) {
      assert stems[i] in stems;
    }
    if DistinctFolds(want, seen) {
      assert Fold(want[|stems|]) !in Folds(stems);
    }
    assert forall s <- stems + [stem] :: s in stems || s == stem;
    assert stem in stems + [stem] && forall s <- stems :: s in stems + [stem];
  }

  lemma WalkedStart(want: seq<string>, seen: set<string>)
    ensures Walked([], want, seen) && Folds([]) == {}
  {
  }

  lemma WalkedEnd(stems: seq<string>, want: seq<string>, seen: set<string>)
    requires Walked(stems, want, seen) && |stems| == |want|
    ensures stems == want <==> DistinctFolds(want, seen)
  {
    hide DistinctFolds, Padded;
  }

  class Generator {
    var stemClaims: Option<map<string, set<string>>>
    var contested: set<string>
    const digest: Digest

    constructor (digest: Digest)
      ensures this.digest == digest && stemClaims == None && contested == {}
    {
      this.digest := digest;
      stemClaims, contested := None, {};
    }

    /** `_unique_stem`; the set `seen` is returned with the new stem added. */
    method UniqueStem(name: string, seen0: set<string>) returns (stem: string, seen: set<string>)
      modifies this`stemClaims
      ensures Fold(stem) !in seen0 && seen == seen0 + {Fold(stem)}
      ensures var wanted := Wanted(name, old(stemClaims) == None, contested, digest);
              Padded(stem, wanted) && (Fold(wanted) !in seen0 ==> stem == wanted)
      ensures stemClaims == Claimed(old(stemClaims), name, digest)
    {
      hide Base, Tagged, Fold, Padded;
      var wanted := Base(name, digest);
      if stemClaims.Some? {
        var f, claims := Fold(wanted), stemClaims.value;
        stemClaims := Some(claims[f := (if f in claims then claims[f] else {}) + {name}]);
      } else if Fold(wanted) in contested {
        wanted := Tagged(name, digest);
      }
      stem := PadUntilFree(wanted, seen0);
      seen := seen0 + {Fold(stem)};
    }

    /** One walk over the pages, which ask for these names. */
    method WalkPages(names: seq<string>, seen0: set<string>) returns (stems: seq<string>)
      modifies this`stemClaims
      ensures |stems| == |names|
      ensures Walked(stems, AllWanted(names, old(stemClaims) == None, contested, digest), seen0)
      ensures stemClaims.Some? <==> old(stemClaims).Some?
      ensures old(stemClaims) == Some(map[]) ==> Records(stemClaims.value, SetOf(names), digest)
    {
      hide Wanted, Fold, Padded, Walked, Records, Claimed, Folds, SetOf, DistinctFolds;
      stems := [];
      var seen := seen0;
      ghost var want := AllWanted(names, stemClaims == None, contested, digest);
      WalkedStart(want, seen0);
      NothingRecorded(names, digest);
      for i := 0 to |names|
        invariant stemClaims.Some? <==> old(stemClaims).Some?
        invariant |stems| == i && Walked(stems, want, seen0) && seen == seen0 + Folds(stems)
        invariant old(stemClaims) == Some(map[]) ==> Records(stemClaims.value, SetOf(names[..i]), digest)
      {
        RecordsNext(stemClaims, names, i, digest);
        var stem;
        stem, seen := UniqueStem(names[i], seen);
        WalkedAdd(stems, want, seen0, stem);
        stems := stems + [stem];
      }
      assert names[..|names|] == names;
    }

    /** The stems of `plan_pages`: a discovery pass that decides nothing, then the pass that assigns.  They are
        distinct ignoring case and avoid the reserved ones; and they are the assigned ones exactly when those do. */
    method PlanStems(names: seq<string>, reserved: set<string>) returns (stems: seq<string>)
      modifies this
      ensures |stems| == |names| && DistinctFolds(stems, reserved)
      ensures forall i | 0 <= i < |names| :: Padded(stems[i], Assigned(names[i], SetOf(names), digest))
      ensures stems == AllAssigned(names, digest) <==> DistinctFolds(AllAssigned(names, digest), reserved)
    {
      hide Wanted, Fold, Padded, Records, Claimants, Assigned;
      stemClaims, contested := Some(map[]), {};
      var ignored := WalkPages(names, reserved);
      var claims := stemClaims.value;
      contested := Contested(claims);
      stemClaims := None;
      ContestedAreTagged(names, claims, digest);
      stems := WalkPages(names, reserved);
      WalkedEnd(stems, AllAssigned(names, digest), reserved);
    }
  }

  lemma ContestedAreTagged(names: seq<string>, claims: map<string, set<string>>, digest: Digest)
    requires Records(claims, SetOf(names), digest)
    ensures AllWanted(names, true, Contested(claims), digest) == AllAssigned(names, digest)
  {
    hide Base, Tagged, Fold, Claimants;
    forall i | 0 <= i < |names| ensures names[i] in SetOf(names) {
    }
  }

  lemma SetOfAdd(names: seq<string>, name: string)
    ensures SetOf(names + [name]) == SetOf(names) + {name}
  {
  }

  lemma NothingRecorded(names: seq<string>, digest: Digest)
    ensures Records(map[], SetOf(names[..0]), digest)
  {
  }

  lemma RecordsNext(claims: Option<map<string, set<string>>>, names: seq<string>, i: nat, digest: Digest)
    requires i < |names|
    ensures Claimed(claims, names[i], digest).Some? <==> claims.Some?
    ensures claims.Some? && Records(claims.value, SetOf(names[..i]), digest) ==>
              Records(Claimed(claims, names[i], digest).value, SetOf(names[..i + 1]), digest)
  {
    hide Base, Fold, Records;
    if claims.Some? && Records(claims.value, SetOf(names[..i]), digest) {
      RecordsAdd(claims.value, SetOf(names[..i]), names[i], digest);
      SetOfAdd(names[..i], names[i]);
      assert names[..i + 1] == names[..i] + [names[i]];
    }
  }

  function AllAssigned(names: seq<string>, digest: Digest): seq<string> {
    var all := SetOf(names);
    seq(|names|, i requires 0 <= i < |names| => Assigned(names[i], all, digest))
  }

  function Longer(seen: set<string>, n: nat): set<string> { set s | s in seen && |s| >= n }

  lemma LongerShrinks(seen: set<string>, stem: string)
    requires Fold(stem) in seen
    ensures |Longer(seen, |stem| + 1)| < |Longer(seen, |stem|)|
  {
    FoldLength(stem);
    hide Fold;
    assert Fold(stem) in Longer(seen, |stem|) && Fold(stem) !in Longer(seen, |stem| + 1);
    SmallerSet(Longer(seen, |stem| + 1), Longer(seen, |stem|), Fold(stem));
  }

  lemma SmallerSet(a: set<string>, b: set<string>, x: string)
    requires a <= b && x in b && x !in a
    ensures |a| < |b|
  {
    assert a <= b - {x};
    SubsetSize(a, b - {x});
  }

  lemma {:induction false} SubsetSize(a: set<string>, b: set<string>)
    requires a <= b
    ensures |a| <= |b|
  {
    if x :| x in a {
      SubsetSize(a - {x}, b - {x});
    }
  }

  // ---- when a stem depends on the names alone ----

  /** No two names share a digest, and nothing that keeps its bare stem folds to a tagged one or a reserved one. */
  ghost predicate Clashless(names: set<string>, reserved: set<string>, digest: Digest) {
    && (forall n <- names :: |digest(n)| == DIGEST)
    && (forall m, n | m in names && n in names && m != n :: Fold(digest(m)) != Fold(digest(n)))
    && (forall m, n | m in names && n in names :: Fold(Base(m, digest)) != Fold(Tagged(n, digest)))
    && forall n <- names :: Fold(Assigned(n, names, digest)) !in reserved
  }

  lemma TaggedEnds(name: string, digest: Digest)
    requires |digest(name)| == DIGEST
    ensures var t := Tagged(name, digest); |t| >= DIGEST && t[|t| - DIGEST..] == digest(name)
  {
    hide Slug, StripEnd;
  }

  lemma TaggedDiffer(m: string, n: string, digest: Digest)
    requires |digest(m)| == |digest(n)| == DIGEST && Fold(digest(m)) != Fold(digest(n))
    ensures Fold(Tagged(m, digest)) != Fold(Tagged(n, digest))
  {
    TaggedEnds(m, digest);
    TaggedEnds(n, digest);
    FoldSuffix(Tagged(m, digest));
    FoldSuffix(Tagged(n, digest));
    hide Tagged, Fold;
  }

  lemma FoldSuffix(s: string)
    requires |s| >= DIGEST
    ensures |Fold(s)| == |s| && Fold(s)[|s| - DIGEST..] == Fold(s[|s| - DIGEST..])
  {
  }

  lemma BareDiffer(m: string, n: string, names: set<string>, digest: Digest)
    requires m in names && n in names && m != n && |Claimants(Fold(Base(m, digest)), names, digest)| <= 1
    ensures Fold(Base(m, digest)) != Fold(Base(n, digest))
  {
    hide Base, Fold;
    if Fold(Base(m, digest)) == Fold(Base(n, digest)) {
      var c := Claimants(Fold(Base(m, digest)), names, digest);
      SubsetSize({m, n}, c);
    }
  }

  lemma ClashlessAt(m: string, n: string, names: set<string>, reserved: set<string>, digest: Digest)
    requires m in names && n in names && Clashless(names, reserved, digest)
    ensures |digest(m)| == DIGEST && (m != n ==> Fold(digest(m)) != Fold(digest(n)))
    ensures Fold(Base(m, digest)) != Fold(Tagged(n, digest))
    ensures Fold(Assigned(n, names, digest)) !in reserved
  {
    hide Base, Tagged, Fold, Assigned;
  }

  lemma AssignedDiffer(m: string, n: string, names: set<string>, reserved: set<string>, digest: Digest)
    requires m in names && n in names && m != n && Clashless(names, reserved, digest)
    ensures Fold(Assigned(m, names, digest)) != Fold(Assigned(n, names, digest))
  {
    hide Base, Tagged, Fold, Claimants, Clashless;
    ClashlessAt(m, n, names, reserved, digest);
    ClashlessAt(n, m, names, reserved, digest);
    TaggedDiffer(m, n, digest);
    if |Claimants(Fold(Base(m, digest)), names, digest)| <= 1 {
      BareDiffer(m, n, names, digest);
    }
  }

  /** Distinct names without clashes get their assigned stem whatever order the walk meets them in. */
  lemma ClashlessAssigns(names: seq<string>, reserved: set<string>, digest: Digest)
    requires forall i, j | 0 <= i < j < |names| :: names[i] != names[j]
    requires Clashless(SetOf(names), reserved, digest)
    ensures DistinctFolds(AllAssigned(names, digest), reserved)
  {
    hide Fold, Assigned, Clashless;
    var all, stems := SetOf(names), AllAssigned(names, digest);
    forall i, j | 0 <= i < j < |names| ensures Fold(stems[i]) != Fold(stems[j]) {
      AssignedDiffer(names[i], names[j], all, reserved, digest);
    }
    forall i | 0 <= i < |names| ensures Fold(stems[i]) !in reserved {
      ClashlessAt(names[i], names[i], all, reserved, digest);
    }
  }

  /** A page's stem depends only on the set of names: whatever order two walks meet the same clashless names in,
      the stems that `PlanStems` gives them agree name by name. */
  lemma StemsFollowTheSet(names: seq<string>, stems: seq<string>, names': seq<string>, stems': seq<string>,
                          reserved: set<string>, digest: Digest, i: nat, j: nat)
    requires forall i, j | 0 <= i < j < |names| :: names[i] != names[j]
    requires forall i, j | 0 <= i < j < |names'| :: names'[i] != names'[j]
    requires SetOf(names) == SetOf(names') && Clashless(SetOf(names), reserved, digest)
    requires stems == AllAssigned(names, digest) <==> DistinctFolds(AllAssigned(names, digest), reserved)
    requires stems' == AllAssigned(names', digest) <==> DistinctFolds(AllAssigned(names', digest), reserved)
    requires i < |names| && j < |names'| && names[i] == names'[j]
    ensures |stems| == |names| && |stems'| == |names'| && stems[i] == stems'[j]
  {
    ClashlessAssigns(names, reserved, digest);
    ClashlessAssigns(names', reserved, digest);
    hide Assigned, Clashless, DistinctFolds;
  }
}
