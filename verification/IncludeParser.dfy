/** A parser that follows include directives. */
module IncludeParser {
  import IncludeClosure
  import opened IncrementalParse
  import opened Wrappers

  // `record_inclusion` and `include_edges` of src/cpp/parser/parser.cpp.
  //
  // Locality is what the incremental build assumes of libclang.  Here it is derived from how includes are
  // followed: a directive is looked up along a search path and means the first file found there, one that finds
  // none contributes nothing (`included == nullptr`), an input's translation unit is everything its includes
  // reach, and the rows are any function of the texts read.

  /** For each include directive of a text, the paths at which it is looked up, in order. */
  type Lookups = string -> seq<seq<Path>>

  function Resolve(places: seq<Path>, t: Texts): (r: Option<Path>)
    ensures r.Some? ==> r.value in t
  {
    if places == [] then None else if places[0] in t then Some(places[0]) else Resolve(places[1..], t)
  }

  function Resolved(directives: seq<seq<Path>>, t: Texts): (r: seq<Path>)
    ensures forall q <- r :: q in t
    ensures forall q :: q in r <==> exists k | 0 <= k < |directives| :: Resolve(directives[k], t) == Some(q)
  {
    if directives == [] then []
    else
      var n := |directives| - 1;
      var init := Resolved(directives[..n], t);
      assert forall k | 0 <= k < n :: directives[..n][k] == directives[k];
      match Resolve(directives[n], t) case None => init case Some(q) => init + [q]
  }

  function EdgesAmong(lookups: Lookups, t: Texts): IncludeClosure.Edges { map p | p in t :: Resolved(lookups(t[p]), t) }

  ghost function ReachedFrom(lookups: Lookups, t: Texts, i: Path): set<Path> {
    set p | p in t && IncludeClosure.Reaches(EdgesAmong(lookups, t), i, p)
  }

  ghost function TextsAt(t: Texts, ps: set<Path>): Texts { map p | p in ps && p in t :: t[p] }

  ghost function Following<U>(inputs: set<Path>, trees: Texts -> bool, lookups: Lookups,
                              rows: (Texts, Path) -> U): Toolchain<U> {
    Toolchain(inputs, trees, (t, i) => ReachedFrom(lookups, t, i),
              (t, i) => rows(TextsAt(t, ReachedFrom(lookups, t, i)), i))
  }

  /** A directive in one of these files found nothing, or found something further along its search path, and now
      finds a file that was not there. */
  ghost predicate Newcomer(lookups: Lookups, t: Texts, t': Texts, read: set<Path>) {
    exists p, d | p in read && p in t && d in lookups(t[p]) :: Outruns(d, t, t')
  }

  /** On this search path a file has appeared in front of whatever was found. */
  predicate Outruns(places: seq<Path>, t: Texts, t': Texts) {
    Resolve(places, t').Some? && Resolve(places, t').value !in t
  }

  /** Unless a file appears in front, what was found is found again while it is there. */
  lemma {:induction false} ResolvesAgain(places: seq<Path>, t: Texts, t': Texts)
    requires Resolve(places, t).Some? ==> Resolve(places, t).value in t'
    ensures Outruns(places, t, t') || Resolve(places, t') == Resolve(places, t)
  {
    if places != [] && places[0] !in t && places[0] !in t' {
      ResolvesAgain(places[1..], t, t');
    }
  }

  lemma InputReached(lookups: Lookups, t: Texts, i: Path)
    requires i in t
    ensures i in ReachedFrom(lookups, t, i)
  {
    assert IncludeClosure.Chain(EdgesAmong(lookups, t), i, [i], i);
  }

  /** One more include on a chain. */
  lemma ReachedNext(lookups: Lookups, t: Texts, i: Path, p: Path, q: Path)
    requires p in ReachedFrom(lookups, t, i) && q in Resolved(lookups(t[p]), t)
    ensures q in ReachedFrom(lookups, t, i)
  {
    var edges := EdgesAmong(lookups, t);
    var chain :| IncludeClosure.Chain(edges, i, chain, p);
    assert IncludeClosure.Includes(edges, p, q);
    assert IncludeClosure.Chain(edges, i, chain + [q], q);
  }

  /** A set closed under what its files include. */
  ghost predicate ClosedUnder(lookups: Lookups, t: Texts, files: set<Path>) {
    forall p, q | p in files && p in t && q in Resolved(lookups(t[p]), t) :: q in files
  }

  lemma {:induction false} ClosedHoldsChain(lookups: Lookups, t: Texts, i: Path, files: set<Path>, chain: seq<Path>,
                                            p: Path)
    requires IncludeClosure.Chain(EdgesAmong(lookups, t), i, chain, p) && i in files && ClosedUnder(lookups, t, files)
    ensures p in files
  {
    if |chain| > 1 {
      var init, last := chain[..|chain| - 1], chain[|chain| - 2];
      assert IncludeClosure.Chain(EdgesAmong(lookups, t), i, init, last);
      ClosedHoldsChain(lookups, t, i, files, init, last);
      assert IncludeClosure.Includes(EdgesAmong(lookups, t), last, p);
    }
  }

  lemma ClosedHoldsReached(lookups: Lookups, t: Texts, i: Path, files: set<Path>)
    requires i in files && ClosedUnder(lookups, t, files)
    ensures ReachedFrom(lookups, t, i) <= files
  {
    forall p | p in ReachedFrom(lookups, t, i) ensures p in files {
      var chain :| IncludeClosure.Chain(EdgesAmong(lookups, t), i, chain, p);
      ClosedHoldsChain(lookups, t, i, files, chain, p);
    }
  }

  /** When the files a translation unit read are as they were, it reads the same files again exactly when no
      include finds a file that was not there. */
  lemma SameReachExactlyWhen(lookups: Lookups, t: Texts, t': Texts, i: Path)
    requires i in t && Agree(t, t', ReachedFrom(lookups, t, i))
    ensures ReachedFrom(lookups, t', i) == ReachedFrom(lookups, t, i)
       <==> !Newcomer(lookups, t, t', ReachedFrom(lookups, t, i))
  {
    var was, now := ReachedFrom(lookups, t, i), ReachedFrom(lookups, t', i);
    if now == was {
      forall p, d | p in was && p in t && d in lookups(t[p]) ensures !Outruns(d, t, t') {
        if Outruns(d, t, t') {
          ReachedNext(lookups, t', i, p, Resolve(d, t').value);
        }
      }
    }
    if !Newcomer(lookups, t, t', was) {
      SameEdges(lookups, t, t', i);
      InputReached(lookups, t, i);
      InputReached(lookups, t', i);
      assert ClosedUnder(lookups, t', was);
      ClosedHoldsReached(lookups, t', i, was);
      assert ClosedUnder(lookups, t, was * now) by {
        forall p, q | p in was * now && q in Resolved(lookups(t[p]), t) ensures q in was * now {
          ReachedNext(lookups, t, i, p, q);
          ReachedNext(lookups, t', i, p, q);
        }
      }
      ClosedHoldsReached(lookups, t, i, was * now);
    }
  }

  /** Without a newcomer the files read include what they included. */
  lemma SameEdges(lookups: Lookups, t: Texts, t': Texts, i: Path)
    requires Agree(t, t', ReachedFrom(lookups, t, i)) && !Newcomer(lookups, t, t', ReachedFrom(lookups, t, i))
    ensures forall p, q | p in ReachedFrom(lookups, t, i) ::
              q in Resolved(lookups(t'[p]), t') <==> q in Resolved(lookups(t[p]), t)
    ensures ClosedUnder(lookups, t', ReachedFrom(lookups, t, i))
  {
    forall p, d | p in ReachedFrom(lookups, t, i) && d in lookups(t[p]) ensures Resolve(d, t') == Resolve(d, t) {
      if Resolve(d, t).Some? {
        ReachedNext(lookups, t, i, p, Resolve(d, t).value);
      }
      ResolvesAgain(d, t, t');
    }
    forall p, q | p in ReachedFrom(lookups, t, i) && q in Resolved(lookups(t'[p]), t')
        ensures q in ReachedFrom(lookups, t, i) {
      ReachedNext(lookups, t, i, p, q);
    }
  }

  lemma FollowingIsAttributed<U>(inputs: set<Path>, trees: Texts -> bool, lookups: Lookups, rows: (Texts, Path) -> U)
    ensures Following(inputs, trees, lookups, rows).Attributed()
  {
    var tc := Following(inputs, trees, lookups, rows);
    forall t, i | tc.Admits(t) && i in inputs ensures tc.AttributesTo(t, i) {
      InputReached(lookups, t, i);
    }
  }

  lemma SameReachSameResult<U>(inputs: set<Path>, trees: Texts -> bool, lookups: Lookups, rows: (Texts, Path) -> U,
                               t: Texts, t': Texts, i: Path)
    requires Agree(t, t', ReachedFrom(lookups, t, i))
    ensures var tc := Following(inputs, trees, lookups, rows);
            tc.SameResult(t, t', i) <==> ReachedFrom(lookups, t', i) == ReachedFrom(lookups, t, i)
  {
    if ReachedFrom(lookups, t', i) == ReachedFrom(lookups, t, i) {
      assert TextsAt(t', ReachedFrom(lookups, t, i)) == TextsAt(t, ReachedFrom(lookups, t, i));
    }
  }

  /** Every include finds the first place it is looked up at: no file that appears can come in front of it. */
  ghost predicate Complete(lookups: Lookups, t: Texts) {
    forall p, d | p in t && d in lookups(t[p]) :: d != [] && d[0] in t
  }

  /** On such trees the parser is local, whatever its rows are. */
  lemma FollowingIsLocal<U>(inputs: set<Path>, trees: Texts -> bool, lookups: Lookups, rows: (Texts, Path) -> U)
    requires forall t | trees(t) :: Complete(lookups, t)
    ensures Following(inputs, trees, lookups, rows).Local()
  {
    var tc := Following(inputs, trees, lookups, rows);
    FollowingIsAttributed(inputs, trees, lookups, rows);
    forall t, t', i | tc.Admits(t) && tc.Admits(t') && i in inputs && Agree(t, t', tc.deps(t, i))
      ensures tc.SameResult(t, t', i)
    {
      assert Complete(lookups, t);
      FoundAtOnceNoNewcomer(lookups, t, t', tc.deps(t, i), i);
      SameReachExactlyWhen(lookups, t, t', i);
      SameReachSameResult(inputs, trees, lookups, rows, t, t', i);
    }
  }

  lemma FoundAtOnceNoNewcomer(lookups: Lookups, t: Texts, t': Texts, read: set<Path>, i: Path)
    requires Complete(lookups, t) && read == ReachedFrom(lookups, t, i) && Agree(t, t', read)
    ensures !Newcomer(lookups, t, t', read)
  {
    forall p, d | p in read && p in t && d in lookups(t[p]) ensures !Outruns(d, t, t') {
      assert Resolve(d, t) == Some(d[0]);
      ReachedNext(lookups, t, i, p, d[0]);
    }
  }

  /** On any trees: a build documents the current sources exactly when, in the files the inputs it does not re-parse
      had read, no include finds a file that was not there. */
  lemma CreatedFileIsMissedExactlyWhen<U>(inputs: set<Path>, trees: Texts -> bool, lookups: Lookups,
                                          rows: (Texts, Path) -> U,
                                          t0: Texts, t: Texts)
    requires var tc := Following(inputs, trees, lookups, rows); tc.Admits(t0) && tc.Admits(t)
    ensures var tc := Following(inputs, trees, lookups, rows);
            Rebuild(tc, FullRecord(tc, t0), t) != FullRecord(tc, t) <==>
            exists i :: i in inputs && i !in StaleBetween(tc, t0, t) &&
                Newcomer(lookups, t0, t, ReachedFrom(lookups, t0, i))
  {
    var tc := Following(inputs, trees, lookups, rows);
    hide Rebuild, StaleBetween, FullRecord, Newcomer, ReachedFrom, Toolchain.SameResult;
    FollowingIsAttributed(inputs, trees, lookups, rows);
    RebuildIsFullExactlyWhen(tc, t0, t);
    forall i | i in inputs && i !in StaleBetween(tc, t0, t)
      ensures tc.SameResult(t0, t, i) <==> !Newcomer(lookups, t0, t, ReachedFrom(lookups, t0, i))
    {
      FreshInputsAgree(tc, t0, t, i);
      SameReachSameResult(inputs, trees, lookups, rows, t0, t, i);
      SameReachExactlyWhen(lookups, t0, t, i);
    }
  }
}
