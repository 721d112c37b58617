/** `plan_pages` of src/clangquill/generator.py for group_by="namespace". */
module Toctree {
  import Sequences
  import opened Wrappers
  import opened Hierarchy
  import Stems

  // The planned pages form a forest under the root index that reaches every page exactly once and mirrors the
  // namespaces, every symbol is rendered by exactly one page, and no two pages share a file name.

  /** The root index: every page flagged as top level. */
  function RootIndex(plans: seq<Plan>): seq<nat> {
    if plans == [] then []
    else RootIndex(plans[..|plans| - 1]) + if plans[|plans| - 1].topLevel then [|plans| - 1] else []
  }

  /** How often a list of links names page k. */
  function Listed(links: seq<nat>, k: nat): nat { multiset(links)[k] }

  /** Every page is linked once, by the root index or by one hub that was planned after it. */
  ghost predicate Forest(plans: seq<Plan>) {
    && (forall k | 0 <= k < |plans| :: LinksBack(plans, k))
    && forall k | 0 <= k < |plans| :: Listed(Links(plans), k) == if plans[k].topLevel then 0 else 1
  }

  /** The pages of a chain of links from the root index to page k. */
  ghost predicate Leads(plans: seq<Plan>, chain: seq<nat>, k: nat) {
    && chain != [] && chain[|chain| - 1] == k
    && (forall i | 0 <= i < |chain| :: chain[i] < |plans|)
    && plans[chain[0]].topLevel
    && forall i | 0 < i < |chain| :: chain[i] in plans[chain[i - 1]].toctree
  }

  /** The root index lists what is due in the global scope, and every hub what is due in its namespace. */
  ghost predicate Mirrors(plans: seq<Plan>, roots: seq<Symbol>) {
    && (forall k | 0 <= k < |plans| :: Sound(plans, k))
    && multiset(SubjectsAt(plans, RootIndex(plans))) == multiset(Own(roots))
    && exists entries :: Pages(entries) == RootIndex(plans) && Lists(plans, entries, roots)
  }

  ghost predicate Lists(plans: seq<Plan>, entries: seq<Entry>, roots: seq<Symbol>) {
    Known(entries, plans) && Items(plans, entries) == ScopeItems(None, roots, true)
  }

  function NamesOf(plans: seq<Plan>): seq<string> { seq(|plans|, i requires 0 <= i < |plans| => plans[i].name) }

  /** The hierarchy over the visible root symbols. */
  method PlanNamespacePages(roots: seq<Symbol>) returns (plans: seq<Plan>)
    ensures Forest(plans) && Mirrors(plans, roots)
    ensures multiset(About(plans)) == multiset(Due(roots))
  {
    hide Due, About, Emitted;
    var generator := new Hierarchy.Generator();
    var entries := generator.EmitScope(None, roots, true);
    plans := generator.plans;
    AllEmitted(plans, entries, OfScope(None, roots, true));
    AllShown(plans, entries, roots);
  }

  lemma AllEmitted(plans: seq<Plan>, entries: seq<Entry>, due: Share)
    requires Emitted([], [], plans, entries, due, true)
    ensures Forest(plans) && multiset(About(plans)) == due.pages
  {
    hide About, Links, Pages, Shown;
    forall k | 0 <= k < |plans|
      ensures LinksBack(plans, k) && Listed(Links(plans), k) == if plans[k].topLevel then 0 else 1
    {
      RangeOnce(|plans|, k);
      Balance(plans, entries, k);
      assert k in Pages(entries) <==> k in multiset(Pages(entries));
    }
    NoneBefore(plans, due.pages);
  }

  lemma AllShown(plans: seq<Plan>, entries: seq<Entry>, roots: seq<Symbol>)
    requires Emitted([], [], plans, entries, OfScope(None, roots, true), true)
    ensures Mirrors(plans, roots)
  {
    EntriesAreTheRootIndex(plans, entries, OfScope(None, roots, true));
    hide Arranged, Linked, Rendered, RootIndex, ScopeItems, Own, Due, Sound;
    ShownMirrors(plans, entries, roots);
  }

  lemma ShownMirrors(plans: seq<Plan>, entries: seq<Entry>, roots: seq<Symbol>)
    requires Shown([], [], plans, entries, multiset(Own(roots)), ScopeItems(None, roots, true))
    requires Pages(entries) == RootIndex(plans)
    ensures Mirrors(plans, roots)
  {
    hide Known, Items, Pages, RootIndex, SubjectsAt, ScopeItems, Own, Sound;
    assert entries[0..] == entries;
    assert Lists(plans, entries, roots);
  }

  ghost predicate Climbs(s: seq<nat>) { forall i, j | 0 <= i < j < |s| :: s[i] < s[j] }

  ghost predicate Within(a: seq<nat>, b: seq<nat>) { forall k <- a :: k in b }

  lemma FirstIsMember(s: seq<nat>)
    ensures s != [] ==> s[0] in s
  {
  }

  lemma {:induction false} SameClimb(a: seq<nat>, b: seq<nat>)
    requires Climbs(a) && Climbs(b) && Within(a, b) && Within(b, a)
    ensures a == b
  {
    FirstIsMember(a);
    FirstIsMember(b);
    if a != [] {
      assert a[|a| - 1] in b && b[|b| - 1] in a && a[|a| - 1] == b[|b| - 1];
      InitMembers(a, b);
      InitMembers(b, a);
      SameClimb(a[..|a| - 1], b[..|b| - 1]);
      Sequences.ButLast(a);
      Sequences.ButLast(b);
    }
  }

  lemma InitMembers(a: seq<nat>, b: seq<nat>)
    requires Climbs(a) && a != [] && b != [] && a[|a| - 1] == b[|b| - 1] && Within(a, b)
    ensures Within(a[..|a| - 1], b[..|b| - 1])
  {
    var init := a[..|a| - 1];
    forall k <- init ensures k in b[..|b| - 1] {
      var i :| 0 <= i < |init| && init[i] == k;
      assert a[i] == k && k in a && k < a[|a| - 1];
      var j :| 0 <= j < |b| && b[j] == k;
      assert b[..|b| - 1][j] == k;
    }
  }

  lemma ClimbOn(s: seq<nat>, x: nat)
    requires Climbs(s) && forall k <- s :: k < x
    ensures Climbs(s + [x]) && forall k :: k in s + [x] <==> k in s || k == x
  {
    var t := s + [x];
    assert forall i | 0 <= i < |s| :: t[i] == s[i] && s[i] in s;
    assert t[|s|] == x;
  }

  lemma {:induction false} RootIndexClimbs(plans: seq<Plan>)
    ensures Climbs(RootIndex(plans))
    ensures forall k: nat :: k in RootIndex(plans) <==> k < |plans| && plans[k].topLevel
  {
    if plans != [] {
      var init := plans[..|plans| - 1];
      RootIndexClimbs(init);
      assert forall k | 0 <= k < |init| :: plans[k] == init[k];
      hide Climbs;
      ClimbOn(RootIndex(init), |init|);
      Sequences.AddNothing(RootIndex(init));
    }
  }

  /** The entries of the global scope are the pages flagged for the root index, in order. */
  lemma EntriesAreTheRootIndex(plans: seq<Plan>, entries: seq<Entry>, due: Share)
    requires Emitted([], [], plans, entries, due, true)
    ensures Pages(entries) == RootIndex(plans)
  {
    RootIndexClimbs(plans);
    hide Linked, Rendered, Shown, RootIndex, LinksBack;
    forall k: nat ensures k in Pages(entries) <==> k < |plans| && plans[k].topLevel {
      if k in Pages(entries) {
        var i :| 0 <= i < |entries| && Pages(entries)[i] == k;
        assert entries[i].page < |plans|;
      }
    }
    SameClimb(Pages(entries), RootIndex(plans));
  }

  lemma Balance(plans: seq<Plan>, entries: seq<Entry>, k: nat)
    requires Linked([], [], plans, entries)
    ensures Listed(Links(plans), k) + Listed(Pages(entries), k) == Listed(Range(0, |plans|), k)
  {
    NothingPlanned();
    hide Links, Pages, Range;
    CountsAgree(multiset(Links(plans)), multiset(Pages(entries)), multiset(Range(0, |plans|)), k);
  }

  lemma NothingPlanned()
    ensures multiset(Links([])) == multiset{} && multiset(Pages([])) == multiset{}
  {
  }

  lemma CountsAgree<T>(a: multiset<T>, b: multiset<T>, c: multiset<T>, k: T)
    requires a + b == multiset{} + multiset{} + c
    ensures a[k] + b[k] == c[k]
  {
    assert (a + b)[k] == (multiset{} + multiset{} + c)[k];
  }

  lemma NoneBefore(plans: seq<Plan>, due: multiset<Symbol>)
    requires Rendered([], plans, due)
    ensures multiset(About(plans)) == due
  {
    assert About([]) == [];
  }

  lemma {:induction false} RangeOnce(n: nat, k: nat)
    requires k < n
    ensures Listed(Range(0, n), k) == 1
  {
    RangeAdds(0, n - 1, n);
    OnePage(n - 1);
    if k < n - 1 {
      RangeOnce(n - 1, k);
    } else {
      assert k !in Range(0, n - 1);
    }
  }

  /** `plan_pages`: the names the pages ask for do not depend on stems, so both passes see the same ones. */
  method PlanPages(roots: seq<Symbol>, reserved: set<string>, digest: Stems.Digest)
    returns (plans: seq<Plan>, stems: seq<string>)
    ensures Forest(plans) && Mirrors(plans, roots) && multiset(About(plans)) == multiset(Due(roots))
    ensures |stems| == |plans| && Stems.DistinctFolds(stems, reserved)
  {
    hide Forest, Mirrors, Due, About;
    plans := PlanNamespacePages(roots);
    var generator := new Stems.Generator(digest);
    stems := generator.PlanStems(NamesOf(plans), reserved);
  }

  // ---- reaching a page ----

  lemma {:induction false} LinkedIsCounted(plans: seq<Plan>, k: nat, h: nat)
    requires h < |plans| && k in plans[h].toctree
    ensures Listed(Links(plans), k) >= 1
  {
    var init, last := plans[..|plans| - 1], plans[|plans| - 1];
    Sequences.Sum(Links(init), last.toctree);
    if h < |init| {
      LinkedIsCounted(init, k, h);
    } else {
      assert k in multiset(last.toctree);
    }
  }

  lemma {:induction false} TwoHubsCountTwice(plans: seq<Plan>, k: nat, g: nat, h: nat)
    requires g < h < |plans| && k in plans[g].toctree && k in plans[h].toctree
    ensures Listed(Links(plans), k) >= 2
  {
    var init, last := plans[..|plans| - 1], plans[|plans| - 1];
    Sequences.Sum(Links(init), last.toctree);
    if h < |init| {
      TwoHubsCountTwice(init, k, g, h);
    } else {
      LinkedIsCounted(init, k, g);
      assert k in multiset(last.toctree);
    }
  }

  lemma {:induction false} CountedIsLinked(plans: seq<Plan>, k: nat) returns (h: nat)
    requires Listed(Links(plans), k) >= 1
    ensures h < |plans| && k in plans[h].toctree
  {
    var init, last := plans[..|plans| - 1], plans[|plans| - 1];
    Sequences.Sum(Links(init), last.toctree);
    if k in last.toctree {
      h := |init|;
    } else {
      assert k !in multiset(last.toctree);
      h := CountedIsLinked(init, k);
    }
  }

  /** Every page is reached from the root index ... */
  lemma {:induction false} EveryPageIsReached(plans: seq<Plan>, k: nat) returns (chain: seq<nat>)
    requires Forest(plans) && k < |plans|
    ensures Leads(plans, chain, k)
    decreases |plans| - k
  {
    if plans[k].topLevel {
      chain := [k];
    } else {
      hide Links;
      var h := CountedIsLinked(plans, k);
      assert LinksBack(plans, h);
      chain := EveryPageIsReached(plans, h);
      chain := chain + [k];
    }
  }

  /** ... along one chain of links only. */
  lemma {:induction false} PagesAreReachedOnce(plans: seq<Plan>, k: nat, a: seq<nat>, b: seq<nat>)
    requires Forest(plans) && k < |plans| && Leads(plans, a, k) && Leads(plans, b, k)
    ensures a == b
    decreases |a|
  {
    hide Links;
    ChainEnds(plans, k, a);
    ChainEnds(plans, k, b);
    if plans[k].topLevel {
      assert a == [k] && b == [k];
    } else {
      var g, h := a[|a| - 2], b[|b| - 2];
      if g < h {
        TwoHubsCountTwice(plans, k, g, h);
      } else if h < g {
        TwoHubsCountTwice(plans, k, h, g);
      }
      PagesAreReachedOnce(plans, g, a[..|a| - 1], b[..|b| - 1]);
      Sequences.ButLast(a);
      Sequences.ButLast(b);
    }
  }

  lemma ChainEnds(plans: seq<Plan>, k: nat, chain: seq<nat>)
    requires Forest(plans) && k < |plans| && Leads(plans, chain, k)
    ensures |chain| == 1 <==> plans[k].topLevel
    ensures |chain| > 1 ==>
              Leads(plans, chain[..|chain| - 1], chain[|chain| - 2]) && k in plans[chain[|chain| - 2]].toctree
  {
    hide Links;
    if |chain| > 1 {
      LinkedIsCounted(plans, k, chain[|chain| - 2]);
    }
  }

  /** The root index and the toctrees of the hubs together list every page once, and nothing else. */
  lemma EveryPageIsListedOnce(plans: seq<Plan>, k: nat)
    requires Forest(plans)
    ensures Listed(Links(plans), k) + Listed(RootIndex(plans), k) == if k < |plans| then 1 else 0
  {
    RootIndexCounts(plans, k);
    hide Links, RootIndex, Listed;
    if k >= |plans| {
      forall h | 0 <= h < |plans| ensures forall i | 0 <= i < |plans[h].toctree| :: plans[h].toctree[i] < |plans| {
        assert LinksBack(plans, h);
      }
      NoLinkBeyond(plans, |plans|, k);
    }
  }

  lemma {:induction false} RootIndexCounts(plans: seq<Plan>, k: nat)
    ensures Listed(RootIndex(plans), k) == if k < |plans| && plans[k].topLevel then 1 else 0
  {
    if plans != [] {
      var n := |plans| - 1;
      RootIndexCounts(plans[..n], k);
      Sequences.Sum(RootIndex(plans[..n]), if plans[n].topLevel then [n] else []);
    }
  }

  lemma {:induction false} NoLinkBeyond(plans: seq<Plan>, n: nat, k: nat)
    requires forall h | 0 <= h < |plans| :: forall i | 0 <= i < |plans[h].toctree| :: plans[h].toctree[i] < n
    requires k >= n
    ensures Listed(Links(plans), k) == 0
  {
    if plans != [] {
      var init, last := plans[..|plans| - 1], plans[|plans| - 1];
      NoLinkBeyond(init, n, k);
      Sequences.Sum(Links(init), last.toctree);
      assert k !in last.toctree;
    }
  }

  // ---- the forest and the namespaces ----

  /** How often a symbol stands in the tree of namespaces. */
  function Occurrences(ms: seq<Symbol>, x: Symbol): nat
    decreases ms
  {
    if ms == [] then 0
    else
      var m := ms[|ms| - 1];
      Occurrences(ms[..|ms| - 1], x) + (if m == x then 1 else 0) + OccurrencesBelow(m, x)
  }

  function OccurrencesBelow(m: Symbol, x: Symbol): nat
    decreases m
  {
    if m.kind == Namespace then Occurrences(m.children, x) else 0
  }

  lemma {:induction false} DueCounts(ms: seq<Symbol>, x: Symbol)
    ensures Times(Due(ms), x) == if Matters(x) then Occurrences(ms, x) else 0
    decreases ms
  {
    if ms != [] {
      var init, m := ms[..|ms| - 1], ms[|ms| - 1];
      DueCounts(init, x);
      TimesConcat(Due(init), DueOf(m), x);
      DueOfCounts(m, x);
      hide Matters;
    }
  }

  lemma {:induction false} DueOfCounts(m: Symbol, x: Symbol)
    ensures Times(DueOf(m), x) == if Matters(x) then (if m == x then 1 else 0) + OccurrencesBelow(m, x) else 0
    decreases m
  {
    assert m.kind != Namespace ==> Matters(m);
    if m.kind == Namespace {
      DueCounts(m.children, x);
      TimesConcat(Due(m.children), if Matters(m) then [m] else [], x);
    }
    hide Matters, Due, Occurrences;
  }

  /** Every symbol that matters, namespaces included, has one page for each place it has in the tree of namespaces; an
      empty, undocumented shell has none. */
  lemma OnePageEach(plans: seq<Plan>, roots: seq<Symbol>, x: Symbol)
    requires multiset(About(plans)) == multiset(Due(roots))
    ensures Times(About(plans), x) == if Matters(x) then Occurrences(roots, x) else 0
  {
    DueCounts(roots, x);
    hide Due, Matters, About;
  }

  /** From a root symbol down to another, each a member of the namespace before it. */
  predicate Encloses(roots: seq<Symbol>, path: seq<Symbol>)
    decreases |path|
  {
    && path != []
    && if |path| == 1 then path[0] in roots
       else
         var ns := path[|path| - 2];
         Encloses(roots, path[..|path| - 1]) && ns.kind == Namespace && path[|path| - 1] in ns.children
  }

  /** The pages of the chain are the hubs of the path, down to a page about its last symbol. */
  ghost predicate Follows(plans: seq<Plan>, chain: seq<nat>, path: seq<Symbol>)
    decreases |path|
  {
    && |chain| == |path| > 0 && chain[|chain| - 1] < |plans|
    && path[|path| - 1] in plans[chain[|chain| - 1]].Subjects()
    && (|path| > 1 ==>
          && Follows(plans, chain[..|chain| - 1], path[..|path| - 1])
          && plans[chain[|chain| - 2]].hubOf == Some(path[|path| - 2]))
  }

  lemma {:induction false} OwnAreMembers(ms: seq<Symbol>, x: Symbol)
    ensures x in Own(ms) <==> x in ms && Matters(x)
  {
    if ms != [] {
      var init, m := ms[..|ms| - 1], ms[|ms| - 1];
      OwnAreMembers(init, x);
      hide Matters;
      Sequences.ButLast(ms);
    }
  }

  lemma {:induction false} SubjectsAreBehind(plans: seq<Plan>, links: seq<nat>, x: Symbol)
    ensures x in SubjectsAt(plans, links) <==> exists k <- links :: x in SubjectsOf(plans, k)
  {
    if links != [] {
      var init, page := links[..|links| - 1], links[|links| - 1];
      SubjectsAreBehind(plans, init, x);
      hide SubjectsOf;
      Sequences.ButLast(links);
      assert forall k :: k in links <==> k in init || k == page;
      assert page in links;
    }
  }

  /** What a list of links leads to. */
  lemma LeadsToOwn(plans: seq<Plan>, links: seq<nat>, ms: seq<Symbol>, x: Symbol)
    requires multiset(SubjectsAt(plans, links)) == multiset(Own(ms))
    ensures (exists k <- links :: x in SubjectsOf(plans, k)) <==> x in ms && Matters(x)
  {
    OwnAreMembers(ms, x);
    SubjectsAreBehind(plans, links, x);
    hide SubjectsAt, Own, SubjectsOf, Matters;
    var a, b := SubjectsAt(plans, links), Own(ms);
    assert x in a <==> x in multiset(a);
    assert x in b <==> x in multiset(b);
  }

  /** A hub's toctree leads to the members of its namespace that matter, and so does no other page's. */
  lemma HubLeads(plans: seq<Plan>, h: nat, x: Symbol)
    requires h < |plans| && Sound(plans, h)
    ensures (exists k <- plans[h].toctree :: x in SubjectsOf(plans, k)) <==>
            plans[h].hubOf.Some? && x in plans[h].hubOf.value.children && Matters(x)
    ensures plans[h].hubOf.Some? ==>
              plans[h].hubOf.value.kind == Namespace && plans[h].Subjects() == [plans[h].hubOf.value]
    ensures forall ns <- plans[h].Subjects() :: ns.kind == Namespace ==> plans[h].hubOf == Some(ns)
  {
    hide SubjectsAt, Own, ScopeItems, Items, Known, Matters, SubjectsOf;
    match plans[h].hubOf
    case None => assert plans[h].toctree == [];
    case Some(ns) => LeadsToOwn(plans, plans[h].toctree, ns.children, x);
  }

  lemma RootLeads(plans: seq<Plan>, roots: seq<Symbol>, x: Symbol)
    requires Mirrors(plans, roots)
    ensures (exists k: nat :: k < |plans| && plans[k].topLevel && x in plans[k].Subjects()) <==>
            x in roots && Matters(x)
  {
    RootIndexClimbs(plans);
    LeadsToOwn(plans, RootIndex(plans), roots, x);
    hide SubjectsAt, Own, ScopeItems, Items, Known, Matters, RootIndex, Sound;
    if k: nat :| k < |plans| && plans[k].topLevel && x in plans[k].Subjects() {
      assert k in RootIndex(plans) && x in SubjectsOf(plans, k);
    }
  }

  /** The chain of links from the root index to a symbol's page is the chain of its enclosing namespaces ... */
  lemma {:induction false} ChainIsNamespaces(plans: seq<Plan>, roots: seq<Symbol>, chain: seq<nat>, k: nat, x: Symbol)
    returns (path: seq<Symbol>)
    requires Forest(plans) && Mirrors(plans, roots) && k < |plans|
    requires Leads(plans, chain, k) && x in plans[k].Subjects()
    ensures Encloses(roots, path) && Follows(plans, chain, path) && path[|path| - 1] == x
    decreases |chain|
  {
    if |chain| == 1 {
      PathOfRoot(plans, roots, chain, k, x);
      hide *;
      path := [x];
    } else {
      var h, ns := HubAbove(plans, roots, chain, k, x);
      hide Forest, Mirrors, Plan.Subjects, Leads, Follows, Encloses;
      path := ChainIsNamespaces(plans, roots, chain[..|chain| - 1], h, ns);
      Sequences.Added(path, x);
      Sequences.ButLast(chain);
      FollowsOn(plans, chain[..|chain| - 1], path, k, x);
      EnclosesOn(roots, path, x);
      path := path + [x];
    }
  }

  lemma PathOfRoot(plans: seq<Plan>, roots: seq<Symbol>, chain: seq<nat>, k: nat, x: Symbol)
    requires Forest(plans) && Mirrors(plans, roots) && k < |plans| && |chain| == 1
    requires Leads(plans, chain, k) && x in plans[k].Subjects()
    ensures Encloses(roots, [x]) && Follows(plans, chain, [x])
  {
    ChainEnds(plans, k, chain);
    assert chain == [k] && plans[k].topLevel;
    RootLeads(plans, roots, x);
    hide Forest, Mirrors, Matters, Plan.Subjects, Leads, Follows;
    ChainOfOne(plans, k, x);
  }

  lemma EnclosesOn(roots: seq<Symbol>, path: seq<Symbol>, x: Symbol)
    requires Encloses(roots, path)
    requires var ns := path[|path| - 1]; ns.kind == Namespace && x in ns.children
    ensures Encloses(roots, path + [x])
  {
    Sequences.Added(path, x);
  }

  lemma HubAbove(plans: seq<Plan>, roots: seq<Symbol>, chain: seq<nat>, k: nat, x: Symbol) returns (h: nat, ns: Symbol)
    requires Forest(plans) && Mirrors(plans, roots) && k < |plans| && |chain| > 1
    requires Leads(plans, chain, k) && x in plans[k].Subjects()
    ensures chain[|chain| - 1] == k && chain[|chain| - 2] == h < |plans| && Leads(plans, chain[..|chain| - 1], h)
    ensures plans[h].hubOf == Some(ns) && ns.kind == Namespace && ns in plans[h].Subjects() && x in ns.children
    ensures x in SubjectsOf(plans, k)
  {
    ChainEnds(plans, k, chain);
    h := chain[|chain| - 2];
    assert Sound(plans, h);
    HubLeads(plans, h, x);
    hide Forest, Mirrors, Sound, Plan.Subjects, Leads, Matters;
    assert x in SubjectsOf(plans, k);
    ns := plans[h].hubOf.value;
  }

  /** ... and every symbol that matters is reached that way. */
  lemma {:induction false} NamespacesAreAChain(plans: seq<Plan>, roots: seq<Symbol>, path: seq<Symbol>)
    returns (chain: seq<nat>)
    requires Mirrors(plans, roots) && Encloses(roots, path) && Matters(path[|path| - 1])
    ensures Follows(plans, chain, path) && Leads(plans, chain, chain[|chain| - 1])
    decreases |path|
  {
    var x := path[|path| - 1];
    hide Sound;
    if |path| == 1 {
      hide Mirrors, Matters, Leads, Follows;
      chain := RootChain(plans, roots, x);
      assert path == [x];
    } else {
      var init, ns := path[..|path| - 1], path[|path| - 2];
      Sequences.ButLast(path);
      MembersMatter(ns, x);
      assert init[|init| - 1] == ns;
      hide Mirrors, Matters, Leads, Follows;
      chain := NamespacesAreAChain(plans, roots, init);
      chain := ChainOn(plans, roots, chain, init, x);
    }
  }

  lemma MembersMatter(ns: Symbol, x: Symbol)
    requires x in ns.children && Matters(x)
    ensures Matters(ns)
  {
  }

  lemma RootChain(plans: seq<Plan>, roots: seq<Symbol>, x: Symbol) returns (chain: seq<nat>)
    requires Mirrors(plans, roots) && x in roots && Matters(x)
    ensures Follows(plans, chain, [x]) && Leads(plans, chain, chain[|chain| - 1])
  {
    RootLeads(plans, roots, x);
    hide Mirrors, Matters, Plan.Subjects, Leads, Follows;
    var k: nat :| k < |plans| && plans[k].topLevel && x in plans[k].Subjects();
    ChainOfOne(plans, k, x);
    chain := [k];
  }

  lemma ChainOfOne(plans: seq<Plan>, k: nat, x: Symbol)
    requires k < |plans| && plans[k].topLevel && x in plans[k].Subjects()
    ensures Follows(plans, [k], [x]) && Leads(plans, [k], k)
  {
    hide Plan.Subjects;
  }

  /** From a hub on to what its namespace holds. */
  lemma ChainOn(plans: seq<Plan>, roots: seq<Symbol>, chain: seq<nat>, path: seq<Symbol>, x: Symbol)
    returns (longer: seq<nat>)
    requires Mirrors(plans, roots) && Follows(plans, chain, path) && Leads(plans, chain, chain[|chain| - 1])
    requires var ns := path[|path| - 1]; ns.kind == Namespace && x in ns.children && Matters(x)
    ensures Follows(plans, longer, path + [x]) && Leads(plans, longer, longer[|longer| - 1])
  {
    var h := chain[|chain| - 1];
    assert Sound(plans, h);
    HubLeads(plans, h, x);
    hide Mirrors, Sound, Plan.Subjects, Matters, Leads;
    var k :| k in plans[h].toctree && x in SubjectsOf(plans, k);
    LeadsOn(plans, chain, k);
    FollowsOn(plans, chain, path, k, x);
    longer := chain + [k];
  }

  lemma FollowsOn(plans: seq<Plan>, chain: seq<nat>, path: seq<Symbol>, k: nat, x: Symbol)
    requires Follows(plans, chain, path) && plans[chain[|chain| - 1]].hubOf == Some(path[|path| - 1])
    requires x in SubjectsOf(plans, k)
    ensures Follows(plans, chain + [k], path + [x])
  {
    hide Plan.Subjects;
    Sequences.Added(chain, k);
    Sequences.Added(path, x);
  }

  lemma LeadsOn(plans: seq<Plan>, chain: seq<nat>, k: nat)
    requires chain != [] && Leads(plans, chain, chain[|chain| - 1]) && k < |plans|
    requires k in plans[chain[|chain| - 1]].toctree
    ensures Leads(plans, chain + [k], k)
  {
  }
}
