/**
 The namespace hierarchy of src/clangquill/generator.py: `_emit_namespace_scope`,
 `_emit_namespace_hub`, `_emit_function_pages` and `_emit_lumped_page` on the tree of visible
 symbols.  A page is known by its place in the plan; Stems shows that the names the pages ask for
 get distinct stems.
 */
module Hierarchy {
  import Sequences
  import opened Wrappers
  import opened Batches

  /** The buckets of symbol kinds; whatever lands in none of the others is Other. */
  datatype Kind = Namespace | Record | Function | TypeLeaf | Constant | Other

  /** A visible symbol with its visible children, in the order of the store. */
  datatype Symbol = Symbol(kind: Kind, spelling: string, signature: string, qualifiedName: string, arguments: string,
                           documented: bool, children: seq<Symbol>) {
    function QualifiedName(): string { if qualifiedName != "" then qualifiedName else spelling }
  }

  /** A planned page: the name it asks a stem for, the symbols it renders in full, the namespace it is the hub of, and
      what its toctree lists. */
  datatype Plan = Plan(name: string, seeds: seq<Symbol>, hubOf: Option<Symbol>, links: seq<Entry>, topLevel: bool) {
    const toctree: seq<nat> := Pages(links)

    function Subjects(): seq<Symbol> { match hubOf case None => seeds case Some(ns) => seeds + [ns] }
  }

  datatype Entry = Entry(page: nat, caption: string)

  /** What an entry of a toctree leads to: the hub of a namespace, or a page that renders symbols. */
  datatype Item = Hub(ns: Symbol, caption: string) | Leaf(page: Plan, caption: string)

  // ---- sorting ----

  function Insert<T>(x: T, s: seq<T>, le: (T, T) -> bool): seq<T> {
    if s == [] || le(x, s[0]) then [x] + s else [s[0]] + Insert(x, s[1..], le)
  }

  /** `sorted`: stable, by insertion from the back. */
  function Sorted<T>(s: seq<T>, le: (T, T) -> bool): seq<T> {
    if s == [] then [] else Insert(s[0], Sorted(s[1..], le), le)
  }

  lemma {:induction false} InsertKeeps<T>(x: T, s: seq<T>, le: (T, T) -> bool)
    ensures multiset(Insert(x, s, le)) == multiset([x] + s)
  {
    if s != [] && !le(x, s[0]) {
      InsertKeeps(x, s[1..], le);
      assert s == [s[0]] + s[1..];
    }
  }

  lemma {:induction false} SortedKeeps<T>(s: seq<T>, le: (T, T) -> bool)
    ensures multiset(Sorted(s, le)) == multiset(s)
  {
    if s != [] {
      SortedKeeps(s[1..], le);
      InsertKeeps(s[0], Sorted(s[1..], le), le);
      assert s == [s[0]] + s[1..];
    }
  }

  ghost predicate TotalOrder<T(!new)>(le: (T, T) -> bool) {
    (forall a, b :: le(a, b) || le(b, a)) && forall a, b, c :: le(a, b) && le(b, c) ==> le(a, c)
  }

  ghost predicate Ascends<T>(s: seq<T>, le: (T, T) -> bool) { forall i, j | 0 <= i < j < |s| :: le(s[i], s[j]) }

  lemma {:induction false} InsertAscends<T(!new)>(x: T, s: seq<T>, le: (T, T) -> bool)
    requires TotalOrder(le) && Ascends(s, le)
    ensures Ascends(Insert(x, s, le), le)
  {
    if s != [] && !le(x, s[0]) {
      InsertAscends(x, s[1..], le);
      InsertKeeps(x, s[1..], le);
      var r := Insert(x, s[1..], le);
      forall i | 0 <= i < |r| ensures le(s[0], r[i]) {
        assert r[i] in multiset([x] + s[1..]);
      }
    } else if s != [] {
      assert forall i | 0 <= i < |s| :: le(x, s[i]);
    }
  }

  lemma {:induction false} SortedAscends<T(!new)>(s: seq<T>, le: (T, T) -> bool)
    requires TotalOrder(le)
    ensures Ascends(Sorted(s, le), le)
  {
    if s != [] {
      SortedAscends(s[1..], le);
      InsertAscends(s[0], Sorted(s[1..], le), le);
    }
  }

  /** Every order the planner sorts by is one. */
  lemma SortOrdersAreTotal()
    ensures TotalOrder(BySpelling) && TotalOrder(BySignature) && TotalOrder(BySpellingAndSignature)
  {
    PathLeOrders();
    hide PathLe;
  }

  lemma PathLeOrders()
    ensures forall a, b :: PathLe(a, b) || PathLe(b, a)
    ensures forall a, b :: PathLe(a, b) && PathLe(b, a) ==> a == b
    ensures forall a, b, c :: PathLe(a, b) && PathLe(b, c) ==> PathLe(a, c)
  {
    forall a: string, b: string ensures (PathLe(a, b) || PathLe(b, a)) && (PathLe(a, b) && PathLe(b, a) ==> a == b) {
      PathLeIsTotal(a, b);
    }
    forall a: string, b: string, c: string | PathLe(a, b) && PathLe(b, c) ensures PathLe(a, c) {
      PathLeIsTransitive(a, b, c);
    }
  }

  function BySpelling(a: Symbol, b: Symbol): bool { PathLe(a.spelling, b.spelling) }

  function BySignature(a: Symbol, b: Symbol): bool { PathLe(a.signature, b.signature) }

  function BySpellingAndSignature(a: Symbol, b: Symbol): bool {
    if a.spelling == b.spelling then PathLe(a.signature, b.signature) else PathLe(a.spelling, b.spelling)
  }

  // ---- the symbols that need a page ----

  function OfKind(ms: seq<Symbol>, kind: Kind): seq<Symbol> {
    if ms == [] then []
    else OfKind(ms[..|ms| - 1], kind) + if ms[|ms| - 1].kind == kind then [ms[|ms| - 1]] else []
  }

  function MaxDepth(ms: seq<Symbol>): nat
    decreases ms
  {
    if ms == [] then 0
    else
      var d, rest := Depth(ms[|ms| - 1]), MaxDepth(ms[..|ms| - 1]);
      if d > rest then d else rest
  }

  function Depth(m: Symbol): nat
    decreases m
  {
    1 + MaxDepth(m.children)
  }

  /** An empty, undocumented namespace shell is all that gets no page. */
  predicate Matters(m: Symbol)
    decreases m
  {
    m.kind != Namespace || m.documented || exists c <- m.children :: Matters(c)
  }

  /** The members of a scope that its toctree must lead to. */
  function Own(ms: seq<Symbol>): seq<Symbol> {
    if ms == [] then [] else Own(ms[..|ms| - 1]) + if Matters(ms[|ms| - 1]) then [ms[|ms| - 1]] else []
  }

  /** What the pages of a scope must be about, the scopes below it included. */
  function Due(ms: seq<Symbol>): seq<Symbol>
    decreases ms
  {
    if ms == [] then [] else Due(ms[..|ms| - 1]) + DueOf(ms[|ms| - 1])
  }

  function DueOf(m: Symbol): seq<Symbol>
    decreases m
  {
    if m.kind != Namespace then [m] else Due(m.children) + if Matters(m) then [m] else []
  }

  /** Every symbol that some of these pages are about. */
  function About(plans: seq<Plan>): seq<Symbol> {
    if plans == [] then [] else About(plans[..|plans| - 1]) + plans[|plans| - 1].Subjects()
  }

  /** What the pages behind some links are about. */
  function SubjectsAt(plans: seq<Plan>, links: seq<nat>): seq<Symbol> {
    if links == [] then []
    else SubjectsAt(plans, links[..|links| - 1]) + SubjectsOf(plans, links[|links| - 1])
  }

  function SubjectsOf(plans: seq<Plan>, page: nat): seq<Symbol> {
    if page < |plans| then plans[page].Subjects() else []
  }

  /** Every link from a toctree of these pages. */
  function Links(plans: seq<Plan>): seq<nat> {
    if plans == [] then [] else Links(plans[..|plans| - 1]) + plans[|plans| - 1].toctree
  }

  function Pages(entries: seq<Entry>): seq<nat> { seq(|entries|, i requires 0 <= i < |entries| => entries[i].page) }

  /** The places from..to of the plan. */
  function Range(from: nat, to: nat): seq<nat>
    requires from <= to
  {
    seq(to - from, i => from + i)
  }

  ghost predicate LinksBack(plans: seq<Plan>, k: nat)
    requires k < |plans|
  {
    forall i | 0 <= i < |plans[k].toctree| :: plans[k].toctree[i] < k
  }

  /** The entries link pages that have been planned. */
  ghost predicate Known(entries: seq<Entry>, plans: seq<Plan>) {
    forall i | 0 <= i < |entries| :: entries[i].page < |plans|
  }

  /** Every new page is linked exactly once, by a new toctree or a new entry. */
  ghost predicate Linked(p0: seq<Plan>, e0: seq<Entry>, p1: seq<Plan>, e1: seq<Entry>)
    requires |p0| <= |p1|
  {
    multiset(Links(p1)) + multiset(Pages(e1)) == multiset(Links(p0)) + multiset(Pages(e0)) + multiset(Range(|p0|, |p1|))
  }

  /** The new pages render exactly the symbols `due`. */
  ghost predicate Rendered(p0: seq<Plan>, p1: seq<Plan>, due: multiset<Symbol>) {
    multiset(About(p1)) == multiset(About(p0)) + due
  }

  /** New toctrees link only earlier pages, new entries only new pages, in the order they were planned; the new pages
      that the entries link carry the flag, the others do not; and no page is planned without an entry that leads to
      it. */
  ghost predicate Arranged(p0: seq<Plan>, e0: seq<Entry>, p1: seq<Plan>, e1: seq<Entry>, flag: bool) {
    && p0 <= p1 && e0 <= e1 && (e1 == e0 ==> p1 == p0)
    && (forall k | |p0| <= k < |p1| :: LinksBack(p1, k))
    && (forall i | |e0| <= i < |e1| :: |p0| <= e1[i].page < |p1|)
    && (forall i, j | |e0| <= i < j < |e1| :: e1[i].page < e1[j].page)
    && (forall k | |p0| <= k < |p1| :: p1[k].topLevel <==> flag && k in Pages(e1))
  }

  function ItemOf(page: Plan, caption: string): Item {
    match page.hubOf case None => Leaf(page, caption) case Some(ns) => Hub(ns, caption)
  }

  ghost function Items(plans: seq<Plan>, entries: seq<Entry>): seq<Item>
    requires Known(entries, plans)
  {
    seq(|entries|, i requires 0 <= i < |entries| => ItemOf(plans[entries[i].page], entries[i].caption))
  }

  /** A page renders symbols, or it is the hub of one namespace under its qualified name, and then its toctree lists
      that namespace's own scope: in order and by caption, and every symbol that is due there. */
  ghost predicate Sound(plans: seq<Plan>, k: nat)
    requires k < |plans|
  {
    var p := plans[k];
    && LinksBack(plans, k)
    && match p.hubOf
       case None => p.seeds != [] && AllPlain(p.seeds) && p.links == []
       case Some(ns) =>
         && ns.kind == Namespace && p.seeds == [] && p.name == ns.QualifiedName() && Known(p.links, plans)
         && Items(plans, p.links) == ScopeItems(Some(ns), ns.children, false)
         && multiset(SubjectsAt(plans, p.toctree)) == multiset(Own(ns.children))
  }

  predicate AllPlain(ms: seq<Symbol>) { forall m <- ms :: m.kind != Namespace }

  /** The new pages are sound, and the new entries lead to exactly these symbols and list these items. */
  ghost predicate Shown(p0: seq<Plan>, e0: seq<Entry>, p1: seq<Plan>, e1: seq<Entry>, own: multiset<Symbol>,
                        items: seq<Item>) {
    && p0 <= p1 && e0 <= e1
    && (forall k | |p0| <= k < |p1| :: Sound(p1, k))
    && Known(e1[|e0|..], p1) && Items(p1, e1[|e0|..]) == items
    && multiset(SubjectsAt(p1, Pages(e1[|e0|..]))) == own
  }

  /** What planning has to do: the symbols the new pages are about, those the new entries lead to, and what they
      list. */
  datatype Share = Share(pages: multiset<Symbol>, entries: multiset<Symbol>, items: seq<Item>) {
    function Plus(more: Share): Share { Share(pages + more.pages, entries + more.entries, items + more.items) }
  }

  /** Pages that each have an entry. */
  function Each(ms: multiset<Symbol>, items: seq<Item>): Share { Share(ms, ms, items) }

  function OfScope(scope: Option<Symbol>, ms: seq<Symbol>, topLevel: bool): Share {
    Share(multiset(Due(ms)), multiset(Own(ms)), ScopeItems(scope, ms, topLevel))
  }

  function OfNamespaces(ms: seq<Symbol>): Share { Share(multiset(Due(ms)), multiset(Own(ms)), HubItems(Own(ms))) }

  function OfNamespace(m: Symbol): Share { Share(multiset(DueOf(m)), multiset(Own([m])), HubItems(Own([m]))) }

  // ---- what a toctree lists ----

  /** Every hub under the namespace's own spelling. */
  function HubItems(namespaces: seq<Symbol>): seq<Item> {
    seq(|namespaces|, i requires 0 <= i < |namespaces| => Hub(namespaces[i], namespaces[i].spelling))
  }

  /** One page per record, named with its specialization arguments. */
  function RecordItems(records: seq<Symbol>, topLevel: bool): seq<Item> {
    seq(|records|, i requires 0 <= i < |records| => RecordItem(records[i], topLevel))
  }

  function RecordItem(r: Symbol, topLevel: bool): Item {
    Leaf(Plan(r.QualifiedName() + r.arguments, [r], None, [], topLevel), r.spelling + r.arguments)
  }

  /** One page for all, or none. */
  function LumpedItems(suffix: string, caption: string, scope: Option<Symbol>, ms: seq<Symbol>, topLevel: bool)
    : seq<Item>
  {
    if ms == [] then []
    else [Leaf(Plan(ScopedName(scope, suffix), Sorted(ms, BySpellingAndSignature), None, [], topLevel), caption)]
  }

  /** One page per name, for all its overloads. */
  function NameItems(fs: seq<Symbol>, names: seq<string>, topLevel: bool): seq<Item> {
    seq(|names|, i requires 0 <= i < |names| => NameItem(fs, names[i], topLevel))
  }

  function NameItem(fs: seq<Symbol>, name: string, topLevel: bool): Item {
    var overloads := Sorted(Overloads(fs, name), BySignature);
    Leaf(Plan(if overloads == [] then "" else overloads[0].QualifiedName(), overloads, None, [], topLevel), name)
  }

  function FunctionItems(scope: Option<Symbol>, fs: seq<Symbol>, topLevel: bool): seq<Item> {
    NameItems(fs, Sorted(NamesIn(fs), PathLe), topLevel) +
    LumpedItems("operators", "Operators", scope, Operators(fs), topLevel)
  }

  function LeafItems(scope: Option<Symbol>, ms: seq<Symbol>, topLevel: bool): seq<Item> {
    RecordItems(Sorted(OfKind(ms, Record), BySpelling), topLevel) +
    FunctionItems(scope, OfKind(ms, Function), topLevel) +
    LumpedItems("types", "Types", scope, OfKind(ms, TypeLeaf), topLevel) +
    LumpedItems("constants", "Constants", scope, OfKind(ms, Constant), topLevel) +
    LumpedItems("other", "Other", scope, OfKind(ms, Other), topLevel)
  }

  /** A scope: the hubs of its namespaces by spelling, then the pages of its own symbols. */
  function ScopeItems(scope: Option<Symbol>, ms: seq<Symbol>, topLevel: bool): seq<Item> {
    HubItems(Own(Sorted(OfKind(ms, Namespace), BySpelling))) + LeafItems(scope, ms, topLevel)
  }

  /** What planning more pages does. */
  ghost predicate Emitted(p0: seq<Plan>, e0: seq<Entry>, p1: seq<Plan>, e1: seq<Entry>, due: Share, flag: bool) {
    && Arranged(p0, e0, p1, e1, flag) && Linked(p0, e0, p1, e1) && Rendered(p0, p1, due.pages)
    && Shown(p0, e0, p1, e1, due.entries, due.items)
  }

  lemma RangeAdds(a: nat, b: nat, c: nat)
    requires a <= b <= c
    ensures multiset(Range(a, c)) == multiset(Range(a, b)) + multiset(Range(b, c))
  {
    assert Range(a, c) == Range(a, b) + Range(b, c);
  }

  lemma {:induction false} AboutPrefix(p: seq<Plan>, q: Plan)
    ensures About(p + [q]) == About(p) + q.Subjects() && Links(p + [q]) == Links(p) + q.toctree
  {
    Sequences.Added(p, q);
  }

  lemma NothingEmitted(p: seq<Plan>, e: seq<Entry>, flag: bool)
    ensures Emitted(p, e, p, e, Each(multiset{}, []), flag)
  {
    assert Range(|p|, |p|) == [];
    assert e[|e|..] == [] && Pages([]) == [];
  }

  lemma ArrangedInTurn(p0: seq<Plan>, e0: seq<Entry>, p1: seq<Plan>, e1: seq<Entry>, p2: seq<Plan>, e2: seq<Entry>,
                       flag: bool)
    requires Arranged(p0, e0, p1, e1, flag) && Arranged(p1, e1, p2, e2, flag)
    ensures Arranged(p0, e0, p2, e2, flag)
  {
    hide Pages;
    forall k | |p0| <= k < |p1| ensures LinksBack(p2, k) && (p2[k].topLevel <==> flag && k in Pages(e2)) {
      assert p2[k] == p1[k] && LinksBack(p1, k);
      PagesPrefix(e1, e2, k, |p1|);
    }
  }

  lemma LinkedInTurn(p0: seq<Plan>, e0: seq<Entry>, p1: seq<Plan>, e1: seq<Entry>, p2: seq<Plan>, e2: seq<Entry>)
    requires |p0| <= |p1| <= |p2| && Linked(p0, e0, p1, e1) && Linked(p1, e1, p2, e2)
    ensures Linked(p0, e0, p2, e2)
  {
    RangeAdds(|p0|, |p1|, |p2|);
    hide Range, Links, Pages;
    SumInTurn(multiset(Links(p0)) + multiset(Pages(e0)), multiset(Range(|p0|, |p1|)), multiset(Range(|p1|, |p2|)));
  }

  lemma SumInTurn<T>(a: multiset<T>, b: multiset<T>, c: multiset<T>)
    ensures a + b + c == a + (b + c)
  {
  }

  lemma EmittedInTurn(p0: seq<Plan>, e0: seq<Entry>, p1: seq<Plan>, e1: seq<Entry>, p2: seq<Plan>, e2: seq<Entry>,
                      due1: Share, due2: Share, flag: bool)
    requires Emitted(p0, e0, p1, e1, due1, flag) && Emitted(p1, e1, p2, e2, due2, flag)
    ensures Emitted(p0, e0, p2, e2, due1.Plus(due2), flag)
  {
    ArrangedInTurn(p0, e0, p1, e1, p2, e2, flag);
    LinkedInTurn(p0, e0, p1, e1, p2, e2);
    ShownInTurn(p0, e0, p1, e1, p2, e2, due1.entries, due2.entries, due1.items, due2.items);
    hide Arranged, Linked, About, Shown;
    SumInTurn(multiset(About(p0)), due1.pages, due2.pages);
  }

  lemma {:induction false} SubjectsConcat(plans: seq<Plan>, a: seq<nat>, b: seq<nat>)
    ensures SubjectsAt(plans, a + b) == SubjectsAt(plans, a) + SubjectsAt(plans, b)
  {
    if b == [] {
      Sequences.AddNothing(a);
      Sequences.AddNothing(SubjectsAt(plans, a));
    } else {
      var init, page := b[..|b| - 1], b[|b| - 1];
      SubjectsConcat(plans, a, init);
      assert (a + b)[..|a + b| - 1] == a + init;
      hide SubjectsOf;
      Sequences.Assoc(SubjectsAt(plans, a), SubjectsAt(plans, init), SubjectsOf(plans, page));
    }
  }

  /** Later pages change nothing behind earlier links. */
  lemma {:induction false} SubjectsBefore(p1: seq<Plan>, p2: seq<Plan>, links: seq<nat>)
    requires p1 <= p2 && forall i | 0 <= i < |links| :: links[i] < |p1|
    ensures SubjectsAt(p2, links) == SubjectsAt(p1, links)
  {
    if links != [] {
      SubjectsBefore(p1, p2, links[..|links| - 1]);
      assert p2[links[|links| - 1]] == p1[links[|links| - 1]];
    }
  }

  lemma SoundBefore(p1: seq<Plan>, p2: seq<Plan>, k: nat)
    requires p1 <= p2 && k < |p1| && Sound(p1, k)
    ensures Sound(p2, k)
  {
    assert p2[k] == p1[k];
    assert LinksBack(p2, k) by { assert LinksBack(p1, k); }
    SubjectsBefore(p1, p2, p1[k].toctree);
    if p1[k].hubOf.Some? {
      ItemsBefore(p1, p2, p1[k].links);
    }
    hide SubjectsAt, Own, Known, Items, ScopeItems, LinksBack, AllPlain;
  }

  lemma ItemsBefore(p1: seq<Plan>, p2: seq<Plan>, entries: seq<Entry>)
    requires p1 <= p2 && Known(entries, p1)
    ensures Known(entries, p2) && Items(p2, entries) == Items(p1, entries)
  {
    forall i | 0 <= i < |entries| ensures p2[entries[i].page] == p1[entries[i].page] {
    }
  }

  lemma PagesConcat(a: seq<Entry>, b: seq<Entry>)
    ensures Pages(a + b) == Pages(a) + Pages(b)
  {
  }

  lemma SoundInTurn(p0: seq<Plan>, p1: seq<Plan>, p2: seq<Plan>)
    requires p0 <= p1 <= p2 && (forall k | |p0| <= k < |p1| :: Sound(p1, k))
    requires forall k | |p1| <= k < |p2| :: Sound(p2, k)
    ensures forall k | |p0| <= k < |p2| :: Sound(p2, k)
  {
    forall k | |p0| <= k < |p2| ensures Sound(p2, k) {
      if k < |p1| {
        SoundBefore(p1, p2, k);
      }
    }
  }

  lemma EntriesInTurn(p1: seq<Plan>, p2: seq<Plan>, a: seq<Entry>, b: seq<Entry>)
    requires p1 <= p2 && Known(a, p1) && Known(b, p2)
    ensures Known(a + b, p2) && Items(p2, a + b) == Items(p1, a) + Items(p2, b)
    ensures multiset(SubjectsAt(p2, Pages(a + b))) ==
            multiset(SubjectsAt(p1, Pages(a))) + multiset(SubjectsAt(p2, Pages(b)))
  {
    ItemsBefore(p1, p2, a);
    ItemsConcat(p2, a, b);
    PagesConcat(a, b);
    SubjectsConcat(p2, Pages(a), Pages(b));
    SubjectsBefore(p1, p2, Pages(a));
    hide SubjectsAt, Pages, Known, Items;
    Sequences.Sum(SubjectsAt(p2, Pages(a)), SubjectsAt(p2, Pages(b)));
  }

  lemma ItemsConcat(plans: seq<Plan>, a: seq<Entry>, b: seq<Entry>)
    requires Known(a, plans) && Known(b, plans)
    ensures Known(a + b, plans) && Items(plans, a + b) == Items(plans, a) + Items(plans, b)
  {
    hide ItemOf;
  }

  lemma ShownInTurn(p0: seq<Plan>, e0: seq<Entry>, p1: seq<Plan>, e1: seq<Entry>, p2: seq<Plan>, e2: seq<Entry>,
                    own1: multiset<Symbol>, own2: multiset<Symbol>, items1: seq<Item>, items2: seq<Item>)
    requires Shown(p0, e0, p1, e1, own1, items1) && Shown(p1, e1, p2, e2, own2, items2)
    ensures Shown(p0, e0, p2, e2, own1 + own2, items1 + items2)
  {
    hide Sound, SubjectsAt, Known, Items, Pages;
    SoundInTurn(p0, p1, p2);
    EntriesInTurn(p1, p2, e1[|e0|..], e2[|e1|..]);
    assert e2[|e0|..] == e1[|e0|..] + e2[|e1|..];
  }

  /** A page, planned last, behind the last entry. */
  lemma LastShown(p0: seq<Plan>, p1: seq<Plan>, e: seq<Entry>, q: Plan, x: Entry)
    requires p0 <= p1 && (forall k | |p0| <= k < |p1| :: Sound(p1, k))
    requires x.page == |p1| && Sound(p1 + [q], |p1|)
    ensures Shown(p0, e, p1 + [q], e + [x], multiset(q.Subjects()), [ItemOf(q, x.caption)])
  {
    var p2 := p1 + [q];
    forall k | |p0| <= k < |p2| ensures Sound(p2, k) {
      if k < |p1| {
        SoundBefore(p1, p2, k);
      }
    }
    hide Sound;
    assert (e + [x])[|e|..] == [x] && p2[x.page] == q;
    OneEntry(p2, x);
    hide Items, Pages, SubjectsAt;
  }

  lemma OneEntry(plans: seq<Plan>, x: Entry)
    requires x.page < |plans|
    ensures Known([x], plans) && Items(plans, [x]) == [ItemOf(plans[x.page], x.caption)]
    ensures SubjectsAt(plans, Pages([x])) == plans[x.page].Subjects()
  {
    assert Pages([x]) == [x.page] && [x.page][..0] == [];
    assert [] + plans[x.page].Subjects() == plans[x.page].Subjects();
  }

  lemma PagesPrefix(e1: seq<Entry>, e2: seq<Entry>, k: nat, bound: nat)
    requires e1 <= e2 && k < bound && forall i | |e1| <= i < |e2| :: bound <= e2[i].page
    ensures k in Pages(e2) <==> k in Pages(e1)
  {
    if k in Pages(e2) {
      var i :| 0 <= i < |e2| && Pages(e2)[i] == k;
      assert Pages(e1)[i] == k;
    }
    if k in Pages(e1) {
      var i :| 0 <= i < |e1| && Pages(e1)[i] == k;
      assert Pages(e2)[i] == k;
    }
  }

  lemma PagesAdd(e: seq<Entry>, x: Entry)
    ensures Pages(e + [x]) == Pages(e) + [x.page] && forall k :: k in Pages(e + [x]) <==> k in Pages(e) || k == x.page
  {
    var all := Pages(e + [x]);
    assert all == Pages(e) + [x.page] && all[|e|] == x.page;
  }

  lemma OnePage(p: nat)
    ensures Range(p, p + 1) == [p] && Range(p, p) == []
  {
  }

  /** A hub over a scope whose pages its toctree links. */
  lemma HubEmitted(p0: seq<Plan>, p1: seq<Plan>, sub: seq<Entry>, e: seq<Entry>, ns: Symbol, flag: bool)
    requires Emitted(p0, [], p1, sub, OfScope(Some(ns), ns.children, false), false)
    requires Known(e, p0) && ns.kind == Namespace
    requires sub != [] || ns.documented
    ensures Emitted(p0, e, p1 + [HubOf(ns, sub, flag)], e + [Entry(|p1|, ns.spelling)], OfNamespace(ns), flag)
  {
    var q, x := HubOf(ns, sub, flag), Entry(|p1|, ns.spelling);
    assert |p0| <= |p1|;
    hide Linked, Rendered, Arranged, Shown, Known, ScopeItems, Own, Due, OfNamespace, Matters, Pages;
    HubLinked(p0, p1, sub, e, q, x);
    HubArranged(p0, p1, sub, e, q, x);
    HubShown(p0, p1, sub, e, ns, flag);
    HubIsDue(p0, p1, sub, ns, ScopeItems(Some(ns), ns.children, false));
    HubRendered(p0, p1, ns, q);
    MatteringShare(ns);
  }

  lemma MatteringShare(ns: Symbol)
    requires ns.kind == Namespace && Matters(ns)
    ensures OfNamespace(ns) == Share(multiset(Due(ns.children) + [ns]), multiset([ns]), [Hub(ns, ns.spelling)])
  {
    assert [ns][..0] == [] && Own([ns]) == [ns];
    hide Due, Own, Matters;
    assert HubItems([ns]) == [Hub(ns, ns.spelling)];
  }

  lemma HubRendered(p0: seq<Plan>, p1: seq<Plan>, ns: Symbol, q: Plan)
    requires Rendered(p0, p1, multiset(Due(ns.children))) && q.Subjects() == [ns]
    ensures Rendered(p0, p1 + [q], multiset(Due(ns.children) + [ns]))
  {
    AboutPrefix(p1, q);
    hide About, Due;
    Sequences.Sum(About(p1), [ns]);
    Sequences.Sum(Due(ns.children), [ns]);
    SumInTurn(multiset(About(p0)), multiset(Due(ns.children)), multiset([ns]));
  }

  function HubOf(ns: Symbol, sub: seq<Entry>, topLevel: bool): Plan {
    Plan(ns.QualifiedName(), [], Some(ns), sub, topLevel)
  }

  lemma HubShown(p0: seq<Plan>, p1: seq<Plan>, sub: seq<Entry>, e: seq<Entry>, ns: Symbol, flag: bool)
    requires Shown(p0, [], p1, sub, multiset(Own(ns.children)), ScopeItems(Some(ns), ns.children, false))
    requires ns.kind == Namespace
    ensures Shown(p0, e, p1 + [HubOf(ns, sub, flag)], e + [Entry(|p1|, ns.spelling)], multiset([ns]),
                  [Hub(ns, ns.spelling)])
  {
    var q := HubOf(ns, sub, flag);
    var p2 := p1 + [q];
    assert sub[0..] == sub;
    SubjectsBefore(p1, p2, Pages(sub));
    ItemsBefore(p1, p2, sub);
    assert p2[|p1|] == q && LinksBack(p2, |p1|);
    hide SubjectsAt, Own, Known, Items, ScopeItems, LinksBack;
    assert Sound(p2, |p1|);
    hide Sound;
    LastShown(p0, p1, e, q, Entry(|p1|, ns.spelling));
    assert q.Subjects() == [ns];
  }

  /** There are entries exactly when some member must be led to. */
  lemma EntriesExactlyWhen(p0: seq<Plan>, p1: seq<Plan>, sub: seq<Entry>, own: seq<Symbol>, items: seq<Item>,
                           flag: bool)
    requires Arranged(p0, [], p1, sub, flag) && Shown(p0, [], p1, sub, multiset(own), items)
    ensures sub == [] <==> own == []
  {
    assert sub[0..] == sub;
    if sub == [] {
      assert Pages(sub) == [];
      assert |multiset(own)| == |own|;
    } else {
      var links := Pages(sub);
      var page := links[|links| - 1];
      assert Sound(p1, page) && p1[page].Subjects() != [];
      hide Sound, Arranged;
      assert |multiset(SubjectsAt(p1, links))| == |SubjectsAt(p1, links)| > 0;
      assert |multiset(own)| == |own|;
    }
  }

  /** So a namespace has entries below it, or is documented, exactly when it matters. */
  lemma HubIsDue(p0: seq<Plan>, p1: seq<Plan>, sub: seq<Entry>, ns: Symbol, items: seq<Item>)
    requires Arranged(p0, [], p1, sub, false) && Shown(p0, [], p1, sub, multiset(Own(ns.children)), items)
    requires ns.kind == Namespace
    ensures Matters(ns) <==> sub != [] || ns.documented
    ensures Own([ns]) == (if Matters(ns) then [ns] else []) && DueOf(ns) == Due(ns.children) + Own([ns])
  {
    EntriesExactlyWhen(p0, p1, sub, Own(ns.children), items, false);
    OwnExactlyWhen(ns.children);
    hide Shown, Arranged, Due;
    assert [ns][..0] == [] && Own([]) == [];
  }

  lemma {:induction false} OwnExactlyWhen(ms: seq<Symbol>)
    ensures Own(ms) != [] <==> exists m <- ms :: Matters(m)
  {
    if ms != [] {
      var init, m := ms[..|ms| - 1], ms[|ms| - 1];
      OwnExactlyWhen(init);
      hide Matters;
      Sequences.ButLast(ms);
      assert forall x :: x in ms <==> x in init || x == m;
      Sequences.AddNothing(Own(init));
      assert m in ms;
      if Matters(m) {
        assert Own(ms)[|Own(init)|] == m;
      } else {
        assert Own(ms) == Own(init);
      }
    }
  }

  lemma HubLinked(p0: seq<Plan>, p1: seq<Plan>, sub: seq<Entry>, e: seq<Entry>, q: Plan, x: Entry)
    requires |p0| <= |p1| && Linked(p0, [], p1, sub) && q.toctree == Pages(sub) && x.page == |p1|
    ensures Linked(p0, e, p1 + [q], e + [x])
  {
    AboutPrefix(p1, q);
    PagesAdd(e, x);
    OnePage(|p1|);
    RangeAdds(|p0|, |p1|, |p1| + 1);
    assert Pages([]) == [];
    hide Links, About, Range, Pages;
    HubSum(multiset(Links(p0)), multiset(Links(p1)), multiset(Pages(sub)), multiset(Pages(e)), multiset{|p1|},
           multiset(Range(|p0|, |p1|)));
    Sequences.Sum(Links(p1), Pages(sub));
    Sequences.Sum(Pages(e), [|p1|]);
  }

  lemma HubSum(l0: multiset<nat>, l1: multiset<nat>, sub: multiset<nat>, e: multiset<nat>, x: multiset<nat>,
               r: multiset<nat>)
    requires l1 + sub == l0 + multiset{} + r
    ensures (l1 + sub) + (e + x) == l0 + e + (r + x)
  {
    assert l1 + sub == l0 + r;
  }

  lemma HubArranged(p0: seq<Plan>, p1: seq<Plan>, sub: seq<Entry>, e: seq<Entry>, q: Plan, x: Entry)
    requires Arranged(p0, [], p1, sub, false) && Known(e, p0) && q.toctree == Pages(sub) && x.page == |p1|
    ensures Arranged(p0, e, p1 + [q], e + [x], q.topLevel)
  {
    PagesAdd(e, x);
    var p2 := p1 + [q];
    forall k | |p0| <= k < |p1| ensures LinksBack(p2, k) && !p2[k].topLevel && k !in Pages(e + [x]) {
      assert p2[k] == p1[k] && LinksBack(p1, k);
    }
    assert LinksBack(p2, |p1|);
  }

  /** One page with an entry of its own. */
  lemma PageEmitted(p: seq<Plan>, e: seq<Entry>, q: Plan, x: Entry)
    requires q.hubOf == None && q.links == [] && q.seeds != [] && AllPlain(q.seeds) && x.page == |p| && Known(e, p)
    ensures Emitted(p, e, p + [q], e + [x], Each(multiset(q.seeds), [Leaf(q, x.caption)]), q.topLevel)
  {
    NothingEmitted(p, [], false);
    AboutPrefix(p, q);
    Sequences.Sum(About(p), q.seeds);
    assert Pages([]) == [];
    HubLinked(p, p, [], e, q, x);
    HubArranged(p, p, [], e, q, x);
    assert (p + [q])[|p|] == q && Sound(p + [q], |p|);
    LastShown(p, p, e, q, x);
    hide Linked, Arranged, About, Pages, Shown;
  }

  // ---- the buckets of a scope ----

  lemma {:induction false} DueConcat(a: seq<Symbol>, b: seq<Symbol>)
    ensures Due(a + b) == Due(a) + Due(b)
  {
    hide DueOf;
    if b == [] {
      assert a + b == a;
    } else {
      assert (a + b)[..|a + b| - 1] == a + b[..|b| - 1];
      DueConcat(a, b[..|b| - 1]);
    }
  }

  lemma DueOfOne(m: Symbol)
    ensures Due([m]) == DueOf(m)
  {
    assert [] + DueOf(m) == DueOf(m);
  }

  lemma {:induction false} DueInserted(x: Symbol, s: seq<Symbol>, le: (Symbol, Symbol) -> bool)
    ensures multiset(Due(Insert(x, s, le))) == multiset(DueOf(x)) + multiset(Due(s))
  {
    DueOfOne(x);
    hide DueOf, Due;
    if s == [] || le(x, s[0]) {
      DueConcat([x], s);
    } else {
      DueInserted(x, s[1..], le);
      DueConcat([s[0]], s[1..]);
      DueConcat([s[0]], Insert(x, s[1..], le));
      assert s == [s[0]] + s[1..];
    }
  }

  lemma {:induction false} DueSorted(s: seq<Symbol>, le: (Symbol, Symbol) -> bool)
    ensures multiset(Due(Sorted(s, le))) == multiset(Due(s))
  {
    if s != [] {
      DueSorted(s[1..], le);
      DueInserted(s[0], Sorted(s[1..], le), le);
      DueOfOne(s[0]);
      DueConcat([s[0]], s[1..]);
      assert s == [s[0]] + s[1..];
    }
  }

  /** How often x stands in s. */
  function Times(s: seq<Symbol>, x: Symbol): nat { multiset(s)[x] }

  lemma TimesConcat(a: seq<Symbol>, b: seq<Symbol>, x: Symbol)
    ensures Times(a + b, x) == Times(a, x) + Times(b, x)
  {
  }

  lemma OfKindAdd(ms: seq<Symbol>, m: Symbol, kind: Kind, x: Symbol)
    ensures Times(OfKind(ms + [m], kind), x) == Times(OfKind(ms, kind), x) + if m.kind == kind then Times([m], x) else 0
    ensures kind == Namespace ==>
              Times(Due(OfKind(ms + [m], kind)), x) ==
              Times(Due(OfKind(ms, kind)), x) + if m.kind == kind then Times(DueOf(m), x) else 0
  {
    Sequences.Added(ms, m);
    Sequences.AddNothing(OfKind(ms, kind));
    DueConcat(OfKind(ms, kind), [m]);
    DueOfOne(m);
  }

  lemma {:induction false} TimesDue(ms: seq<Symbol>, x: Symbol)
    ensures Times(Due(ms), x) == Times(Due(OfKind(ms, Namespace)), x) + Times(OfKind(ms, Record), x)
            + Times(OfKind(ms, Function), x) + Times(OfKind(ms, TypeLeaf), x) + Times(OfKind(ms, Constant), x)
            + Times(OfKind(ms, Other), x)
  {
    if ms != [] {
      var init, m := ms[..|ms| - 1], ms[|ms| - 1];
      Sequences.ButLast(ms);
      DueConcat(init, [m]);
      DueOfOne(m);
      hide Due, OfKind, Times;
      TimesDue(init, x);
      TimesConcat(Due(init), DueOf(m), x);
      OfKindAdd(init, m, Namespace, x);
      OfKindAdd(init, m, Record, x);
      OfKindAdd(init, m, Function, x);
      OfKindAdd(init, m, TypeLeaf, x);
      OfKindAdd(init, m, Constant, x);
      OfKindAdd(init, m, Other, x);
    }
  }

  /** The buckets of a scope hold what is due, each symbol in one of them. */
  lemma BucketsAreDue(ms: seq<Symbol>)
    ensures multiset(Due(ms)) == multiset(Due(OfKind(ms, Namespace))) + multiset(OfKind(ms, Record))
            + multiset(OfKind(ms, Function)) + multiset(OfKind(ms, TypeLeaf)) + multiset(OfKind(ms, Constant))
            + multiset(OfKind(ms, Other))
  {
    hide Due, OfKind;
    forall x: Symbol
      ensures multiset(Due(ms))[x] ==
              multiset(Due(OfKind(ms, Namespace)))[x] + multiset(OfKind(ms, Record))[x]
              + multiset(OfKind(ms, Function))[x] + multiset(OfKind(ms, TypeLeaf))[x]
                  + multiset(OfKind(ms, Constant))[x]
              + multiset(OfKind(ms, Other))[x]
    {
      TimesDue(ms, x);
    }
  }

  lemma {:induction false} OwnCounts(ms: seq<Symbol>, x: Symbol)
    ensures Times(Own(ms), x) == if Matters(x) then Times(ms, x) else 0
  {
    if ms != [] {
      var init, m := ms[..|ms| - 1], ms[|ms| - 1];
      OwnCounts(init, x);
      hide Matters;
      Sequences.ButLast(ms);
      TimesConcat(init, [m], x);
      TimesConcat(Own(init), [m], x);
      Sequences.AddNothing(Own(init));
    }
  }

  lemma {:induction false} OfKindCounts(ms: seq<Symbol>, kind: Kind, x: Symbol)
    ensures Times(OfKind(ms, kind), x) == if x.kind == kind then Times(ms, x) else 0
  {
    if ms != [] {
      var init, m := ms[..|ms| - 1], ms[|ms| - 1];
      OfKindCounts(init, kind, x);
      Sequences.ButLast(ms);
      TimesConcat(init, [m], x);
      TimesConcat(OfKind(init, kind), [m], x);
      Sequences.AddNothing(OfKind(init, kind));
    }
  }

  /** The buckets hold what a scope must lead to, too. */
  lemma BucketsAreOwn(ms: seq<Symbol>)
    ensures multiset(Own(ms)) == multiset(Own(Sorted(OfKind(ms, Namespace), BySpelling))) + LeafDue(ms)
  {
    hide Own, OfKind, Sorted;
    forall x: Symbol
      ensures multiset(Own(ms))[x] == multiset(Own(Sorted(OfKind(ms, Namespace), BySpelling)))[x] + LeafDue(ms)[x]
    {
      TimesOwn(ms, x);
    }
  }

  lemma TimesOwn(ms: seq<Symbol>, x: Symbol)
    ensures Times(Own(ms), x) == Times(Own(Sorted(OfKind(ms, Namespace), BySpelling)), x) + LeafDue(ms)[x]
  {
    OwnCounts(ms, x);
    SortedKeeps(OfKind(ms, Namespace), BySpelling);
    OwnCounts(Sorted(OfKind(ms, Namespace), BySpelling), x);
    OfKindCounts(ms, Namespace, x);
    OfKindCounts(ms, Record, x);
    OfKindCounts(ms, Function, x);
    OfKindCounts(ms, TypeLeaf, x);
    OfKindCounts(ms, Constant, x);
    OfKindCounts(ms, Other, x);
    assert x.kind != Namespace ==> Matters(x);
    hide Own, OfKind, Sorted, Matters;
  }

  lemma {:induction false} OfKindMembers(ms: seq<Symbol>, kind: Kind)
    ensures forall m <- OfKind(ms, kind) :: m in ms && m.kind == kind
  {
    if ms != [] {
      OfKindMembers(ms[..|ms| - 1], kind);
    }
  }

  lemma {:induction false} DepthOfMember(m: Symbol, ms: seq<Symbol>)
    requires m in ms
    ensures Depth(m) <= MaxDepth(ms)
  {
    hide Depth;
    if m != ms[|ms| - 1] {
      DepthOfMember(m, ms[..|ms| - 1]);
    }
  }

  /** The namespaces of a scope, sorted: where the recursion goes. */
  lemma NamespacesAreMembers(ms: seq<Symbol>, m: Symbol)
    requires m in Sorted(OfKind(ms, Namespace), BySpelling)
    ensures m.kind == Namespace && Depth(m) <= MaxDepth(ms)
  {
    SortedKeeps(OfKind(ms, Namespace), BySpelling);
    assert m in multiset(Sorted(OfKind(ms, Namespace), BySpelling));
    OfKindMembers(ms, Namespace);
    DepthOfMember(m, ms);
  }

  // ---- overloads ----

  predicate IsOperator(f: Symbol) { "operator" <= f.spelling }

  function Operators(fs: seq<Symbol>): seq<Symbol> {
    if fs == [] then [] else Operators(fs[..|fs| - 1]) + if IsOperator(fs[|fs| - 1]) then [fs[|fs| - 1]] else []
  }

  predicate IsOverload(f: Symbol, name: string) { !IsOperator(f) && f.spelling == name }

  function Overloads(fs: seq<Symbol>, name: string): seq<Symbol> {
    if fs == [] then []
    else Overloads(fs[..|fs| - 1], name) + if IsOverload(fs[|fs| - 1], name) then [fs[|fs| - 1]] else []
  }

  function AllOverloads(fs: seq<Symbol>, names: seq<string>): seq<Symbol> {
    if names == [] then [] else AllOverloads(fs, names[..|names| - 1]) + Overloads(fs, names[|names| - 1])
  }

  ghost predicate NamesOnce(names: seq<string>) { forall i, j | 0 <= i < j < |names| :: names[i] != names[j] }

  lemma {:induction false} AllOverloadsAdd(fs: seq<Symbol>, f: Symbol, names: seq<string>, x: Symbol)
    requires NamesOnce(names)
    ensures Times(AllOverloads(fs + [f], names), x) ==
            Times(AllOverloads(fs, names), x) + if !IsOperator(f) && f.spelling in names then Times([f], x) else 0
  {
    if names == [] {
      assert AllOverloads(fs, []) == [] == AllOverloads(fs + [f], []);
    } else {
      var init, name := names[..|names| - 1], names[|names| - 1];
      assert NamesOnce(init) && name !in init;
      assert IsOverload(f, name) <==> !IsOperator(f) && f.spelling == name;
      Sequences.ButLast(names);
      hide *;
      OverloadsAdd(fs, f, name, x);
      AllOverloadsAdd(fs, f, init, x);
      AllOverloadsLast(fs, init, name, x);
      AllOverloadsLast(fs + [f], init, name, x);
      InAdded(init, name, f.spelling);
    }
  }

  lemma InAdded(names: seq<string>, name: string, n: string)
    ensures n in names + [name] <==> n in names || n == name
  {
  }

  lemma AllOverloadsLast(fs: seq<Symbol>, names: seq<string>, name: string, x: Symbol)
    ensures Times(AllOverloads(fs, names + [name]), x) == Times(AllOverloads(fs, names), x)
        + Times(Overloads(fs, name), x)
  {
    Sequences.Added(names, name);
    TimesConcat(AllOverloads(fs, names), Overloads(fs, name), x);
  }

  lemma OverloadsAdd(fs: seq<Symbol>, f: Symbol, name: string, x: Symbol)
    ensures Times(Overloads(fs + [f], name), x) == Times(Overloads(fs, name), x)
        + if IsOverload(f, name) then Times([f], x) else 0
    ensures Times(Operators(fs + [f]), x) == Times(Operators(fs), x) + if IsOperator(f) then Times([f], x) else 0
  {
    hide IsOperator;
    Sequences.Added(fs, f);
    TimesConcat(Overloads(fs, name), [f], x);
    TimesConcat(Operators(fs), [f], x);
    Sequences.AddNothing(Overloads(fs, name));
    Sequences.AddNothing(Operators(fs));
  }

  lemma {:induction false} AllOverloadsOfNothing(names: seq<string>)
    ensures AllOverloads([], names) == []
  {
    if names != [] {
      AllOverloadsOfNothing(names[..|names| - 1]);
    }
  }

  lemma {:induction false} TimesCovered(fs: seq<Symbol>, names: seq<string>, x: Symbol)
    requires NamesOnce(names) && forall i | 0 <= i < |fs| :: IsOperator(fs[i]) || fs[i].spelling in names
    ensures Times(fs, x) == Times(AllOverloads(fs, names), x) + Times(Operators(fs), x)
  {
    if fs == [] {
      AllOverloadsOfNothing(names);
    } else {
      var init, f := fs[..|fs| - 1], fs[|fs| - 1];
      Sequences.ButLast(fs);
      TimesConcat(init, [f], x);
      hide IsOperator, Times, Operators, AllOverloads;
      TimesCovered(init, names, x);
      AllOverloadsAdd(init, f, names, x);
      OverloadsAdd(init, f, "", x);
    }
  }

  /** Every function is an operator or an overload of exactly one name. */
  lemma FunctionsAreCovered(fs: seq<Symbol>, names: seq<string>)
    requires NamesOnce(names) && forall i | 0 <= i < |fs| :: IsOperator(fs[i]) || fs[i].spelling in names
    ensures multiset(fs) == multiset(AllOverloads(fs, names)) + multiset(Operators(fs))
  {
    hide IsOperator, AllOverloads, Operators;
    forall x: Symbol
      ensures multiset(fs)[x] == multiset(AllOverloads(fs, names))[x] + multiset(Operators(fs))[x]
    {
      TimesCovered(fs, names, x);
    }
  }

  // ---- the planner ----

  lemma KnownAfter(p0: seq<Plan>, e0: seq<Entry>, p1: seq<Plan>, e1: seq<Entry>, due: Share, flag: bool)
    requires Known(e0, p0) && Emitted(p0, e0, p1, e1, due, flag)
    ensures Known(e1, p1)
  {
    hide Linked, Rendered, LinksBack, Pages, Shown;
  }

  class Generator {
    var plans: seq<Plan>

    constructor ()
      ensures plans == []
    {
      plans := [];
    }

    /** One page with an entry in its scope's toctree. */
    method AddPage(name: string, seeds: seq<Symbol>, topLevel: bool, caption: string, e0: seq<Entry>)
      returns (e: seq<Entry>)
      requires Known(e0, plans) && seeds != [] && AllPlain(seeds)
      modifies this
      ensures plans == old(plans) + [Plan(name, seeds, None, [], topLevel)] && e == e0 + [Entry(|old(plans)|, caption)]
      ensures Emitted(old(plans), e0, plans, e,
                      Each(multiset(seeds), [Leaf(Plan(name, seeds, None, [], topLevel), caption)]), topLevel)
      ensures Known(e, plans)
    {
      var page, entry := Plan(name, seeds, None, [], topLevel), Entry(|plans|, caption);
      PageEmitted(plans, e0, page, entry);
      KnownAfter(plans, e0, plans + [page], e0 + [entry], Each(multiset(seeds), [Leaf(page, caption)]), topLevel);
      plans := plans + [page];
      e := e0 + [entry];
    }

    /** `_emit_lumped_page`: one page for all members, if there are any. */
    method EmitLumpedPage(suffix: string, caption: string, scope: Option<Symbol>, members: seq<Symbol>, topLevel: bool,
                          e0: seq<Entry>) returns (e: seq<Entry>)
      requires Known(e0, plans) && AllPlain(members)
      modifies this
      ensures Emitted(old(plans), e0, plans, e,
                      Each(multiset(members), LumpedItems(suffix, caption, scope, members, topLevel)), topLevel)
      ensures Known(e, plans)
      ensures old(plans) <= plans && (members == [] ==> plans == old(plans) && e == e0)
      ensures members != [] ==>
                && |plans| == |old(plans)| + 1
                && plans[|plans| - 1].seeds == Sorted(members, BySpellingAndSignature)
                && Ascends(plans[|plans| - 1].seeds, BySpellingAndSignature)
                && plans[|plans| - 1].name == ScopedName(scope, suffix)
                && e == e0 + [Entry(|old(plans)|, caption)]
    {
      hide Sorted, Emitted;
      if members == [] {
        NothingEmitted(plans, e0, topLevel);
        return e0;
      }
      SortedMembers(members, BySpellingAndSignature);
      SortOrdersAreTotal();
      SortedAscends(members, BySpellingAndSignature);
      e := AddPage(ScopedName(scope, suffix), Sorted(members, BySpellingAndSignature), topLevel, caption, e0);
    }

    /** `_emit_function_pages`: the overloads of a name share a page, all operators share one. */
    method EmitFunctionPages(scope: Option<Symbol>, functions: seq<Symbol>, topLevel: bool, e0: seq<Entry>)
      returns (e: seq<Entry>)
      requires Known(e0, plans) && AllPlain(functions)
      modifies this
      ensures forall k | |old(plans)| <= k < |plans| ::
                FunctionPage(plans[k], functions) && Ascends(plans[k].seeds, BySpellingAndSignature)
      ensures Emitted(old(plans), e0, plans, e,
                      Each(multiset(functions), FunctionItems(scope, functions, topLevel)), topLevel)
      ensures Known(e, plans)
    {
      hide Sorted, Emitted, IsOperator, Known, Grouped, FunctionPage, Ascends, NameItems, LumpedItems, NamesIn;
      hide Operators, Overloads, AllOverloads;
      var named, order, operators := GroupByName(functions);
      GroupedMeans(named, order, functions);
      var names := Sorted(order, PathLe);
      SortedNamesOnce(order, PathLe);
      OverloadsAreMembers(functions, "");
      ghost var p0 := plans;
      e := EmitOverloads(functions, named, names, topLevel, e0);
      ghost var p1, e1 := plans, e;
      e := EmitLumpedPage("operators", "Operators", scope, operators, topLevel, e);
      EmittedInTurn(p0, e0, p1, e1, plans, e,
                    OfNames(functions, names, topLevel),
                    Each(multiset(operators), LumpedItems("operators", "Operators", scope, operators, topLevel)),
                    topLevel);
      FunctionsAreCovered(functions, names);
      forall k | |p0| <= k < |plans|
        ensures FunctionPage(plans[k], functions) && Ascends(plans[k].seeds, BySpellingAndSignature)
      {
        if k < |p1| {
          assert plans[k] == p1[k];
        } else {
          OperatorsPage(plans[k], functions);
        }
        FunctionPageAscends(plans[k], functions);
      }
    }

    /** One page per name. */
    method EmitOverloads(functions: seq<Symbol>, named: map<string, seq<Symbol>>, names: seq<string>, topLevel: bool,
                         e0: seq<Entry>) returns (e: seq<Entry>)
      requires Known(e0, plans) && AllPlain(functions)
      requires forall i | 0 <= i < |names| ::
                 names[i] in named && named[names[i]] == Overloads(functions, names[i]) && named[names[i]] != []
      modifies this
      ensures Emitted(old(plans), e0, plans, e, OfNames(functions, names, topLevel), topLevel)
      ensures Known(e, plans)
      ensures old(plans) <= plans && forall k | |old(plans)| <= k < |plans| :: FunctionPage(plans[k], functions)
    {
      hide Sorted, Emitted, Overloads, Known, FunctionPage;
      ghost var p0 := plans;
      e := e0;
      NothingEmitted(plans, e0, topLevel);
      NothingNamed(functions, topLevel);
      for i := 0 to |names|
        invariant Known(e, plans) && p0 <= plans
        invariant forall k | |p0| <= k < |plans| :: FunctionPage(plans[k], functions)
        invariant Emitted(p0, e0, plans, e, OfNames(functions, names[..i], topLevel), topLevel)
      {
        var overloads := Sorted(named[names[i]], BySignature);
        OverloadsAreMembers(functions, names[i]);
        SortedMembers(named[names[i]], BySignature);
        ghost var p1, e1 := plans, e;
        OverloadsShareAPage(functions, names[i], topLevel);
        e := AddPage(overloads[0].QualifiedName(), overloads, topLevel, names[i], e);
        EmittedInTurn(p0, e0, p1, e1, plans, e, OfNames(functions, names[..i], topLevel),
                      Each(multiset(overloads), [NameItem(functions, names[i], topLevel)]), topLevel);
        NamesNext(functions, names, i, topLevel);
      }
      assert names[..|names|] == names;
    }

    /** `_emit_namespace_hub`: the scope below first, then a page that links it; an empty, undocumented namespace
        gets none. */
    method EmitHub(ns: Symbol, topLevel: bool, e0: seq<Entry>) returns (e: seq<Entry>)
      requires Known(e0, plans) && ns.kind == Namespace
      modifies this
      ensures Emitted(old(plans), e0, plans, e, OfNamespace(ns), topLevel) && Known(e, plans)
      decreases Depth(ns), 0
    {
      ghost var p0 := plans;
      var sub := EmitScope(Some(ns), ns.children, false);
      if sub == [] && !ns.documented {
        SilentScope(p0, plans, e0, ns, topLevel);
        return e0;
      }
      var page, entry := Plan(ns.QualifiedName(), [], Some(ns), sub, topLevel), Entry(|plans|, ns.spelling);
      HubEmitted(p0, plans, sub, e0, ns, topLevel);
      KnownAfter(p0, e0, plans + [page], e0 + [entry], OfNamespace(ns), topLevel);
      plans := plans + [page];
      e := e0 + [entry];
    }

    /** `_emit_namespace_scope`: the entries of the scope's own toctree. */
    method EmitScope(scope: Option<Symbol>, members: seq<Symbol>, topLevel: bool) returns (e: seq<Entry>)
      modifies this
      ensures Emitted(old(plans), [], plans, e, OfScope(scope, members, topLevel), topLevel)
      decreases MaxDepth(members), 1
    {
      hide Sorted, Emitted, Known, Due, DueOf, Own, OfKind, MaxDepth, Depth, HubItems, LeafItems;
      ghost var p0 := plans;
      e := [];
      NothingEmitted(plans, [], topLevel);
      NothingKnown(plans);
      var namespaces := Sorted(OfKind(members, Namespace), BySpelling);
      NothingIsDue();
      for i := 0 to |namespaces|
        invariant Known(e, plans) && Emitted(p0, [], plans, e, OfNamespaces(namespaces[..i]), topLevel)
      {
        ghost var p1, e1 := plans, e;
        NamespacesAreMembers(members, namespaces[i]);
        e := EmitHub(namespaces[i], topLevel, e);
        EmittedInTurn(p0, [], p1, e1, plans, e, OfNamespaces(namespaces[..i]), OfNamespace(namespaces[i]), topLevel);
        DueNext(namespaces, i);
        OwnNext(namespaces, i);
      }
      assert namespaces[..|namespaces|] == namespaces;
      DueSorted(OfKind(members, Namespace), BySpelling);
      ghost var p1, e1 := plans, e;
      e := EmitLeafPages(scope, members, topLevel, e);
      EmittedInTurn(p0, [], p1, e1, plans, e, OfNamespaces(namespaces),
                    Each(LeafDue(members), LeafItems(scope, members, topLevel)), topLevel);
      DueInAll(members);
      BucketsAreOwn(members);
    }

    /** The pages of a scope's own symbols: one per record, then functions, types, constants and the rest. */
    method EmitLeafPages(scope: Option<Symbol>, members: seq<Symbol>, topLevel: bool, e0: seq<Entry>)
      returns (e: seq<Entry>)
      requires Known(e0, plans)
      modifies this
      ensures Emitted(old(plans), e0, plans, e, Each(LeafDue(members), LeafItems(scope, members, topLevel)), topLevel)
      ensures Known(e, plans)
    {
      hide Sorted, Emitted, Known, OfKind, RecordItems, FunctionItems, LumpedItems;
      BucketsArePlain(members);
      ghost var p0 := plans;
      ghost var rs, fs := multiset(OfKind(members, Record)), multiset(OfKind(members, Function));
      ghost var ts, cs := multiset(OfKind(members, TypeLeaf)), multiset(OfKind(members, Constant));
      ghost var os := multiset(OfKind(members, Other));
      ghost var ri := RecordItems(Sorted(OfKind(members, Record), BySpelling), topLevel);
      ghost var fi := FunctionItems(scope, OfKind(members, Function), topLevel);
      ghost var ti := LumpedItems("types", "Types", scope, OfKind(members, TypeLeaf), topLevel);
      ghost var ci := LumpedItems("constants", "Constants", scope, OfKind(members, Constant), topLevel);
      ghost var oi := LumpedItems("other", "Other", scope, OfKind(members, Other), topLevel);
      e := EmitRecords(OfKind(members, Record), topLevel, e0);
      ghost var p1, e1 := plans, e;
      e := EmitFunctionPages(scope, OfKind(members, Function), topLevel, e);
      ghost var p2, e2 := plans, e;
      EmittedInTurn(p0, e0, p1, e1, p2, e2, Each(rs, ri), Each(fs, fi), topLevel);
      e := EmitLumpedPage("types", "Types", scope, OfKind(members, TypeLeaf), topLevel, e);
      ghost var p3, e3 := plans, e;
      EmittedInTurn(p0, e0, p2, e2, p3, e3, Each(rs + fs, ri + fi), Each(ts, ti), topLevel);
      e := EmitLumpedPage("constants", "Constants", scope, OfKind(members, Constant), topLevel, e);
      ghost var p4, e4 := plans, e;
      EmittedInTurn(p0, e0, p3, e3, p4, e4, Each(rs + fs + ts, ri + fi + ti), Each(cs, ci), topLevel);
      e := EmitLumpedPage("other", "Other", scope, OfKind(members, Other), topLevel, e);
      EmittedInTurn(p0, e0, p4, e4, plans, e, Each(rs + fs + ts + cs, ri + fi + ti + ci),
                    Each(os, oi), topLevel);
    }

    method EmitRecords(records: seq<Symbol>, topLevel: bool, e0: seq<Entry>) returns (e: seq<Entry>)
      requires Known(e0, plans) && AllPlain(records)
      modifies this
      ensures plans == old(plans) + RecordPages(Sorted(records, BySpelling), topLevel)
      ensures InSpellingOrder(plans[|old(plans)|..]) && |plans| == |old(plans)| + |records|
      ensures Emitted(old(plans), e0, plans, e,
                      Each(multiset(records), RecordItems(Sorted(records, BySpelling), topLevel)), topLevel)
      ensures Known(e, plans)
    {
      hide Sorted, Emitted, Known;
      ghost var p0 := plans;
      var sorted := Sorted(records, BySpelling);
      SortedMembers(records, BySpelling);
      NothingPaged(topLevel);
      e := e0;
      NothingEmitted(plans, e0, topLevel);
      for i := 0 to |sorted|
        invariant Known(e, plans) && Emitted(p0, e0, plans, e, OfRecords(sorted[..i], topLevel), topLevel)
        invariant plans == p0 + RecordPages(sorted[..i], topLevel)
      {
        var record := sorted[i];
        ghost var p1, e1 := plans, e;
        e := AddPage(record.QualifiedName() + record.arguments, [record], topLevel,
                     record.spelling + record.arguments, e);
        EmittedInTurn(p0, e0, p1, e1, plans, e, OfRecords(sorted[..i], topLevel),
                      Each(multiset([record]), [RecordItem(record, topLevel)]), topLevel);
        RecordsNext(sorted, i, topLevel);
      }
      assert sorted[..|sorted|] == sorted;
      RecordPagesAscend(records, topLevel);
      assert plans[|p0|..] == RecordPages(sorted, topLevel);
    }
  }

  /** Pages of one symbol each, in path order of their spelling. */
  ghost predicate InSpellingOrder(pages: seq<Plan>) {
    && (forall i | 0 <= i < |pages| :: |pages[i].seeds| == 1)
    && forall i, j | 0 <= i < j < |pages| :: BySpelling(pages[i].seeds[0], pages[j].seeds[0])
  }

  lemma RecordPagesAscend(records: seq<Symbol>, topLevel: bool)
    ensures InSpellingOrder(RecordPages(Sorted(records, BySpelling), topLevel)) &&
        |Sorted(records, BySpelling)| == |records|
  {
    SortOrdersAreTotal();
    SortedAscends(records, BySpelling);
    SortedKeeps(records, BySpelling);
    assert |multiset(Sorted(records, BySpelling))| == |Sorted(records, BySpelling)| && |multiset(records)| == |records|;
    hide Sorted, PathLe;
  }

  /** The functions of a page are in order of spelling and signature. */
  lemma FunctionPageAscends(p: Plan, fs: seq<Symbol>)
    requires FunctionPage(p, fs)
    ensures Ascends(p.seeds, BySpellingAndSignature)
  {
    SortOrdersAreTotal();
    SortedAscends(Operators(fs), BySpellingAndSignature);
    if name :| OverloadsPage(p, fs, name) {
      var os := Overloads(fs, name);
      SortedAscends(os, BySignature);
      SortedKeeps(os, BySignature);
      OverloadsShareSpelling(fs, name);
      hide Sorted, Overloads, PathLe, Operators;
      forall f <- p.seeds ensures f.spelling == name {
        assert f in multiset(os);
      }
    }
  }

  lemma {:induction false} OverloadsShareSpelling(fs: seq<Symbol>, name: string)
    ensures forall f <- Overloads(fs, name) :: f.spelling == name
  {
    if fs != [] {
      OverloadsShareSpelling(fs[..|fs| - 1], name);
    }
  }

  /** All overloads of one name, by signature, under the qualified name of the first; or all operators. */
  ghost predicate FunctionPage(p: Plan, fs: seq<Symbol>) {
    || p.seeds == Sorted(Operators(fs), BySpellingAndSignature)
    || exists name :: OverloadsPage(p, fs, name)
  }

  ghost predicate OverloadsPage(p: Plan, fs: seq<Symbol>, name: string) {
    p.seeds == Sorted(Overloads(fs, name), BySignature) && p.seeds != [] && p.name == p.seeds[0].QualifiedName()
  }

  lemma OperatorsPage(p: Plan, fs: seq<Symbol>)
    requires p.seeds == Sorted(Operators(fs), BySpellingAndSignature)
    ensures FunctionPage(p, fs)
  {
  }

  lemma OverloadsShareAPage(fs: seq<Symbol>, name: string, topLevel: bool)
    requires Sorted(Overloads(fs, name), BySignature) != []
    ensures var s := Sorted(Overloads(fs, name), BySignature);
            FunctionPage(Plan(s[0].QualifiedName(), s, None, [], topLevel), fs)
  {
    var s := Sorted(Overloads(fs, name), BySignature);
    assert OverloadsPage(Plan(s[0].QualifiedName(), s, None, [], topLevel), fs, name);
  }

  /** One page per record, by spelling, named with its specialization arguments. */
  function RecordPages(sorted: seq<Symbol>, topLevel: bool): seq<Plan> {
    seq(|sorted|, i requires 0 <= i < |sorted| =>
      Plan(sorted[i].QualifiedName() + sorted[i].arguments, [sorted[i]], None, [], topLevel))
  }

  function OfRecords(records: seq<Symbol>, topLevel: bool): Share {
    Each(multiset(records), RecordItems(records, topLevel))
  }

  lemma RecordsNext(records: seq<Symbol>, i: nat, topLevel: bool)
    requires i < |records|
    ensures OfRecords(records[..i + 1], topLevel) ==
            OfRecords(records[..i], topLevel).Plus(Each(multiset([records[i]]), [RecordItem(records[i], topLevel)]))
    ensures RecordPages(records[..i + 1], topLevel) ==
            RecordPages(records[..i], topLevel) + [RecordItem(records[i], topLevel).page]
  {
    assert records[..i + 1] == records[..i] + [records[i]];
    Sequences.Sum(records[..i], [records[i]]);
  }

  lemma NothingPaged(topLevel: bool)
    ensures OfRecords([], topLevel) == Each(multiset{}, []) && RecordPages([], topLevel) == []
  {
  }

  function OfNames(fs: seq<Symbol>, names: seq<string>, topLevel: bool): Share {
    Each(multiset(AllOverloads(fs, names)), NameItems(fs, names, topLevel))
  }

  lemma NamesNext(fs: seq<Symbol>, names: seq<string>, i: nat, topLevel: bool)
    requires i < |names|
    ensures OfNames(fs, names[..i + 1], topLevel) ==
            OfNames(fs, names[..i], topLevel).Plus(
              Each(multiset(Overloads(fs, names[i])), [NameItem(fs, names[i], topLevel)]))
  {
    AllOverloadsNext(fs, names, i);
    NameItemsNext(fs, names, i, topLevel);
    hide AllOverloads, Overloads, NameItem, NameItems;
  }

  lemma NameItemsNext(fs: seq<Symbol>, names: seq<string>, i: nat, topLevel: bool)
    requires i < |names|
    ensures NameItems(fs, names[..i + 1], topLevel) ==
            NameItems(fs, names[..i], topLevel) + [NameItem(fs, names[i], topLevel)]
  {
    hide NameItem;
  }

  lemma NothingNamed(fs: seq<Symbol>, topLevel: bool)
    ensures OfNames(fs, [], topLevel) == Each(multiset{}, [])
  {
    hide NameItem;
  }

  function ScopedName(scope: Option<Symbol>, suffix: string): string {
    if scope.Some? && scope.value.qualifiedName != "" then scope.value.qualifiedName + "::" + suffix else suffix
  }

  /** What a scope must give pages to besides the scopes below it. */
  function LeafDue(ms: seq<Symbol>): multiset<Symbol> {
    multiset(OfKind(ms, Record)) + multiset(OfKind(ms, Function)) + multiset(OfKind(ms, TypeLeaf))
    + multiset(OfKind(ms, Constant)) + multiset(OfKind(ms, Other))
  }

  lemma DueInAll(ms: seq<Symbol>)
    ensures multiset(Due(Sorted(OfKind(ms, Namespace), BySpelling))) + LeafDue(ms) == multiset(Due(ms))
  {
    BucketsAreDue(ms);
    DueSorted(OfKind(ms, Namespace), BySpelling);
    hide Due, OfKind, Sorted;
  }

  lemma BucketsArePlain(ms: seq<Symbol>)
    ensures AllPlain(OfKind(ms, Record)) && AllPlain(OfKind(ms, Function)) && AllPlain(OfKind(ms, TypeLeaf))
    ensures AllPlain(OfKind(ms, Constant)) && AllPlain(OfKind(ms, Other))
  {
    OfKindMembers(ms, Record);
    OfKindMembers(ms, Function);
    OfKindMembers(ms, TypeLeaf);
    OfKindMembers(ms, Constant);
    OfKindMembers(ms, Other);
    hide OfKind;
  }

  /** Sorting keeps the members. */
  lemma SortedMembers(s: seq<Symbol>, le: (Symbol, Symbol) -> bool)
    ensures multiset(Sorted(s, le)) == multiset(s) && |Sorted(s, le)| == |s|
    ensures AllPlain(s) ==> AllPlain(Sorted(s, le))
  {
    SortedKeeps(s, le);
    hide Sorted;
    var t := Sorted(s, le);
    assert |multiset(t)| == |t| && |multiset(s)| == |s|;
    forall m <- t ensures m in s {
      assert m in multiset(t);
    }
  }

  lemma {:induction false} OverloadsAreMembers(fs: seq<Symbol>, name: string)
    ensures AllPlain(fs) ==> AllPlain(Overloads(fs, name)) && AllPlain(Operators(fs))
  {
    if fs != [] && AllPlain(fs) {
      assert fs[|fs| - 1] in fs && forall f <- fs[..|fs| - 1] :: f in fs;
      hide IsOperator;
      OverloadsAreMembers(fs[..|fs| - 1], name);
    }
  }

  lemma NothingKnown(p: seq<Plan>)
    ensures Known([], p)
  {
  }

  lemma NothingIsDue()
    ensures OfNamespaces([]) == Each(multiset{}, [])
  {
  }

  lemma DueNext(ms: seq<Symbol>, i: nat)
    requires i < |ms|
    ensures multiset(Due(ms[..i + 1])) == multiset(Due(ms[..i])) + multiset(DueOf(ms[i]))
  {
    hide *;
    assert ms[..i + 1] == ms[..i] + [ms[i]];
    DueConcat(ms[..i], [ms[i]]);
    DueOfOne(ms[i]);
    Sequences.Sum(Due(ms[..i]), DueOf(ms[i]));
  }

  lemma OwnNext(ms: seq<Symbol>, i: nat)
    requires i < |ms|
    ensures multiset(Own(ms[..i + 1])) == multiset(Own(ms[..i])) + multiset(Own([ms[i]]))
    ensures HubItems(Own(ms[..i + 1])) == HubItems(Own(ms[..i])) + HubItems(Own([ms[i]]))
  {
    assert ms[..i + 1][..i] == ms[..i] && [ms[i]][..0] == [] && Own([]) == [];
    hide Matters;
    Sequences.AddNothing(Own(ms[..i]));
    Sequences.Sum(Own(ms[..i]), [ms[i]]);
    assert Own(ms[..i + 1]) == Own(ms[..i]) + Own([ms[i]]);
    hide Own;
    assert HubItems(Own(ms[..i]) + Own([ms[i]])) == HubItems(Own(ms[..i])) + HubItems(Own([ms[i]]));
  }

  /** A scope without entries has planned nothing, and nothing was due. */
  lemma SilentScope(p0: seq<Plan>, p1: seq<Plan>, e: seq<Entry>, ns: Symbol, flag: bool)
    requires Emitted(p0, [], p1, [], OfScope(Some(ns), ns.children, false), false)
    requires ns.kind == Namespace && !ns.documented
    ensures Emitted(p0, e, p1, e, OfNamespace(ns), flag)
  {
    NothingEmitted(p1, e, flag);
    HubIsDue(p0, p1, [], ns, ScopeItems(Some(ns), ns.children, false));
    assert HubItems([]) == [];
    hide About, Links, Pages, Range, Shown, Own, Due, HubItems, ScopeItems;
    assert OfNamespace(ns) == Share(multiset(Due(ns.children)), multiset{}, []);
  }

  /** The dictionary of overloads after these functions: the names in the order they were first met. */
  ghost predicate Grouped(named: map<string, seq<Symbol>>, order: seq<string>, fs: seq<Symbol>) {
    && NamesOnce(order) && (forall n :: n in named <==> n in order)
    && (forall i | 0 <= i < |fs| :: IsOperator(fs[i]) || fs[i].spelling in order)
    && (forall n :: Overloads(fs, n) == if n in named then named[n] else [])
    && forall n <- named :: named[n] != []
  }

  /** The names of the functions that are no operators, in the order they are first met. */
  function NamesIn(fs: seq<Symbol>): seq<string> {
    if fs == [] then []
    else
      var names, f := NamesIn(fs[..|fs| - 1]), fs[|fs| - 1];
      if IsOperator(f) || f.spelling in names then names else names + [f.spelling]
  }

  /** The functions by name, and the operators. */
  method GroupByName(functions: seq<Symbol>) returns (named: map<string, seq<Symbol>>, order: seq<string>,
                                                      operators: seq<Symbol>)
    ensures operators == Operators(functions) && order == NamesIn(functions) && Grouped(named, order, functions)
  {
    hide IsOperator, Grouped, NamesIn;
    named, order, operators := map[], [], [];
    NothingGrouped();
    for i := 0 to |functions|
      invariant operators == Operators(functions[..i]) && Grouped(named, order, functions[..i])
      invariant order == NamesIn(functions[..i])
    {
      var f := functions[i];
      GroupedAdd(named, order, functions[..i], f);
      NamesAdd(functions[..i], f);
      GroupedHas(named, order, functions[..i], f.spelling);
      assert functions[..i + 1] == functions[..i] + [f];
      Sequences.Added(functions[..i], f);
      if IsOperator(f) {
        operators := operators + [f];
      } else {
        if f.spelling !in named {
          named := named[f.spelling := []];
          order := order + [f.spelling];
        }
        named := named[f.spelling := named[f.spelling] + [f]];
      }
    }
    assert functions[..|functions|] == functions;
  }

  lemma NothingGrouped()
    ensures Grouped(map[], [], []) && NamesIn([]) == []
  {
  }

  lemma OverloadsNext(fs: seq<Symbol>, f: Symbol, n: string)
    ensures Overloads(fs + [f], n) == if IsOverload(f, n) then Overloads(fs, n) + [f] else Overloads(fs, n)
  {
    hide IsOperator;
    Sequences.Added(fs, f);
  }

  lemma GroupedHas(named: map<string, seq<Symbol>>, order: seq<string>, fs: seq<Symbol>, n: string)
    requires Grouped(named, order, fs)
    ensures n in named <==> n in order
  {
  }

  lemma NamesAdd(fs: seq<Symbol>, f: Symbol)
    ensures NamesIn(fs + [f]) ==
            if IsOperator(f) || f.spelling in NamesIn(fs) then NamesIn(fs) else NamesIn(fs) + [f.spelling]
  {
    hide IsOperator;
    Sequences.Added(fs, f);
  }

  lemma GroupedAdd(named: map<string, seq<Symbol>>, order: seq<string>, fs: seq<Symbol>, f: Symbol)
    requires Grouped(named, order, fs)
    ensures if IsOperator(f) then Grouped(named, order, fs + [f])
            else if f.spelling in named then Grouped(named[f.spelling := named[f.spelling] + [f]], order, fs + [f])
            else Grouped(named[f.spelling := []][f.spelling := [] + [f]], order + [f.spelling], fs + [f])
  {
    hide IsOperator, Overloads;
    forall n ensures Overloads(fs + [f], n) == if IsOverload(f, n) then Overloads(fs, n) + [f] else Overloads(fs, n) {
      OverloadsNext(fs, f, n);
    }
    if !IsOperator(f) {
      if f.spelling in named {
        GroupedOn(named, order, fs, f);
      } else {
        GroupedNew(named, order, fs, f);
      }
    }
  }

  lemma GroupedOn(named: map<string, seq<Symbol>>, order: seq<string>, fs: seq<Symbol>, f: Symbol)
    requires Grouped(named, order, fs) && !IsOperator(f) && f.spelling in named
    requires forall n ::
               Overloads(fs + [f], n) == if IsOverload(f, n) then Overloads(fs, n) + [f] else Overloads(fs, n)
    ensures Grouped(named[f.spelling := named[f.spelling] + [f]], order, fs + [f])
  {
    hide IsOperator, Overloads, NamesOnce;
  }

  lemma GroupedNew(named: map<string, seq<Symbol>>, order: seq<string>, fs: seq<Symbol>, f: Symbol)
    requires Grouped(named, order, fs) && !IsOperator(f) && f.spelling !in named
    requires forall n ::
               Overloads(fs + [f], n) == if IsOverload(f, n) then Overloads(fs, n) + [f] else Overloads(fs, n)
    ensures Grouped(named[f.spelling := []][f.spelling := [] + [f]], order + [f.spelling], fs + [f])
  {
    assert NamesOnce(order + [f.spelling]);
    hide IsOperator, Overloads, NamesOnce;
    assert [] + [f] == [f];
  }

  lemma GroupedMeans(named: map<string, seq<Symbol>>, order: seq<string>, fs: seq<Symbol>)
    requires Grouped(named, order, fs)
    ensures NamesOnce(order) && forall i | 0 <= i < |fs| :: IsOperator(fs[i]) || fs[i].spelling in order
    ensures forall n <- order :: n in named && named[n] == Overloads(fs, n) && named[n] != []
  {
    hide IsOperator, Overloads;
  }

  lemma AllOverloadsNext(fs: seq<Symbol>, names: seq<string>, i: nat)
    requires i < |names|
    ensures multiset(AllOverloads(fs, names[..i + 1])) ==
            multiset(AllOverloads(fs, names[..i])) + multiset(Overloads(fs, names[i]))
  {
    Sequences.Added(names[..i], names[i]);
    assert names[..i + 1] == names[..i] + [names[i]];
    Sequences.Sum(AllOverloads(fs, names[..i]), Overloads(fs, names[i]));
  }

  lemma SortedNamesOnce(names: seq<string>, le: (string, string) -> bool)
    requires NamesOnce(names)
    ensures NamesOnce(Sorted(names, le)) && forall n :: n in Sorted(names, le) <==> n in names
  {
    SortedKeeps(names, le);
    hide Sorted;
    var s := Sorted(names, le);
    assert multiset(s) == multiset(names);
    forall n ensures n in s <==> n in names {
      assert n in s <==> n in multiset(s);
    }
    OnceExactly(names);
    OnceExactly(s);
  }

  /** Names are distinct exactly when none is counted twice. */
  lemma {:induction false} OnceExactly(names: seq<string>)
    ensures NamesOnce(names) <==> forall n :: multiset(names)[n] <= 1
  {
    if names != [] {
      var init, last := names[..|names| - 1], names[|names| - 1];
      OnceExactly(init);
      Sequences.ButLast(names);
      Sequences.Sum(init, [last]);
      assert multiset(names)[last] == multiset(init)[last] + 1;
      if NamesOnce(names) {
        assert last !in init;
        assert forall n :: multiset(names)[n] <= 1;
      } else if NamesOnce(init) {
        assert last in multiset(init);
        assert multiset(names)[last] > 1;
      } else {
        var n :| multiset(init)[n] > 1;
        assert multiset(names)[n] > 1;
      }
    }
  }

  // ---- where a symbol is found ----

  lemma InSorted<T>(s: seq<T>, le: (T, T) -> bool, x: T)
    ensures x in Sorted(s, le) <==> x in s
  {
    SortedKeeps(s, le);
    hide Sorted;
    assert x in Sorted(s, le) <==> x in multiset(Sorted(s, le));
    assert x in s <==> x in multiset(s);
  }

  lemma {:induction false} InKind(ms: seq<Symbol>, kind: Kind, x: Symbol)
    ensures x in OfKind(ms, kind) <==> x in ms && x.kind == kind
  {
    if ms != [] {
      InKind(ms[..|ms| - 1], kind, x);
      Sequences.ButLast(ms);
    }
  }

  lemma {:induction false} InOverloads(fs: seq<Symbol>, name: string, x: Symbol)
    ensures x in Overloads(fs, name) <==> x in fs && IsOverload(x, name)
    ensures x in Operators(fs) <==> x in fs && IsOperator(x)
  {
    if fs != [] {
      InOverloads(fs[..|fs| - 1], name, x);
      hide IsOperator;
      Sequences.ButLast(fs);
    }
  }

  lemma {:induction false} NamedIn(fs: seq<Symbol>, f: Symbol)
    requires f in fs && !IsOperator(f)
    ensures f.spelling in NamesIn(fs)
  {
    hide IsOperator;
    if f in fs[..|fs| - 1] {
      NamedIn(fs[..|fs| - 1], f);
    } else {
      Sequences.ButLast(fs);
    }
  }

  /** A page of these symbols and no others. */
  ghost predicate Holds(item: Item, name: string, caption: string, ms: seq<Symbol>) {
    && item.Leaf? && item.caption == caption && item.page.name == name
    && multiset(item.page.seeds) == multiset(ms)
  }

  lemma InLumped(suffix: string, caption: string, scope: Option<Symbol>, ms: seq<Symbol>, topLevel: bool)
    requires ms != []
    ensures exists item <- LumpedItems(suffix, caption, scope, ms, topLevel) ::
              Holds(item, ScopedName(scope, suffix), caption, ms)
  {
    SortedKeeps(ms, BySpellingAndSignature);
    hide Sorted, ScopedName;
    var items := LumpedItems(suffix, caption, scope, ms, topLevel);
    assert items[0] in items && Holds(items[0], ScopedName(scope, suffix), caption, ms);
  }

  /** Types, constants, operators and whatever else a scope has share a page of their own, named within the scope. */
  lemma LumpedPages(scope: Option<Symbol>, ms: seq<Symbol>, topLevel: bool)
    ensures OfKind(ms, TypeLeaf) != [] ==> exists item <- ScopeItems(scope, ms, topLevel) ::
              Holds(item, ScopedName(scope, "types"), "Types", OfKind(ms, TypeLeaf))
    ensures OfKind(ms, Constant) != [] ==> exists item <- ScopeItems(scope, ms, topLevel) ::
              Holds(item, ScopedName(scope, "constants"), "Constants", OfKind(ms, Constant))
    ensures OfKind(ms, Other) != [] ==> exists item <- ScopeItems(scope, ms, topLevel) ::
              Holds(item, ScopedName(scope, "other"), "Other", OfKind(ms, Other))
    ensures Operators(OfKind(ms, Function)) != [] ==> exists item <- ScopeItems(scope, ms, topLevel) ::
              Holds(item, ScopedName(scope, "operators"), "Operators", Operators(OfKind(ms, Function)))
  {
    if OfKind(ms, TypeLeaf) != [] {
      InLumped("types", "Types", scope, OfKind(ms, TypeLeaf), topLevel);
    }
    if OfKind(ms, Constant) != [] {
      InLumped("constants", "Constants", scope, OfKind(ms, Constant), topLevel);
    }
    if OfKind(ms, Other) != [] {
      InLumped("other", "Other", scope, OfKind(ms, Other), topLevel);
    }
    if Operators(OfKind(ms, Function)) != [] {
      InLumped("operators", "Operators", scope, Operators(OfKind(ms, Function)), topLevel);
    }
    hide LumpedItems, RecordItems, NameItems, HubItems, Holds, ScopedName, OfKind, Sorted, Operators;
  }

  /** A record has a page to itself, under its qualified name and its specialization arguments. */
  lemma RecordPage(scope: Option<Symbol>, ms: seq<Symbol>, topLevel: bool, r: Symbol)
    requires r in ms && r.kind == Record
    ensures exists item <- ScopeItems(scope, ms, topLevel) ::
              Holds(item, r.QualifiedName() + r.arguments, r.spelling + r.arguments, [r])
  {
    InKind(ms, Record, r);
    InSorted(OfKind(ms, Record), BySpelling, r);
    var sorted := Sorted(OfKind(ms, Record), BySpelling);
    var i :| 0 <= i < |sorted| && sorted[i] == r;
    var items := RecordItems(sorted, topLevel);
    assert items[i] in items && Holds(items[i], r.QualifiedName() + r.arguments, r.spelling + r.arguments, [r]);
    hide Sorted, OfKind, RecordItems, FunctionItems, LumpedItems, HubItems, Holds;
  }

  /** A function that is no operator shares a page with the overloads of its scope that have its name, under the
      qualified name of the first of them by signature. */
  lemma FunctionsPage(scope: Option<Symbol>, ms: seq<Symbol>, topLevel: bool, f: Symbol)
    requires f in ms && f.kind == Function && !IsOperator(f)
    ensures exists item <- ScopeItems(scope, ms, topLevel) ::
              && item.Leaf? && item.page.seeds != [] && Ascends(item.page.seeds, BySignature)
              && Holds(item, item.page.seeds[0].QualifiedName(), f.spelling,
                       Overloads(OfKind(ms, Function), f.spelling))
    ensures f in Overloads(OfKind(ms, Function), f.spelling)
  {
    var fs := OfKind(ms, Function);
    InKind(ms, Function, f);
    InOverloads(fs, f.spelling, f);
    NamedIn(fs, f);
    InSorted(NamesIn(fs), PathLe, f.spelling);
    var names := Sorted(NamesIn(fs), PathLe);
    var i :| 0 <= i < |names| && names[i] == f.spelling;
    var items := NameItems(fs, names, topLevel);
    NamedPage(fs, f, topLevel);
    assert items[i] in items && items[i] == NameItem(fs, f.spelling, topLevel);
    hide Sorted, OfKind, RecordItems, LumpedItems, NameItems, NameItem, HubItems, Holds, Overloads, NamesIn, Ascends;
  }

  lemma NamedPage(fs: seq<Symbol>, f: Symbol, topLevel: bool)
    requires f in Overloads(fs, f.spelling)
    ensures var item := NameItem(fs, f.spelling, topLevel);
            && item.page.seeds != [] && Ascends(item.page.seeds, BySignature)
            && Holds(item, item.page.seeds[0].QualifiedName(), f.spelling, Overloads(fs, f.spelling))
  {
    SortOrdersAreTotal();
    SortedAscends(Overloads(fs, f.spelling), BySignature);
    SortedKeeps(Overloads(fs, f.spelling), BySignature);
    InSorted(Overloads(fs, f.spelling), BySignature, f);
    hide Sorted, Overloads, PathLe, Ascends;
  }
}
