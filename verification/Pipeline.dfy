/** The incremental build of src/clangquill/pipeline.py. */
module Pipeline {
  import opened Wrappers
  import opened IncrementalParse
  import opened BuildCache

  // A build re-parses what is stale, renders from the page cache where a key still matches, writes
  // the pages that differ and deletes the ones that vanished.  After every completed build the pages
  // on disk are those a full parse and a full, un-memoised render of the current sources would have
  // written.

  /** One planned page: its stem, the memoisation key it would be stored under, and what rendering it gives.
      The toctree index is the last plan. */
  datatype Plan = Plan(stem: string, key: string, text: string) {
    function Name(): string { stem + ".md" }
  }

  /** What the fingerprints stand for: a configuration selects the inputs among the files on disk, a parse
      fingerprint determines the toolchain, a render fingerprint and an IR determine the page plans, and a page key
      determines the page's text. */
  datatype Project<!U(!new)> = Project(select: (string, Texts) -> set<Path>, toolchain: ParseFp -> Toolchain<U>,
                                       plans: (string, IR<U>) -> seq<Plan>, textOf: (string, string) -> string) {
    ghost predicate Valid() {
      && (forall config, t :: select(config, t) <= t.Keys)
      && (forall fp :: toolchain(fp).inputs == fp.inputs && toolchain(fp).Local())
      && (forall rf, ir :: plans(rf, ir) != [] && Distinct(plans(rf, ir)) && Keyed(plans(rf, ir), textOf))
    }

    /** An input that vanished leaves the selection, and so changes the fingerprint. */
    function Fp(config: string, t: Texts): ParseFp { ParseFp(config, select(config, t)) }

    ghost predicate Meets(config: string, t: Texts) { toolchain(Fp(config, t)).Admits(t) }
  }

  ghost predicate Distinct(plans: seq<Plan>) {
    forall i, j | 0 <= i < j < |plans| :: plans[i].stem != plans[j].stem
  }

  ghost predicate Keyed(plans: seq<Plan>, textOf: (string, string) -> string) {
    forall p <- plans :: p.text == textOf(p.stem, p.key)
  }

  type Pages = seq<(string, string)>  // (file name, text)

  /** The full, un-memoised render. */
  function RenderAll(plans: seq<Plan>): Pages {
    seq(|plans|, i requires 0 <= i < |plans| => (plans[i].Name(), plans[i].text))
  }

  ghost predicate DistinctNames(pages: Pages) { forall i, j | 0 <= i < j < |pages| :: pages[i].0 != pages[j].0 }

  lemma DistinctStemsDistinctNames(plans: seq<Plan>)
    requires Distinct(plans)
    ensures DistinctNames(RenderAll(plans))
  {
    forall i, j | 0 <= i < j < |plans| ensures plans[i].Name() != plans[j].Name() {
      assert plans[i].Name()[..|plans[i].Name()| - 3] == plans[i].stem;
      assert plans[j].Name()[..|plans[j].Name()| - 3] == plans[j].stem;
    }
  }

  function Names(pages: Pages): set<string> { set p | p in pages :: p.0 }

  /** The output index describes exactly these pages. */
  ghost predicate Indexes(rows: map<string, Row>, pages: Pages) {
    && rows.Keys == Names(pages)
    && forall p <- pages :: rows[p.0].sha == p.1
  }

  ghost predicate OnDisk(pages: Pages, disk: Disk) {
    forall p <- pages :: p.0 in disk && disk[p.0].text == p.1
  }

  ghost predicate SameAt(n: string, disk: Disk, disk': Disk) {
    (n in disk <==> n in disk') && (n in disk ==> disk'[n] == disk[n])
  }

  /** What a build does to the output directory: the pages are there, earlier pages that are not among them
      are gone, nothing else is touched, and a page that was recorded, right and intact keeps even its stat. */
  ghost predicate Published(rows: map<string, Row>, pages: Pages, disk: Disk, disk': Disk) {
    && OnDisk(pages, disk')
    && (forall n | n in rows && n !in Names(pages) :: n !in disk')
    && (forall n | n !in rows && n !in Names(pages) :: SameAt(n, disk, disk'))
    && (forall p <- pages :: Good(rows, p, disk) ==> SameAt(p.0, disk, disk'))
  }

  /** The output directory. */
  class OutputDir {
    var files: Disk

    method WriteText(name: string, text: string)
      modifies this
      ensures name in files && files == old(files)[name := files[name]] && files[name].text == text
    {
      var mtime: int, size: int := *, *;
      files := files[name := File(text, Stat(mtime, size))];
    }

    method Unlink(name: string)
      modifies this
      ensures files == old(files) - {name}
    {
      files := files - {name};
    }
  }

  /** Of the first n plans: those in `records` are recorded as rendered, the others are in the cache already. */
  ghost predicate Served(plans: seq<Plan>, n: nat, records: map<string, PageRow>, pages: map<string, PageRow>)
    requires n <= |plans|
  {
    && (forall stem <- records :: exists k | 0 <= k < n :: plans[k].stem == stem)
    && forall k | 0 <= k < n ::
         if plans[k].stem in records then records[plans[k].stem] == PageRow(plans[k].key, plans[k].text)
         else plans[k].stem in pages && pages[plans[k].stem] == PageRow(plans[k].key, plans[k].text)
  }

  ghost predicate PagesAreOf(pages: map<string, PageRow>, plans: seq<Plan>) {
    && pages.Keys == (set p | p in plans :: p.stem)
    && forall p <- plans :: pages[p.stem] == PageRow(p.key, p.text)
  }

  lemma ServedStep(plans: seq<Plan>, n: nat, records: map<string, PageRow>, pages: map<string, PageRow>, hit: bool)
    requires Distinct(plans) && n < |plans| && Served(plans, n, records, pages)
    requires hit ==> plans[n].stem in pages && pages[plans[n].stem] == PageRow(plans[n].key, plans[n].text)
    ensures Served(plans, n + 1,
                   if hit then records else records[plans[n].stem := PageRow(plans[n].key, plans[n].text)], pages)
  {
    assert plans[n].stem !in records;
  }

  lemma ServedAll(plans: seq<Plan>, records: map<string, PageRow>, pages: map<string, PageRow>, stems: set<string>)
    requires Distinct(plans) && Served(plans, |plans|, records, pages) && stems == set p | p in plans :: p.stem
    ensures PagesAreOf(PagesAfter(pages, records, stems), plans)
  {
  }

  /** `_rendered_files`: replay a page whose key still matches, render it otherwise. */
  method RenderedFiles(cache: BuildCache, plans: seq<Plan>, memoize: bool, ghost textOf: (string, string) -> string)
    returns (rendered: Pages)
    requires Distinct(plans) && Keyed(plans, textOf) && PagesSound(cache.pages, textOf)
    modifies cache`pages
    ensures rendered == RenderAll(plans)
    ensures PagesSound(cache.pages, textOf)
    ensures if memoize then PagesAreOf(cache.pages, plans) else cache.pages == old(cache.pages)
  {
    rendered := [];
    var records: map<string, PageRow> := map[];
    var stems: set<string> := {};
    for i := 0 to |plans|
      invariant |rendered| == i
      invariant forall k | 0 <= k < i :: rendered[k] == (plans[k].Name(), plans[k].text)
      invariant memoize ==> stems == set k | 0 <= k < i :: plans[k].stem
      invariant memoize ==> Served(plans, i, records, cache.pages)
      invariant cache.pages == old(cache.pages)
    {
      var plan := plans[i];
      var text := None;
      if memoize {
        text := cache.CachedPage(plan.stem, plan.key, textOf);
        stems := stems + {plan.stem};
        ServedStep(plans, i, records, cache.pages, text.Some?);
      }
      if text == None {
        text := Some(plan.text);
        if memoize {
          records := records[plan.stem := PageRow(plan.key, plan.text)];
        }
      }
      rendered := rendered + [(plan.Name(), text.value)];
    }
    if memoize {
      ServedAll(plans, records, cache.pages, stems);
      cache.RecordPages(records, stems);
    }
  }

  /** `_outputs_intact`: every page on record still holds its text; touched ones have their stat healed. */
  method OutputsIntact(out: OutputDir, cache: BuildCache) returns (intact: bool)
    modifies cache`outputs
    ensures intact <==> old(cache.outputs) != map[] && forall n <- old(cache.outputs) ::
        old(cache.outputs)[n].Intact(out.files, n)
    ensures cache.outputs == if intact then Healed(old(cache.outputs), out.files) else old(cache.outputs)
  {
    var records := cache.outputs;
    if records == map[] {
      return false;
    }
    var healed: map<string, Row> := map[];
    var todo := records.Keys;
    while todo != {}
      invariant todo <= records.Keys
      invariant forall n <- records :: n !in todo ==> records[n].Intact(out.files, n)
      invariant forall n <- healed :: n in records && n !in todo
      invariant forall n <- records :: n !in todo ==>
          records[n].Heal(out.files, n) == if n in healed then healed[n] else records[n]
      decreases todo
    {
      var n :| n in todo;
      if !records[n].Intact(out.files, n) {
        return false;
      }
      var stat := out.files[n].stat;
      if !records[n].StatMatches(stat) {
        healed := healed[n := Row(records[n].sha, Some(stat.mtime), Some(stat.size))];
      }
      todo := todo - {n};
    }
    assert records + healed == Healed(records, out.files);
    cache.outputs := records + healed;
    intact := true;
  }

  /** The index and the disk agree that this page needs no write. */
  ghost predicate Good(rows: map<string, Row>, p: (string, string), disk: Disk) {
    p.0 in rows && rows[p.0].sha == p.1 && rows[p.0].Intact(disk, p.0)
  }

  /** The first half of `_apply_outputs`, after the pages in `done`. */
  ghost predicate Written(rows: map<string, Row>, done: Pages, disk: Disk, disk': Disk) {
    && OnDisk(done, disk')
    && (forall n | n !in Names(done) :: SameAt(n, disk, disk'))
    && (forall p <- done :: Good(rows, p, disk) ==> SameAt(p.0, disk, disk'))
  }

  lemma WrittenNothing(rows: map<string, Row>, disk: Disk)
    ensures Written(rows, [], disk, disk)
  {
  }

  lemma WrittenStep(rows: map<string, Row>, done: Pages, p: (string, string), disk: Disk, disk1: Disk, disk2: Disk)
    requires Trusted(rows, disk) && Written(rows, done, disk, disk1) && p.0 !in Names(done)
    requires if Good(rows, p, disk1) then disk2 == disk1
             else p.0 in disk2 && disk2 == disk1[p.0 := disk2[p.0]] && disk2[p.0].text == p.1
    ensures Written(rows, done + [p], disk, disk2)
  {
    assert SameAt(p.0, disk, disk1);
    forall q <- done ensures q.0 in disk2 && disk2[q.0] == disk1[q.0] {
      assert q.0 in Names(done);
    }
    forall n | n !in Names(done + [p]) ensures SameAt(n, disk, disk2) {
      assert p in done + [p] && forall q <- done :: q in done + [p];
      assert n != p.0 && n !in Names(done);
    }
  }

  /** `_apply_outputs`: write what differs from the index or from the disk, delete what left the render, re-index. */
  method ApplyOutputs(out: OutputDir, cache: BuildCache, rendered: Pages)
    requires DistinctNames(rendered) && Trusted(cache.outputs, out.files)
    modifies out, cache`outputs
    ensures Published(old(cache.outputs), rendered, old(out.files), out.files)
    ensures Indexes(cache.outputs, rendered) && StatsMatch(cache.outputs, out.files)
  {
    hide Written, Trusted, Published, StatsMatch;
    NoStats(out.files);
    ghost var before := out.files;
    WrittenNothing(cache.outputs, before);
    var previous := cache.outputs;
    var index: map<string, Row> := map[];
    for i := 0 to |rendered|
      invariant Indexes(index, rendered[..i]) && StatsMatch(index, out.files)
      invariant Written(previous, rendered[..i], before, out.files)
      invariant cache.outputs == previous
    {
      var name, text := rendered[i].0, rendered[i].1;
      ghost var disk1 := out.files;
      assert name !in Names(rendered[..i]);
      if name !in previous || previous[name].sha != text || !previous[name].Intact(out.files, name) {
        out.WriteText(name, text);
      }
      WrittenStep(previous, rendered[..i], rendered[i], before, disk1, out.files);
      assert rendered[..i + 1] == rendered[..i] + [rendered[i]];
      StatsStep(index, name, text, disk1, out.files);
      IndexStep(index, rendered[..i], rendered[i], out.files[name].stat);
      index := index[name := Row(text, Some(out.files[name].stat.mtime), Some(out.files[name].stat.size))];
    }
    assert rendered[..|rendered|] == rendered;
    ghost var written := out.files;
    var gone := previous.Keys - index.Keys;
    var todo := gone;
    while todo != {}
      invariant todo <= gone
      invariant out.files == written - (gone - todo)
      decreases todo
    {
      var n :| n in todo;
      out.Unlink(n);
      todo := todo - {n};
    }
    assert gone - todo == previous.Keys - Names(rendered);
    PublishedAfterDeletes(previous, rendered, before, written);
    StatsAfterDeletes(index, written, gone);
    cache.RecordOutputs(index);
  }

  lemma NoStats(disk: Disk)
    ensures StatsMatch(map[], disk)
  {
  }

  lemma StatsStep(index: map<string, Row>, name: string, text: string, disk: Disk, disk': Disk)
    requires StatsMatch(index, disk) && name !in index && name in disk'
    requires disk' == disk || disk' == disk[name := disk'[name]]
    ensures StatsMatch(index[name := Row(text, Some(disk'[name].stat.mtime), Some(disk'[name].stat.size))], disk')
  {
  }

  lemma StatsAfterDeletes(index: map<string, Row>, disk: Disk, gone: set<string>)
    requires StatsMatch(index, disk) && gone !! index.Keys
    ensures StatsMatch(index, disk - gone)
  {
  }

  /** An intact output directory needs no build: it already holds the indexed pages. */
  lemma NoopPublishes(rows: map<string, Row>, pages: Pages, disk: Disk)
    requires Indexes(rows, pages) && Trusted(rows, disk) && forall n <- rows :: rows[n].Intact(disk, n)
    ensures Published(rows, pages, disk, disk) && Indexes(Healed(rows, disk), pages)
  {
    forall p <- pages ensures p.0 in disk && disk[p.0].text == p.1 {
      assert p.0 in rows && rows[p.0].Intact(disk, p.0);
    }
  }

  lemma IndexStep(index: map<string, Row>, done: Pages, p: (string, string), stat: Stat)
    requires Indexes(index, done) && p.0 !in Names(done)
    ensures Indexes(index[p.0 := Row(p.1, Some(stat.mtime), Some(stat.size))], done + [p])
  {
    assert Names(done + [p]) == Names(done) + {p.0} by {
      assert forall q <- done :: q in done + [p];
      assert p in done + [p];
    }
  }

  lemma PublishedAfterDeletes(rows: map<string, Row>, pages: Pages, disk: Disk, disk': Disk)
    requires Written(rows, pages, disk, disk')
    ensures Published(rows, pages, disk, disk' - (rows.Keys - Names(pages)))
  {
    var final := disk' - (rows.Keys - Names(pages));
    forall p <- pages ensures SameAt(p.0, disk', final) {
      assert p.0 in Names(pages);
    }
  }

  /** The scan finds exactly the tracked files whose text changed. */
  lemma ScanIsExact(rows: map<Path, Row>, disk: Disk)
    requires Trusted(rows, disk)
    ensures ScanChanged(rows, disk) == Changed(Tracked(rows), TextsOf(disk))
    ensures Tracked(Healed(rows, disk)) == Tracked(rows) && Tracked(rows).Keys == rows.Keys
  {
  }

  lemma SnapshotTracks(files: map<Path, FileRow>, kept: set<Path>, disk: Disk, started: Option<int>)
    requires files.Keys <= kept
    ensures Tracked(SnapshotRows(files, kept, disk, started)) == Shas(files)
  {
  }

  /** `_tu_deps` of a parse of these inputs. */
  function TuDeps<U>(tc: Toolchain<U>, inputs: set<Path>, t: Texts): map<Path, set<Path>> {
    map i | i in inputs :: tc.deps(t, i)
  }

  lemma TuDepsAreEdges<U>(tc: Toolchain<U>, inputs: set<Path>, t: Texts)
    ensures EdgesIn(TuDeps(tc, inputs, t)) == EdgesOf(tc, inputs, t)
  {
  }

  /** `record_partial_parse` in terms of the record: what it is asked to write is what the partial re-parse leaves. */
  lemma SnapshotOfPartial<U>(tc: Toolchain<U>, r: Recorded<U>, stale: set<Path>, t: Texts, disk: Disk,
                             started: Option<int>)
    ensures var r', deps := PartialRecord(tc, r, stale, t), TuDeps(tc, stale, t);
            && r'.tu == ReplaceEdges(r.tu, deps.Keys, EdgesIn(deps))
            && r'.tracked == Tracked(SnapshotRows(r'.ir.files, DepPaths(r'.tu), disk, started))
  {
    TuDepsAreEdges(tc, stale, t);
  }

  // ---- the build ----

  /** The noop test of `_incremental_build`. */
  ghost predicate Shortcut(parsed: bool, render: Option<RenderMeta>, renderFp: string, outputs: map<string, Row>,
                           disk: Disk) {
    && !parsed && render.Some? && render.value.fp == renderFp
    && outputs != map[] && forall n <- outputs :: outputs[n].Intact(disk, n)
  }

  /** What a build does to the output directory, whatever the last one recorded. */
  ghost predicate Outcome(parsed: bool, render: Option<RenderMeta>, renderFp: string, outputs: map<string, Row>,
                          pages: Pages, disk: Disk, disk': Disk) {
    if Shortcut(parsed, render, renderFp, outputs, disk) then disk' == disk else Published(outputs, pages, disk, disk')
  }

  /** Everything a build finds on disk besides the sources. */
  class Workspace<U(!new)> {
    const cache: BuildCache
    const out: OutputDir
    var ir: Option<IR<U>>  // None when the IR file is missing or unreadable

    constructor (out: OutputDir)
      ensures this.out == out && fresh(cache) && ir == None
      ensures cache.parseFp == None && cache.render == None
      ensures cache.inputs == map[] && cache.outputs == map[] && cache.pages == map[]
    {
      this.out := out;
      cache := new BuildCache.Reset();
      ir := None;
    }

    /** The IR and the parse tables, digests only: what the next build's parse half starts from. */
    ghost function Record(): Recorded<U>
      requires ir.Some?
      reads this`ir, cache`inputs, cache`tuInputs
    {
      Recorded(ir.value, Tracked(cache.inputs), cache.tuInputs)
    }

    /** Whether the parse half may start from the record at all. */
    ghost predicate Reusable(fp: ParseFp)
      reads this`ir, cache`parseFp
    {
      ir.Some? && cache.parseFp == Some(fp)
    }

    /** What the parse half leaves, from whatever record it finds. */
    ghost function NextRecord(tc: Toolchain<U>, fp: ParseFp, t: Texts, force: bool): Recorded<U>
      reads this`ir, cache`parseFp, cache`inputs, cache`tuInputs
    {
      if Reusable(fp) && !force then Rebuild(tc, Record(), t) else FullRecord(tc, t)
    }

    /** A tracked file changed that no edge attributes to an input. */
    ghost predicate Unaccounted(t: Texts)
      reads cache`inputs, cache`tuInputs
    {
      exists p :: p in Changed(Tracked(cache.inputs), t) && p !in DepPaths(cache.tuInputs)
    }

    ghost predicate Parses(fp: ParseFp, t: Texts, force: bool)
      reads this`ir, cache`parseFp, cache`inputs, cache`tuInputs
    {
      !(Reusable(fp) && !force && Record().Status(t).Current?)
    }

    /** The record is the full parse of some earlier sources. */
    ghost predicate Exact(tc: Toolchain<U>)
      reads this`ir, cache`inputs, cache`tuInputs
    {
      ir.Some? && exists t0 :: tc.Admits(t0) && Record() == FullRecord(tc, t0)
    }

    /** What every completed build leaves behind, and what edits to sources and output pages, configuration
        changes and the loss of the IR file between builds cannot break. */
    ghost predicate Consistent(project: Project<U>)
      reads this, cache
    {
      && PagesSound(cache.pages, project.textOf)
      && (ir.Some? && cache.parseFp.Some? ==> Exact(project.toolchain(cache.parseFp.value)))
      && (ir.Some? && cache.render.Some? ==>
            var plans := project.plans(cache.render.value.fp, ir.value);
            plans != [] && Indexes(cache.outputs, RenderAll(plans)) && cache.render.value.stems == StemsOf(plans))
    }

    /** `_parse_into`, then `record_parse`. */
    method ReparseAll(tc: Toolchain<U>, fp: ParseFp, disk: Disk, started: int)
      modifies this`ir, cache`parseFp, cache`inputs, cache`tuInputs, cache`render
      ensures ir.Some? && cache.parseFp == Some(fp) && cache.render == None
      ensures Record() == FullRecord(tc, TextsOf(disk))
      ensures cache.inputs == SnapshotRows(ir.value.files, ir.value.files.Keys, disk, Some(started))
    {
      var t := TextsOf(disk);
      ir := Some(FullIR(tc, t));
      SnapshotTracks(ir.value.files, ir.value.files.Keys, disk, Some(started));
      TuDepsAreEdges(tc, tc.inputs, t);
      cache.RecordParse(fp, ir.value.files, TuDeps(tc, tc.inputs, t), disk, Some(started));
    }

    /** `_parse_tus_into` for the stale inputs, then `record_partial_parse`. */
    method ReparseStale(tc: Toolchain<U>, staleInputs: set<Path>, disk: Disk, started: int)
      requires ir.Some?
      modifies this`ir, cache`inputs, cache`tuInputs, cache`render
      ensures ir.Some? && cache.render == None
      ensures Record() == PartialRecord(tc, old(Record()), tc.inputs * staleInputs, TextsOf(disk))
      ensures cache.inputs == SnapshotRows(ir.value.files, DepPaths(cache.tuInputs), disk, Some(started))
    {
      var t := TextsOf(disk);
      var stale := tc.inputs * staleInputs;
      SnapshotOfPartial(tc, Record(), stale, t, disk, Some(started));
      var dropped := cache.DepsOnlyFrom(stale);
      ir := Some(ParseTusInto(tc, ir.value, stale, dropped, t));
      cache.RecordPartialParse(TuDeps(tc, stale, t), ir.value.files, disk, Some(started));
    }

    /** The parse half of `_incremental_build`: classify, then re-parse everything, the stale inputs, or nothing.
        `force` is a reason outside the cache to parse everything: strict mode, or a configured diagnostics
        log that is not on disk.  From any record, right or wrong, it does what Rebuild says. */
    method BringParseUpToDate(tc: Toolchain<U>, fp: ParseFp, disk: Disk, started: int, force: bool)
      returns (parsed: bool)
      requires Trusted(cache.inputs, disk)
      modifies this`ir, cache`parseFp, cache`inputs, cache`tuInputs, cache`render
      ensures ir.Some? && cache.parseFp == Some(fp)
      ensures Record() == old(NextRecord(tc, fp, TextsOf(disk), force))
      ensures parsed == old(Parses(fp, TextsOf(disk), force))
      ensures old(Unaccounted(TextsOf(disk))) ==> Record() == FullRecord(tc, TextsOf(disk))
      ensures if parsed then cache.render == None else ir == old(ir) && cache.render == old(cache.render)
      ensures if parsed then Snapshot(ir.value.files, cache.inputs, disk, started)
              else cache.inputs == Healed(old(cache.inputs), disk)
    {
      hide FullRecord, PartialRecord, Tracked, Changed, TextsOf, Trusted, ScanChanged, Healed, SnapshotRows;
      var t := TextsOf(disk);
      if ir.Some? && Unaccounted(t) {
        ghost var p :| p in Changed(Tracked(cache.inputs), t) && p !in DepPaths(cache.tuInputs);
        UnattributedChangeReparses(tc, Record(), t, p);
      }
      ScanIsExact(cache.inputs, disk);
      var status := Reparse;
      if ir.Some? {
        status := cache.ParseStatus(fp, disk);
      }
      if force {
        status := Reparse;
      }
      parsed := !status.Current?;
      match status
      case Current =>
      case Reparse => ReparseAll(tc, fp, disk, started);
      case Stale(inputs) => ReparseStale(tc, inputs, disk, started);
    }

    lemma ConsistentRecordsAreFull(project: Project<U>, config: string, t: Texts, force: bool)
      requires project.Valid() && project.Meets(config, t) && Consistent(project)
      ensures var fp := project.Fp(config, t);
              NextRecord(project.toolchain(fp), fp, t, force) == FullRecord(project.toolchain(fp), t)
    {
      var fp := project.Fp(config, t);
      var tc := project.toolchain(fp);
      if Reusable(fp) && !force {
        var t0 :| tc.Admits(t0) && Record() == FullRecord(tc, t0);
        RebuildIsFull(tc, t0, t);
      }
    }

    /** `_incremental_build`: the noop shortcut when nothing moved, a render otherwise.  From a consistent state it
        publishes exactly the pages of a full parse and a full render of the current sources, and leaves one;
        from any other state, such as a crash leaves, it does what the record and the recorded render lead it to. */
    method IncrementalBuild(project: Project<U>, config: string, renderFp: string, disk: Disk, started: int,
                            force: bool, memoize: bool) returns (stems: seq<string>, ghost parsed: bool)
      requires project.Valid() && project.Meets(config, TextsOf(disk)) && PagesSound(cache.pages, project.textOf)
      requires Trusted(cache.inputs, disk) && Trusted(cache.outputs, out.files)
      modifies this`ir, cache, out
      ensures ir.Some? && cache.parseFp == Some(project.Fp(config, TextsOf(disk))) &&
          PagesSound(cache.pages, project.textOf)
      ensures var fp := project.Fp(config, TextsOf(disk));
              && Record() == old(NextRecord(project.toolchain(fp), fp, TextsOf(disk), force))
              && parsed == old(Parses(fp, TextsOf(disk), force))
      ensures Outcome(parsed, old(cache.render), renderFp, old(cache.outputs),
                      RenderAll(project.plans(renderFp, ir.value)), old(out.files), out.files)
      ensures if parsed then Snapshot(ir.value.files, cache.inputs, disk, started)
              else cache.inputs == Healed(old(cache.inputs), disk)
      ensures StatsMatch(cache.outputs, out.files) && cache.render == Some(RenderMeta(renderFp, stems))
      ensures old(Consistent(project)) ==>
                && Consistent(project)
                && Record() == FullRecord(project.toolchain(cache.parseFp.value), TextsOf(disk))
                && Published(old(cache.outputs), RenderAll(project.plans(renderFp, ir.value)), old(out.files),
                             out.files)
                && stems == StemsOf(project.plans(renderFp, ir.value))
    {
      hide FullRecord, Rebuild, Recorded.Status, Tracked, TextsOf, Healed, RenderAll, PagesSound, Distinct, Keyed;
      hide Indexes, Published, StemsOf, Snapshot, StatsMatch, Trusted, Toolchain.Local, Toolchain.Admits;
      ghost var was, t := Consistent(project), TextsOf(disk);
      var fp := project.Fp(config, TextsOf(disk));
      var tc := project.toolchain(fp);
      if was {
        ConsistentRecordsAreFull(project, config, t, force);
      }
      var moved := BringParseUpToDate(tc, fp, disk, started, force);
      parsed := moved;
      var plans := project.plans(renderFp, ir.value);
      if !moved && cache.render.Some? && cache.render.value.fp == renderFp {
        var intact := OutputsIntact(out, cache);
        if intact {
          HealedStatsMatch(old(cache.outputs), out.files);
          if was {
            NoopPublishes(old(cache.outputs), RenderAll(plans), out.files);
          }
          return cache.render.value.stems, parsed;
        }
      }
      stems := Render(project, plans, renderFp, memoize);
    }

    /** The second half of a build that took no shortcut. */
    method Render(project: Project<U>, plans: seq<Plan>, renderFp: string, memoize: bool) returns (stems: seq<string>)
      requires plans != [] && Distinct(plans) && Keyed(plans, project.textOf)
      requires PagesSound(cache.pages, project.textOf) && Trusted(cache.outputs, out.files)
      modifies cache`pages, cache`outputs, cache`render, out
      ensures PagesSound(cache.pages, project.textOf)
      ensures Published(old(cache.outputs), RenderAll(plans), old(out.files), out.files)
      ensures Indexes(cache.outputs, RenderAll(plans)) && StatsMatch(cache.outputs, out.files)
      ensures stems == StemsOf(plans) && cache.render == Some(RenderMeta(renderFp, stems))
    {
      hide RenderAll, PagesSound, Distinct, Keyed, DistinctNames, Indexes, Published, StemsOf, PagesAreOf, StatsMatch;
      hide Trusted;
      DistinctStemsDistinctNames(plans);
      var rendered := RenderedFiles(cache, plans, memoize, project.textOf);
      ApplyOutputs(out, cache, rendered);
      stems := StemsIn(rendered, plans);
      cache.RecordRender(renderFp, stems);
    }
  }

  /** Every recorded page is there with the stat on record. */
  ghost predicate StatsMatch(rows: map<string, Row>, disk: Disk) {
    forall n <- rows :: n in disk && rows[n].StatMatches(disk[n].stat)
  }

  lemma HealedStatsMatch(rows: map<string, Row>, disk: Disk)
    requires forall n <- rows :: rows[n].Intact(disk, n)
    ensures StatsMatch(Healed(rows, disk), disk)
  {
  }

  /** The rows a parse that began at `started` leaves in `inputs`. */
  ghost predicate Snapshot(files: map<Path, FileRow>, rows: map<Path, Row>, disk: Disk, started: int) {
    exists kept :: rows == SnapshotRows(files, kept, disk, Some(started))
  }

  method StemsIn(rendered: Pages, ghost plans: seq<Plan>) returns (stems: seq<string>)
    requires plans != [] && rendered == RenderAll(plans)
    ensures stems == StemsOf(plans)
  {
    assert forall i | 0 <= i < |plans| :: rendered[i].0 == plans[i].Name();
    stems := seq(|rendered| - 1, i requires 0 <= i < |rendered| - 1 => rendered[i].0[..|rendered[i].0| - 3]);
  }

  /** The page stems a build reports: the index, which comes last, is left out. */
  function StemsOf(plans: seq<Plan>): seq<string>
    requires plans != []
  {
    seq(|plans| - 1, i requires 0 <= i < |plans| => plans[i].stem)
  }
}
