/** Whole histories of writes and builds (src/clangquill/pipeline.py). */
module BuildRuns {
  import opened Wrappers
  import opened IncrementalParse
  import opened BuildCache
  import opened Pipeline
  import opened MtimeGuard

  // And the two crash windows in which a build's separate commits can be caught.

  // ---- any history of writes and builds ----

  /** One build: when it runs, what it is configured with, and what was done to the output directory and to the IR
      file before it. */
  datatype Build = Build(at: int, config: string, renderFp: string, force: bool, memoize: bool,
                         tamper: Disk -> Disk, irLost: bool)

  /** Whoever changes the text of an output page leaves it another stat. */
  ghost predicate ShowsInStat(tamper: Disk -> Disk) {
    forall disk: Disk, n: string :: n in disk && n in tamper(disk) && tamper(disk)[n].stat == disk[n].stat ==>
      tamper(disk)[n].text == disk[n].text
  }

  /** What every build asks of the sources and of those who tamper with its pages. */
  ghost predicate Fair<U(!new)>(project: Project<U>, hs: map<Path, seq<Write>>, b: Build) {
    project.Meets(b.config, TextsOf(DiskAt(hs, b.at))) && ShowsInStat(b.tamper)
  }

  /** Build b, coming right after build a, finds nothing to parse. */
  ghost predicate Quiet<U(!new)>(project: Project<U>, hs: map<Path, seq<Write>>, a: Build, b: Build) {
    var ta, tb := TextsOf(DiskAt(hs, a.at)), TextsOf(DiskAt(hs, b.at));
    var fp := project.Fp(a.config, ta);
    && !b.irLost && !b.force && project.Fp(b.config, tb) == fp
    && fp.inputs != {} && StaleBetween(project.toolchain(fp), ta, tb) == {}
  }

  /** A build that parses nothing may heal rows, and healed rows carry no guard: what is written to a tracked file
      after such a build must show in the stat.  A build that parses asks nothing of the kind,
      and of a row that needs no healing this is true already (MatchedIsToldApart). */
  ghost predicate Careful<U(!new)>(project: Project<U>, hs: map<Path, seq<Write>>, a: Build, b: Build) {
    var ta := TextsOf(DiskAt(hs, a.at));
    var tc := project.toolchain(project.Fp(a.config, ta));
    Quiet(project, hs, a, b) ==>
      forall p | p in Reached(tc, tc.inputs, ta) && p in hs && Seen(hs[p], b.at).Some? :: ToldApart(hs[p], b.at)
  }

  /** Between builds: the next one may trust both tables. */
  ghost predicate Ready<U(!new)>(ws: Workspace<U>, project: Project<U>, hs: map<Path, seq<Write>>, now: int)
    reads ws, ws.cache, ws.out
  {
    && ws.Consistent(project) && SoundFrom(ws.cache.inputs, hs, now)
    && StatsMatch(ws.cache.outputs, ws.out.files) && Holds(ws.cache.outputs, ws.out.files)
  }

  ghost predicate Holds(rows: map<string, Row>, disk: Disk) {
    forall n <- rows :: n in disk && disk[n].text == rows[n].sha
  }

  lemma TamperedIsTrusted(rows: map<string, Row>, disk: Disk, tamper: Disk -> Disk)
    requires StatsMatch(rows, disk) && Holds(rows, disk) && ShowsInStat(tamper)
    ensures Trusted(rows, tamper(disk))
  {
  }

  lemma PublishedHolds(rows: map<string, Row>, pages: Pages, disk: Disk)
    requires Indexes(rows, pages) && OnDisk(pages, disk)
    ensures Holds(rows, disk) && rows.Keys == Names(pages)
  {
    forall n <- rows ensures n in disk && disk[n].text == rows[n].sha {
      var p :| p in pages && p.0 == n;
    }
  }

  lemma FullSnapshotIsSound<U>(tc: Toolchain<U>, rows: map<Path, Row>, hs: map<Path, seq<Write>>, now: int)
    requires AreHistories(hs) && Snapshot(FullIR(tc, TextsOf(DiskAt(hs, now))).files, rows, DiskAt(hs, now), now)
    ensures SoundFrom(rows, hs, now)
  {
    var disk := DiskAt(hs, now);
    var files := FullIR(tc, TextsOf(disk)).files;
    var kept :| rows == SnapshotRows(files, kept, disk, Some(now));
    forall p | p in files && p in kept && p in hs ensures ReadBetween(hs[p], files[p].sha, now, now) {
      assert p in disk && files[p].sha == disk[p].text;
    }
    hide FullIR;
    RecordedRowsAreTrusted(hs, files, kept, now, now);
  }

  lemma FairMeans<U(!new)>(project: Project<U>, hs: map<Path, seq<Write>>, b: Build)
    requires Fair(project, hs, b)
    ensures project.Meets(b.config, TextsOf(DiskAt(hs, b.at))) && ShowsInStat(b.tamper)
  {
  }

  /** A new workspace is ready for anything. */
  lemma NewWorkspaceIsReady<U(!new)>(ws: Workspace<U>, project: Project<U>, hs: map<Path, seq<Write>>, now: int)
    requires ws.ir == None && ws.cache.inputs == map[] && ws.cache.outputs == map[] && ws.cache.pages == map[]
    ensures Ready(ws, project, hs, now)
  {
  }

  lemma StillSound(rows: map<Path, Row>, hs: map<Path, seq<Write>>, now: int, later: int)
    requires SoundFrom(rows, hs, now) && now <= later
    ensures SoundFrom(rows, hs, later) && Trusted(rows, DiskAt(hs, later))
  {
  }

  /** The record is that of a full parse of the sources at that time, the pages those of a full render. */
  ghost predicate Built<U(!new)>(ws: Workspace<U>, project: Project<U>, hs: map<Path, seq<Write>>, b: Build)
    reads ws, ws.cache, ws.out
  {
    var t := TextsOf(DiskAt(hs, b.at));
    var fp := project.Fp(b.config, t);
    var pages := RenderAll(project.plans(b.renderFp, FullIR(project.toolchain(fp), t)));
    && ws.ir.Some? && ws.cache.parseFp == Some(fp) && ws.Record() == FullRecord(project.toolchain(fp), t)
    && OnDisk(pages, ws.out.files) && ws.cache.outputs.Keys == Names(pages)
  }

  /** Whatever was written to the sources and whenever builds ran, with any changes of configuration, any loss of the
      IR and any damage to the output directory in between: after the last build the record is that of a full parse of
      the sources as they were then, and the pages are those of a full render.  That the stats may be trusted is not
      assumed here but follows from the timestamps. */
  method RunBuilds<U(!new)>(ws: Workspace<U>, project: Project<U>, hs: map<Path, seq<Write>>, builds: seq<Build>)
    requires project.Valid() && AreHistories(hs)
    requires forall b <- builds :: Fair(project, hs, b)
    requires forall i | 0 < i < |builds| :: Careful(project, hs, builds[i - 1], builds[i])
    requires forall i, j | 0 <= i < j < |builds| :: builds[i].at <= builds[j].at
    requires builds != [] && ws.ir == None && Ready(ws, project, hs, builds[0].at)
    modifies ws`ir, ws.cache, ws.out
    ensures var b := builds[|builds| - 1]; Built(ws, project, hs, b) && Ready(ws, project, hs, b.at)
  {
    var i := 0;
    var now := builds[0].at;
    while i < |builds|
      invariant 0 <= i <= |builds| && now == builds[if i == 0 then 0 else i - 1].at
      invariant Ready(ws, project, hs, now)
      invariant if i == 0 then ws.ir == None else Built(ws, project, hs, builds[i - 1])
    {
      if i > 0 {
        CarefulHeals(ws, project, hs, builds[i - 1], builds[i]);
      }
      BuildOnce(ws, project, hs, now, builds[i]);
      now := builds[i].at;
      i := i + 1;
    }
  }

  /** What a build that parses nothing heals must be told apart from what is written later. */
  ghost predicate HealsSafely<U(!new)>(ws: Workspace<U>, project: Project<U>, hs: map<Path, seq<Write>>, b: Build)
    reads ws, ws.cache
  {
    var disk := DiskAt(hs, b.at);
    !b.irLost && !ws.Parses(project.Fp(b.config, TextsOf(disk)), TextsOf(disk), b.force) ==>
      forall p | Heals(ws.cache.inputs, disk, p) :: ToldApart(hs[p], b.at)
  }

  lemma CarefulHeals<U(!new)>(ws: Workspace<U>, project: Project<U>, hs: map<Path, seq<Write>>, a: Build, b: Build)
    requires project.Valid() && Fair(project, hs, a) && Built(ws, project, hs, a) && Careful(project, hs, a, b)
    ensures HealsSafely(ws, project, hs, b)
  {
    var ta, tb := TextsOf(DiskAt(hs, a.at)), TextsOf(DiskAt(hs, b.at));
    var fp := project.Fp(a.config, ta);
    var tc := project.toolchain(fp);
    assert tc.Admits(ta) && tc.Attributed() && tc.inputs == fp.inputs;
    hide FullIR, EdgesOf, Reached, StaleBetween, Project.Valid, Toolchain.Admits, Toolchain.Attributed;
    hide Recorded.Status, ToldApart;
    StatusOfFullRecord(tc, ta, tb);
    ReferencedIsReached(tc, ta);
    forall p | p in ws.cache.inputs ensures p in Reached(tc, tc.inputs, ta) {
      assert p in Tracked(ws.cache.inputs);
    }
  }

  /** One of them. */
  method BuildOnce<U(!new)>(ws: Workspace<U>, project: Project<U>, hs: map<Path, seq<Write>>, ghost now: int, b: Build)
    requires project.Valid() && AreHistories(hs) && Fair(project, hs, b) && HealsSafely(ws, project, hs, b)
    requires now <= b.at && Ready(ws, project, hs, now)
    modifies ws`ir, ws.cache, ws.out
    ensures Ready(ws, project, hs, b.at) && Built(ws, project, hs, b)
  {
    hide Fair, SoundFrom, StatsMatch, Holds, Trusted, DiskAt, OnDisk, Indexes, Snapshot, RenderAll, FullIR, Healed;
    hide EdgesOf;
    hide Heals, ToldApart, AreHistories;
    var disk := DiskAt(hs, b.at);
    StillSound(ws.cache.inputs, hs, now, b.at);
    assert project.Meets(b.config, TextsOf(disk)) && ShowsInStat(b.tamper) by { FairMeans(project, hs, b); }
    TamperedIsTrusted(ws.cache.outputs, ws.out.files, b.tamper);
    ghost var rows := ws.cache.inputs;
    ws.out.files := b.tamper(ws.out.files);
    if b.irLost {
      ws.ir := None;
    }
    var stems, parsed := ws.IncrementalBuild(project, b.config, b.renderFp, disk, b.at, b.force, b.memoize);
    if parsed {
      FullSnapshotIsSound(project.toolchain(project.Fp(b.config, TextsOf(disk))), ws.cache.inputs, hs, b.at);
    } else {
      HealedTableIsSoundExactlyWhen(rows, hs, b.at);
    }
    assert OnDisk(RenderAll(project.plans(b.renderFp, ws.ir.value)), ws.out.files);
    PublishedHolds(ws.cache.outputs, RenderAll(project.plans(b.renderFp, ws.ir.value)), ws.out.files);
  }

  /** What a build has left makes the next one of the same sources and configuration a noop: it parses nothing and
      takes the shortcut. */
  lemma RepeatedBuildIsNoop<U(!new)>(ws: Workspace<U>, project: Project<U>, config: string, renderFp: string,
                                     disk: Disk)
    requires project.Valid() && project.Meets(config, TextsOf(disk)) && project.select(config, TextsOf(disk)) != {}
    requires var fp := project.Fp(config, TextsOf(disk));
             ws.Reusable(fp) && ws.Record() == FullRecord(project.toolchain(fp), TextsOf(disk))
    requires ws.Consistent(project) && Holds(ws.cache.outputs, ws.out.files)
    requires ws.cache.render.Some? && ws.cache.render.value.fp == renderFp
    ensures var parsed := ws.Parses(project.Fp(config, TextsOf(disk)), TextsOf(disk), false);
            !parsed && Shortcut(parsed, ws.cache.render, renderFp, ws.cache.outputs, ws.out.files)
    ensures Trusted(ws.cache.inputs, disk) && Trusted(ws.cache.outputs, ws.out.files)
  {
    var t := TextsOf(disk);
    var tc := project.toolchain(project.Fp(config, t));
    assert tc.Admits(t) && tc.inputs != {};
    NothingChanged(tc, t);
    StatusOfFullRecord(tc, t, t);
    var plans := project.plans(renderFp, ws.ir.value);
    assert plans != [] && Indexes(ws.cache.outputs, RenderAll(plans));
    assert RenderAll(plans)[0] in RenderAll(plans);
    assert RenderAll(plans)[0].0 in Names(RenderAll(plans));
    assert ws.cache.outputs != map[];
    forall n <- ws.cache.inputs ensures n in disk && ws.cache.inputs[n].sha == disk[n].text {
      assert n in Tracked(ws.cache.inputs) && Tracked(ws.cache.inputs)[n] == ws.cache.inputs[n].sha;
    }
  }

  lemma NothingChanged<U>(tc: Toolchain<U>, t: Texts)
    ensures StaleBetween(tc, t, t) == {}
  {
    assert Changed(Shas(FullIR(tc, t).files), t) == {};
  }

  // ---- a crash between the IR commit and the cache commit ----

  /** The tables still describe t0, and the IR is whatever the dying build left: that of other sources, by a full
      parse or a partial one, or that of another configuration. */
  function CrashedAfterIr<U>(tc: Toolchain<U>, t0: Texts, x: IR<U>): Recorded<U> { FullRecord(tc, t0).(ir := x) }

  /** What the next build must find for its partial re-parse to be enough: the inputs it does not re-parse have the
      rows they had and there are no others, the files they read and no re-parsed input reads have the rows they had,
      and every file row is of a file reached then or now. */
  ghost predicate Harmless<U>(tc: Toolchain<U>, t0: Texts, x: IR<U>, t: Texts) {
    var stale := StaleBetween(tc, t0, t);
    tc.inputs == {} || (SameUnits(tc, t0, x, stale) && SameFiles(tc, t0, x, stale, t))
  }

  ghost predicate SameUnits<U>(tc: Toolchain<U>, t0: Texts, x: IR<U>, stale: set<Path>) {
    && x.units.Keys <= tc.inputs
    && forall i | i in tc.inputs && i !in stale :: i in x.units && x.units[i] == tc.unit(t0, i)
  }

  ghost predicate SameFiles<U>(tc: Toolchain<U>, t0: Texts, x: IR<U>, stale: set<Path>, t: Texts) {
    && (forall d | d in Reached(tc, tc.inputs - stale, t0) && d !in Reached(tc, stale, t) :: HasRow(x.files, t0, d))
    && x.files.Keys <= Reached(tc, tc.inputs, t0) + Reached(tc, tc.inputs, t)
  }

  ghost predicate HasRow(files: map<Path, FileRow>, t: Texts, d: Path) {
    d in t && d in files && files[d] == RowOf(t[d])
  }

  /** The build after such a crash, whatever the sources are by then, leaves what a full parse would exactly when the
      IR it finds is harmless. */
  lemma CrashIsHealedExactlyWhen<U>(tc: Toolchain<U>, t0: Texts, x: IR<U>, t: Texts)
    requires tc.Local() && tc.Admits(t0) && tc.Admits(t)
    ensures Rebuild(tc, CrashedAfterIr(tc, t0, x), t) == FullRecord(tc, t) <==> Harmless(tc, t0, x, t)
  {
    assert tc.Attributed();
    CrashedStatus(tc, t0, x, t);
    hide StaleBetween, HealedIr, FullRecord, FullIR, Toolchain.Local, Reached, SameUnits, SameFiles, Agree;
    hide PartialRecord, Recorded.Status;
    var stale := StaleBetween(tc, t0, t);
    StaleAreInputs(tc, t0, t);
    FreshInputsKeepTheirDeps(tc, t0, t);
    forall i | i in tc.inputs && i !in stale ensures Agree(t0, t, tc.deps(t0, i)) && tc.SameResult(t0, t, i) {
      FreshInputsAgree(tc, t0, t, i);
    }
    if tc.inputs != {} {
      CrashedIr(tc, t0, x, t);
      CrashedRecord(tc, t0, x, t);
      CrashedUnits(tc, t0, x, t, stale);
      CrashedFiles(tc, t0, x, t, stale);
    }
  }

  /** If sources and configuration return to the recorded ones, the next build calls the crashed IR current and
      keeps it. */
  lemma CrashThenReturnIsKept<U>(tc: Toolchain<U>, t0: Texts, x: IR<U>)
    requires tc.Local() && tc.Admits(t0) && tc.inputs != {}
    ensures CrashedAfterIr(tc, t0, x).Status(t0) == Current
    ensures Rebuild(tc, CrashedAfterIr(tc, t0, x), t0) == CrashedAfterIr(tc, t0, x)
    ensures Rebuild(tc, CrashedAfterIr(tc, t0, x), t0) == FullRecord(tc, t0) <==> x == FullIR(tc, t0)
  {
    assert tc.Attributed();
    CrashedStatus(tc, t0, x, t0);
    NothingChanged(tc, t0);
  }

  /** The IR such a build leaves, whether it re-parses anything or not. */
  function HealedIr<U>(tc: Toolchain<U>, t0: Texts, x: IR<U>, stale: set<Path>, t: Texts): IR<U> {
    ParseTusInto(tc, x, stale, OnlyFrom(EdgesOf(tc, tc.inputs, t0), stale), t)
  }

  lemma CrashedIr<U>(tc: Toolchain<U>, t0: Texts, x: IR<U>, t: Texts)
    requires tc.Attributed() && tc.Admits(t0) && tc.inputs != {}
    ensures Rebuild(tc, CrashedAfterIr(tc, t0, x), t).ir == HealedIr(tc, t0, x, StaleBetween(tc, t0, t), t)
  {
    var stale := StaleBetween(tc, t0, t);
    CrashedStatus(tc, t0, x, t);
    StaleAreInputs(tc, t0, t);
    assert tc.inputs * stale == stale;
    hide Recorded.Status, StaleBetween, OnlyFrom, EdgesOf, Shas, DepPaths, ReplaceEdges, FullIR, ParseTusInto;
    hide Toolchain.Attributed;
    if stale == {} {
      HealedFromNothing(tc, t0, x, t);
    }
  }

  /** The scan looks at the tables only. */
  lemma CrashedStatus<U>(tc: Toolchain<U>, t0: Texts, x: IR<U>, t: Texts)
    requires tc.Attributed() && tc.Admits(t0)
    ensures CrashedAfterIr(tc, t0, x).Status(t) ==
            if tc.inputs == {} then Reparse
            else if StaleBetween(tc, t0, t) == {} then Current else Stale(StaleBetween(tc, t0, t))
  {
    StatusOfFullRecord(tc, t0, t);
    hide StaleBetween, FullIR, StatusOf, Shas, EdgesOf, Changed, Toolchain.Attributed;
  }

  lemma HealedFromNothing<U>(tc: Toolchain<U>, t0: Texts, x: IR<U>, t: Texts)
    ensures HealedIr(tc, t0, x, {}, t) == x
  {
    hide OnlyFrom, EdgesOf, Reached, FullIR;
    NothingOnlyFromNobody(EdgesOf(tc, tc.inputs, t0));
    NobodyReaches(tc, t);
  }

  /** The edges come out right in any case, and the tracked files when the file rows do. */
  lemma CrashedRecord<U>(tc: Toolchain<U>, t0: Texts, x: IR<U>, t: Texts)
    requires tc.Local() && tc.Admits(t0) && tc.Admits(t)
    ensures var r := Rebuild(tc, CrashedAfterIr(tc, t0, x), t); r == FullRecord(tc, t) <==> r.ir == FullIR(tc, t)
  {
    assert tc.Attributed();
    hide Recorded.Status, StaleBetween, OnlyFrom, EdgesOf, Reached, DepPaths, ReplaceEdges, FullIR, ParseTusInto;
    hide Toolchain.Local;
    CrashedStatus(tc, t0, x, t);
    StatusOfFullRecord(tc, t0, t);
    RebuildIsFull(tc, t0, t);
    ReferencedIsReached(tc, t);
  }

  lemma CrashedUnits<U>(tc: Toolchain<U>, t0: Texts, x: IR<U>, t: Texts, stale: set<Path>)
    requires stale <= tc.inputs && forall i | i in tc.inputs && i !in stale :: tc.unit(t, i) == tc.unit(t0, i)
    ensures HealedIr(tc, t0, x, stale, t).units == FullIR(tc, t).units <==> SameUnits(tc, t0, x, stale)
  {
    hide RowsOf, Reached, OnlyFrom, EdgesOf;
    var units, full := HealedIr(tc, t0, x, stale, t).units, FullIR(tc, t).units;
    assert units.Keys == x.units.Keys + stale && full.Keys == tc.inputs;
    if units == full {
      forall i | i in tc.inputs && i !in stale ensures i in x.units && x.units[i] == tc.unit(t0, i) {
        assert i in units && units[i] == full[i];
      }
    }
  }

  /** One file row of such a build. */
  lemma CrashedFile<U>(tc: Toolchain<U>, t0: Texts, x: IR<U>, t: Texts, stale: set<Path>, d: Path)
    requires tc.Attributed() && tc.Admits(t) && stale <= tc.inputs
    ensures var files := HealedIr(tc, t0, x, stale, t).files;
            && (d in Reached(tc, stale, t) ==> d in files && d in t && files[d] == RowOf(t[d]))
            && (d !in Reached(tc, stale, t) ==>
                  && (d in files <==> d in x.files && d !in OnlyFrom(EdgesOf(tc, tc.inputs, t0), stale))
                  && (d in files ==> files[d] == x.files[d]))
  {
    ReachedIsThere(tc, stale, t);
    hide Reached, OnlyFrom, EdgesOf, Toolchain.Attributed;
  }

  lemma ReachedIsThere<U>(tc: Toolchain<U>, inputs: set<Path>, t: Texts)
    requires tc.Attributed() && tc.Admits(t) && inputs <= tc.inputs
    ensures Reached(tc, inputs, t) <= t.Keys
  {
    forall d | d in Reached(tc, inputs, t) ensures d in t {
      var i :| i in inputs && d in tc.deps(t, i);
      assert tc.AttributesTo(t, i);
    }
  }

  lemma CrashedFiles<U>(tc: Toolchain<U>, t0: Texts, x: IR<U>, t: Texts, stale: set<Path>)
    requires tc.Attributed() && tc.Admits(t0) && tc.Admits(t) && stale <= tc.inputs
    requires forall i | i in tc.inputs && i !in stale :: tc.deps(t, i) == tc.deps(t0, i) && Agree(t0, t, tc.deps(t0, i))
    ensures HealedIr(tc, t0, x, stale, t).files == FullIR(tc, t).files <==> SameFiles(tc, t0, x, stale, t)
  {
    var files, full := HealedIr(tc, t0, x, stale, t).files, FullIR(tc, t).files;
    hide HealedIr, FullIR, Toolchain.Attributed, Reached, OnlyFrom, EdgesOf, Agree;
    forall d ensures SameRow(files, full, d) <==>
        (d in Reached(tc, tc.inputs - stale, t0) && d !in Reached(tc, stale, t) ==> HasRow(x.files, t0, d)) &&
        (d in x.files ==> d in Reached(tc, tc.inputs, t0) || d in Reached(tc, tc.inputs, t))
    {
      CrashedFile(tc, t0, x, t, stale, d);
      FullFile(tc, t0, t, stale, d);
      OwnersSplit(tc, t0, stale, d);
    }
    SameEverywhere(files, full);
  }

  lemma SameEverywhere(files: map<Path, FileRow>, full: map<Path, FileRow>)
    ensures files == full <==> forall d :: SameRow(files, full, d)
  {
    if forall d :: SameRow(files, full, d) {
      assert forall d :: SameRow(files, full, d) ==> (d in files <==> d in full);
    }
  }

  ghost predicate SameRow(files: map<Path, FileRow>, full: map<Path, FileRow>, d: Path) {
    (d in files <==> d in full) && (d in files && d in full ==> files[d] == full[d])
  }

  /** One file row of the full parse: reached by a stale input, or by another one as before. */
  lemma FullFile<U>(tc: Toolchain<U>, t0: Texts, t: Texts, stale: set<Path>, d: Path)
    requires tc.Attributed() && tc.Admits(t) && stale <= tc.inputs
    requires forall i | i in tc.inputs && i !in stale :: tc.deps(t, i) == tc.deps(t0, i) && Agree(t0, t, tc.deps(t0, i))
    ensures var files := FullIR(tc, t).files;
            && (d in files <==> d in Reached(tc, stale, t) || d in Reached(tc, tc.inputs - stale, t0))
            && (d in files <==> d in Reached(tc, tc.inputs, t)) && (d in files ==> d in t && files[d] == RowOf(t[d]))
            && (d in Reached(tc, tc.inputs - stale, t0) ==> d in t0 && d in t && t[d] == t0[d])
  {
    ReachedIsThere(tc, tc.inputs, t);
    hide Toolchain.Attributed;
  }

  /** A file tracked before is a candidate for dropping exactly when no input that is not stale reached it. */
  lemma OwnersSplit<U>(tc: Toolchain<U>, t0: Texts, stale: set<Path>, d: Path)
    ensures d in OnlyFrom(EdgesOf(tc, tc.inputs, t0), stale) <==>
            d in Reached(tc, tc.inputs, t0) && d !in Reached(tc, tc.inputs - stale, t0)
    ensures d in Reached(tc, tc.inputs - stale, t0) ==> d in Reached(tc, tc.inputs, t0)
  {
    var tu := EdgesOf(tc, tc.inputs, t0);
    assert forall i :: i in Owners(tu, d) <==> (i, d) in tu;
    if d in Reached(tc, tc.inputs, t0) {
      var i :| i in tc.inputs && d in tc.deps(t0, i);
      assert (i, d) in tu;
    }
    assert forall i :: (i, d) in tu <==> i in tc.inputs && d in tc.deps(t0, i);
  }

  /** The same of the build itself: some IR is committed, the build dies before it records the parse, and the next one,
      on the sources as they are then, leaves an exact record exactly when that IR was harmless. */
  method BuildAfterCrash<U(!new)>(ws: Workspace<U>, project: Project<U>, config: string, renderFp: string,
                                  ghost t0: Texts, x: IR<U>, disk: Disk, started: int)
    requires project.Valid() && PagesSound(ws.cache.pages, project.textOf)
    requires var fp := project.Fp(config, TextsOf(disk));
             var tc := project.toolchain(fp);
             && tc.Admits(t0) && tc.Admits(TextsOf(disk)) && ws.Reusable(fp) && ws.Record() == FullRecord(tc, t0)
    requires Trusted(ws.cache.inputs, disk) && Trusted(ws.cache.outputs, ws.out.files)
    modifies ws`ir, ws.cache, ws.out
    ensures var tc := project.toolchain(project.Fp(config, TextsOf(disk)));
            ws.ir.Some? && (ws.Record() == FullRecord(tc, TextsOf(disk)) <==> Harmless(tc, t0, x, TextsOf(disk)))
  {
    hide TextsOf, Trusted, Harmless, Rebuild, FullIR, Toolchain.Admits, Toolchain.Local, PagesSound, Shas, EdgesOf;
    var tc := project.toolchain(project.Fp(config, TextsOf(disk)));
    ws.ir := Some(x);
    assert ws.Record() == CrashedAfterIr(tc, t0, x);
    CrashIsHealedExactlyWhen(tc, t0, x, TextsOf(disk));
    var _, _ := ws.IncrementalBuild(project, config, renderFp, disk, started, false, true);
  }

  // ---- a crash between record_outputs and record_render ----

  ghost predicate SamePages(a: Pages, b: Pages) { forall p :: p in a <==> p in b }

  /** A render has written and indexed the pages `indexed` and died before record_render, so the recorded render is
      still the one before, if any.  The next build leaves the pages of its own configuration, and only those, exactly
      when it parses, or runs under another configuration than the recorded render, or finds an indexed page
      damaged, or renders the indexed pages anyway. */
  lemma CrashIsRenderedOverExactlyWhen(parsed: bool, render: Option<RenderMeta>, renderFp: string,
                                       outputs: map<string, Row>,
                                       indexed: Pages, pages: Pages, disk: Disk, disk': Disk)
    requires indexed != [] && Indexes(outputs, indexed) && Trusted(outputs, disk)
    requires Shortcut(parsed, render, renderFp, outputs, disk) ==>
               forall n | n in Names(pages) && n !in Names(indexed) :: n !in disk  // the dying render deleted them
    requires Outcome(parsed, render, renderFp, outputs, pages, disk, disk')
    ensures Published(outputs, pages, disk, disk') <==>
            || parsed || render == None || render.value.fp != renderFp
            || (exists n <- outputs :: !outputs[n].Intact(disk, n))
            || SamePages(pages, indexed)
  {
    assert indexed[0] in indexed && indexed[0].0 in Names(indexed);
    if Shortcut(parsed, render, renderFp, outputs, disk) {
      IntactIsOnDisk(outputs, indexed, disk);
      if Published(outputs, pages, disk, disk) {
        PublishedAreSame(outputs, indexed, pages, disk);
      } else if SamePages(pages, indexed) {
        SamePagesIndex(outputs, indexed, pages);
        NoopPublishes(outputs, pages, disk);
      }
    }
  }

  lemma IntactIsOnDisk(rows: map<string, Row>, pages: Pages, disk: Disk)
    requires Indexes(rows, pages) && Trusted(rows, disk) && forall n <- rows :: rows[n].Intact(disk, n)
    ensures OnDisk(pages, disk)
  {
    NoopPublishes(rows, pages, disk);
  }

  lemma SamePagesIndex(rows: map<string, Row>, indexed: Pages, pages: Pages)
    requires Indexes(rows, indexed) && SamePages(pages, indexed)
    ensures Indexes(rows, pages)
  {
    assert Names(pages) == Names(indexed);
  }

  lemma PublishedAreSame(rows: map<string, Row>, indexed: Pages, pages: Pages, disk: Disk)
    requires Indexes(rows, indexed) && OnDisk(indexed, disk) && Published(rows, pages, disk, disk)
    requires forall n | n in Names(pages) && n !in Names(indexed) :: n !in disk
    ensures SamePages(pages, indexed)
  {
    forall p | p in pages ensures p in indexed {
      assert p.0 in Names(pages) && p.0 in disk;
      var q :| q in indexed && q.0 == p.0;
      assert q == p;
    }
    forall p | p in indexed ensures p in pages {
      assert p.0 in Names(indexed) && p.0 in disk;
      var q :| q in pages && q.0 == p.0;
      assert q == p;
    }
  }

  /** Recorded pages that are not among these have been deleted. */
  ghost predicate Gone(rows: map<string, Row>, pages: Pages, disk: Disk) {
    forall n | n in rows && n !in Names(pages) :: n !in disk
  }

  /** The second half of a render-only build, cut off before record_render. */
  method DyingRender<U(!new)>(ws: Workspace<U>, project: Project<U>, renderFp: string)
    requires project.Valid() && ws.ir.Some? && PagesSound(ws.cache.pages, project.textOf)
    requires Trusted(ws.cache.outputs, ws.out.files)
    modifies ws.cache`pages, ws.cache`outputs, ws.out
    ensures PagesSound(ws.cache.pages, project.textOf) && Trusted(ws.cache.outputs, ws.out.files)
    ensures Indexes(ws.cache.outputs, RenderAll(project.plans(renderFp, ws.ir.value)))
    ensures OnDisk(RenderAll(project.plans(renderFp, ws.ir.value)), ws.out.files)
    ensures Gone(old(ws.cache.outputs), RenderAll(project.plans(renderFp, ws.ir.value)), ws.out.files)
    ensures ws.cache.outputs != map[] && forall n <- ws.cache.outputs :: ws.cache.outputs[n].Intact(ws.out.files, n)
  {
    hide StatsMatch, Holds, Trusted, OnDisk, Indexes, RenderAll, PagesSound, Distinct, Keyed, DistinctNames, PagesAreOf;
    hide Names, Toolchain.Local;
    var plans := project.plans(renderFp, ws.ir.value);
    DistinctStemsDistinctNames(plans);
    var rendered := RenderedFiles(ws.cache, plans, true, project.textOf);
    ApplyOutputs(ws.out, ws.cache, rendered);
    PublishedIsIntact(ws.cache.outputs, rendered, ws.out.files);
    NamedPage(ws.cache.outputs, plans);
  }

  /** A consistent workspace, a render under b that dies before record_render, and a build under c: that build leaves
      its own pages and only those exactly when it parses, or c is not the recorded configuration, or b renders the
      same pages. */
  method BuildAfterDyingRender<U(!new)>(ws: Workspace<U>, project: Project<U>, config: string, b: string, c: string,
                                        disk: Disk, started: int, force: bool)
    returns (ghost parsed: bool, ghost outputs: map<string, Row>, ghost files: Disk)
    requires project.Valid() && project.Meets(config, TextsOf(disk)) && ws.ir.Some? && ws.Consistent(project)
    requires Trusted(ws.cache.inputs, disk) && Trusted(ws.cache.outputs, ws.out.files)
    modifies ws`ir, ws.cache, ws.out
    ensures ws.ir.Some?
    ensures Published(outputs, RenderAll(project.plans(c, ws.ir.value)), files, ws.out.files) <==>
            || parsed || old(ws.cache.render) == None || old(ws.cache.render).value.fp != c
            || SamePages(RenderAll(project.plans(c, ws.ir.value)), RenderAll(project.plans(b, old(ws.ir).value)))
    ensures parsed == old(ws.Parses(project.Fp(config, TextsOf(disk)), TextsOf(disk), force))
  {
    hide StatsMatch, Holds, Trusted, OnDisk, Indexes, Snapshot, RenderAll, FullRecord, Healed, PagesSound, Published;
    hide Project.Valid, TextsOf, PartialRecord, Recorded.Status, Toolchain.Admits, StemsOf, SamePages, Names;
    ghost var recorded, was := ws.cache.render, ws.cache.outputs;
    ghost var indexed := RenderAll(project.plans(b, ws.ir.value));
    DyingRender(ws, project, b);
    outputs, files := ws.cache.outputs, ws.out.files;
    var stems, moved := ws.IncrementalBuild(project, config, c, disk, started, force, true);
    parsed := moved;
    ghost var pages := RenderAll(project.plans(c, ws.ir.value));
    if Shortcut(parsed, recorded, c, outputs, files) {
      IndexedNames(was, pages);
    }
    NotEmpty(outputs, indexed);
    CrashIsRenderedOverExactlyWhen(parsed, recorded, c, outputs, indexed, pages, files, ws.out.files);
  }

  lemma IndexedNames(rows: map<string, Row>, pages: Pages)
    requires Indexes(rows, pages)
    ensures rows.Keys == Names(pages)
  {
  }

  lemma NotEmpty(rows: map<string, Row>, pages: Pages)
    requires Indexes(rows, pages) && rows != map[]
    ensures pages != []
  {
    var n :| n in rows;
  }

  /** Built under configuration a, rendered under b up to record_outputs, then built under a again: the last build
      takes the shortcut, and the pages of b stay. */
  method CrashedRenderIsServed<U(!new)>(ws: Workspace<U>, project: Project<U>, config: string, a: string, b: string,
                                        disk: Disk, started: int)
    requires project.Valid() && project.Meets(config, TextsOf(disk)) && project.select(config, TextsOf(disk)) != {}
    requires ws.Consistent(project) && Trusted(ws.cache.inputs, disk) && Trusted(ws.cache.outputs, ws.out.files)
    modifies ws`ir, ws.cache, ws.out
    ensures ws.ir.Some? && ws.Record() == FullRecord(project.toolchain(project.Fp(config, TextsOf(disk))),
                                                     TextsOf(disk))
    ensures OnDisk(RenderAll(project.plans(b, ws.ir.value)), ws.out.files)
    ensures ws.cache.render.Some? && ws.cache.render.value.fp == a
  {
    hide StatsMatch, Holds, Trusted, OnDisk, Indexes, Snapshot, RenderAll, FullRecord, Healed, PagesSound;
    hide Project.Valid, TextsOf, PartialRecord, Recorded.Status, Toolchain.Admits, StemsOf;
    var _, _ := ws.IncrementalBuild(project, config, a, disk, started, false, true);
    PublishedIsIntact(ws.cache.outputs, RenderAll(project.plans(a, ws.ir.value)), ws.out.files);
    RepeatedBuildIsNoop(ws, project, config, a, disk);

    DyingRender(ws, project, b);
    var _, _ := ws.IncrementalBuild(project, config, a, disk, started, false, true);
  }

  lemma PublishedIsIntact(rows: map<string, Row>, pages: Pages, disk: Disk)
    requires Indexes(rows, pages) && OnDisk(pages, disk)
    ensures Holds(rows, disk) && Trusted(rows, disk) && forall n <- rows :: rows[n].Intact(disk, n)
  {
    PublishedHolds(rows, pages, disk);
  }

  lemma NamedPage(rows: map<string, Row>, plans: seq<Plan>)
    requires plans != [] && Indexes(rows, RenderAll(plans))
    ensures rows != map[]
  {
    assert RenderAll(plans)[0] in RenderAll(plans);
    assert RenderAll(plans)[0].0 in Names(RenderAll(plans));
  }
}
