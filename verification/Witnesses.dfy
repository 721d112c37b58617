/** Small projects that meet every hypothesis of the incremental build, and the concrete runs in which it goes wrong. */
module Witnesses {
  import opened Wrappers
  import opened IncrementalParse
  import opened IncludeParser
  import opened BuildCache
  import opened Pipeline
  import opened BuildRuns
  import opened MtimeGuard

  // One input "i", whose text may include a header "h"; the rows of an input are the texts it reads.

  const INCLUDES_H := "#include h"

  const LOOKUPS: Lookups := text => if text == INCLUDES_H then [["h"]] else []

  ghost function Small(): Toolchain<Texts> {
    Following({"i"}, t => Complete(LOOKUPS, t), LOOKUPS, (texts, i) => texts)
  }

  function Tree(i: string, h: string): Texts { map["i" := i, "h" := h] }

  lemma SmallIsLocal()
    ensures Small().Local()
  {
    FollowingIsLocal({"i"}, t => Complete(LOOKUPS, t), LOOKUPS, (texts: Texts, i: Path) => texts);
  }

  lemma AloneReaches(t: Texts, i: Path)
    requires i in t && LOOKUPS(t[i]) == []
    ensures ReachedFrom(LOOKUPS, t, i) == {i}
  {
    InputReached(LOOKUPS, t, i);
    ClosedHoldsReached(LOOKUPS, t, i, {i});
  }

  /** The header is found as soon as it is there. */
  lemma HeaderResolves(t: Texts)
    requires "h" in t
    ensures forall q :: q in Resolved([["h"]], t) <==> q == "h"
  {
    assert Resolve(["h"], t) == Some("h");
    assert [["h"]][0] == ["h"];
  }

  lemma HeaderIsReached(t: Texts)
    requires "i" in t && "h" in t && t["i"] == INCLUDES_H && t["h"] != INCLUDES_H
    ensures ReachedFrom(LOOKUPS, t, "i") == {"i", "h"}
  {
    HeaderResolves(t);
    InputReached(LOOKUPS, t, "i");
    ReachedNext(LOOKUPS, t, "i", "i", "h");
    ClosedHoldsReached(LOOKUPS, t, "i", {"i", "h"});
  }

  /** All there is to know about the small parser on such a tree. */
  ghost predicate Knows(tc: Toolchain<Texts>, t: Texts, i: string, h: string) {
    && tc.Local() && tc.Attributed() && tc.inputs == {"i"} && tc.Admits(t)
    && "i" in t && t["i"] == i && "h" in t && t["h"] == h
    && tc.deps(t, "i") == if i == INCLUDES_H then {"i", "h"} else {"i"}
  }

  lemma SmallKnows(i: string, h: string)
    requires h != INCLUDES_H
    ensures Knows(Small(), Tree(i, h), i, h)
  {
    SmallIsLocal();
    var t := Tree(i, h);
    assert t["i"] == i && t["h"] == h by { assert "i"[0] != "h"[0]; }
    if i == INCLUDES_H {
      HeaderIsReached(t);
    } else {
      AloneReaches(t, "i");
    }
    assert Small().deps(t, "i") == ReachedFrom(LOOKUPS, t, "i");
    hide ReachedFrom;
  }

  lemma Letters()
    ensures "a" != "b" && "x" != "y" && "i" != "h" && "a" != INCLUDES_H && "b" != INCLUDES_H && "x" != INCLUDES_H &&
        "y" != INCLUDES_H
  {
    assert "a"[0] != "b"[0] && "x"[0] != "y"[0] && "i"[0] != "h"[0];
    assert |INCLUDES_H| > 1;
  }

  lemma OneInputReaches(tc: Toolchain<Texts>, t: Texts)
    requires tc.inputs == {"i"}
    ensures Reached(tc, tc.inputs, t) == tc.deps(t, "i")
  {
  }

  /** An edited header makes the input that reads it stale and nothing else; without an edit the record is current. */
  lemma EveryStatusIsReached()
    ensures var tc, t0, t := Small(), Tree(INCLUDES_H, "a"), Tree(INCLUDES_H, "b");
            && tc.Local() && tc.Admits(t0) && tc.Admits(t) && FullIR(tc, t0).files.Keys == {"i", "h"}
            && FullRecord(tc, t0).Status(t0) == Current
            && FullRecord(tc, t0).Status(t) == Stale({"i"})
  {
    Letters();
    SmallKnows(INCLUDES_H, "a");
    SmallKnows(INCLUDES_H, "b");
    hide *;
    EditedHeader(Small(), Tree(INCLUDES_H, "a"), Tree(INCLUDES_H, "b"));
  }

  lemma EditedHeader(tc: Toolchain<Texts>, t0: Texts, t: Texts)
    requires Knows(tc, t0, INCLUDES_H, "a") && Knows(tc, t, INCLUDES_H, "b")
    ensures tc.Local() && tc.Admits(t0) && tc.Admits(t) && FullIR(tc, t0).files.Keys == {"i", "h"}
    ensures FullRecord(tc, t0).Status(t0) == Current && FullRecord(tc, t0).Status(t) == Stale({"i"})
  {
    Letters();
    hide FullIR, FullRecord, Reached, StaleBetween, Toolchain.Local, Toolchain.Attributed, Toolchain.Admits;
    hide Recorded.Status;
    OneInputReaches(tc, t0);
    ReferencedIsReached(tc, t0);
    NothingChanged(tc, t0);
    StatusOfFullRecord(tc, t0, t0);
    StatusOfFullRecord(tc, t0, t);
    EditedIsStale(tc, t0, t, "h");
  }

  lemma EditedIsStale(tc: Toolchain<Texts>, t0: Texts, t: Texts, d: Path)
    requires tc.inputs == {"i"} && d in tc.deps(t0, "i") && d in t0 && d in t && t[d] != t0[d]
    ensures StaleBetween(tc, t0, t) == {"i"}
  {
    assert d in Reached(tc, tc.inputs, t0);
    StaleAreInputs(tc, t0, t);
    assert d in Changed(Shas(FullIR(tc, t0).files), t);
    hide FullIR, Shas, Changed;
    assert ("i", d) in EdgesOf(tc, tc.inputs, t0);
  }

  /** A crash between the two commits, then a return of the sources: the IR of the edited tree is called current. */
  lemma CrashThenReturnIsMissed()
    ensures var tc, t0, x := Small(), Tree("x", "a"), FullIR(Small(), Tree("y", "a"));
            && tc.Local() && tc.Admits(t0) && CrashedAfterIr(tc, t0, x).Status(t0) == Current
            && Rebuild(tc, CrashedAfterIr(tc, t0, x), t0).ir == x != FullIR(tc, t0)
  {
    Letters();
    SmallKnows("x", "a");
    SmallKnows("y", "a");
    hide *;
    ReturnIsMissed(Small(), Tree("x", "a"), Tree("y", "a"));
  }

  lemma ReturnIsMissed(tc: Toolchain<Texts>, t0: Texts, t1: Texts)
    requires Knows(tc, t0, "x", "a") && Knows(tc, t1, "y", "a")
    ensures tc.Local() && tc.Admits(t0) && CrashedAfterIr(tc, t0, FullIR(tc, t1)).Status(t0) == Current
    ensures Rebuild(tc, CrashedAfterIr(tc, t0, FullIR(tc, t1)), t0).ir == FullIR(tc, t1) != FullIR(tc, t0)
  {
    Letters();
    hide FullIR, Reached, Toolchain.Local, Toolchain.Attributed, Toolchain.Admits, Recorded.Status, Rebuild;
    CrashThenReturnIsKept(tc, t0, FullIR(tc, t1));
    InputRow(tc, t0);
    InputRow(tc, t1);
    assert FullIR(tc, t0).files["i"].sha != FullIR(tc, t1).files["i"].sha;
  }

  /** The small parser under another configuration: it makes nothing of the texts it reads. */
  ghost function OtherSmall(): Toolchain<Texts> {
    Following({"i"}, t => Complete(LOOKUPS, t), LOOKUPS, (texts, i) => map[])
  }

  /** A crash in a re-parse under another configuration, then a return of the configuration: the sources never changed,
      and the IR of the other configuration is called current. */
  lemma OtherConfigurationIsKept()
    ensures var tc, t0, x := Small(), Tree("x", "a"), FullIR(OtherSmall(), Tree("x", "a"));
            && tc.Local() && tc.Admits(t0) && CrashedAfterIr(tc, t0, x).Status(t0) == Current
            && Rebuild(tc, CrashedAfterIr(tc, t0, x), t0).ir == x != FullIR(tc, t0)
  {
    var tc, t0 := Small(), Tree("x", "a");
    Letters();
    SmallKnows("x", "a");
    var x := FullIR(OtherSmall(), t0);
    assert x.units["i"] == map[];
    ReadsItself(t0);
    assert FullIR(tc, t0).units["i"] == tc.unit(t0, "i");
    hide FullIR, Toolchain.Local, Toolchain.Attributed, Toolchain.Admits, Recorded.Status, Rebuild;
    CrashThenReturnIsKept(tc, t0, x);
  }

  lemma ReadsItself(t: Texts)
    requires "i" in t
    ensures Small().unit(t, "i") != map[]
  {
    InputReached(LOOKUPS, t, "i");
    assert Small().unit(t, "i") == TextsAt(t, ReachedFrom(LOOKUPS, t, "i"));
    hide ReachedFrom;
    assert "i" in TextsAt(t, ReachedFrom(LOOKUPS, t, "i"));
  }

  lemma InputRow(tc: Toolchain<Texts>, t: Texts)
    requires tc.inputs == {"i"} && "i" in t && "i" in tc.deps(t, "i")
    ensures "i" in FullIR(tc, t).files && FullIR(tc, t).files["i"].sha == t["i"]
  {
    assert "i" in Reached(tc, tc.inputs, t);
  }

  /** A crash after an include was added, then an edit that takes it out: the header the crashed parse reached is in
      neither table nor any input's reach, and its row stays. */
  lemma CrashLeavesARow()
    ensures var tc, t0, x, t := Small(), Tree("x", "a"), FullIR(Small(), Tree(INCLUDES_H, "a")), Tree("y", "a");
            && tc.Local() && tc.Admits(t0) && tc.Admits(t) && !Harmless(tc, t0, x, t)
            && "h" in Rebuild(tc, CrashedAfterIr(tc, t0, x), t).ir.files && "h" !in FullIR(tc, t).files
  {
    Letters();
    SmallKnows("x", "a");
    SmallKnows(INCLUDES_H, "a");
    SmallKnows("y", "a");
    hide *;
    RowIsLeft(Small(), Tree("x", "a"), Tree(INCLUDES_H, "a"), Tree("y", "a"));
  }

  lemma RowIsLeft(tc: Toolchain<Texts>, t0: Texts, t1: Texts, t: Texts)
    requires Knows(tc, t0, "x", "a") && Knows(tc, t1, INCLUDES_H, "a") && Knows(tc, t, "y", "a")
    ensures tc.Local() && tc.Admits(t0) && tc.Admits(t) && !Harmless(tc, t0, FullIR(tc, t1), t)
    ensures "h" in Rebuild(tc, CrashedAfterIr(tc, t0, FullIR(tc, t1)), t).ir.files && "h" !in FullIR(tc, t).files
  {
    Letters();
    hide FullIR, HealedIr, Reached, StaleBetween, Toolchain.Local, Toolchain.Attributed, Toolchain.Admits, Rebuild;
    hide OnlyFrom, EdgesOf;
    hide SameUnits;
    var stale, x := StaleBetween(tc, t0, t), FullIR(tc, t1);
    OneInputReaches(tc, t0);
    OneInputReaches(tc, t1);
    OneInputReaches(tc, t);
    StaleAreInputs(tc, t0, t);
    StaleReachLess(tc, stale, t);
    ReferencedIsReached(tc, t);
    ReferencedIsReached(tc, t1);
    CrashedIr(tc, t0, x, t);
    CrashedFile(tc, t0, x, t, stale, "h");
    OwnersSplit(tc, t0, stale, "h");
  }

  lemma StaleReachLess(tc: Toolchain<Texts>, stale: set<Path>, t: Texts)
    requires stale <= tc.inputs
    ensures Reached(tc, stale, t) <= Reached(tc, tc.inputs, t)
  {
  }

  // ---- a shared header edited between the scan and the parse ----

  /** Inputs "i" and "k" read the header "h", and both document what it says. */
  ghost function Sharing(): Toolchain<string> {
    Toolchain({"i", "k"}, t => "h" in t, (t, i) => {i, "h"}, (t, i) => if "h" in t then t["h"] else "")
  }

  function Shared(i: string, h: string): Texts { map["i" := i, "k" := "1", "h" := h] }

  ghost predicate Shares(tc: Toolchain<string>, t: Texts, i: string, h: string) {
    && tc.Local() && tc.inputs == {"i", "k"} && tc.Admits(t) && "i" != "k" && "h" != "i" && "h" != "k"
    && t.Keys == {"i", "k", "h"} && t["i"] == i && t["k"] == "1" && t["h"] == h
    && tc.deps(t, "i") == {"i", "h"} && tc.deps(t, "k") == {"k", "h"} && tc.unit(t, "k") == h
  }

  lemma SharingIsLocal()
    ensures Sharing().Local()
  {
    var tc := Sharing();
    forall t, i | tc.Admits(t) && i in tc.inputs ensures tc.AttributesTo(t, i) {}
    forall t, t', i | tc.Admits(t) && tc.Admits(t') && i in tc.inputs && Agree(t, t', tc.deps(t, i))
      ensures tc.SameResult(t, t', i)
    {
      assert "h" in tc.deps(t, i);
    }
  }

  lemma SharingShares(i: string, h: string)
    ensures Shares(Sharing(), Shared(i, h), i, h)
  {
    SharingIsLocal();
    assert "i"[0] != "k"[0] && "h"[0] != "i"[0] && "h"[0] != "k"[0];
    hide Toolchain.Local;
  }

  /** The scan sees "i" edited, the header is edited before "i" is parsed again: the header's new digest is recorded,
      the rows of "k" are still those of the old text, and the next scan calls that current. */
  lemma SharedEditIsMissed()
    ensures var tc, t0, scanned, t := Sharing(), Shared("1", "a"), Shared("2", "a"), Shared("2", "b");
            var r := PartialRecord(tc, FullRecord(tc, t0), StaleBetween(tc, t0, scanned), t);
            && tc.Local() && tc.Admits(t0) && tc.Admits(scanned) && tc.Admits(t)
            && OthersUnmoved(tc, t0, StaleBetween(tc, t0, scanned), t)
            && r != FullRecord(tc, t) && r.Status(t) == Current
  {
    SharingShares("1", "a");
    SharingShares("2", "a");
    SharingShares("2", "b");
    assert "1"[0] != "2"[0] && "a"[0] != "b"[0];
    hide *;
    OnlyIIsStale(Sharing(), Shared("1", "a"), Shared("2", "a"));
    HeaderMovesAlone(Sharing(), Shared("1", "a"), Shared("2", "b"));
  }

  lemma OnlyIIsStale(tc: Toolchain<string>, t0: Texts, t: Texts)
    requires Shares(tc, t0, "1", "a") && Shares(tc, t, "2", "a") && "1" != "2"
    ensures StaleBetween(tc, t0, t) == {"i"}
  {
    hide Toolchain.Local, Toolchain.Admits;
    assert FullIR(tc, t0).files == RowsOf(t0, {"i", "k", "h"}) by { BothReach(tc, t0); }
    assert Changed(Shas(FullIR(tc, t0).files), t) == {"i"};
    hide FullIR, Changed, Shas, RowsOf;
    OnlyIReads(EdgesOf(tc, tc.inputs, t0), tc, t0);
  }

  lemma OnlyIReads(tu: Edges, tc: Toolchain<string>, t: Texts)
    requires tu == EdgesOf(tc, tc.inputs, t) && tc.inputs == {"i", "k"} && "i" != "k" && "h" != "i"
    requires tc.deps(t, "i") == {"i", "h"} && tc.deps(t, "k") == {"k", "h"}
    ensures StaleInputs(tu, {"i"}) == {"i"}
  {
    assert ("i", "i") in tu;
    forall e <- tu | e.1 == "i" ensures e.0 == "i" {}
  }

  lemma BothReach(tc: Toolchain<string>, t: Texts)
    requires tc.inputs == {"i", "k"} && tc.deps(t, "i") == {"i", "h"} && tc.deps(t, "k") == {"k", "h"}
    ensures Reached(tc, tc.inputs, t) == {"i", "k", "h"} && Reached(tc, {"i"}, t) == {"i", "h"}
  {
    assert "i" in tc.deps(t, "i") && "h" in tc.deps(t, "i") && "k" in tc.deps(t, "k");
  }

  lemma HeaderMovesAlone(tc: Toolchain<string>, t0: Texts, t: Texts)
    requires Shares(tc, t0, "1", "a") && Shares(tc, t, "2", "b") && "a" != "b"
    ensures tc.Local() && tc.Admits(t0) && tc.Admits(t) && OthersUnmoved(tc, t0, {"i"}, t)
    ensures var r := PartialRecord(tc, FullRecord(tc, t0), {"i"}, t); r != FullRecord(tc, t) && r.Status(t) == Current
  {
    assert tc.Attributed();
    OnlyKIsLeft(tc, t0, t);
    hide *;
    PartialIsFullExactlyWhen(tc, t0, {"i"}, t);
    EdgesAgree(tc, t0, t, {"i"});
    FilesAgree(tc, t0, t, {"i"});
    SameTablesSameStatus(tc, t0, {"i"}, t);
    NothingChanged(tc, t);
    StatusOfFullRecord(tc, t, t);
  }

  lemma OnlyKIsLeft(tc: Toolchain<string>, t0: Texts, t: Texts)
    requires Shares(tc, t0, "1", "a") && Shares(tc, t, "2", "b") && "a" != "b"
    ensures tc.Local() && tc.Admits(t0) && tc.Admits(t) && tc.inputs != {} && {"i"} <= tc.inputs
    ensures OthersUnmoved(tc, t0, {"i"}, t) && !OthersKeep(tc, t0, {"i"}, t)
    ensures forall i | i in tc.inputs && i !in {"i"} :: tc.deps(t, i) == tc.deps(t0, i)
  {
    assert "i" in tc.inputs;
    hide Toolchain.Local, Toolchain.Admits;
    BothReach(tc, t);
    hide Reached;
    LeftAlone(tc, t0, t, "i", "k", "h");
  }

  lemma LeftAlone(tc: Toolchain<string>, t0: Texts, t: Texts, i: Path, k: Path, h: Path)
    requires tc.inputs == {i, k} && i != k && Reached(tc, {i}, t) == {i, h}
    requires tc.deps(t0, k) == tc.deps(t, k) == {k, h} && k in t0 && k in t && t[k] == t0[k]
    requires tc.unit(t, k) != tc.unit(t0, k)
    ensures OthersUnmoved(tc, t0, {i}, t) && !OthersKeep(tc, t0, {i}, t)
    ensures forall j | j in tc.inputs && j !in {i} :: tc.deps(t, j) == tc.deps(t0, j)
  {
    hide Reached;
    assert !tc.SameResult(t0, t, k);
  }

  /** When files and edges come out right, the next scan sees what it would see of a full record. */
  lemma SameTablesSameStatus(tc: Toolchain<string>, t0: Texts, stale: set<Path>, t: Texts)
    requires tc.Attributed() && tc.Admits(t)
    requires ReplaceEdges(EdgesOf(tc, tc.inputs, t0), stale, EdgesOf(tc, stale, t)) == EdgesOf(tc, tc.inputs, t)
    requires ParseTusInto(tc, FullIR(tc, t0), stale, OnlyFrom(EdgesOf(tc, tc.inputs, t0), stale), t).files
          == FullIR(tc, t).files
    ensures PartialRecord(tc, FullRecord(tc, t0), stale, t).Status(t) == FullRecord(tc, t).Status(t)
  {
    ReferencedIsReached(tc, t);
    hide FullIR, EdgesOf, OnlyFrom, ReplaceEdges, DepPaths, ParseTusInto, Toolchain.Attributed, StatusOf, Changed;
    hide Reached;
    assert PartialRecord(tc, FullRecord(tc, t0), stale, t).tracked == Shas(FullIR(tc, t).files);
  }

  ghost function SmallAnywhere(): Toolchain<Texts> {
    Following({"i"}, (t: Texts) => true, LOOKUPS, (texts: Texts, i: Path) => texts)
  }

  /** An include that found nothing, and the file it names created afterwards: the record is called current. */
  lemma CreatedFileIsMissed()
    ensures var tc: Toolchain<Texts>, t0: Texts, t := SmallAnywhere(), map["i" := INCLUDES_H], Tree(INCLUDES_H, "a");
            && tc.Admits(t0) && tc.Admits(t)
            && FullRecord(tc, t0).Status(t) == Current && Rebuild(tc, FullRecord(tc, t0), t) != FullRecord(tc, t)
  {
    var tc: Toolchain<Texts>, t0: Texts, t := SmallAnywhere(), map["i" := INCLUDES_H], Tree(INCLUDES_H, "a");
    Letters();
    FollowingIsAttributed({"i"}, (t: Texts) => true, LOOKUPS, (texts: Texts, i: Path) => texts);
    NothingToFind(t0);
    HeaderIsReached(t);
    assert tc.deps(t0, "i") == {"i"} && tc.deps(t, "i") == {"i", "h"};
    assert tc.inputs == {"i"} && tc.Admits(t0) && tc.Admits(t) && tc.Attributed();
    hide *;
    GrownInputIsMissed(tc, t0, t);
  }

  lemma NothingToFind(t: Texts)
    requires t == map["i" := INCLUDES_H]
    ensures ReachedFrom(LOOKUPS, t, "i") == {"i"}
  {
    Letters();
    InputReached(LOOKUPS, t, "i");
    assert Resolve(["h"], t) == None;
    ClosedHoldsReached(LOOKUPS, t, "i", {"i"});
  }

  /** An input that reads more than it did without any file it read having changed. */
  lemma GrownInputIsMissed(tc: Toolchain<Texts>, t0: Texts, t: Texts)
    requires tc.Attributed() && tc.inputs == {"i"} && tc.Admits(t0) && tc.Admits(t)
    requires tc.deps(t0, "i") == {"i"} != tc.deps(t, "i") && "i" in t0 && "i" in t && t["i"] == t0["i"]
    ensures FullRecord(tc, t0).Status(t) == Current && Rebuild(tc, FullRecord(tc, t0), t) != FullRecord(tc, t)
  {
    OneInputReaches(tc, t0);
    assert Changed(Shas(FullIR(tc, t0).files), t) == {};
    StatusOfFullRecord(tc, t0, t);
    hide Toolchain.Attributed, Rebuild, Recorded.Status, FullIR;
    RebuildIsFullExactlyWhen(tc, t0, t);
    assert !tc.SameResult(t0, t, "i");
  }

  // ---- a crash between record_outputs and record_render ----

  /** A project with one page, whose text is the render fingerprint. */
  ghost function OnePage(): Project<Texts> {
    Project((config: string, t: Texts) => t.Keys * {"i"},
            (fp: ParseFp) => Following(fp.inputs, t => Complete(LOOKUPS, t), LOOKUPS, (texts, i) => texts),
            (rf: string, ir: IR<Texts>) => [Plan("index", rf, rf)],
            (stem: string, key: string) => key)
  }

  lemma OnePageIsValid()
    ensures OnePage().Valid()
  {
    var project := OnePage();
    forall fp ensures project.toolchain(fp).inputs == fp.inputs && project.toolchain(fp).Local() {
      FollowingIsLocal(fp.inputs, t => Complete(LOOKUPS, t), LOOKUPS, (texts: Texts, i: Path) => texts);
    }
  }

  // ---- a run of builds ----

  const EDITED := [Write(0, 0, "x"), Write(1_000_000_000, 0, "z")]

  /** One file, edited twice within a timestamp granule. */
  function Edits(): map<Path, seq<Write>> { map["i" := EDITED] }

  function BuildAt(at: int): Build { Build(at, "", "a", false, true, (disk: Disk) => disk, false) }

  lemma SeenOfTwo(h: seq<Write>, at: int, w: nat)
    requires |h| == 2 && w < 2 && h[0].at < h[1].at && h[w].at <= at && (w == 0 ==> at < h[1].at)
    ensures Seen(h, at) == Some(h[w])
  {
    var init := h[..1];
    assert init[0] == h[0] && WritesBy(init, h[0].at) == 1;
    assert w == 0 ==> WritesBy(init, at) == 1 && WritesBy(h, at) == 1;
  }

  lemma EditsAreHistories()
    ensures AreHistories(Edits())
  {
  }

  lemma EditsAt(at: int, w: nat)
    requires w < 2 && EDITED[w].at <= at && (w == 0 ==> at < EDITED[1].at)
    ensures DiskAt(Edits(), at) == map["i" := File(EDITED[w].text, Stat(0, 1))]
  {
    SeenOfTwo(EDITED, at, w);
    assert |EDITED[w].text| == 1 && EDITED[w].mtime == 0;
    hide Seen;
  }

  /** What the one-page project makes of a tree of its one input. */
  lemma OnePageReads(disk: Disk, text: string)
    requires disk == map["i" := File(text, Stat(0, 1))] && text != INCLUDES_H
    ensures var project, t := OnePage(), TextsOf(disk);
            && project.Fp("", t) == ParseFp("", {"i"}) && project.Meets("", t)
            && "i" in t && t["i"] == text && project.toolchain(ParseFp("", {"i"})).inputs == {"i"}
            && "i" in project.toolchain(ParseFp("", {"i"})).deps(t, "i")
  {
    var t := TextsOf(disk);
    OnePageMeets(disk, text);
    assert "i" in t && t["i"] == text;
    assert OnePage().select("", t) == {"i"};
    InputReached(LOOKUPS, t, "i");
    assert OnePage().toolchain(ParseFp("", {"i"})).deps(t, "i") == ReachedFrom(LOOKUPS, t, "i");
    hide ReachedFrom;
  }

  lemma Plain()
    ensures EDITED[0].text == "x" && EDITED[1].text == "z" && "x" != "z" && "x" != INCLUDES_H && "z" != INCLUDES_H
  {
    assert "x"[0] != "z"[0];
    assert |INCLUDES_H| > 1;
  }

  /** The second build of the two has something to parse, so nothing is asked of what follows it. */
  lemma EditsAreFair(first: int, second: int)
    requires first == 500_000_000 && second == 3_000_000_000
    ensures Fair(OnePage(), Edits(), BuildAt(first)) && Fair(OnePage(), Edits(), BuildAt(second))
    ensures Careful(OnePage(), Edits(), BuildAt(first), BuildAt(second))
  {
    Plain();
    EditsAt(first, 0);
    EditsAt(second, 1);
    var disk, disk' := DiskAt(Edits(), first), DiskAt(Edits(), second);
    OnePageReads(disk, "x");
    OnePageReads(disk', "z");
    assert ShowsInStat(BuildAt(first).tamper) && ShowsInStat(BuildAt(second).tamper);
    hide OnePage, Edits, DiskAt, TextsOf, INCLUDES_H, EDITED, ShowsInStat;
    EditedIsStale(OnePage().toolchain(ParseFp("", {"i"})), TextsOf(disk), TextsOf(disk'), "i");
    hide StaleBetween;
  }

  /** Built between two writes that leave the same stat, and once more: the guard has kept the stat out of the table, so
      the second text is found. */
  method EditsInOneGranule(project: Project<Texts>, out: OutputDir) returns (ws: Workspace<Texts>)
    requires project == OnePage() && out.files == map[]
    modifies out
    ensures ws.ir.Some? && "i" in ws.ir.value.files && ws.ir.value.files["i"].sha == "z"
  {
    hide Fair, Careful, Edits, Built, Project.Valid;
    OnePageIsValid();
    EditsAreHistories();
    var first, second := 500_000_000, 3_000_000_000;
    EditsAreFair(first, second);
    ws := new Workspace<Texts>(out);
    NewWorkspaceIsReady(ws, project, Edits(), first);
    hide Ready;
    RunBuilds(ws, project, Edits(), [BuildAt(first), BuildAt(second)]);
    EditIsFound(ws, second);
  }

  lemma EditIsFound(ws: Workspace<Texts>, second: int)
    requires second == 3_000_000_000 && Built(ws, OnePage(), Edits(), BuildAt(second))
    ensures ws.ir.Some? && "i" in ws.ir.value.files && ws.ir.value.files["i"].sha == "z"
  {
    Plain();
    EditsAt(second, 1);
    OnePageReads(DiskAt(Edits(), second), "z");
    hide OnePage, Edits, DiskAt, TextsOf, INCLUDES_H, EDITED, FullIR, RenderAll, OnDisk, Names;
    InputRow(OnePage().toolchain(ParseFp("", {"i"})), TextsOf(DiskAt(Edits(), second)));
  }

  /** With it the crash before record_render is seen: built under "a", the page holds the text of "b". */
  method CrashedPageIsServed(project: Project<Texts>, out: OutputDir)
    requires project == OnePage() && out.files == map[]
    modifies out
    ensures "index.md" in out.files && out.files["index.md"].text == "b"
  {
    var disk: Disk := map["i" := File("x", Stat(0, 1))];
    OnePageIsValid();
    Letters();
    OnePageMeets(disk, "x");
    var ws := new Workspace<Texts>(out);
    CrashedRenderIsServed(ws, project, "", "a", "b", disk, 0);
    TheOnePage("b", ws.ir.value);
    assert ("index.md", "b") in RenderAll(project.plans("b", ws.ir.value));
    assert out == ws.out;
    assert out.files["index.md"].text == "b";
  }

  lemma OnePageMeets(disk: Disk, text: string)
    requires disk == map["i" := File(text, Stat(0, 1))] && text != INCLUDES_H
    ensures OnePage().Meets("", TextsOf(disk)) && OnePage().select("", TextsOf(disk)) != {}
  {
    assert "i" in TextsOf(disk) && TextsOf(disk)["i"] == text;
    assert "i" in OnePage().select("", TextsOf(disk));
  }

  lemma TheOnePage(rf: string, ir: IR<Texts>)
    ensures RenderAll(OnePage().plans(rf, ir)) == [("index.md", rf)]
  {
    assert "index" + ".md" == "index.md";
  }
}
