/** Why re-parsing only the stale inputs gives what a full parse does. */
module IncrementalParse {
  // What src/clangquill/cache.py, src/clangquill/pipeline.py and `SqliteStore::write_tus` do to the
  // tables, on values, and what an incremental build may assume about the parser.
  //
  // A digest is represented by the text it is the digest of (no collisions), and one spelling
  // names one file everywhere.

  type Path = string
  type Texts = map<Path, string>

  /** The parser as configured by one parse fingerprint: its inputs, the source trees it may be run on, the files
      one input's translation unit pulls in, and the rows that input contributes. */
  datatype Toolchain<!U> = Toolchain(inputs: set<Path>, trees: Texts -> bool,
                                     deps: (Texts, Path) -> set<Path>, unit: (Texts, Path) -> U) {
    /** A tree a build can meet: the inputs are files on disk, for only such are inputs. */
    predicate Admits(t: Texts) { inputs <= t.Keys && trees(t) }

    /** Full attribution: a parse reaches its input, and nothing that is not on disk. */
    ghost predicate Attributed() {
      forall t, i {:trigger AttributesTo(t, i)} | Admits(t) && i in inputs :: AttributesTo(t, i)
    }

    ghost predicate AttributesTo(t: Texts, i: Path) { i in deps(t, i) && deps(t, i) <= t.Keys }

    /** Parse locality: an input's result depends only on the files its parse reached. */
    ghost predicate Local() {
      && Attributed()
      && forall t, t', i {:trigger SameResult(t, t', i)} |
           Admits(t) && Admits(t') && i in inputs && Agree(t, t', deps(t, i)) :: SameResult(t, t', i)
    }

    ghost predicate SameResult(t: Texts, t': Texts, i: Path) {
      deps(t', i) == deps(t, i) && unit(t', i) == unit(t, i)
    }
  }

  ghost predicate Agree(t: Texts, t': Texts, ps: set<Path>) {
    forall p <- ps :: p in t && p in t' && t'[p] == t[p]
  }

  datatype FileRow = FileRow(sha: string, size: int)
  datatype IR<+U> = IR(files: map<Path, FileRow>, units: map<Path, U>)

  type Edges = set<(Path, Path)>  // (input, file it depends on)

  function Reached<U>(tc: Toolchain<U>, inputs: set<Path>, t: Texts): set<Path> {
    set i, d | i in inputs && d in tc.deps(t, i) :: d
  }

  function EdgesOf<U>(tc: Toolchain<U>, inputs: set<Path>, t: Texts): Edges {
    set i, d | i in inputs && d in tc.deps(t, i) :: (i, d)
  }

  function RowOf(text: string): FileRow { FileRow(text, |text|) }

  function RowsOf(t: Texts, ps: set<Path>): map<Path, FileRow> {
    map p | p in ps && p in t :: RowOf(t[p])
  }

  /** Everything, parsed from scratch. */
  function FullIR<U>(tc: Toolchain<U>, t: Texts): IR<U> {
    IR(RowsOf(t, Reached(tc, tc.inputs, t)), map i | i in tc.inputs :: tc.unit(t, i))
  }

  // ---- the incremental path ----

  /** Tracked files that vanished or whose text differs from the recorded one. */
  function Changed(tracked: map<Path, string>, t: Texts): set<Path> {
    set p | p in tracked && (p !in t || t[p] != tracked[p])
  }

  function Shas(files: map<Path, FileRow>): map<Path, string> { map p | p in files :: files[p].sha }

  function Owners(tu: Edges, d: Path): set<Path> { set e | e in tu && e.1 == d :: e.0 }

  function DepPaths(tu: Edges): set<Path> { set e | e in tu :: e.1 }

  function StaleInputs(tu: Edges, changed: set<Path>): set<Path> { set e | e in tu && e.1 in changed :: e.0 }

  /** `deps_only_from`: tracked files attributed to these inputs and to no other. */
  function OnlyFrom(tu: Edges, inputs: set<Path>): set<Path> {
    set e | e in tu && Owners(tu, e.1) <= inputs :: e.1
  }

  /** `write_tus`: the re-parsed units' rows replaced, the files they reached upserted, and the dropped
      candidates the fresh parse did not reach deleted. */
  function WriteTus<U>(ir: IR<U>, units: map<Path, U>, files: map<Path, FileRow>, dropped: set<Path>): IR<U> {
    IR(ir.files - (dropped - files.Keys) + files, ir.units + units)
  }

  /** `parse_tus_to_sqlite`: the stale inputs parsed and written into the existing IR. */
  function ParseTusInto<U>(tc: Toolchain<U>, ir: IR<U>, stale: set<Path>, dropped: set<Path>, t: Texts): IR<U> {
    WriteTus(ir, map i | i in stale :: tc.unit(t, i), RowsOf(t, Reached(tc, stale, t)), dropped)
  }

  /** `_write_tu_inputs` for the re-parsed inputs. */
  function ReplaceEdges(tu: Edges, stale: set<Path>, renewed: Edges): Edges {
    (set e | e in tu && e.0 !in stale) + renewed
  }

  // ---- what one build hands the next ----

  datatype ParseStatus = Current | Reparse | Stale(inputs: set<Path>)

  /** `parse_status`, as a decision on the scan's outcome. */
  function StatusOf(fpMatches: bool, tracked: set<Path>, changed: set<Path>, tu: Edges): ParseStatus {
    if !fpMatches || tracked == {} then Reparse
    else if changed == {} then Current
    else if tu == {} || !(changed <= DepPaths(tu)) then Reparse
    else Stale(StaleInputs(tu, changed))
  }

  /** The IR file together with the parse tables. */
  datatype Recorded<+U> = Recorded(ir: IR<U>, tracked: map<Path, string>, tu: Edges) {
    function Status(t: Texts): ParseStatus { StatusOf(true, tracked.Keys, Changed(tracked, t), tu) }
  }

  function FullRecord<U>(tc: Toolchain<U>, t: Texts): Recorded<U> {
    Recorded(FullIR(tc, t), Shas(FullIR(tc, t).files), EdgesOf(tc, tc.inputs, t))
  }

  /** `_parse_tus_into` and `record_partial_parse`: only files still referenced stay tracked. */
  function PartialRecord<U>(tc: Toolchain<U>, r: Recorded<U>, stale: set<Path>, t: Texts): Recorded<U> {
    var ir := ParseTusInto(tc, r.ir, stale, OnlyFrom(r.tu, stale), t);
    var tu := ReplaceEdges(r.tu, stale, EdgesOf(tc, stale, t));
    Recorded(ir, map p | p in ir.files && p in DepPaths(tu) :: ir.files[p].sha, tu)
  }

  /** One build's parse half, on whatever the last one left, when the scan is right about what changed. */
  function Rebuild<U>(tc: Toolchain<U>, r: Recorded<U>, t: Texts): Recorded<U> {
    match r.Status(t)
    case Current => r
    case Reparse => FullRecord(tc, t)
    case Stale(owners) => PartialRecord(tc, r, tc.inputs * owners, t)
  }

  /** Whatever the tables hold, right or wrong: everything is re-parsed when nothing is tracked or something changed
      that no edge attributes to an input, nothing when nothing changed, and otherwise the owners of what changed. */
  lemma StatusExactlyWhen(matches: bool, tracked: set<Path>, changed: set<Path>, tu: Edges)
    ensures StatusOf(matches, tracked, changed, tu) == Reparse <==>
            !matches || tracked == {} || exists p <- changed :: p !in DepPaths(tu)
    ensures StatusOf(matches, tracked, changed, tu) == Current <==> matches && tracked != {} && changed == {}
    ensures var s := StatusOf(matches, tracked, changed, tu);
            s.Stale? ==> forall i :: i in s.inputs <==> exists p <- changed :: (i, p) in tu
  {
    if tu == {} && changed != {} {
      var p :| p in changed;
      assert p !in DepPaths(tu);
    }
    forall i ensures i in StaleInputs(tu, changed) <==> exists p <- changed :: (i, p) in tu {
      StaleExactlyWhen(tu, changed, i);
    }
  }

  lemma StaleExactlyWhen(tu: Edges, changed: set<Path>, i: Path)
    ensures i in StaleInputs(tu, changed) <==> exists p <- changed :: (i, p) in tu
  {
    if p :| p in changed && (i, p) in tu {
      assert (i, p).1 in changed;
    }
  }

  /** A change that no edge accounts for is never lost: from any record, right or wrong, the build after it is a full
      parse. */
  lemma UnattributedChangeReparses<U>(tc: Toolchain<U>, r: Recorded<U>, t: Texts, p: Path)
    requires p in Changed(r.tracked, t) && p !in DepPaths(r.tu)
    ensures Rebuild(tc, r, t) == FullRecord(tc, t)
  {
    hide Changed, DepPaths, StatusOf, FullRecord, PartialRecord;
    StatusExactlyWhen(true, r.tracked.Keys, Changed(r.tracked, t), r.tu);
  }

  // ---- a partial re-parse against the full one ----

  /** The inputs a change from t0 to t makes stale. */
  function StaleBetween<U>(tc: Toolchain<U>, t0: Texts, t: Texts): set<Path> {
    StaleInputs(EdgesOf(tc, tc.inputs, t0), Changed(Shas(FullIR(tc, t0).files), t))
  }

  /** Every file an input that is not stale reached is as it was. */
  lemma FreshInputsAgree<U>(tc: Toolchain<U>, t0: Texts, t: Texts, i: Path)
    requires tc.Attributed() && tc.Admits(t0) && i in tc.inputs && i !in StaleBetween(tc, t0, t)
    ensures Agree(t0, t, tc.deps(t0, i))
  {
    assert tc.AttributesTo(t0, i);
    forall d | d in tc.deps(t0, i) ensures d in t0 && d in t && t[d] == t0[d] {
      assert (i, d) in EdgesOf(tc, tc.inputs, t0);
      assert d in Reached(tc, tc.inputs, t0);
    }
  }

  ghost predicate FreshInputsKeep<U>(tc: Toolchain<U>, t0: Texts, t: Texts) {
    forall i {:trigger tc.SameResult(t0, t, i)} | i in tc.inputs && i !in StaleBetween(tc, t0, t) ::
        tc.SameResult(t0, t, i)
  }

  /** Under locality, an input that is not stale has the rows and the dependencies it had. */
  lemma FreshInputsKeepTheirDeps<U>(tc: Toolchain<U>, t0: Texts, t: Texts)
    requires tc.Local() && tc.Admits(t0) && tc.Admits(t)
    ensures FreshInputsKeep(tc, t0, t)
  {
    forall i | i in tc.inputs && i !in StaleBetween(tc, t0, t) ensures tc.SameResult(t0, t, i) {
      FreshInputsAgree(tc, t0, t, i);
    }
  }

  /** Nothing another input reads has moved, but for what the re-parsed inputs read afresh. */
  ghost predicate OthersUnmoved<U>(tc: Toolchain<U>, t0: Texts, stale: set<Path>, t: Texts) {
    forall i, d {:trigger Unmoved(tc, t0, t, i, d)} | i in tc.inputs && i !in stale && d !in Reached(tc, stale, t) ::
      Unmoved(tc, t0, t, i, d)
  }

  ghost predicate Unmoved<U>(tc: Toolchain<U>, t0: Texts, t: Texts, i: Path, d: Path) {
    d in tc.deps(t0, i) ==> d in t0 && d in t && t[d] == t0[d]
  }

  ghost predicate OthersKeep<U>(tc: Toolchain<U>, t0: Texts, stale: set<Path>, t: Texts) {
    forall i {:trigger tc.SameResult(t0, t, i)} | i in tc.inputs && i !in stale :: tc.SameResult(t0, t, i)
  }

  /** Re-parsing any inputs against the recorded state of any earlier sources leaves the IR, the file table and the
      dependency edges as a full parse of the current sources would exactly when every other input would parse as it
      did.  The current sources are those the parse reads, which the scan may have seen otherwise. */
  lemma PartialIsFullExactlyWhen<U>(tc: Toolchain<U>, t0: Texts, stale: set<Path>, t: Texts)
    requires tc.Attributed() && tc.Admits(t0) && tc.Admits(t) && stale <= tc.inputs
    requires OthersUnmoved(tc, t0, stale, t)
    ensures PartialRecord(tc, FullRecord(tc, t0), stale, t) == FullRecord(tc, t) <==> OthersKeep(tc, t0, stale, t)
  {
    if OthersKeep(tc, t0, stale, t) {
      forall i | i in tc.inputs && i !in stale
        ensures tc.deps(t, i) == tc.deps(t0, i) && tc.unit(t, i) == tc.unit(t0, i)
      {
        assert tc.SameResult(t0, t, i);
      }
      hide FullIR, EdgesOf, OnlyFrom, ReplaceEdges, DepPaths, Reached, RowsOf, Agree, OthersUnmoved;
      EdgesAgree(tc, t0, t, stale);
      FilesAgree(tc, t0, t, stale);
      UnitsAgree(tc, t0, t, stale);
      ReferencedIsReached(tc, t);
    }
    hide FullRecord, PartialRecord, OthersUnmoved, Toolchain.Attributed, Toolchain.Admits;
    if PartialRecord(tc, FullRecord(tc, t0), stale, t) == FullRecord(tc, t) {
      forall i | i in tc.inputs && i !in stale ensures tc.SameResult(t0, t, i) {
        FreshInputIsLeftAlone(tc, t0, t, stale, i);
      }
    }
  }

  /** What the scan called stale, when the sources hold still until they are parsed. */
  lemma PartialEqualsFull<U>(tc: Toolchain<U>, t0: Texts, t: Texts)
    requires tc.Attributed() && tc.Admits(t0) && tc.Admits(t)
    ensures PartialRecord(tc, FullRecord(tc, t0), StaleBetween(tc, t0, t), t) == FullRecord(tc, t)
       <==> FreshInputsKeep(tc, t0, t)
  {
    var stale := StaleBetween(tc, t0, t);
    StaleAreInputs(tc, t0, t);
    assert FreshInputsKeep(tc, t0, t) <==> OthersKeep(tc, t0, stale, t);
    hide FreshInputsKeep, OthersKeep;
    forall i, d | i in tc.inputs && i !in stale ensures Unmoved(tc, t0, t, i, d) {
      FreshInputsAgree(tc, t0, t, i);
    }
    hide StaleBetween, Reached, FullRecord, PartialRecord;
    PartialIsFullExactlyWhen(tc, t0, stale, t);
  }

  lemma StaleAreInputs<U>(tc: Toolchain<U>, t0: Texts, t: Texts)
    ensures StaleBetween(tc, t0, t) <= tc.inputs
  {
    hide FullIR, Changed, Shas;
  }

  lemma UnitsAgree<U>(tc: Toolchain<U>, t0: Texts, t: Texts, stale: set<Path>)
    requires stale <= tc.inputs
    requires forall i | i in tc.inputs && i !in stale :: tc.unit(t, i) == tc.unit(t0, i)
    ensures FullIR(tc, t0).units + (map i | i in stale :: tc.unit(t, i)) == FullIR(tc, t).units
  {
  }

  /** With full attribution every file row of a full parse is some input's dependency, and conversely. */
  lemma ReferencedIsReached<U>(tc: Toolchain<U>, t: Texts)
    requires tc.Attributed() && tc.Admits(t)
    ensures DepPaths(EdgesOf(tc, tc.inputs, t)) == Reached(tc, tc.inputs, t) == FullIR(tc, t).files.Keys
  {
    forall d | d in Reached(tc, tc.inputs, t) ensures d in DepPaths(EdgesOf(tc, tc.inputs, t)) && d in t {
      var i :| i in tc.inputs && d in tc.deps(t, i);
      assert tc.AttributesTo(t, i);
      assert (i, d) in EdgesOf(tc, tc.inputs, t);
    }
    hide Toolchain.Attributed;
  }

  lemma InputsAreReached<U>(tc: Toolchain<U>, t: Texts)
    requires tc.Attributed() && tc.Admits(t)
    ensures tc.inputs <= Reached(tc, tc.inputs, t)
  {
    forall i | i in tc.inputs ensures i in Reached(tc, tc.inputs, t) {
      assert tc.AttributesTo(t, i);
    }
  }

  lemma EdgesAgree<U>(tc: Toolchain<U>, t0: Texts, t: Texts, stale: set<Path>)
    requires stale <= tc.inputs
    requires forall i | i in tc.inputs && i !in stale :: tc.deps(t, i) == tc.deps(t0, i)
    ensures ReplaceEdges(EdgesOf(tc, tc.inputs, t0), stale, EdgesOf(tc, stale, t)) == EdgesOf(tc, tc.inputs, t)
  {
    var l, r := ReplaceEdges(EdgesOf(tc, tc.inputs, t0), stale, EdgesOf(tc, stale, t)), EdgesOf(tc, tc.inputs, t);
    forall e: (Path, Path) ensures e in l <==> e in r {
      assert e in r <==> e.0 in tc.inputs && e.1 in tc.deps(t, e.0);
    }
  }

  /** The file rows: a dependency of a surviving input keeps its row, one that only stale inputs had is
      dropped unless reached again, and everything the stale inputs reach is refreshed. */
  lemma FilesAgree<U>(tc: Toolchain<U>, t0: Texts, t: Texts, stale: set<Path>)
    requires tc.Attributed() && tc.Admits(t0) && tc.Admits(t) && stale <= tc.inputs
    requires forall i | i in tc.inputs && i !in stale :: tc.deps(t, i) == tc.deps(t0, i)
    requires OthersUnmoved(tc, t0, stale, t)
    ensures ParseTusInto(tc, FullIR(tc, t0), stale, OnlyFrom(EdgesOf(tc, tc.inputs, t0), stale), t).files
         == FullIR(tc, t).files
  {
    var partial := ParseTusInto(tc, FullIR(tc, t0), stale, OnlyFrom(EdgesOf(tc, tc.inputs, t0), stale), t).files;
    var full := FullIR(tc, t).files;
    hide FullIR, EdgesOf, OnlyFrom, Reached, OthersUnmoved, ParseTusInto, Toolchain.Attributed, Toolchain.Admits;
    forall d: Path ensures d in partial <==> d in full
                   ensures d in partial && d in full ==> partial[d] == full[d] {
      FileAgrees(tc, t0, t, stale, d);
    }
  }

  lemma FileAgrees<U>(tc: Toolchain<U>, t0: Texts, t: Texts, stale: set<Path>, d: Path)
    requires tc.Attributed() && tc.Admits(t0) && tc.Admits(t) && stale <= tc.inputs
    requires forall i | i in tc.inputs && i !in stale :: tc.deps(t, i) == tc.deps(t0, i)
    requires OthersUnmoved(tc, t0, stale, t)
    ensures var tu := EdgesOf(tc, tc.inputs, t0);
            var partial, full := ParseTusInto(tc, FullIR(tc, t0), stale, OnlyFrom(tu, stale), t).files,
                FullIR(tc, t).files;
            (d in partial <==> d in full) && (d in partial && d in full ==> partial[d] == full[d])
  {
    var tu := EdgesOf(tc, tc.inputs, t0);
    var partial, full := ParseTusInto(tc, FullIR(tc, t0), stale, OnlyFrom(tu, stale), t).files, FullIR(tc, t).files;
    if d in Reached(tc, stale, t) {
      var i :| i in stale && d in tc.deps(t, i);
      assert tc.AttributesTo(t, i);
      assert d in Reached(tc, tc.inputs, t);
    } else {
      if d in full {
        var i :| i in tc.inputs && d in tc.deps(t, i);
        assert i !in stale && Unmoved(tc, t0, t, i, d);
        assert (i, d) in tu && i in Owners(tu, d);
        assert d in Reached(tc, tc.inputs, t0);
      }
      if d in partial {
        SurvivingOwner(tc, t0, d, stale);
        var i :| i in tc.inputs && i !in stale && d in tc.deps(t0, i);
        assert Unmoved(tc, t0, t, i, d);
      }
    }
  }

  /** A tracked file that is not a dropped candidate still has an owner that is not re-parsed. */
  lemma SurvivingOwner<U>(tc: Toolchain<U>, t0: Texts, d: Path, stale: set<Path>)
    requires d in Reached(tc, tc.inputs, t0) && d !in OnlyFrom(EdgesOf(tc, tc.inputs, t0), stale)
    ensures exists i | i in tc.inputs && i !in stale :: d in tc.deps(t0, i)
  {
    var tu := EdgesOf(tc, tc.inputs, t0);
    var i :| i in tc.inputs && d in tc.deps(t0, i);
    assert (i, d) in tu;
    var o :| o in Owners(tu, d) && o !in stale;
    assert (o, d) in tu;
  }

  lemma NothingOnlyFromNobody(tu: Edges)
    ensures OnlyFrom(tu, {}) == {}
  {
    forall e <- tu ensures e.0 in Owners(tu, e.1) {}
  }

  lemma NothingStale<U>(tc: Toolchain<U>, r: Recorded<U>, t: Texts)
    requires r.tracked == Shas(r.ir.files) && DepPaths(r.tu) == r.ir.files.Keys
    ensures PartialRecord(tc, r, {}, t) == r
  {
    hide OnlyFrom, Reached, EdgesOf, DepPaths;
    NothingOnlyFromNobody(r.tu);
    NobodyReaches(tc, t);
    assert ReplaceEdges(r.tu, {}, {}) == r.tu;
    hide ReplaceEdges;
    assert ParseTusInto(tc, r.ir, {}, {}, t) == r.ir;
  }

  /** A changed file makes each input stale that reached it. */
  lemma ChangedMeansStale(tu: Edges, changed: set<Path>)
    requires changed <= DepPaths(tu) && changed != {}
    ensures StaleInputs(tu, changed) != {} && tu != {}
  {
    var d :| d in changed;
    var e :| e in tu && e.1 == d;
    assert e.0 in StaleInputs(tu, changed);
  }

  /** When every tracked file is attributed, the status depends on the stale inputs alone. */
  lemma StatusWhenAttributed(tracked: set<Path>, changed: set<Path>, tu: Edges)
    requires changed <= tracked == DepPaths(tu)
    ensures StatusOf(true, tracked, changed, tu) ==
            if tracked == {} then Reparse
            else if StaleInputs(tu, changed) == {} then Current else Stale(StaleInputs(tu, changed))
  {
    hide StaleInputs, DepPaths;
    if changed != {} {
      ChangedMeansStale(tu, changed);
    } else {
      NobodyStale(tu);
    }
  }

  lemma NobodyStale(tu: Edges)
    ensures StaleInputs(tu, {}) == {}
  {
  }

  lemma TrackedWhenFull<U>(tc: Toolchain<U>, t: Texts)
    requires tc.Attributed() && tc.Admits(t)
    ensures var r := FullRecord(tc, t); r.tracked.Keys == DepPaths(r.tu) && (r.tracked.Keys == {} <==> tc.inputs == {})
  {
    hide Toolchain.Attributed, FullIR, EdgesOf, Reached, DepPaths;
    ReferencedIsReached(tc, t);
    InputsAreReached(tc, t);
    NobodyReaches(tc, t);
  }

  lemma NobodyReaches<U>(tc: Toolchain<U>, t: Texts)
    ensures Reached(tc, {}, t) == {} && EdgesOf(tc, {}, t) == {}
  {
  }

  /** What the scan makes of a full record: everything only when there are no inputs, otherwise what is stale. */
  lemma StatusOfFullRecord<U>(tc: Toolchain<U>, t0: Texts, t: Texts)
    requires tc.Attributed() && tc.Admits(t0)
    ensures FullRecord(tc, t0).Status(t) ==
            if tc.inputs == {} then Reparse
            else if StaleBetween(tc, t0, t) == {} then Current else Stale(StaleBetween(tc, t0, t))
  {
    TrackedWhenFull(tc, t0);
    hide Toolchain.Attributed, FullIR, EdgesOf, Shas, DepPaths, StaleInputs, StatusOf;
    var r := FullRecord(tc, t0);
    StatusWhenAttributed(r.tracked.Keys, Changed(r.tracked, t), r.tu);
  }

  /** Whatever branch it takes, a build on a full record is the partial re-parse of what is stale. */
  lemma RebuildOfFullRecord<U>(tc: Toolchain<U>, t0: Texts, t: Texts)
    requires tc.Attributed() && tc.Admits(t0) && tc.Admits(t)
    ensures Rebuild(tc, FullRecord(tc, t0), t) == PartialRecord(tc, FullRecord(tc, t0), StaleBetween(tc, t0, t), t)
  {
    StatusOfFullRecord(tc, t0, t);
    ReferencedIsReached(tc, t0);
    StaleAreInputs(tc, t0, t);
    var r, stale := FullRecord(tc, t0), StaleBetween(tc, t0, t);
    if tc.inputs == {} {
      NoInputs(tc, t0, t);
    }
    assert tc.inputs * stale == stale;
    hide Toolchain.Attributed, FullIR, EdgesOf, Shas, Reached, DepPaths, StaleBetween, PartialRecord, Recorded.Status;
    if stale == {} {
      NothingStale(tc, r, t);
    }
  }

  lemma NoInputs<U>(tc: Toolchain<U>, t0: Texts, t: Texts)
    requires tc.inputs == {}
    ensures FullRecord(tc, t) == FullRecord(tc, t0)
  {
    hide Reached, EdgesOf;
    NobodyReaches(tc, t);
    NobodyReaches(tc, t0);
  }

  /** One build on the record of any earlier sources gives the record of the current ones exactly when every input
      it does not re-parse would parse as it did: the code needs locality, and needs no more. */
  lemma RebuildIsFullExactlyWhen<U>(tc: Toolchain<U>, t0: Texts, t: Texts)
    requires tc.Attributed() && tc.Admits(t0) && tc.Admits(t)
    ensures Rebuild(tc, FullRecord(tc, t0), t) == FullRecord(tc, t) <==> FreshInputsKeep(tc, t0, t)
  {
    hide Rebuild, PartialRecord, StaleBetween, Toolchain.Attributed, FreshInputsKeep;
    RebuildOfFullRecord(tc, t0, t);
    PartialEqualsFull(tc, t0, t);
  }

  /** A partial re-parse keeps the rows and the edges of every other input. */
  lemma FreshInputIsLeftAlone<U>(tc: Toolchain<U>, t0: Texts, t: Texts, stale: set<Path>, i: Path)
    requires i in tc.inputs && i !in stale
    requires PartialRecord(tc, FullRecord(tc, t0), stale, t) == FullRecord(tc, t)
    ensures tc.SameResult(t0, t, i)
  {
    var r' := PartialRecord(tc, FullRecord(tc, t0), stale, t);
    assert r'.ir.units[i] == tc.unit(t0, i) by { hide RowsOf, Reached, EdgesOf, OnlyFrom, ReplaceEdges; }
    assert FullIR(tc, t).units[i] == tc.unit(t, i);
    assert r'.tu == EdgesOf(tc, tc.inputs, t);
    forall d ensures d in tc.deps(t, i) <==> d in tc.deps(t0, i) {
      assert (i, d) in EdgesOf(tc, tc.inputs, t) <==> d in tc.deps(t, i);
      assert (i, d) in r'.tu <==> (i, d) in EdgesOf(tc, tc.inputs, t0);
    }
  }

  lemma RebuildIsFull<U>(tc: Toolchain<U>, t0: Texts, t: Texts)
    requires tc.Local() && tc.Admits(t0) && tc.Admits(t)
    ensures Rebuild(tc, FullRecord(tc, t0), t) == FullRecord(tc, t)
  {
    FreshInputsKeepTheirDeps(tc, t0, t);
    RebuildIsFullExactlyWhen(tc, t0, t);
  }

  /** The state after building each of these sources in turn, the last one last. */
  function BuildEach<U>(tc: Toolchain<U>, r: Recorded<U>, edits: seq<Texts>): Recorded<U> {
    if edits == [] then r else Rebuild(tc, BuildEach(tc, r, edits[..|edits| - 1]), edits[|edits| - 1])
  }

  /** After any run of edits and builds, the IR, the tracked files and the dependency edges are those of one
      full parse of the sources as they are now. */
  lemma {:induction false} AnyRunIsAFullParse<U>(tc: Toolchain<U>, first: Texts, edits: seq<Texts>)
    requires tc.Local() && tc.Admits(first) && forall t <- edits :: tc.Admits(t)
    ensures BuildEach(tc, FullRecord(tc, first), edits) ==
            FullRecord(tc, if edits == [] then first else edits[|edits| - 1])
  {
    if edits != [] {
      AnyRunIsAFullParse(tc, first, edits[..|edits| - 1]);
      RebuildIsFull(tc, if |edits| == 1 then first else edits[|edits| - 2], edits[|edits| - 1]);
    }
  }
}
