/** The bookkeeping database of src/clangquill/cache.py. */
module BuildCache {
  import opened Wrappers
  import opened IncrementalParse

  // One class whose fields are the tables, each method one committed transaction.  Every method is proved
  // to leave the whole set of tables as its specification function says, and nothing else changed.

  datatype Stat = Stat(mtime: int, size: int)
  datatype File = File(text: string, stat: Stat)
  type Disk = map<string, File>

  function TextsOf(disk: Disk): Texts { map p | p in disk :: disk[p].text }

  /** A row of `inputs` or `outputs`: the digest, and the stat the fast path compares. */
  datatype Row = Row(sha: string, mtime: Option<int>, size: Option<int>) {
    /** The fast path: both columns are set and equal the file's stat. */
    predicate StatMatches(stat: Stat) { mtime == Some(stat.mtime) && size == Some(stat.size) }

    predicate Intact(disk: Disk, name: string) {
      name in disk && (StatMatches(disk[name].stat) || disk[name].text == sha)
    }

    function Heal(disk: Disk, name: string): Row {
      if name in disk && !StatMatches(disk[name].stat) && disk[name].text == sha
      then Row(sha, Some(disk[name].stat.mtime), Some(disk[name].stat.size)) else this
    }
  }

  datatype PageRow = PageRow(key: string, text: string)
  datatype RenderMeta = RenderMeta(fp: string, stems: seq<string>)

  /** `_parse_fingerprint`: what it digests, the resolved inputs among it. */
  datatype ParseFp = ParseFp(config: string, inputs: set<Path>)

  /** `_MTIME_GRANULARITY_NS`. */
  const GRANULARITY := 2_000_000_000

  /** `_fast_path_mtime`: a file touched at or after the parse began stores no mtime. */
  function FastPathMtime(disk: Disk, path: Path, started: Option<int>): Option<int> {
    if path !in disk then None
    else if started.Some? && disk[path].stat.mtime >= started.value - GRANULARITY then None
    else Some(disk[path].stat.mtime)
  }

  function Tracked(inputs: map<Path, Row>): map<Path, string> { map p | p in inputs :: inputs[p].sha }

  function ScanChanged(inputs: map<Path, Row>, disk: Disk): set<Path> {
    set p | p in inputs && !inputs[p].Intact(disk, p)
  }

  function Healed(rows: map<string, Row>, disk: Disk): map<string, Row> {
    map p | p in rows :: rows[p].Heal(disk, p)
  }

  function SnapshotRows(files: map<Path, FileRow>, kept: set<Path>, disk: Disk, started: Option<int>): map<Path, Row> {
    map p | p in files && p in kept :: Row(files[p].sha, FastPathMtime(disk, p, started), Some(files[p].size))
  }

  function EdgesIn(tuDeps: map<Path, set<Path>>): Edges { set i, d | i in tuDeps && d in tuDeps[i] :: (i, d) }

  /** The fast path is right about these rows: a file whose stat matches still holds the recorded text. */
  ghost predicate Trusted(rows: map<string, Row>, disk: Disk) {
    forall n <- rows :: n in disk && rows[n].StatMatches(disk[n].stat) ==> disk[n].text == rows[n].sha
  }

  /** Every stored page holds what rendering its key gives. */
  ghost predicate PagesSound(pages: map<string, PageRow>, textOf: (string, string) -> string) {
    forall stem <- pages :: pages[stem].text == textOf(stem, pages[stem].key)
  }

  class BuildCache {
    var parseFp: Option<ParseFp>
    var inputs: map<Path, Row>
    var tuInputs: Edges
    var outputs: map<string, Row>
    var pages: map<string, PageRow>
    var render: Option<RenderMeta>

    /** `open` on a cache written by another CACHE_VERSION, or on none: everything is forgotten. */
    constructor Reset()
      ensures parseFp == None && inputs == map[] && tuInputs == {}
      ensures outputs == map[] && pages == map[] && render == None
    {
      parseFp, inputs, tuInputs, outputs, pages, render := None, map[], {}, map[], map[], None;
    }

    /** `_scan_inputs`: rows whose stat still matches are skipped, the rest are hashed; touched-but-identical rows
        are healed. */
    method ScanInputs(disk: Disk) returns (changed: set<Path>)
      modifies this`inputs
      ensures changed == ScanChanged(old(inputs), disk)
      ensures inputs == Healed(old(inputs), disk)
    {
      var rows := inputs;
      changed := {};
      var refreshed: map<Path, Row> := map[];
      var todo := rows.Keys;
      while todo != {}
        invariant todo <= rows.Keys
        invariant forall p :: p in changed <==> p in rows && p !in todo && !rows[p].Intact(disk, p)
        invariant forall p <- refreshed :: p in rows && p !in todo
        invariant forall p <- rows :: p !in todo ==>
            rows[p].Heal(disk, p) == if p in refreshed then refreshed[p] else rows[p]
        decreases todo
      {
        var path :| path in todo;
        var row := rows[path];
        if path !in disk {
          changed := changed + {path};
        } else if row.StatMatches(disk[path].stat) {
          // metadata unchanged: the hash read is skipped
        } else if disk[path].text != row.sha {
          changed := changed + {path};
        } else {
          refreshed := refreshed[path := row.Heal(disk, path)];
        }
        todo := todo - {path};
      }
      assert rows + refreshed == Healed(rows, disk);
      inputs := rows + refreshed;
    }

    /** `tu_inputs`: the edges as a map from dependency to the inputs that need it. */
    method OwnersByDep() returns (mapping: map<Path, set<Path>>)
      ensures mapping.Keys == DepPaths(tuInputs)
      ensures forall d <- mapping :: mapping[d] == Owners(tuInputs, d)
    {
      mapping := map[];
      var todo, done := tuInputs, {};
      while todo != {}
        invariant todo + done == tuInputs && todo !! done
        invariant mapping.Keys == DepPaths(done)
        invariant forall d <- mapping :: mapping[d] == Owners(done, d)
        decreases |todo|
      {
        var e :| e in todo;
        todo, done := todo - {e}, done + {e};
        mapping := mapping[e.1 := (if e.1 in mapping then mapping[e.1] else {}) + {e.0}];
      }
    }

    /** `deps_only_from`. */
    method DepsOnlyFrom(owners: set<Path>) returns (deps: set<Path>)
      ensures deps == OnlyFrom(tuInputs, owners)
      ensures forall d <- deps :: forall i :: (i, d) in tuInputs ==> i in owners
    {
      var mapping := OwnersByDep();
      deps := set d | d in mapping && mapping[d] != {} && mapping[d] <= owners;
      forall d | d in deps ensures d in OnlyFrom(tuInputs, owners) {
        var e :| e in tuInputs && e.1 == d;
      }
      forall d | d in OnlyFrom(tuInputs, owners) ensures d in deps {
        var e :| e in tuInputs && e.1 == d;
        assert e.0 in Owners(tuInputs, d);
      }
      forall d, i | d in deps && (i, d) in tuInputs ensures i in owners {
        assert i in Owners(tuInputs, d);
      }
    }

    /** `parse_status`: nothing changed, everything must be re-parsed, or exactly these inputs are stale. */
    method ParseStatus(fp: ParseFp, disk: Disk) returns (status: ParseStatus)
      modifies this`inputs
      ensures status == StatusOf(old(parseFp) == Some(fp), old(inputs).Keys, ScanChanged(old(inputs), disk),
                                 old(tuInputs))
      ensures inputs == if old(parseFp) == Some(fp) then Healed(old(inputs), disk) else old(inputs)
    {
      if parseFp != Some(fp) || inputs == map[] {
        if inputs == map[] {
          assert Healed(inputs, disk) == inputs;
        }
        return Reparse;
      }
      var changed := ScanInputs(disk);
      if changed == {} {
        return Current;
      }
      var mapping := OwnersByDep();
      if mapping == map[] {
        assert forall e <- tuInputs :: e.1 in DepPaths(tuInputs);
        return Reparse;
      }
      var stale, todo := {}, changed;
      while todo != {}
        invariant todo <= changed && changed - todo <= mapping.Keys
        invariant stale == StaleInputs(tuInputs, changed - todo)
        invariant inputs == Healed(old(inputs), disk)
        decreases |todo|
      {
        var dep :| dep in todo;
        if dep !in mapping {
          return Reparse;
        }
        assert changed - (todo - {dep}) == (changed - todo) + {dep};
        StaleAdd(tuInputs, changed - todo, dep);
        todo := todo - {dep};
        stale := stale + mapping[dep];
      }
      assert changed - todo == changed;
      status := Stale(stale);
    }

    /** `_write_tu_inputs`: each listed input's rows are deleted and its fresh ones inserted. */
    method WriteTuInputs(tuDeps: map<Path, set<Path>>)
      modifies this`tuInputs
      ensures tuInputs == ReplaceEdges(old(tuInputs), tuDeps.Keys, EdgesIn(tuDeps))
    {
      var todo := tuDeps.Keys;
      while todo != {}
        invariant todo <= tuDeps.Keys
        invariant tuInputs == set e | e in old(tuInputs) + EdgesIn(tuDeps) &&
                                      (if e.0 in tuDeps.Keys - todo then e in EdgesIn(tuDeps) else e in old(tuInputs))
        decreases |todo|
      {
        var i :| i in todo;
        todo := todo - {i};
        tuInputs := (set e | e in tuInputs && e.0 != i) + (set d | d in tuDeps[i] :: (i, d));
      }
    }

    /** `record_parse`. */
    method RecordParse(fp: ParseFp, files: map<Path, FileRow>, tuDeps: map<Path, set<Path>>, disk: Disk,
                       started: Option<int>)
      modifies this`parseFp, this`inputs, this`tuInputs, this`render
      ensures parseFp == Some(fp) && render == None
      ensures inputs == SnapshotRows(files, files.Keys, disk, started)
      ensures tuInputs == EdgesIn(tuDeps)
    {
      parseFp := Some(fp);
      inputs := SnapshotRows(files, files.Keys, disk, started);
      tuInputs := {};
      WriteTuInputs(tuDeps);
      render := None;
    }

    /** `record_partial_parse`: only files some translation unit still references keep a row. */
    method RecordPartialParse(tuDeps: map<Path, set<Path>>, files: map<Path, FileRow>, disk: Disk, started: Option<int>)
      modifies this`inputs, this`tuInputs, this`render
      ensures tuInputs == ReplaceEdges(old(tuInputs), tuDeps.Keys, EdgesIn(tuDeps))
      ensures inputs == SnapshotRows(files, DepPaths(tuInputs), disk, started)
      ensures render == None
    {
      WriteTuInputs(tuDeps);
      inputs := SnapshotRows(files, DepPaths(tuInputs), disk, started);
      render := None;
    }

    /** `cached_page`: exactly the page stored under this very key, and so what rendering the key would give. */
    method CachedPage(stem: string, key: string, ghost textOf: (string, string) -> string)
      returns (text: Option<string>)
      requires PagesSound(pages, textOf)
      ensures text == Hit(pages, stem, key)
      ensures text.Some? ==> text.value == textOf(stem, key)
    {
      if stem in pages && pages[stem].key == key {
        return Some(pages[stem].text);
      }
      return None;
    }

    /** `record_pages`: stale stems deleted, the freshly rendered pages upserted. */
    method RecordPages(rendered: map<string, PageRow>, stems: set<string>)
      modifies this`pages
      ensures pages == PagesAfter(old(pages), rendered, stems)
    {
      var stale := set stem | stem in pages && stem !in stems;
      pages := pages - stale + rendered;
    }

    /** `record_outputs`. */
    method RecordOutputs(index: map<string, Row>)
      modifies this`outputs
      ensures outputs == index
    {
      outputs := index;
    }

    /** `record_render`. */
    method RecordRender(fp: string, stems: seq<string>)
      modifies this`render
      ensures render == Some(RenderMeta(fp, stems))
    {
      render := Some(RenderMeta(fp, stems));
    }
  }

  function Hit(pages: map<string, PageRow>, stem: string, key: string): Option<string> {
    if stem in pages && pages[stem].key == key then Some(pages[stem].text) else None
  }

  function PagesAfter(pages: map<string, PageRow>, rendered: map<string, PageRow>, stems: set<string>)
    : map<string, PageRow>
  {
    (map stem | stem in pages && stem in stems :: pages[stem]) + rendered
  }

  /** What `cached_page` answers after `record_pages`: a page just rendered is served under its own key and no other,
      a page that left the render is forgotten, and any other answers as before. */
  lemma HitsAfterRecording(pages: map<string, PageRow>, rendered: map<string, PageRow>, stems: set<string>,
                           stem: string, key: string)
    ensures var hit := Hit(PagesAfter(pages, rendered, stems), stem, key);
            if stem in rendered then hit.Some? <==> key == rendered[stem].key
            else if stem in stems then hit == Hit(pages, stem, key) else hit == None
    ensures stem in rendered ==>
              Hit(PagesAfter(pages, rendered, stems), stem, rendered[stem].key) == Some(rendered[stem].text)
  {
  }

  lemma StaleAdd(tu: Edges, changed: set<Path>, dep: Path)
    ensures StaleInputs(tu, changed + {dep}) == StaleInputs(tu, changed) + Owners(tu, dep)
  {
    forall i ensures i in StaleInputs(tu, changed + {dep}) <==> i in StaleInputs(tu, changed) + Owners(tu, dep) {
      if i in StaleInputs(tu, changed + {dep}) {
        var e :| e in tu && e.1 in changed + {dep} && e.0 == i;
      }
    }
  }
}
