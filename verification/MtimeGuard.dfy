/** Why a matching stat may be trusted (`_fast_path_mtime`, `_scan_inputs` in src/clangquill/cache.py). */
module MtimeGuard {
  import opened Wrappers
  import opened IncrementalParse
  import opened BuildCache

  // The stored digest was computed by the parser some time after the parse began, the stat was taken later
  // still, and file systems truncate timestamps by up to two seconds.

  /** One write of a file: when it happened, the mtime the file system stored, the text it left. */
  datatype Write = Write(at: int, mtime: int, text: string)

  /** The writes of one file in clock order; a stored mtime is at most the granularity behind the clock
      (it may run ahead, as on a network mount with a skewed clock). */
  ghost predicate IsHistory(h: seq<Write>) {
    && (forall i, j | 0 <= i < j < |h| :: h[i].at <= h[j].at)
    && (forall i | 0 <= i < |h| :: h[i].at - GRANULARITY <= h[i].mtime)
  }

  /** How many writes have happened by time t. */
  function WritesBy(h: seq<Write>, t: int): (n: nat)
    ensures n <= |h|
    ensures n > 0 ==> h[n - 1].at <= t
  {
    if h == [] then 0 else if h[|h| - 1].at <= t then |h| else WritesBy(h[..|h| - 1], t)
  }

  lemma {:induction false} WritesByCounts(h: seq<Write>, t: int, k: nat)
    requires IsHistory(h) && k < |h|
    ensures k < WritesBy(h, t) <==> h[k].at <= t
  {
    if h[|h| - 1].at > t && k < |h| - 1 {
      WritesByCounts(h[..|h| - 1], t, k);
    }
  }

  /** The write whose text and mtime a reader sees at time t. */
  function Seen(h: seq<Write>, t: int): Option<Write> {
    if WritesBy(h, t) == 0 then None else Some(h[WritesBy(h, t) - 1])
  }

  /** Times at or after the last write before `started` and up to it see the same write. */
  lemma SameWrite(h: seq<Write>, early: int, late: int)
    requires IsHistory(h) && early <= late && Seen(h, late).Some? && Seen(h, late).value.at <= early
    ensures Seen(h, early) == Seen(h, late)
  {
    var n, m := WritesBy(h, early), WritesBy(h, late);
    WritesByCounts(h, early, m - 1);
    if n > 0 {
      WritesByCounts(h, late, n - 1);
    }
  }

  /** The restat guard: hashed at or after the parse began, stat'd at or after that, stored only if the mtime is
      more than the granularity older than the parse.  If the stat still matches later,
      the content is what was hashed. */
  lemma GuardedStatIsSound(h: seq<Write>, started: int, hashed: int, recorded: int, later: int)
    requires IsHistory(h) && started <= hashed <= recorded <= later
    requires Seen(h, recorded).Some? && Seen(h, recorded).value.mtime < started - GRANULARITY
    requires Seen(h, later).Some? && Seen(h, later).value.mtime == Seen(h, recorded).value.mtime
    ensures Seen(h, later) == Seen(h, hashed)
  {
    SameWrite(h, hashed, recorded);
    SameWrite(h, recorded, later);
  }

  /** The disk at time t, when every path has a history. */
  function DiskAt(hs: map<Path, seq<Write>>, t: int): Disk {
    map p | p in hs && Seen(hs[p], t).Some? ::
      var w := Seen(hs[p], t).value; File(w.text, Stat(w.mtime, |w.text|))
  }

  ghost predicate AreHistories(hs: map<Path, seq<Write>>) { forall p <- hs :: IsHistory(hs[p]) }

  /** The hypothesis the incremental build makes about its `inputs` table, from this time on. */
  ghost predicate SoundFrom(rows: map<Path, Row>, hs: map<Path, seq<Write>>, now: int) {
    forall later | now <= later :: Trusted(rows, DiskAt(hs, later))
  }

  /** A digest filed under a stat that is older than the guard looks back, of the right size, and not of that text. */
  ghost predicate Misfiled(h: seq<Write>, file: FileRow, started: int, recorded: int) {
    && Seen(h, recorded).Some? && Seen(h, recorded).value.mtime < started - GRANULARITY
    && |Seen(h, recorded).value.text| == file.size && Seen(h, recorded).value.text != file.sha
  }

  /** The rows a parse stores, full or partial, wherever their digests come from, are right to trust at any later time
      exactly when none is misfiled: whatever is written afterwards, the guard has seen to it. */
  lemma SnapshotIsSoundExactlyWhen(hs: map<Path, seq<Write>>, files: map<Path, FileRow>, kept: set<Path>,
                                   started: int, recorded: int)
    requires AreHistories(hs) && started <= recorded
    ensures SoundFrom(SnapshotRows(files, kept, DiskAt(hs, recorded), Some(started)), hs, recorded)
       <==> forall p | p in files && p in kept && p in hs :: !Misfiled(hs[p], files[p], started, recorded)
  {
    var disk := DiskAt(hs, recorded);
    var rows := SnapshotRows(files, kept, disk, Some(started));
    if SoundFrom(rows, hs, recorded) {
      assert Trusted(rows, disk);
      forall p | p in files && p in kept && p in hs ensures !Misfiled(hs[p], files[p], started, recorded) {
        assert p in rows;
      }
    }
    if forall p | p in files && p in kept && p in hs :: !Misfiled(hs[p], files[p], started, recorded) {
      forall later, p | recorded <= later && p in rows && p in DiskAt(hs, later) &&
          rows[p].StatMatches(DiskAt(hs, later)[p].stat)
        ensures DiskAt(hs, later)[p].text == rows[p].sha
      {
        SameWrite(hs[p], recorded, later);
        assert !Misfiled(hs[p], files[p], started, recorded);
      }
    }
  }

  /** No digest is older than the parse: each is that of a text seen between its start and the stat. */
  ghost predicate ReadDuring(hs: map<Path, seq<Write>>, files: map<Path, FileRow>, kept: set<Path>, started: int,
                             recorded: int) {
    forall p | p in files && p in kept && p in hs :: ReadBetween(hs[p], files[p].sha, started, recorded)
  }

  ghost predicate ReadBetween(h: seq<Write>, text: string, started: int, recorded: int) {
    exists when | started <= when <= recorded :: Seen(h, when).Some? && Seen(h, when).value.text == text
  }

  /** Then the rows may be trusted, whatever was written during the parse or after it. */
  lemma RecordedRowsAreTrusted(hs: map<Path, seq<Write>>, files: map<Path, FileRow>, kept: set<Path>, started: int,
                               recorded: int)
    requires AreHistories(hs) && started <= recorded && ReadDuring(hs, files, kept, started, recorded)
    ensures SoundFrom(SnapshotRows(files, kept, DiskAt(hs, recorded), Some(started)), hs, recorded)
  {
    forall p | p in files && p in kept && p in hs ensures !Misfiled(hs[p], files[p], started, recorded) {
      assert ReadBetween(hs[p], files[p].sha, started, recorded);
      var when :| started <= when <= recorded && Seen(hs[p], when).Some? &&
          Seen(hs[p], when).value.text == files[p].sha;
      if Misfiled(hs[p], files[p], started, recorded) {
        GuardedStatIsSound(hs[p], started, when, recorded, recorded);
      }
    }
    SnapshotIsSoundExactlyWhen(hs, files, kept, started, recorded);
  }

  // ---- digests that are older than the parse ----

  /** One row for one file. */
  lemma MisfiledIsTrusted(f: Path, h: seq<Write>, file: FileRow, started: int, recorded: int)
    requires IsHistory(h) && started <= recorded && Misfiled(h, file, started, recorded)
    ensures var hs: map<Path, seq<Write>> := map[f := h];
            !SoundFrom(SnapshotRows(map[f := file], {f}, DiskAt(hs, recorded), Some(started)), hs, recorded)
  {
    var hs: map<Path, seq<Write>> := map[f := h];
    SnapshotIsSoundExactlyWhen(hs, map[f := file], {f}, started, recorded);
    assert f in hs && hs[f] == h;
  }

  /** A partial re-parse also stores rows of files it did not read, with the digest the scan compared.  The guard counts
      from the parse, not from the scan before it, so a long enough scan leaves room for an edit of the same size. */
  lemma UnreadRowCanMissAnEdit()
    ensures var h := [Write(1_000_000_000, 1_000_000_000, "old"), Write(3_000_000_000, 3_000_000_000, "new")];
            var scanned, started, recorded := 2_000_000_000, 10_000_000_000, 11_000_000_000;
            var hs: map<Path, seq<Write>> := map["f" := h];
            && IsHistory(h) && Seen(h, scanned) == Some(h[0])
            && !SoundFrom(SnapshotRows(map["f" := RowOf("old")], {"f"}, DiskAt(hs, recorded), Some(started)), hs,
                          recorded)
  {
    var h := [Write(1_000_000_000, 1_000_000_000, "old"), Write(3_000_000_000, 3_000_000_000, "new")];
    hide DiskAt, SnapshotRows, SoundFrom;
    WritesByCounts(h, 2_000_000_000, 0);
    WritesByCounts(h, 2_000_000_000, 1);
    WritesByCounts(h, 11_000_000_000, 1);
    assert "old"[0] != "new"[0];
    MisfiledIsTrusted("f", h, RowOf("old"), 10_000_000_000, 11_000_000_000);
  }

  /** An entry of the digest cache `record_file` keeps for the life of a process. */
  datatype CachedHash = CachedHash(mtime: int, size: int, sha: string)

  function Remembered(w: Write): CachedHash { CachedHash(w.mtime, |w.text|, w.text) }

  /** `record_file`: the remembered digest while the stat is the same, a fresh one otherwise. */
  function RecordFile(cached: Option<CachedHash>, seen: Write): FileRow {
    if cached.Some? && cached.value.mtime == seen.mtime && cached.value.size == |seen.text|
    then FileRow(cached.value.sha, cached.value.size) else RowOf(seen.text)
  }

  /** So a second parse in one process can file the digest of an earlier one. */
  lemma ServedDigestCanMissAnEdit()
    ensures var h := [Write(1_000_000_000, 0, "old"), Write(1_500_000_000, 0, "new")];
            var first, second := 1_200_000_000, 10_000_000_000;
            var hs: map<Path, seq<Write>> := map["f" := h];
            && IsHistory(h) && Seen(h, first) == Some(h[0]) && Seen(h, second) == Some(h[1])
            && RecordFile(Some(Remembered(h[0])), h[1]) == RowOf("old")
            && !SoundFrom(SnapshotRows(map["f" := RowOf("old")], {"f"}, DiskAt(hs, second), Some(second)), hs, second)
  {
    var h := [Write(1_000_000_000, 0, "old"), Write(1_500_000_000, 0, "new")];
    hide DiskAt, SnapshotRows, SoundFrom;
    WritesByCounts(h, 1_200_000_000, 0);
    WritesByCounts(h, 1_200_000_000, 1);
    WritesByCounts(h, 10_000_000_000, 1);
    assert "old"[0] != "new"[0];
    MisfiledIsTrusted("f", h, RowOf("old"), 10_000_000_000, 10_000_000_000);
  }

  // ---- stats taken without a guard ----

  /** No other write follows at the same clock reading, so a reader can see this one. */
  ghost predicate EndsInstant(h: seq<Write>, k: int)
    requires 0 <= k < |h|
  {
    k + 1 < |h| ==> h[k].at < h[k + 1].at
  }

  predicate SameStat(a: Write, b: Write) { a.mtime == b.mtime && |a.text| == |b.text| }

  /** Every later write a reader can see that puts another text in place of the one seen at time t shows in the stat. */
  ghost predicate ToldApart(h: seq<Write>, t: int)
    requires Seen(h, t).Some?
  {
    forall k | 0 <= k < |h| && t < h[k].at && EndsInstant(h, k) ::
      SameStat(h[k], Seen(h, t).value) ==> h[k].text == Seen(h, t).value.text
  }

  lemma ToldApartMeans(h: seq<Write>, t: int)
    requires IsHistory(h) && Seen(h, t).Some?
    ensures ToldApart(h, t) <==>
            forall later | t <= later && Seen(h, later).Some? ::
              SameStat(Seen(h, later).value, Seen(h, t).value) ==> Seen(h, later).value.text == Seen(h, t).value.text
  {
    hide IsHistory, Seen, SameStat;
    if ToldApart(h, t) {
      forall later | t <= later && Seen(h, later).Some? && SameStat(Seen(h, later).value, Seen(h, t).value)
        ensures Seen(h, later).value.text == Seen(h, t).value.text
      {
        LastSeenIsLast(h, t, later);
      }
    }
    forall k | 0 <= k < |h| && t < h[k].at && EndsInstant(h, k) ensures Seen(h, h[k].at) == Some(h[k]) {
      LastOfInstantIsSeen(h, k);
    }
  }

  lemma LastOfInstantIsSeen(h: seq<Write>, k: nat)
    requires IsHistory(h) && k < |h| && EndsInstant(h, k)
    ensures Seen(h, h[k].at) == Some(h[k])
  {
    WritesByCounts(h, h[k].at, k);
    if k + 1 < |h| {
      WritesByCounts(h, h[k].at, k + 1);
    }
  }

  /** What is seen later is what was seen at t, or the last write of an instant after t. */
  lemma LastSeenIsLast(h: seq<Write>, t: int, later: int)
    requires IsHistory(h) && t <= later && Seen(h, t).Some?
    ensures Seen(h, later) == Seen(h, t) ||
            exists k | 0 <= k < |h| && t < h[k].at && EndsInstant(h, k) :: Seen(h, later) == Some(h[k])
  {
    var n := WritesBy(h, later);
    WritesByCounts(h, later, WritesBy(h, t) - 1);
    var k := n - 1;
    if h[k].at <= t {
      SameWrite(h, t, later);
    } else {
      if k + 1 < |h| {
        WritesByCounts(h, later, k + 1);
      }
      assert EndsInstant(h, k) && Seen(h, later) == Some(h[k]);
    }
  }

  /** The digest a process remembers at time t serves every later parse right exactly then. */
  lemma RememberedIsRightExactlyWhen(h: seq<Write>, t: int)
    requires IsHistory(h) && Seen(h, t).Some?
    ensures ToldApart(h, t) <==>
            forall later | t <= later && Seen(h, later).Some? ::
              RecordFile(Some(Remembered(Seen(h, t).value)), Seen(h, later).value) == RowOf(Seen(h, later).value.text)
  {
    ToldApartMeans(h, t);
    hide ToldApart, Seen, IsHistory;
  }

  /** The rows a scan heals: touched, and the same text. */
  predicate Heals(rows: map<Path, Row>, disk: Disk, p: Path) {
    p in rows && p in disk && !rows[p].StatMatches(disk[p].stat) && disk[p].text == rows[p].sha
  }

  /** A scan leaves a table that may be trusted from then on exactly when every later write to a file whose row it heals
      shows in the stat: healed rows carry no guard. */
  lemma HealedTableIsSoundExactlyWhen(rows: map<Path, Row>, hs: map<Path, seq<Write>>, now: int)
    requires AreHistories(hs) && SoundFrom(rows, hs, now)
    ensures SoundFrom(Healed(rows, DiskAt(hs, now)), hs, now)
       <==> forall p | Heals(rows, DiskAt(hs, now), p) :: ToldApart(hs[p], now)
  {
    var disk := DiskAt(hs, now);
    var healed := Healed(rows, disk);
    if SoundFrom(healed, hs, now) {
      forall p | Heals(rows, disk, p) ensures ToldApart(hs[p], now) {
        HealedRowTellsApart(rows, hs, now, p);
      }
    }
    if forall p | Heals(rows, disk, p) :: ToldApart(hs[p], now) {
      forall later, p | now <= later && p in healed && p in DiskAt(hs, later) &&
          healed[p].StatMatches(DiskAt(hs, later)[p].stat)
        ensures DiskAt(hs, later)[p].text == healed[p].sha
      {
        assert Trusted(rows, DiskAt(hs, later));
        if Heals(rows, disk, p) {
          ToldApartMeans(hs[p], now);
        }
      }
    }
  }

  lemma HealedRowTellsApart(rows: map<Path, Row>, hs: map<Path, seq<Write>>, now: int, p: Path)
    requires AreHistories(hs) && SoundFrom(Healed(rows, DiskAt(hs, now)), hs, now) && Heals(rows, DiskAt(hs, now), p)
    ensures ToldApart(hs[p], now)
  {
    var healed := Healed(rows, DiskAt(hs, now));
    forall later | now <= later && Seen(hs[p], later).Some? &&
        SameStat(Seen(hs[p], later).value, Seen(hs[p], now).value)
      ensures Seen(hs[p], later).value.text == Seen(hs[p], now).value.text
    {
      assert Trusted(healed, DiskAt(hs, later));
    }
    ToldApartMeans(hs[p], now);
  }

  /** Of a row whose stat still matches, as much is true already. */
  lemma MatchedIsToldApart(rows: map<Path, Row>, hs: map<Path, seq<Write>>, now: int, p: Path)
    requires AreHistories(hs) && SoundFrom(rows, hs, now)
    requires p in rows && p in DiskAt(hs, now) && rows[p].StatMatches(DiskAt(hs, now)[p].stat)
    ensures ToldApart(hs[p], now)
  {
    forall later | now <= later && Seen(hs[p], later).Some? &&
        SameStat(Seen(hs[p], later).value, Seen(hs[p], now).value)
      ensures Seen(hs[p], later).value.text == Seen(hs[p], now).value.text
    {
      assert Trusted(rows, DiskAt(hs, later)) && Trusted(rows, DiskAt(hs, now));
    }
    ToldApartMeans(hs[p], now);
  }

  /** A row without a stat is healed when its text is found again, and then trusted too far if a write follows that
      does not show. */
  lemma HealedRowIsTrusted(f: Path, h: seq<Write>, now: int)
    requires IsHistory(h) && Seen(h, now).Some? && !ToldApart(h, now)
    ensures var hs: map<Path, seq<Write>>, rows: map<Path, Row> := map[f := h],
        map[f := Row(Seen(h, now).value.text, None, None)];
            SoundFrom(rows, hs, now) && !SoundFrom(Healed(rows, DiskAt(hs, now)), hs, now)
  {
    var hs: map<Path, seq<Write>>, rows: map<Path, Row> := map[f := h],
        map[f := Row(Seen(h, now).value.text, None, None)];
    assert hs[f] == h && Heals(rows, DiskAt(hs, now), f);
    HealedTableIsSoundExactlyWhen(rows, hs, now);
  }

  /** Two writes of one size in one timestamp granule, the heal between them: the second is missed for good. */
  lemma HealedRowCanMissAnEdit()
    ensures var h := [Write(1_000_000_000, 0, "old"), Write(1_500_000_000, 0, "new")];
            var hs: map<Path, seq<Write>>, rows: map<Path, Row>, now := map["f" := h],
                map["f" := Row("old", None, None)], 1_200_000_000;
            IsHistory(h) && SoundFrom(rows, hs, now) && !SoundFrom(Healed(rows, DiskAt(hs, now)), hs, now)
  {
    var h := [Write(1_000_000_000, 0, "old"), Write(1_500_000_000, 0, "new")];
    WritesByCounts(h, 1_200_000_000, 0);
    WritesByCounts(h, 1_200_000_000, 1);
    assert Seen(h, 1_200_000_000) == Some(h[0]) && EndsInstant(h, 1) && SameStat(h[1], h[0]);
    assert "old"[0] != "new"[0];
    hide Healed, DiskAt, SoundFrom;
    HealedRowIsTrusted("f", h, 1_200_000_000);
  }
}
