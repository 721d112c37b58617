/** Diagnostic bookkeeping, across batches and across builds. */
module Diagnostics {
  import Sequences

  // `merge_diagnostics` of src/cpp/parser/parser.cpp for the batches of one parse, and
  // `_carry_forward_diagnostics` of src/clangquill/pipeline.py for partial re-parses.

  datatype Diagnostic = Diagnostic(severity: int, depth: int, text: string, file: string) {
    /** What two reports of the same problem share. */
    function Identity(): (int, string) { (severity, text) }
  }

  type Group = seq<Diagnostic>

  predicate NoneEmpty(gs: seq<Group>) { forall i | 0 <= i < |gs| :: gs[i] != [] }

  /** How far the group that starts at i extends: its notes have a positive depth. */
  function GroupEnd(ds: seq<Diagnostic>, end: nat): (r: nat)
    requires end <= |ds|
    ensures end <= r <= |ds|
    ensures r < |ds| ==> ds[r].depth <= 0
    ensures forall k | end <= k < r :: ds[k].depth > 0
    decreases |ds| - end
  {
    if end < |ds| && ds[end].depth > 0 then GroupEnd(ds, end + 1) else end
  }

  /** A list cut into groups: a diagnostic and the notes that hang off it. */
  function Groups(ds: seq<Diagnostic>): (r: seq<Group>)
    ensures NoneEmpty(r)
    decreases |ds|
  {
    if ds == [] then [] else var end := GroupEnd(ds, 1); [ds[..end]] + Groups(ds[end..])
  }

  function Flat(gs: seq<Group>): seq<Diagnostic> { if gs == [] then [] else gs[0] + Flat(gs[1..]) }

  lemma GroupsUnfold(ds: seq<Diagnostic>)
    requires ds != []
    ensures Groups(ds) == [ds[..GroupEnd(ds, 1)]] + Groups(ds[GroupEnd(ds, 1)..])
  {
  }

  /** Of these groups, those whose problem no earlier one has reported. */
  function FirstReports(gs: seq<Group>): seq<Group>
    requires NoneEmpty(gs)
  {
    if gs == [] then []
    else
      var n := |gs| - 1;
      FirstReports(gs[..n]) +
      if gs[n][0].Identity() in Identities(gs[..n]) then [] else [gs[n]]
  }

  /** What is left of these groups once repeated problems are dropped. */
  function Merged(gs: seq<Group>): seq<Diagnostic>
    requires NoneEmpty(gs)
  {
    Flat(FirstReports(gs))
  }

  function Identities(gs: seq<Group>): set<(int, string)>
    requires NoneEmpty(gs)
  {
    set k | 0 <= k < |gs| :: gs[k][0].Identity()
  }

  /** `merge_diagnostics`, after groups `before` have been merged. */
  method MergeDiagnostics(ghost before: seq<Group>, out0: seq<Diagnostic>, part: seq<Diagnostic>,
                          seen0: set<(int, string)>)
    returns (out: seq<Diagnostic>, seen: set<(int, string)>)
    requires NoneEmpty(before)
    requires out0 == Merged(before) && seen0 == Identities(before)
    ensures out == Merged(before + Groups(part)) && seen == Identities(before + Groups(part))
  {
    hide Groups, Merged, Identities, Ahead;
    out, seen := out0, seen0;
    ghost var done := before;
    NothingDone(before, part);
    var i := 0;
    while i < |part|
      invariant 0 <= i <= |part|
      invariant NoneEmpty(done) && Ahead(done, part, i, before)
      invariant out == Merged(done) && seen == Identities(done)
      decreases |part| - i
    {
      var end := i + 1;
      while end < |part| && part[end].depth > 0
        invariant i < end <= |part|
        invariant forall k | i < k < end :: part[k].depth > 0
      {
        end := end + 1;
      }
      var parent := part[i];
      GroupDone(done, part, i, end, before);
      MergeStep(done, part[i..end]);
      if parent.Identity() !in seen {
        seen := seen + {parent.Identity()};
        out := PushAll(out, part, i, end);
      }
      done := done + [part[i..end]];
      i := end;
    }
    AllDone(done, part, before);
  }

  method PushAll(out0: seq<Diagnostic>, part: seq<Diagnostic>, from: nat, to: nat) returns (out: seq<Diagnostic>)
    requires from <= to <= |part|
    ensures out == out0 + part[from..to]
  {
    out := out0;
    for j := from to to
      invariant out == out0 + part[from..j]
    {
      out := out + [part[j]];
    }
  }

  /** The groups merged so far and those still to come are all groups. */
  ghost predicate Ahead(done: seq<Group>, part: seq<Diagnostic>, i: nat, before: seq<Group>)
    requires i <= |part|
  {
    done + Groups(part[i..]) == before + Groups(part)
  }

  lemma NothingDone(before: seq<Group>, part: seq<Diagnostic>)
    ensures Ahead(before, part, 0, before)
  {
    assert part[0..] == part;
  }

  lemma AllDone(done: seq<Group>, part: seq<Diagnostic>, before: seq<Group>)
    requires Ahead(done, part, |part|, before)
    ensures done == before + Groups(part)
  {
    assert Groups(part[|part|..]) == [];
  }

  lemma GroupDone(done: seq<Group>, part: seq<Diagnostic>, i: nat, end: nat, before: seq<Group>)
    requires i < end <= |part| && (forall k | i < k < end :: part[k].depth > 0)
    requires end == |part| || part[end].depth <= 0
    requires Ahead(done, part, i, before)
    ensures Ahead(done + [part[i..end]], part, end, before)
  {
    GroupEndAt(part, i, end);
    GroupsStep(part, i, end);
    hide Groups;
    Sequences.Assoc(done, [part[i..end]], Groups(part[end..]));
  }

  lemma GroupsStep(part: seq<Diagnostic>, i: nat, end: nat)
    requires i < end <= |part| && GroupEnd(part[i..], 1) == end - i
    ensures Groups(part[i..]) == [part[i..end]] + Groups(part[end..])
  {
    hide *;
    GroupsUnfold(part[i..]);
    Sequences.SliceSlice(part, i, end - i);
  }

  lemma GroupEndAt(part: seq<Diagnostic>, i: nat, end: nat)
    requires i < end <= |part| && (forall k | i < k < end :: part[k].depth > 0)
    requires end == |part| || part[end].depth <= 0
    ensures GroupEnd(part[i..], 1) == end - i
  {
    hide *;
    var ds := part[i..];
    assert forall k | 0 <= k < |ds| :: ds[k] == part[i + k];
  }

  lemma MergeStep(done: seq<Group>, g: Group)
    requires g != [] && NoneEmpty(done)
    ensures Identities(done + [g]) == Identities(done) + {g[0].Identity()}
    ensures Merged(done + [g]) ==
            if g[0].Identity() in Identities(done) then Merged(done) else Merged(done) + g
  {
    IdentitiesAdd(done, g);
    FirstReportsAdd(done, g);
    hide FirstReports, Identities, Flat;
    FlatAdd(FirstReports(done), g);
    assert FirstReports(done) + [] == FirstReports(done);
  }

  lemma FirstReportsAdd(done: seq<Group>, g: Group)
    requires g != [] && NoneEmpty(done)
    ensures NoneEmpty(done + [g])
    ensures FirstReports(done + [g]) ==
            FirstReports(done) + if g[0].Identity() in Identities(done) then [] else [g]
  {
    assert (done + [g])[..|done|] == done;
  }

  lemma IdentitiesAdd(gs: seq<Group>, g: Group)
    requires g != [] && NoneEmpty(gs)
    ensures Identities(gs + [g]) == Identities(gs) + {g[0].Identity()}
  {
    var all := gs + [g];
    assert all[|gs|] == g;
    forall x | x in Identities(gs) ensures x in Identities(all) {
      var k :| 0 <= k < |gs| && gs[k][0].Identity() == x;
      assert all[k][0].Identity() == x;
    }
    assert all[|gs|][0].Identity() in Identities(all);
  }

  lemma {:induction false} FlatAdd(gs: seq<Group>, g: Group)
    ensures Flat(gs + [g]) == Flat(gs) + g
  {
    if gs == [] {
      assert Flat([g]) == g + Flat([]);
      assert gs + [g] == [g] && [] + g == g + [];
    } else {
      assert (gs + [g])[1..] == gs[1..] + [g];
      FlatAdd(gs[1..], g);
    }
  }

  lemma {:induction false} GroupEndOfConcat(a: seq<Diagnostic>, b: seq<Diagnostic>, end: nat)
    requires end <= |a| && (b == [] || b[0].depth <= 0)
    ensures GroupEnd(a + b, end) == GroupEnd(a, end)
    decreases |a| - end
  {
    if end < |a| {
      GroupEndOfConcat(a, b, end + 1);
    }
  }

  lemma {:induction false} GroupsSplit(a: seq<Diagnostic>, b: seq<Diagnostic>)
    requires b == [] || b[0].depth <= 0
    ensures Groups(a + b) == Groups(a) + Groups(b)
    decreases |a|
  {
    if a == [] {
      assert a + b == b && [] + Groups(b) == Groups(b);
    } else {
      GroupEndOfConcat(a, b, 1);
      GroupsUnfold(a);
      GroupsUnfold(a + b);
      var end := GroupEnd(a, 1);
      hide *;
      Sequences.SliceConcat(a, b, end);
      GroupsSplit(a[end..], b);
      Sequences.Assoc([a[..end]], Groups(a[end..]), Groups(b));
    }
  }

  /** Groups never cross from one part into the next exactly when the next part starts a group of its own. */
  lemma GroupsConcat(a: seq<Diagnostic>, b: seq<Diagnostic>)
    ensures Groups(a + b) == Groups(a) + Groups(b) <==> a == [] || b == [] || b[0].depth <= 0
  {
    if b == [] || b[0].depth <= 0 {
      GroupsSplit(a, b);
    } else if a == [] {
      assert a + b == b && Groups([]) == [] && [] + Groups(b) == Groups(b);
    } else if Groups(a + b) == Groups(a) + Groups(b) {
      HeadOfGroups(a);
      HeadOfGroups(b);
      HeadsStart(a + b);
      hide *;
      assert Groups(a + b)[|Groups(a)|] == Groups(b)[0];
    }
  }

  /** Every group after the first starts at a diagnostic that is not a note. */
  lemma {:induction false} HeadsStart(ds: seq<Diagnostic>)
    ensures forall i | 0 < i < |Groups(ds)| :: Groups(ds)[i][0].depth <= 0
    decreases |ds|
  {
    if ds != [] {
      var end := GroupEnd(ds, 1);
      HeadsStart(ds[end..]);
      if end < |ds| {
        assert Groups(ds[end..])[0][0] == ds[end];
      }
    }
  }

  lemma HeadOfGroups(ds: seq<Diagnostic>)
    requires ds != []
    ensures Groups(ds) != [] && Groups(ds)[0] != [] && Groups(ds)[0][0] == ds[0]
  {
  }

  function Concat(parts: seq<seq<Diagnostic>>): seq<Diagnostic> {
    if parts == [] then [] else Concat(parts[..|parts| - 1]) + parts[|parts| - 1]
  }

  /** A part whose first diagnostic is not a note. */
  predicate StartsAGroup(part: seq<Diagnostic>) { part == [] || part[0].depth <= 0 }

  /** The groups of each part, one part after the other. */
  function GroupsOfEach(parts: seq<seq<Diagnostic>>): (r: seq<Group>)
    ensures NoneEmpty(r)
  {
    if parts == [] then [] else GroupsOfEach(parts[..|parts| - 1]) + Groups(parts[|parts| - 1])
  }

  /** The consumer's merges: what is left is the first report of each problem, in the order of the parts. */
  method MergeAll(parts: seq<seq<Diagnostic>>) returns (out: seq<Diagnostic>)
    ensures out == Merged(GroupsOfEach(parts))
  {
    hide Groups, Merged, Identities;
    StartMerging();
    var seen: set<(int, string)> := {};
    out := [];
    for i := 0 to |parts|
      invariant out == Merged(GroupsOfEach(parts[..i])) && seen == Identities(GroupsOfEach(parts[..i]))
    {
      out, seen := MergeDiagnostics(GroupsOfEach(parts[..i]), out, parts[i], seen);
      assert parts[..i + 1] == parts[..i] + [parts[i]];
      Sequences.Added(parts[..i], parts[i]);
    }
    assert parts[..|parts|] == parts;
  }

  /** Every part the parser builds starts with a diagnostic of its own, and then the groups are those of all parts read
      as one list. */
  lemma {:induction false} PartsReadAsOne(parts: seq<seq<Diagnostic>>)
    requires forall i | 0 <= i < |parts| :: StartsAGroup(parts[i])
    ensures GroupsOfEach(parts) == Groups(Concat(parts))
  {
    if parts != [] {
      var init, part := parts[..|parts| - 1], parts[|parts| - 1];
      PartsReadAsOne(init);
      GroupsConcat(Concat(init), part);
    }
  }

  lemma StartMerging()
    ensures Merged([]) == [] && Identities([]) == {}
  {
  }

  ghost predicate GroupShaped(g: Group) { g != [] && forall k | 0 < k < |g| :: g[k].depth > 0 }

  lemma {:induction false} GroupsAreShaped(ds: seq<Diagnostic>)
    ensures forall i | 0 <= i < |Groups(ds)| :: GroupShaped(Groups(ds)[i])
    decreases |ds|
  {
    if ds != [] {
      GroupsAreShaped(ds[GroupEnd(ds, 1)..]);
    }
  }

  lemma GroupsOfCons(g: Group, rest: seq<Diagnostic>)
    requires GroupShaped(g) && StartsAGroup(rest)
    ensures Groups(g + rest) == [g] + Groups(rest)
  {
    GroupEndOfConcat(g, rest, 1);
    GroupEndAll(g, 1);
    assert (g + rest)[..|g|] == g && (g + rest)[|g|..] == rest;
  }

  lemma {:induction false} GroupEndAll(g: Group, end: nat)
    requires end <= |g| && forall k | end <= k < |g| :: g[k].depth > 0
    ensures GroupEnd(g, end) == |g|
    decreases |g| - end
  {
    if end < |g| {
      GroupEndAll(g, end + 1);
    }
  }

  lemma {:induction false} GroupsOfFlat(gs: seq<Group>)
    requires forall i | 0 <= i < |gs| :: GroupShaped(gs[i]) && gs[i][0].depth <= 0
    ensures Groups(Flat(gs)) == gs && StartsAGroup(Flat(gs))
  {
    if gs != [] {
      GroupsOfFlat(gs[1..]);
      GroupsOfCons(gs[0], Flat(gs[1..]));
      assert gs == [gs[0]] + gs[1..];
    }
  }

  lemma {:induction false} FirstReportsAre(gs: seq<Group>)
    requires NoneEmpty(gs)
    ensures var r := FirstReports(gs);
            && (forall i | 0 <= i < |r| :: r[i] in gs) && NoneEmpty(r)
            && Identities(r) == Identities(gs)
            && (forall i, j | 0 <= i < j < |r| :: r[i][0].Identity() != r[j][0].Identity())
  {
    if gs != [] {
      var n := |gs| - 1;
      var init, g := FirstReports(gs[..n]), gs[n];
      FirstReportsAre(gs[..n]);
      assert gs == gs[..n] + [g];
      FirstReportsAdd(gs[..n], g);
      IdentitiesAdd(gs[..n], g);
      IdentitiesAdd(init, g);
      forall i | 0 <= i < |init| ensures init[i][0].Identity() in Identities(init) {
      }
      assert init + [] == init;
      hide FirstReports;
    }
  }

  /** A group is kept exactly when none in front of it starts with the same severity and the same text. */
  lemma FirstReportExactlyWhen(gs: seq<Group>, g: Group)
    requires NoneEmpty(gs) && g != []
    ensures FirstReports(gs + [g]) ==
            if exists k | 0 <= k < |gs| :: gs[k][0].severity == g[0].severity && gs[k][0].text == g[0].text
            then FirstReports(gs) else FirstReports(gs) + [g]
  {
    FirstReportsAdd(gs, g);
    Sequences.AddNothing(FirstReports(gs));
    hide FirstReports;
  }

  /** Every problem is reported exactly once, and every note stays behind the diagnostic it hangs off: reading
      the merged list as groups gives back the first reports, whole. */
  lemma NotesStayBehindTheirParent(ds: seq<Diagnostic>)
    requires StartsAGroup(ds)
    ensures var r := FirstReports(Groups(ds));
            && Groups(Flat(r)) == r && (forall i | 0 <= i < |r| :: r[i] in Groups(ds))
            && Identities(r) == Identities(Groups(ds))
            && (forall i, j | 0 <= i < j < |r| :: r[i][0].Identity() != r[j][0].Identity())
  {
    var gs := Groups(ds);
    var r := FirstReports(gs);
    FirstReportsAre(gs);
    GroupsAreShaped(ds);
    HeadsStart(ds);
    forall i | 0 <= i < |r| ensures GroupShaped(r[i]) && r[i][0].depth <= 0 {
      var k :| 0 <= k < |gs| && gs[k] == r[i];
      assert ds != [] ==> gs[0][0] == ds[0];
    }
    GroupsOfFlat(r);
  }

  // ---- carrying diagnostics over a partial re-parse ----

  const WARNING_SEVERITY := 2

  function WarningsOrWorse(records: seq<Diagnostic>): seq<Diagnostic> {
    if records == [] then []
    else
      var n := |records| - 1;
      WarningsOrWorse(records[..n]) + if records[n].severity >= WARNING_SEVERITY then [records[n]] else []
  }

  function Ids(ds: seq<Diagnostic>): set<(int, string)> { set d | d in ds :: d.Identity() }

  /** What is carried: the earlier diagnostics outside the re-parsed files that were not reported again, each
      problem once. */
  function Carried(previous: seq<Diagnostic>, reparsed: set<string>, reported: set<(int, string)>): seq<Diagnostic> {
    if previous == [] then []
    else
      var n := |previous| - 1;
      var init, d := Carried(previous[..n], reparsed, reported), previous[n];
      init + if d.file in reparsed || d.Identity() in reported || d.Identity() in Ids(init) then [] else [d]
  }

  /** `_carry_forward_diagnostics`. */
  method CarryForward(previous: seq<Diagnostic>, partialDeps: map<string, seq<string>>, dropped: seq<string>,
                      records: seq<Diagnostic>) returns (all: seq<Diagnostic>)
    ensures all == Combined(previous, ReparsedFiles(partialDeps, dropped), records)
  {
    var reparsed := ReparsedFiles(partialDeps, dropped);
    var reported := WarningsOrWorse(records);
    var seen := set d | d in reported :: d.Identity();
    var carried: seq<Diagnostic> := [];
    for i := 0 to |previous|
      invariant carried == Carried(previous[..i], reparsed, Ids(reported))
      invariant seen == Ids(reported) + Ids(carried)
    {
      var d := previous[i];
      assert previous[..i + 1][..i] == previous[..i];
      if d.file in reparsed {
        continue;
      }
      if d.Identity() in seen {
        continue;
      }
      seen := seen + {d.Identity()};
      IdsAdd(carried, d);
      carried := carried + [d];
    }
    assert previous[..|previous|] == previous;
    return carried + reported;
  }

  function ReparsedFiles(partialDeps: map<string, seq<string>>, dropped: seq<string>): set<string> {
    (set i, dep | i in partialDeps && dep in partialDeps[i] :: dep) + set p | p in dropped
  }

  function Combined(previous: seq<Diagnostic>, reparsed: set<string>, records: seq<Diagnostic>): seq<Diagnostic> {
    Carried(previous, reparsed, Ids(WarningsOrWorse(records))) + WarningsOrWorse(records)
  }

  lemma CarriedAdd(ds: seq<Diagnostic>, d: Diagnostic, reparsed: set<string>, reported: set<(int, string)>)
    ensures var init := Carried(ds, reparsed, reported);
            Carried(ds + [d], reparsed, reported) ==
            init + if d.file in reparsed || d.Identity() in reported || d.Identity() in Ids(init) then [] else [d]
  {
    assert (ds + [d])[..|ds|] == ds;
  }

  lemma ReportedExactlyWhen(records: seq<Diagnostic>, d: Diagnostic)
    ensures d in WarningsOrWorse(records) <==> d in records && d.severity >= 2
  {
    if records != [] {
      ReportedExactlyWhen(records[..|records| - 1], d);
      Sequences.ButLast(records);
    }
  }

  /** Read off the earlier list alone: a diagnostic is carried, behind those in front of it, exactly when its file was
      not re-parsed, its problem was not reported again, and no earlier one outside the re-parsed files has the same
      severity and the same text. */
  lemma CarriedExactlyWhen(ds: seq<Diagnostic>, d: Diagnostic, reparsed: set<string>, reported: set<(int, string)>)
    ensures Carried(ds + [d], reparsed, reported) ==
            Carried(ds, reparsed, reported) +
            if d.file in reparsed || (d.severity, d.text) in reported
               || exists x <- ds :: x.file !in reparsed && x.severity == d.severity && x.text == d.text
            then [] else [d]
  {
    CarriedAdd(ds, d, reparsed, reported);
    CarriedIsExact(ds, reparsed, reported);
    var init := Carried(ds, reparsed, reported);
    hide Carried;
    if d.Identity() in Ids(init) {
      var x :| x in init && x.Identity() == d.Identity();
      assert x in ds && x.file !in reparsed;
    }
  }

  lemma IdsAdd(ds: seq<Diagnostic>, d: Diagnostic)
    ensures Ids(ds + [d]) == Ids(ds) + {d.Identity()}
  {
    assert forall x <- ds :: x in ds + [d];
    assert d in ds + [d];
  }

  /** What a list of carried diagnostics looks like. */
  ghost predicate Settled(ds: seq<Diagnostic>, reparsed: set<string>, reported: set<(int, string)>) {
    && (forall i | 0 <= i < |ds| :: ds[i].file !in reparsed && ds[i].Identity() !in reported)
    && forall i, j | 0 <= i < j < |ds| :: ds[i].Identity() != ds[j].Identity()
  }

  lemma SettledAdd(ds: seq<Diagnostic>, d: Diagnostic, reparsed: set<string>, reported: set<(int, string)>)
    requires Settled(ds, reparsed, reported)
    requires d.file !in reparsed && d.Identity() !in reported && d.Identity() !in Ids(ds)
    ensures Settled(ds + [d], reparsed, reported)
  {
    forall i | 0 <= i < |ds| ensures ds[i].Identity() != d.Identity() {
      assert ds[i] in ds;
    }
  }

  /** Nothing of the untouched rest of the project is lost, nothing stale stays, nothing is doubled. */
  lemma {:induction false} CarriedIsExact(previous: seq<Diagnostic>, reparsed: set<string>,
                                          reported: set<(int, string)>)
    ensures var c := Carried(previous, reparsed, reported);
            && Settled(c, reparsed, reported) && (forall d <- c :: d in previous)
            && forall d <- previous :: d.file in reparsed || d.Identity() in reported || d.Identity() in Ids(c)
  {
    if previous != [] {
      var n := |previous| - 1;
      var init, d := Carried(previous[..n], reparsed, reported), previous[n];
      CarriedAdd(previous[..n], d, reparsed, reported);
      hide Carried, Settled, Ids;
      CarriedIsExact(previous[..n], reparsed, reported);
      IdsAdd(init, d);
      Sequences.ButLast(previous);
      Sequences.AddNothing(init);
      if d.file !in reparsed && d.Identity() !in reported && d.Identity() !in Ids(init) {
        SettledAdd(init, d, reparsed, reported);
      }
    }
  }

  lemma NotAmong(ds: seq<Diagnostic>)
    requires ds != [] && forall i, j | 0 <= i < j < |ds| :: ds[i].Identity() != ds[j].Identity()
    ensures ds[|ds| - 1].Identity() !in Ids(ds[..|ds| - 1])
  {
    var init := ds[..|ds| - 1];
    forall x <- init ensures x.Identity() != ds[|ds| - 1].Identity() {
      var i :| 0 <= i < |init| && init[i] == x;
      assert ds[i] == x;
    }
  }

  lemma SettledInit(ds: seq<Diagnostic>, reparsed: set<string>, reported: set<(int, string)>)
    requires ds != [] && Settled(ds, reparsed, reported)
    ensures var d := ds[|ds| - 1];
            d.file !in reparsed && d.Identity() !in reported && Settled(ds[..|ds| - 1], reparsed, reported)
  {
  }

  lemma {:induction false} SettledIsKept(ds: seq<Diagnostic>, reparsed: set<string>, reported: set<(int, string)>)
    requires Settled(ds, reparsed, reported)
    ensures Carried(ds, reparsed, reported) == ds
  {
    if ds != [] {
      var init, d := ds[..|ds| - 1], ds[|ds| - 1];
      CarriedAdd(init, d, reparsed, reported);
      SettledInit(ds, reparsed, reported);
      NotAmong(ds);
      hide *;
      SettledIsKept(init, reparsed, reported);
      Sequences.ButLast(ds);
    }
  }

  lemma {:induction false} ReportedIsDropped(ds: seq<Diagnostic>, extra: seq<Diagnostic>, reparsed: set<string>,
                                             reported: set<(int, string)>)
    requires forall d <- extra :: d.Identity() in reported
    ensures Carried(ds + extra, reparsed, reported) == Carried(ds, reparsed, reported)
  {
    if extra == [] {
      assert ds + extra == ds;
    } else {
      var n := |extra| - 1;
      assert (ds + extra)[..|ds + extra| - 1] == ds + extra[..n];
      ReportedIsDropped(ds, extra[..n], reparsed, reported);
      assert Carried(ds, reparsed, reported) + [] == Carried(ds, reparsed, reported);
    }
  }

  /** Re-parsing the same files with the same outcome leaves the list alone, so it cannot grow. */
  lemma CarryForwardIsIdempotent(previous: seq<Diagnostic>, reparsed: set<string>, records: seq<Diagnostic>)
    ensures Combined(Combined(previous, reparsed, records), reparsed, records) == Combined(previous, reparsed, records)
  {
    var rest := WarningsOrWorse(records);
    var reported := Ids(rest);
    var c := Carried(previous, reparsed, reported);
    CarriedIsExact(previous, reparsed, reported);
    ReportedIsDropped(c, rest, reparsed, reported);
    SettledIsKept(c, reparsed, reported);
  }
}
