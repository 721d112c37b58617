/** `_carry_forward_diagnostics` of src/clangquill/pipeline.py against what a full parse would report. */
module CarriedDiagnostics {
  import opened Diagnostics
  import opened IncrementalParse
  import Sequences

  // The rows of an input are taken to be the diagnostics its translation unit raises.  A report is compared by the
  // problems it names, severity and text, as the parser and the cache do.

  type Reporter = Toolchain<seq<Diagnostic>>

  /** The problems these inputs report on these sources, warnings and worse. */
  function Reported(tc: Reporter, inputs: set<Path>, t: Texts): set<(int, string)> {
    set i, d | i in inputs && d in WarningsOrWorse(tc.unit(t, i)) :: d.Identity()
  }

  /** The files a partial re-parse takes as known afresh: what the re-parsed inputs reach now, and what only they
      reached before. */
  function Known(tc: Reporter, t0: Texts, t: Texts): set<Path> {
    var stale := StaleBetween(tc, t0, t);
    Reached(tc, stale, t) + OnlyFrom(EdgesOf(tc, tc.inputs, t0), stale)
  }

  /** The report of t0: every entry is some input's, and no problem of any input is left out. */
  ghost predicate ReportOf(ds: seq<Diagnostic>, tc: Reporter, t0: Texts) {
    && Ids(ds) == Reported(tc, tc.inputs, t0)
    && forall d <- ds :: exists i :: i in tc.inputs && d in WarningsOrWorse(tc.unit(t0, i))
  }

  /** The text of a problem names its place, so reports of one problem agree on the file. */
  ghost predicate Placed(tc: Reporter, t0: Texts) {
    forall i, j, d, e | i in tc.inputs && j in tc.inputs && d in WarningsOrWorse(tc.unit(t0, i)) &&
                        e in WarningsOrWorse(tc.unit(t0, j)) && d.Identity() == e.Identity() :: d.file == e.file
  }

  /** The problems of a report that are not in these files. */
  function Outside(previous: seq<Diagnostic>, known: set<Path>): set<(int, string)> {
    set d | d in previous && d.file !in known :: d.Identity()
  }

  /** What a partial re-parse reports, problem by problem. */
  lemma CombinedReports(previous: seq<Diagnostic>, known: set<string>, records: seq<Diagnostic>)
    ensures Ids(Combined(previous, known, records)) == Ids(WarningsOrWorse(records)) + Outside(previous, known)
  {
    var rest := WarningsOrWorse(records);
    var c := Carried(previous, known, Ids(rest));
    CarriedIsExact(previous, known, Ids(rest));
    forall id ensures id in Ids(c + rest) <==> id in Ids(rest) + Outside(previous, known) {
      if id in Outside(previous, known) {
        var d :| d in previous && d.file !in known && d.Identity() == id;
        assert d.Identity() in Ids(rest) || d.Identity() in Ids(c);
      }
      if d :| d in c && d.Identity() == id {
        var i :| 0 <= i < |c| && c[i] == d;
        assert d in previous && d.file !in known;
      }
    }
  }

  /** No problem is dropped with a file that is known afresh, unless a re-parsed input reports it again. */
  ghost predicate NoneLost(tc: Reporter, t0: Texts, t: Texts) {
    var stale := StaleBetween(tc, t0, t);
    forall i, d | i in tc.inputs && i !in stale && d in WarningsOrWorse(tc.unit(t0, i)) && d.file in Known(tc, t0, t) ::
      d.Identity() in Reported(tc, stale, t)
  }

  /** No problem only the re-parsed inputs had reported lingers in a file that is not, unless they report it again. */
  ghost predicate NoneLingers(tc: Reporter, t0: Texts, t: Texts) {
    var stale := StaleBetween(tc, t0, t);
    forall i, d | i in stale && d in WarningsOrWorse(tc.unit(t0, i)) && d.file !in Known(tc, t0, t) ::
      d.Identity() in Reported(tc, stale, t) + Reported(tc, tc.inputs - stale, t0)
  }

  /** A partial re-parse reports what a full parse would exactly when every problem another input reports in a file that
      is known afresh is reported again, and every problem a re-parsed input had in any other file still is. */
  lemma CarriedIsFullExactlyWhen(tc: Reporter, t0: Texts, t: Texts, previous: seq<Diagnostic>, records: seq<Diagnostic>)
    requires tc.Local() && tc.Admits(t0) && tc.Admits(t) && Placed(tc, t0) && ReportOf(previous, tc, t0)
    requires Ids(WarningsOrWorse(records)) == Reported(tc, StaleBetween(tc, t0, t), t)
    ensures Ids(Combined(previous, Known(tc, t0, t), records)) == Reported(tc, tc.inputs, t)
       <==> NoneLost(tc, t0, t) && NoneLingers(tc, t0, t)
  {
    var stale, known := StaleBetween(tc, t0, t), Known(tc, t0, t);
    StaleAreInputs(tc, t0, t);
    FullReport(tc, t0, t);
    CombinedReports(previous, known, records);
    LostExactlyWhen(tc, t0, t, previous);
    LingersExactlyWhen(tc, t0, t, previous);
    hide Combined, Ids, WarningsOrWorse, Reported, Outside, Known, NoneLost, NoneLingers, StaleBetween, Toolchain.Local;
    hide ReportOf, Placed;
  }

  /** A full parse reports what the inputs left alone did and what the re-parsed ones do. */
  lemma FullReport(tc: Reporter, t0: Texts, t: Texts)
    requires tc.Local() && tc.Admits(t0) && tc.Admits(t)
    ensures var stale := StaleBetween(tc, t0, t);
            Reported(tc, tc.inputs, t) == Reported(tc, tc.inputs - stale, t0) + Reported(tc, stale, t)
  {
    var stale := StaleBetween(tc, t0, t);
    FreshInputsKeepTheirDeps(tc, t0, t);
    StaleAreInputs(tc, t0, t);
    assert forall i | i in tc.inputs && i !in stale :: tc.SameResult(t0, t, i);
    hide StaleBetween, WarningsOrWorse, Toolchain.Local;
  }

  /** A problem some input reported is carried exactly when it is not in a file known afresh. */
  lemma OutsideExactlyWhen(tc: Reporter, t0: Texts, known: set<Path>, previous: seq<Diagnostic>, i: Path, d: Diagnostic)
    requires Placed(tc, t0) && ReportOf(previous, tc, t0) && i in tc.inputs && d in WarningsOrWorse(tc.unit(t0, i))
    ensures d.Identity() in Outside(previous, known) <==> d.file !in known
  {
    hide WarningsOrWorse;
    assert d.Identity() in Ids(previous) by {
      assert d.Identity() in Reported(tc, tc.inputs, t0);
    }
    hide Reported;
    forall q <- previous | q.Identity() == d.Identity() ensures q.file == d.file {
      var j :| j in tc.inputs && q in WarningsOrWorse(tc.unit(t0, j));
    }
  }

  lemma LostExactlyWhen(tc: Reporter, t0: Texts, t: Texts, previous: seq<Diagnostic>)
    requires Placed(tc, t0) && ReportOf(previous, tc, t0)
    ensures var stale := StaleBetween(tc, t0, t);
            NoneLost(tc, t0, t) <==>
            Reported(tc, tc.inputs - stale, t0) <= Reported(tc, stale, t) + Outside(previous, Known(tc, t0, t))
  {
    var stale, known := StaleBetween(tc, t0, t), Known(tc, t0, t);
    hide WarningsOrWorse, Placed, ReportOf, Outside, StaleBetween, Known;
    forall i, d | i in tc.inputs && i !in stale && d in WarningsOrWorse(tc.unit(t0, i))
      ensures d.Identity() in Reported(tc, tc.inputs - stale, t0)
      ensures d.Identity() in Outside(previous, known) <==> d.file !in known
    {
      OutsideExactlyWhen(tc, t0, known, previous, i, d);
    }
  }

  lemma LingersExactlyWhen(tc: Reporter, t0: Texts, t: Texts, previous: seq<Diagnostic>)
    requires Placed(tc, t0) && ReportOf(previous, tc, t0)
    ensures var stale := StaleBetween(tc, t0, t);
            NoneLingers(tc, t0, t) <==>
            Outside(previous, Known(tc, t0, t)) <= Reported(tc, stale, t) + Reported(tc, tc.inputs - stale, t0)
  {
    var stale, known := StaleBetween(tc, t0, t), Known(tc, t0, t);
    StaleAreInputs(tc, t0, t);
    hide WarningsOrWorse, Placed, StaleBetween, Known;
    forall i, d | i in tc.inputs && d in WarningsOrWorse(tc.unit(t0, i))
      ensures d.Identity() in Outside(previous, known) <==> d.file !in known
      ensures i !in stale ==> d.Identity() in Reported(tc, tc.inputs - stale, t0)
    {
      OutsideExactlyWhen(tc, t0, known, previous, i, d);
    }
    if NoneLingers(tc, t0, t) {
      forall id | id in Outside(previous, known)
        ensures id in Reported(tc, stale, t) + Reported(tc, tc.inputs - stale, t0)
      {
        var d :| d in previous && d.file !in known && d.Identity() == id;
        var i :| i in tc.inputs && d in WarningsOrWorse(tc.unit(t0, i));
      }
    }
  }

  // ---- a warning that goes missing ----

  const WARNING := Diagnostic(WARNING_SEVERITY, 0, "h:1: warning", "h")

  /** Inputs "i" and "j" read "h"; only "i" raises the warning that is in it. */
  ghost function OneWarns(): Reporter {
    Toolchain({"i", "j"}, t => "h" in t, (t, i) => {i, "h"}, (t, i) => if i == "i" then [WARNING] else [])
  }

  function Sources(j: string): Texts { map["i" := "1", "j" := j, "h" := "1"] }

  /** All there is to know about it on such sources. */
  ghost predicate Warns(tc: Reporter, t: Texts, j: string) {
    && tc.Local() && tc.inputs == {"i", "j"} && tc.Admits(t) && "i" != "j" && "h" != "j"
    && t.Keys == {"i", "j", "h"} && t["i"] == "1" && t["j"] == j && t["h"] == "1"
    && tc.deps(t, "i") == {"i", "h"} && tc.deps(t, "j") == {"j", "h"}
    && WarningsOrWorse(tc.unit(t, "i")) == [WARNING] && WarningsOrWorse(tc.unit(t, "j")) == []
  }

  lemma OneWarnsIsLocal()
    ensures OneWarns().Local()
  {
  }

  lemma OneWarnsWarns(j: string)
    ensures Warns(OneWarns(), Sources(j), j)
  {
    OneWarnsIsLocal();
    assert "i"[0] != "j"[0] && "h"[0] != "j"[0] && "i"[0] != "h"[0];
    OnlyTheWarning();
    hide WarningsOrWorse, Toolchain.Local;
  }

  lemma OnlyTheWarning()
    ensures WarningsOrWorse([WARNING]) == [WARNING] && WarningsOrWorse([]) == []
  {
    assert [WARNING][..0] == [] && [] + [WARNING] == [WARNING];
  }

  /** An edit of "j" alone drops the warning of "i": "h" is known afresh, and "j" has nothing to say about it. */
  lemma WarningGoesMissing()
    ensures var tc, t0, t := OneWarns(), Sources("1"), Sources("2");
            && tc.Local() && tc.Admits(t0) && tc.Admits(t) && Placed(tc, t0) && ReportOf([WARNING], tc, t0)
            && StaleBetween(tc, t0, t) == {"j"} && !NoneLost(tc, t0, t)
            && Combined([WARNING], Known(tc, t0, t), []) == [] && WARNING.Identity() in Reported(tc, tc.inputs, t)
  {
    OneWarnsWarns("1");
    OneWarnsWarns("2");
    assert "1"[0] != "2"[0];
    hide *;
    EditIsStale(OneWarns(), Sources("1"), Sources("2"));
    MissingAfter(OneWarns(), Sources("1"), Sources("2"));
  }

  lemma EditIsStale(tc: Reporter, t0: Texts, t: Texts)
    requires Warns(tc, t0, "1") && Warns(tc, t, "2") && "1" != "2"
    ensures StaleBetween(tc, t0, t) == {"j"}
  {
    hide WarningsOrWorse, Toolchain.Local, Toolchain.Admits;
    assert FullIR(tc, t0).files == RowsOf(t0, {"i", "j", "h"}) by { AllReached(tc, t0); }
    assert Changed(Shas(FullIR(tc, t0).files), t) == {"j"};
    hide FullIR, Changed, Shas, RowsOf;
    StaleIsJ(EdgesOf(tc, tc.inputs, t0), tc, t0);
  }

  lemma AllReached(tc: Reporter, t: Texts)
    requires tc.inputs == {"i", "j"} && tc.deps(t, "i") == {"i", "h"} && tc.deps(t, "j") == {"j", "h"}
    ensures Reached(tc, tc.inputs, t) == {"i", "j", "h"} && Reached(tc, {"j"}, t) == {"j", "h"}
  {
    assert "i" in tc.deps(t, "i") && "h" in tc.deps(t, "i") && "j" in tc.deps(t, "j");
  }

  lemma StaleIsJ(tu: Edges, tc: Reporter, t: Texts)
    requires tu == EdgesOf(tc, tc.inputs, t) && tc.inputs == {"i", "j"} && "i" != "j" && "h" != "j"
    requires tc.deps(t, "i") == {"i", "h"} && tc.deps(t, "j") == {"j", "h"}
    ensures StaleInputs(tu, {"j"}) == {"j"}
  {
    assert ("j", "j") in tu;
    forall e <- tu | e.1 == "j" ensures e.0 == "j" {
    }
  }

  lemma MissingAfter(tc: Reporter, t0: Texts, t: Texts)
    requires Warns(tc, t0, "1") && Warns(tc, t, "2") && StaleBetween(tc, t0, t) == {"j"}
    ensures tc.Local() && tc.Admits(t0) && tc.Admits(t) && Placed(tc, t0) && ReportOf([WARNING], tc, t0)
    ensures !NoneLost(tc, t0, t) && Combined([WARNING], Known(tc, t0, t), []) == []
    ensures WARNING.Identity() in Reported(tc, tc.inputs, t)
  {
    hide Known, Combined, StaleBetween, WarningsOrWorse, Toolchain.Local, Toolchain.Admits, Reported, Ids;
    hide Placed, ReportOf;
    AllReached(tc, t);
    OneReport(tc, t0);
    ReportsOf(tc, t0);
    ReportsOf(tc, t);
    assert WARNING in [WARNING] && WARNING.file == "h";
    assert "h" in Known(tc, t0, t) by { KnownHolds(tc, t0, t, "h"); }
    DroppedAlone(WARNING, Known(tc, t0, t));
    hide WARNING;
    assert "i" in tc.inputs && "i" !in StaleBetween(tc, t0, t) && WARNING in WarningsOrWorse(tc.unit(t0, "i"));
  }

  lemma OneReport(tc: Reporter, t: Texts)
    requires tc.inputs == {"i", "j"}
    requires WarningsOrWorse(tc.unit(t, "i")) == [WARNING] && WarningsOrWorse(tc.unit(t, "j")) == []
    ensures Placed(tc, t) && ReportOf([WARNING], tc, t)
  {
    ReportsOf(tc, t);
    hide WarningsOrWorse, Reported, Ids, WARNING;
    forall d <- [WARNING] ensures d in WarningsOrWorse(tc.unit(t, "i")) && "i" in tc.inputs {
    }
  }

  lemma KnownHolds(tc: Reporter, t0: Texts, t: Texts, d: Path)
    requires d in Reached(tc, StaleBetween(tc, t0, t), t)
    ensures d in Known(tc, t0, t)
  {
  }

  lemma ReportsOf(tc: Reporter, t: Texts)
    requires tc.inputs == {"i", "j"}
    requires WarningsOrWorse(tc.unit(t, "i")) == [WARNING] && WarningsOrWorse(tc.unit(t, "j")) == []
    ensures Reported(tc, tc.inputs, t) == {WARNING.Identity()} && Reported(tc, {"j"}, t) == {}
    ensures Ids([WARNING]) == {WARNING.Identity()}
  {
    hide WarningsOrWorse;
    assert WARNING in [WARNING];
  }

  lemma DroppedAlone(d: Diagnostic, known: set<Path>)
    requires d.file in known
    ensures Combined([d], known, []) == []
  {
    assert [d][..0] == [] && Carried([], known, Ids([])) == [] && WarningsOrWorse([]) == [];
    assert Carried([d], known, Ids([])) == [] + [];
    assert Combined([d], known, []) == Carried([d], known, Ids([])) + [];
  }
}
