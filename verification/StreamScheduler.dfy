/** The streaming half of `parse_files` (src/cpp/parser/parser.cpp) as a protocol between threads. */
module StreamScheduler {
  import opened Wrappers

  // J worker threads claim batches from an atomic counter, publish each parsed batch under one
  // mutex and then wait for room; the calling thread drains the slots in canonical order,
  // releases the mutex and only then wakes one waiting worker.
  //
  // The protocol is a step system.  A step is one critical section (the mutex is never held
  // across a wait) or one access outside it, so any interleaving of the threads is a run of
  // steps.  `notify_one` wakes exactly one sleeper if there is one; a sleeper may also wake
  // spuriously at any time; the loop test may read a stale `stop == false`.

  /** `batches` is num_batches, `jobs` is effective_jobs (more than one, at most one per batch),
      `parse(b)` is what parse_into_slot leaves in slot b, and `accepts(b)` says whether the sink
      returns when it is handed batch b rather than throwing. */
  datatype Config<!P> = Config(batches: nat, jobs: nat, parse: nat -> P, accepts: nat -> bool) {
    ghost predicate Valid() { 2 <= jobs <= batches }
    function MaxPending(): nat { 2 * jobs }
  }

  datatype Worker =
    | NotStarted
    | Looping          // about to test `!stop` and claim
    | Parsing(b: nat)  // holds claimed batch b, not yet published
    | Asleep           // in slot_consumed.wait
    | Woken            // out of the wait, about to re-evaluate the predicate under the mutex
    | Quitting         // the predicate read `stop` as true, so by coherence the loop test will too
    | Exited

  datatype Outcome = Clean | SinkFailed | LaunchFailed

  datatype Consumer<+P> =
    | Launching(t: nat)             // threads 0..t-1 started
    | Checking(b: nat)              // about to evaluate ready[b] under the mutex
    | Dozing(b: nat)                // in slot_ready.wait
    | Roused(b: nat)                // out of the wait, about to re-evaluate ready[b]
    | Notifying(b: nat, part: P)    // took slot b, owes slot_consumed one notify_one
    | Sinking(b: nat, part: P)      // inside consume(part)
    | Raising(why: Outcome)         // about to set `stop` under the mutex
    | Broadcasting(why: Outcome)    // about to call notify_all
    | Joining(why: Outcome)
    | Done(why: Outcome)

  datatype State<+P> = State(
    next: nat, workers: seq<Worker>, ready: seq<bool>, parts: seq<Option<P>>,
    pending: nat, stop: bool, consumer: Consumer<P>, sunk: seq<P>)

  datatype Step =
    | Claim(w: nat) | Quit(w: nat) | Publish(w: nat) | Recheck(w: nat)
    | Launch | LaunchThrows | Check | Notify(w: nat) | NotifyNobody
    | SinkReturns | SinkThrows | RaiseStop | NotifyAll | Join
    | SpuriousWorker(w: nat) | SpuriousConsumer
  {
    predicate Spurious() { SpuriousWorker? || SpuriousConsumer? }
    predicate ByWorker() { Claim? || Quit? || Publish? || Recheck? || SpuriousWorker? }
  }

  ghost function Init<P>(c: Config<P>): State<P> {
    State(0, seq(c.jobs, _ => NotStarted), seq(c.batches, _ => false), seq(c.batches, _ => None),
          0, false, Launching(0), [])
  }

  ghost predicate IsAt<P>(s: State<P>, w: nat, at: Worker) { w < |s.workers| && s.workers[w] == at }

  ghost predicate AllGone(ws: seq<Worker>) { forall w | 0 <= w < |ws| :: ws[w].Exited? || ws[w].NotStarted? }

  ghost predicate Enabled<P>(c: Config<P>, s: State<P>, step: Step) {
    match step
    case Claim(w) => IsAt(s, w, Looping)
    case Quit(w) => (IsAt(s, w, Looping) && s.stop) || IsAt(s, w, Quitting)
    case Publish(w) => w < |s.workers| && s.workers[w].Parsing? && s.workers[w].b < |s.ready| == |s.parts|
    case Recheck(w) => IsAt(s, w, Woken)
    case Launch => s.consumer.Launching? && s.consumer.t < |s.workers|
    case LaunchThrows => s.consumer.Launching? && s.consumer.t < |s.workers|
    case Check =>
      (s.consumer.Checking? || s.consumer.Roused?) && s.consumer.b < |s.ready| == |s.parts| &&
      (s.ready[s.consumer.b] ==> s.parts[s.consumer.b].Some? && s.pending > 0)
    case Notify(w) => s.consumer.Notifying? && IsAt(s, w, Asleep)
    case NotifyNobody => s.consumer.Notifying? && Asleep !in s.workers
    case SinkReturns => s.consumer.Sinking? && c.accepts(s.consumer.b)
    case SinkThrows => s.consumer.Sinking? && !c.accepts(s.consumer.b)
    case RaiseStop => s.consumer.Raising?
    case NotifyAll => s.consumer.Broadcasting?
    case Join => s.consumer.Joining? && AllGone(s.workers)
    case SpuriousWorker(w) => IsAt(s, w, Asleep)
    case SpuriousConsumer => s.consumer.Dozing?
  }

  /** `slot_consumed.wait(lock, pred)`: the predicate short-circuits, so `stop` is read only when there is no room. */
  function AfterPredicate(maxPending: nat, pending: nat, stop: bool): Worker {
    if pending < maxPending then Looping else if stop then Quitting else Asleep
  }

  function WakeAll(ws: seq<Worker>): (r: seq<Worker>)
    ensures |r| == |ws|
    ensures forall w | 0 <= w < |ws| :: r[w] == if ws[w].Asleep? then Woken else ws[w]
  {
    seq(|ws|, w requires 0 <= w < |ws| => if ws[w].Asleep? then Woken else ws[w])
  }

  ghost function Apply<P>(c: Config<P>, s: State<P>, step: Step): State<P>
    requires Enabled(c, s, step)
  {
    match step
    case Claim(w) =>
      s.(next := s.next + 1, workers := s.workers[w := if s.next < c.batches then Parsing(s.next) else Exited])
    case Quit(w) => s.(workers := s.workers[w := Exited])
    case Publish(w) =>
      var b := s.workers[w].b;
      s.(ready := s.ready[b := true], parts := s.parts[b := Some(c.parse(b))], pending := s.pending + 1,
         consumer := if s.consumer.Dozing? then Roused(s.consumer.b) else s.consumer,
         workers := s.workers[w := AfterPredicate(c.MaxPending(), s.pending + 1, s.stop)])
    case Recheck(w) => s.(workers := s.workers[w := AfterPredicate(c.MaxPending(), s.pending, s.stop)])
    case Launch =>
      var t := s.consumer.t;
      s.(workers := s.workers[t := Looping],
         consumer := if t + 1 == |s.workers| then Checking(0) else Launching(t + 1))
    case LaunchThrows => s.(consumer := Raising(LaunchFailed))
    case Check =>
      var b := s.consumer.b;
      if s.ready[b] then
        s.(parts := s.parts[b := None], pending := s.pending - 1, consumer := Notifying(b, s.parts[b].value))
      else s.(consumer := Dozing(b))
    case Notify(w) => s.(workers := s.workers[w := Woken], consumer := Sinking(s.consumer.b, s.consumer.part))
    case NotifyNobody => s.(consumer := Sinking(s.consumer.b, s.consumer.part))
    case SinkReturns =>
      s.(sunk := s.sunk + [s.consumer.part],
         consumer := if s.consumer.b + 1 < c.batches then Checking(s.consumer.b + 1) else Joining(Clean))
    case SinkThrows => s.(sunk := s.sunk + [s.consumer.part], consumer := Raising(SinkFailed))
    case RaiseStop => s.(stop := true, consumer := Broadcasting(s.consumer.why))
    case NotifyAll => s.(workers := WakeAll(s.workers), consumer := Joining(s.consumer.why))
    case Join => s.(consumer := Done(s.consumer.why))
    case SpuriousWorker(w) => s.(workers := s.workers[w := Woken])
    case SpuriousConsumer => s.(consumer := Roused(s.consumer.b))
  }

  /** `run` starts at Init and its k-th step leads from run[k] to run[k + 1]. */
  ghost predicate IsRun<P>(c: Config<P>, run: seq<State<P>>, steps: seq<Step>) {
    && |run| == |steps| + 1
    && run[0] == Init(c)
    && forall k | 0 <= k < |steps| :: Enabled(c, run[k], steps[k]) && run[k + 1] == Apply(c, run[k], steps[k])
  }

  // ---- the one-thread loop the protocol has to agree with ----

  /** What a sink has been handed when the one-thread loop ends: everything in order, or everything up to
      and including the first batch it throws on. */
  ghost predicate SerialResult<P>(c: Config<P>, sunk: seq<P>, failed: bool) {
    && |sunk| <= c.batches
    && (forall b | 0 <= b < |sunk| :: sunk[b] == c.parse(b))
    && (forall b | 0 <= b < (if failed then |sunk| - 1 else |sunk|) :: c.accepts(b))
    && (if failed then sunk != [] && !c.accepts(|sunk| - 1) else |sunk| == c.batches)
  }

  /** The `effective_jobs <= 1` branch: parse a batch, hand it over, and leave on the first exception. */
  method StreamSerially<P>(c: Config<P>) returns (sunk: seq<P>, failed: bool)
    ensures SerialResult(c, sunk, failed)
  {
    sunk := [];
    for b := 0 to c.batches
      invariant |sunk| == b
      invariant forall i | 0 <= i < b :: sunk[i] == c.parse(i) && c.accepts(i)
    {
      sunk := sunk + [c.parse(b)];
      if !c.accepts(b) {
        return sunk, true;
      }
    }
    failed := false;
  }

  /** The one-thread loop has one possible outcome: no result stops before another one does. */
  lemma SerialResultIsUnique<P>(c: Config<P>, sunk: seq<P>, failed: bool, sunk': seq<P>, failed': bool)
    requires SerialResult(c, sunk, failed) && SerialResult(c, sunk', failed')
    ensures sunk == sunk' && failed == failed'
  {
    assert failed ==> !c.accepts(|sunk| - 1);
    assert failed' ==> !c.accepts(|sunk'| - 1);
    assert |sunk| == |sunk'|;
  }

  // ---- sums over the worker and slot sequences ----

  function Sum<T>(s: seq<T>, f: T -> int): int {
    if s == [] then 0 else f(s[0]) + Sum(s[1..], f)
  }

  lemma {:induction false} SumUpdate<T>(s: seq<T>, i: nat, x: T, f: T -> int)
    requires i < |s|
    ensures Sum(s[i := x], f) == Sum(s, f) - f(s[i]) + f(x)
  {
    if i == 0 {
      assert s[i := x][1..] == s[1..];
    } else {
      assert s[i := x][1..] == s[1..][i - 1 := x];
      SumUpdate(s[1..], i - 1, x, f);
    }
  }

  lemma {:induction false} SumBounds<T>(s: seq<T>, lo: int, hi: int, f: T -> int)
    requires forall x <- s :: lo <= f(x) <= hi
    ensures lo * |s| <= Sum(s, f) <= hi * |s|
  {
    if s != [] {
      SumBounds(s[1..], lo, hi, f);
      assert lo * |s| == lo + lo * |s[1..]| && hi * |s| == hi + hi * |s[1..]|;
    }
  }

  /** If one element weighs at least one and none weighs less than zero, the sum is positive. */
  lemma SumPositive<T>(s: seq<T>, i: nat, f: T -> int)
    requires i < |s| && f(s[i]) >= 1
    requires forall x <- s :: f(x) >= 0
    ensures Sum(s, f) >= 1
  {
    if i != 0 {
      SumPositive(s[1..], i - 1, f);
    } else {
      SumNonNegative(s[1..], f);
    }
  }

  lemma SumNonNegative<T>(s: seq<T>, f: T -> int)
    requires forall x <- s :: f(x) >= 0
    ensures Sum(s, f) >= 0
  {
    if s != [] {
      SumNonNegative(s[1..], f);
    }
  }

  /** An all-zero sum has no positive element. */
  lemma SumZero<T>(s: seq<T>, f: T -> int)
    requires forall x <- s :: f(x) >= 0
    requires Sum(s, f) <= 0
    ensures forall x <- s :: f(x) == 0
  {
    forall x | x in s ensures f(x) == 0 {
      var i :| 0 <= i < |s| && s[i] == x;
      if f(x) >= 1 {
        SumPositive(s, i, f);
      }
    }
  }

  lemma {:induction false} SumZeros<T>(s: seq<T>, f: T -> int)
    requires forall x <- s :: f(x) == 0
    ensures Sum(s, f) == 0
  {
    if s != [] {
      SumZeros(s[1..], f);
    }
  }

  function AsleepWeight(w: Worker): int { if w.Asleep? then 1 else 0 }
  function ActiveWeight(w: Worker): int { if w.NotStarted? || w.Looping? || w.Parsing? then 1 else 0 }
  function FilledWeight<P>(p: Option<P>): int { if p.Some? then 1 else 0 }

  function AsleepCount(ws: seq<Worker>): int { Sum(ws, AsleepWeight) }
  /** Workers that may still publish a batch without passing the back-pressure test first. */
  function ActiveCount(ws: seq<Worker>): int { Sum(ws, ActiveWeight) }

  // ---- the invariant ----

  ghost predicate Shape<P>(c: Config<P>, s: State<P>) {
    && c.Valid()
    && |s.workers| == c.jobs && |s.ready| == c.batches && |s.parts| == c.batches
    && (s.consumer.Launching? ==>
          && s.consumer.t < c.jobs
          && forall w | 0 <= w < c.jobs :: s.workers[w].NotStarted? <==> s.consumer.t <= w)
    && (forall w | 0 <= w < c.jobs && s.workers[w].NotStarted? ::
          s.consumer.Launching? || OutcomeOf(s) == Some(LaunchFailed))
    && (s.stop <==> s.consumer.Broadcasting? || (OutcomeOf(s).Some? && OutcomeOf(s) != Some(Clean) &&
                                                 !s.consumer.Raising?))
    && (s.consumer.Broadcasting? || s.consumer.Raising? ==> s.consumer.why != Clean)
    && (forall w | 0 <= w < c.jobs && s.workers[w].Quitting? :: s.stop)
    && (forall w | 0 <= w < c.jobs && s.workers[w].Exited? :: s.stop || c.batches <= s.next)
    && (s.consumer.Done? ==> AllGone(s.workers))
  }

  function OutcomeOf<P>(s: State<P>): Option<Outcome> {
    match s.consumer
    case Raising(why) => Some(why)
    case Broadcasting(why) => Some(why)
    case Joining(why) => Some(why)
    case Done(why) => Some(why)
    case _ => None
  }

  /** Claimed and unpublished batches are exactly those in a worker's hands, one worker each. */
  ghost predicate HeldBy<P>(s: State<P>, b: nat) {
    exists w | 0 <= w < |s.workers| :: s.workers[w] == Parsing(b)
  }

  ghost predicate Claims<P>(c: Config<P>, s: State<P>) {
    && |s.ready| == c.batches
    && (forall w | 0 <= w < |s.workers| && s.workers[w].Parsing? ::
          s.workers[w].b < s.next && s.workers[w].b < c.batches && !s.ready[s.workers[w].b])
    && (forall v, w | 0 <= v < w < |s.workers| && s.workers[v].Parsing? && s.workers[w].Parsing? ::
          s.workers[v].b != s.workers[w].b)
    && (forall b | 0 <= b < c.batches && b < s.next && !s.ready[b] :: HeldBy(s, b))
    && (forall b | 0 <= b < c.batches && s.next <= b :: !s.ready[b])
  }

  /** How many slots the consumer has emptied. */
  function Taken<P>(s: State<P>): nat {
    |s.sunk| + if s.consumer.Notifying? || s.consumer.Sinking? then 1 else 0
  }

  /** A slot is full exactly between its publication and its consumption, and then holds its own batch. */
  ghost predicate Slots<P>(c: Config<P>, s: State<P>) {
    && |s.ready| == c.batches && |s.parts| == c.batches && Taken(s) <= c.batches
    && (forall b | 0 <= b < Taken(s) :: s.ready[b])
    && (forall b | 0 <= b < c.batches ::
          s.parts[b] == if s.ready[b] && Taken(s) <= b then Some(c.parse(b)) else None)
    && (forall b | 0 <= b < |s.sunk| :: s.sunk[b] == c.parse(b))
    && (match s.consumer
        case Launching(_) => s.sunk == []
        case Checking(b) => b == |s.sunk| < c.batches
        case Dozing(b) => b == |s.sunk| < c.batches && !s.ready[b]
        case Roused(b) => b == |s.sunk| < c.batches
        case Notifying(b, part) => b == |s.sunk| && part == c.parse(b)
        case Sinking(b, part) => b == |s.sunk| && part == c.parse(b)
        case _ => true)
    && (match OutcomeOf(s)
        case None => forall b | 0 <= b < |s.sunk| :: c.accepts(b)
        case Some(LaunchFailed) => s.sunk == []
        case Some(SinkFailed) => SerialResult(c, s.sunk, true)
        case Some(Clean) => SerialResult(c, s.sunk, false))
  }

  /** The stated deadlock argument in numbers, and the bound on finished but unconsumed batches. */
  ghost predicate Counts<P>(c: Config<P>, s: State<P>) {
    && s.pending == Sum(s.parts, FilledWeight<P>)
    && (s.stop && !s.consumer.Broadcasting? ==> AsleepCount(s.workers) <= 0)
    && (s.consumer.Broadcasting? || AsleepCount(s.workers) <= s.pending + (if s.consumer.Notifying? then 1 else 0))
    && s.pending + ActiveCount(s.workers) <= 3 * c.jobs - 1
  }

  ghost predicate Inv<P>(c: Config<P>, s: State<P>) {
    Shape(c, s) && Claims(c, s) && Slots(c, s) && Counts(c, s)
  }

  lemma WorkerKeepsShape<P>(c: Config<P>, s: State<P>, step: Step)
    requires Shape(c, s) && Enabled(c, s, step) && step.ByWorker()
    ensures Shape(c, Apply(c, s, step))
  {
  }

  lemma ConsumerKeepsShape<P>(c: Config<P>, s: State<P>, step: Step)
    requires Shape(c, s) && Enabled(c, s, step) && !step.ByWorker()
    ensures Shape(c, Apply(c, s, step))
  {
  }

  lemma StepShape<P>(c: Config<P>, s: State<P>, step: Step)
    requires Shape(c, s) && Enabled(c, s, step)
    ensures Shape(c, Apply(c, s, step))
  {
    hide Shape, Enabled, Apply;
    if step.ByWorker() {
      WorkerKeepsShape(c, s, step);
    } else {
      ConsumerKeepsShape(c, s, step);
    }
  }

  lemma ClaimKeepsClaims<P>(c: Config<P>, s: State<P>, w: nat)
    requires Shape(c, s) && Claims(c, s) && Enabled(c, s, Claim(w))
    ensures Claims(c, Apply(c, s, Claim(w)))
  {
    var s' := Apply(c, s, Claim(w));
    forall b | 0 <= b < c.batches && b < s'.next && !s'.ready[b] ensures HeldBy(s', b) {
      if b < s.next {
        var v :| 0 <= v < |s.workers| && s.workers[v] == Parsing(b);
        assert s'.workers[v] == Parsing(b);
      } else {
        assert s'.workers[w] == Parsing(b);
      }
    }
  }

  lemma PublishKeepsClaims<P>(c: Config<P>, s: State<P>, w: nat)
    requires Shape(c, s) && Claims(c, s) && Enabled(c, s, Publish(w))
    ensures Claims(c, Apply(c, s, Publish(w)))
  {
    var s' := Apply(c, s, Publish(w));
    forall b | 0 <= b < c.batches && b < s'.next && !s'.ready[b] ensures HeldBy(s', b) {
      assert !s.ready[b];
      var v :| 0 <= v < |s.workers| && s.workers[v] == Parsing(b);
      assert s'.workers[v] == Parsing(b);
    }
  }

  lemma SameHands<P>(c: Config<P>, s: State<P>, step: Step)
    requires Shape(c, s) && Enabled(c, s, step) && !step.Claim? && !step.Publish?
    ensures var s' := Apply(c, s, step);
            && s'.next == s.next && s'.ready == s.ready && |s'.workers| == |s.workers|
            && forall v | 0 <= v < |s.workers| ::
                 if s.workers[v].Parsing? then s'.workers[v] == s.workers[v] else !s'.workers[v].Parsing?
  {
    hide Sum;
  }

  /** Every other step leaves the claimed batches, and the hands they are in, alone. */
  lemma OthersKeepClaims<P>(c: Config<P>, s: State<P>, step: Step)
    requires Shape(c, s) && Claims(c, s) && Enabled(c, s, step) && !step.Claim? && !step.Publish?
    ensures Claims(c, Apply(c, s, step))
  {
    hide Sum;
    SameHands(c, s, step);
    var s' := Apply(c, s, step);
    hide Shape, Enabled, Apply;
    forall b | 0 <= b < c.batches && b < s'.next && !s'.ready[b] ensures HeldBy(s', b) {
      var v :| 0 <= v < |s.workers| && s.workers[v] == Parsing(b);
      assert s'.workers[v] == Parsing(b);
    }
  }

  lemma StepClaims<P>(c: Config<P>, s: State<P>, step: Step)
    requires Shape(c, s) && Claims(c, s) && Enabled(c, s, step)
    ensures Claims(c, Apply(c, s, step))
  {
    if step.Claim? {
      ClaimKeepsClaims(c, s, step.w);
    } else if step.Publish? {
      PublishKeepsClaims(c, s, step.w);
    } else {
      OthersKeepClaims(c, s, step);
    }
  }

  lemma PublishKeepsSlots<P>(c: Config<P>, s: State<P>, w: nat)
    requires Shape(c, s) && Claims(c, s) && Slots(c, s) && Enabled(c, s, Publish(w))
    ensures Slots(c, Apply(c, s, Publish(w)))
  {
  }

  lemma CheckKeepsSlots<P>(c: Config<P>, s: State<P>)
    requires Shape(c, s) && Slots(c, s) && Enabled(c, s, Check)
    ensures Slots(c, Apply(c, s, Check))
  {
    hide Sum, Claims;
  }

  lemma WorkerKeepsSlots<P>(c: Config<P>, s: State<P>, step: Step)
    requires Shape(c, s) && Slots(c, s) && Enabled(c, s, step) && step.ByWorker() && !step.Publish?
    ensures Slots(c, Apply(c, s, step))
  {
    hide Sum, Shape, SerialResult;
  }

  lemma SinkKeepsSlots<P>(c: Config<P>, s: State<P>, step: Step)
    requires Shape(c, s) && Slots(c, s) && Enabled(c, s, step) && (step.SinkReturns? || step.SinkThrows?)
    ensures Slots(c, Apply(c, s, step))
  {
    hide Sum, Claims;
  }

  lemma StepSlots<P>(c: Config<P>, s: State<P>, step: Step)
    requires Shape(c, s) && Claims(c, s) && Slots(c, s) && Enabled(c, s, step)
    ensures Slots(c, Apply(c, s, step))
  {
    hide Sum, Claims, SerialResult;
    if step.Publish? {
      PublishKeepsSlots(c, s, step.w);
    } else if step.ByWorker() {
      WorkerKeepsSlots(c, s, step);
    } else if step.Check? {
      CheckKeepsSlots(c, s);
    } else if step.SinkReturns? || step.SinkThrows? {
      SinkKeepsSlots(c, s, step);
    }
  }

  lemma WakeAllCounts(ws: seq<Worker>)
    ensures AsleepCount(WakeAll(ws)) == 0
    ensures ActiveCount(WakeAll(ws)) == ActiveCount(ws)
  {
    SumZeros(WakeAll(ws), AsleepWeight);
    if ws != [] {
      assert WakeAll(ws)[1..] == WakeAll(ws[1..]);
      WakeAllCounts(ws[1..]);
    }
  }

  lemma ActiveAtMostAll(ws: seq<Worker>)
    ensures 0 <= ActiveCount(ws) <= |ws| && 0 <= AsleepCount(ws) <= |ws|
  {
    SumBounds(ws, 0, 1, ActiveWeight);
    SumBounds(ws, 0, 1, AsleepWeight);
  }

  /** The whole accounting of one worker changing state. */
  lemma WorkerCounts(ws: seq<Worker>, w: nat, to: Worker)
    requires w < |ws|
    ensures AsleepCount(ws[w := to]) == AsleepCount(ws) - AsleepWeight(ws[w]) + AsleepWeight(to) <= |ws|
    ensures ActiveCount(ws[w := to]) == ActiveCount(ws) - ActiveWeight(ws[w]) + ActiveWeight(to) <= |ws|
  {
    SumUpdate(ws, w, to, AsleepWeight);
    SumUpdate(ws, w, to, ActiveWeight);
    ActiveAtMostAll(ws[w := to]);
  }

  lemma WorkerKeepsCounts<P>(c: Config<P>, s: State<P>, step: Step)
    requires Inv(c, s) && Enabled(c, s, step) && step.ByWorker()
    ensures Counts(c, Apply(c, s, step))
  {
    hide Sum, WorkerRank;
    WorkerCounts(s.workers, step.w, Apply(c, s, step).workers[step.w]);
    if step.Publish? {
      var b := s.workers[step.w].b;
      SumUpdate(s.parts, b, Some(c.parse(b)), FilledWeight);
    } else {
      hide Claims;
    }
  }

  lemma ConsumerKeepsCounts<P>(c: Config<P>, s: State<P>, step: Step)
    requires Inv(c, s) && Enabled(c, s, step) && !step.ByWorker()
    ensures Counts(c, Apply(c, s, step))
  {
    hide Sum, Claims;
    match step
    case Launch => WorkerCounts(s.workers, s.consumer.t, Looping);
    case Check =>
      if s.ready[s.consumer.b] {
        SumUpdate(s.parts, s.consumer.b, None, FilledWeight);
      }
    case Notify(w) => WorkerCounts(s.workers, w, Woken);
    case NotifyNobody =>
      forall w <- s.workers ensures AsleepWeight(w) == 0 {}
      SumZeros(s.workers, AsleepWeight);
    case NotifyAll => WakeAllCounts(s.workers);
    case _ =>
  }

  lemma StepCounts<P>(c: Config<P>, s: State<P>, step: Step)
    requires Inv(c, s) && Enabled(c, s, step)
    ensures Counts(c, Apply(c, s, step))
  {
    hide Inv, Counts, Enabled, Apply;
    if step.ByWorker() {
      WorkerKeepsCounts(c, s, step);
    } else {
      ConsumerKeepsCounts(c, s, step);
    }
  }

  lemma InitInv<P>(c: Config<P>)
    requires c.Valid()
    ensures Inv(c, Init(c))
  {
    var s := Init(c);
    SumZeros(s.workers, AsleepWeight);
    SumZeros(s.parts, FilledWeight<P>);
    ActiveAtMostAll(s.workers);
  }

  lemma {:induction false} RunInv<P>(c: Config<P>, run: seq<State<P>>, steps: seq<Step>, k: nat)
    requires c.Valid() && IsRun(c, run, steps) && k < |run|
    ensures Inv(c, run[k])
  {
    if k == 0 {
      InitInv(c);
    } else {
      RunInv(c, run, steps, k - 1);
      var s, step := run[k - 1], steps[k - 1];
      StepShape(c, s, step);
      StepClaims(c, s, step);
      StepSlots(c, s, step);
      StepCounts(c, s, step);
    }
  }

  // ---- no deadlock, no stranded worker ----

  /** While the consumer is waiting for batch b, some worker can still move: either one is parsing b, or b is
      unclaimed and then nothing is pending, so no worker sleeps and no worker has left. */
  lemma WaitingConsumerIsServed<P>(c: Config<P>, s: State<P>) returns (w: nat)
    requires Inv(c, s) && s.consumer.Dozing?
    ensures w < c.jobs && (s.workers[w].Looping? || s.workers[w].Parsing? || s.workers[w].Woken?)
  {
    var b := s.consumer.b;
    if b < s.next {
      assert HeldBy(s, b);
      w :| 0 <= w < |s.workers| && s.workers[w] == Parsing(b);
    } else {
      forall p <- s.parts ensures FilledWeight(p) == 0 {}
      SumZeros(s.parts, FilledWeight<P>);
      NoneAsleep(c, s);
      w := 0;
    }
  }

  lemma NoneAsleep<P>(c: Config<P>, s: State<P>)
    requires |s.workers| == c.jobs && AsleepCount(s.workers) <= 0
    ensures forall w | 0 <= w < c.jobs :: !s.workers[w].Asleep?
  {
    SumZero(s.workers, AsleepWeight);
    assert forall w | 0 <= w < c.jobs :: s.workers[w] in s.workers;
  }

  /** No worker is left in slot_consumed.wait once every batch is consumed, once `stop` has been announced,
      or once parse_files is about to return. */
  lemma NobodyStranded<P>(c: Config<P>, s: State<P>)
    requires Inv(c, s)
    requires s.consumer.Joining? || s.consumer.Done? || (s.stop && !s.consumer.Broadcasting?)
    ensures forall w | 0 <= w < c.jobs :: !s.workers[w].Asleep?
  {
    if !s.stop {
      forall p <- s.parts ensures FilledWeight(p) == 0 {}
      SumZeros(s.parts, FilledWeight<P>);
    }
    NoneAsleep(c, s);
  }

  lemma FullSlotIsPending<P>(c: Config<P>, s: State<P>)
    requires Inv(c, s) && (s.consumer.Checking? || s.consumer.Roused?)
    ensures s.ready[s.consumer.b] ==> s.pending > 0
  {
    if s.ready[s.consumer.b] {
      SumPositive(s.parts, s.consumer.b, FilledWeight<P>);
    }
  }

  lemma WorkerMoves<P>(c: Config<P>, s: State<P>, w: nat)
    requires Inv(c, s) && w < c.jobs && !s.workers[w].Asleep? && !s.workers[w].Exited? && !s.workers[w].NotStarted?
    ensures Enabled(c, s, WorkerStep(s.workers[w], w)) && !WorkerStep(s.workers[w], w).Spurious()
  {
    hide Sum;
  }

  lemma JoiningMoves<P>(c: Config<P>, s: State<P>) returns (step: Step)
    requires Inv(c, s) && s.consumer.Joining?
    ensures Enabled(c, s, step) && !step.Spurious()
  {
    hide Sum, Inv;
    NobodyStranded(c, s);
    if w :| 0 <= w < |s.workers| && !s.workers[w].Exited? && !s.workers[w].NotStarted? {
      assert |s.workers| == c.jobs by { WorkersAreJobs(c, s); }
      WorkerMoves(c, s, w);
      step := WorkerStep(s.workers[w], w);
    } else {
      step := Join;
    }
  }

  lemma WorkersAreJobs<P>(c: Config<P>, s: State<P>)
    requires Inv(c, s)
    ensures |s.workers| == c.jobs
  {
  }

  /** Deadlock freedom: a state that is not final has an enabled step that is not a spurious wakeup. */
  lemma Progress<P>(c: Config<P>, s: State<P>) returns (step: Step)
    requires Inv(c, s) && !s.consumer.Done?
    ensures Enabled(c, s, step) && !step.Spurious()
  {
    hide Sum, Claims, Counts;
    match s.consumer
    case Launching(_) => step := Launch;
    case Checking(_) => FullSlotIsPending(c, s); step := Check;
    case Roused(_) => FullSlotIsPending(c, s); step := Check;
    case Dozing(_) =>
      var w := WaitingConsumerIsServed(c, s);
      WorkerMoves(c, s, w);
      step := WorkerStep(s.workers[w], w);
    case Notifying(_, _) =>
      if w :| 0 <= w < |s.workers| && s.workers[w].Asleep? {
        step := Notify(w);
      } else {
        step := NotifyNobody;
      }
    case Sinking(b, _) => step := if c.accepts(b) then SinkReturns else SinkThrows;
    case Raising(_) => step := RaiseStop;
    case Broadcasting(_) => step := NotifyAll;
    case Joining(_) => step := JoiningMoves(c, s);
  }

  /** What a running worker does next. */
  function WorkerStep(at: Worker, w: nat): Step {
    match at
    case Looping => Claim(w)
    case Parsing(_) => Publish(w)
    case Woken => Recheck(w)
    case _ => Quit(w)
  }

  // ---- every run ends ----

  function WorkerRank(w: Worker): int {
    match w
    case Parsing(_) => 4
    case NotStarted => 2
    case Woken => 2
    case Exited => 0
    case _ => 1
  }

  function ConsumerRank<P>(c: Config<P>, at: Consumer<P>): int {
    match at
    case Launching(_) => c.batches * (c.jobs + 10)
    case Checking(b) => (c.batches - b) * (c.jobs + 10)
    case Roused(b) => (c.batches - b) * (c.jobs + 10) - 1
    case Dozing(b) => (c.batches - b) * (c.jobs + 10) - 2
    case Notifying(b, _) => (c.batches - b) * (c.jobs + 10) - 3
    case Sinking(b, _) => (c.batches - b) * (c.jobs + 10) - 5
    case Raising(_) => c.jobs + 3
    case Broadcasting(_) => c.jobs + 2
    case Joining(_) => 1
    case Done(_) => 0
  }

  function Unclaimed<P>(c: Config<P>, s: State<P>): nat { if s.next < c.batches then c.batches - s.next else 0 }

  function Measure<P>(c: Config<P>, s: State<P>): int {
    4 * Unclaimed(c, s) + Sum(s.workers, WorkerRank) + ConsumerRank(c, s.consumer)
  }

  lemma WakeAllRank(ws: seq<Worker>)
    ensures Sum(WakeAll(ws), WorkerRank) <= Sum(ws, WorkerRank) + |ws|
  {
    if ws != [] {
      assert WakeAll(ws)[1..] == WakeAll(ws[1..]);
      WakeAllRank(ws[1..]);
    }
  }

  /** One consumed batch is worth more than all the wakeups it can cause. */
  lemma BatchRank(batches: int, jobs: int, b: int)
    requires b < batches && 2 <= jobs
    ensures (batches - b) * (jobs + 10) == (batches - (b + 1)) * (jobs + 10) + (jobs + 10)
    ensures (batches - b) * (jobs + 10) >= jobs + 10
  {
    assert (batches - b) * (jobs + 10) == (batches - (b + 1)) * (jobs + 10) + (jobs + 10);
    assert (batches - (b + 1)) * (jobs + 10) >= 0;
  }

  /** A step that moves one worker changes the sum by that worker's rank alone. */
  lemma WorkerMeasure<P>(c: Config<P>, s: State<P>, w: nat, to: Worker)
    requires w < |s.workers|
    ensures Sum(s.workers[w := to], WorkerRank) == Sum(s.workers, WorkerRank) - WorkerRank(s.workers[w])
        + WorkerRank(to)
  {
    SumUpdate(s.workers, w, to, WorkerRank);
  }

  lemma WorkerStepFalls<P>(c: Config<P>, s: State<P>, step: Step)
    requires Inv(c, s) && Enabled(c, s, step)
    requires step.ByWorker()
    ensures Measure(c, Apply(c, s, step)) < Measure(c, s) + if step.Spurious() then 2 else 0
  {
    hide Sum, Claims, Counts, Slots;
    WorkerMeasure(c, s, step.w, Apply(c, s, step).workers[step.w]);
  }

  lemma ConsumerStepFalls<P>(c: Config<P>, s: State<P>, step: Step)
    requires Inv(c, s) && Enabled(c, s, step)
    requires !step.ByWorker()
    ensures Measure(c, Apply(c, s, step)) < Measure(c, s) + if step.Spurious() then 2 else 0
  {
    hide Sum, Claims, Counts, SerialResult;
    if |s.sunk| < c.batches {
      BatchRank(c.batches, c.jobs, |s.sunk|);
    }
    match step
    case Launch => WorkerMeasure(c, s, s.consumer.t, Looping);
    case Notify(w) => WorkerMeasure(c, s, w, Woken);
    case NotifyAll => WakeAllRank(s.workers);
    case _ =>
  }

  /** Every step but a spurious wakeup lowers the measure, and a spurious wakeup raises it by at most one. */
  lemma MeasureFalls<P>(c: Config<P>, s: State<P>, step: Step)
    requires Inv(c, s) && Enabled(c, s, step)
    ensures Measure(c, Apply(c, s, step)) < Measure(c, s) + if step.Spurious() then 2 else 0
  {
    if step.ByWorker() {
      WorkerStepFalls(c, s, step);
    } else {
      ConsumerStepFalls(c, s, step);
    }
  }

  lemma MeasureNonNegative<P>(c: Config<P>, s: State<P>)
    requires Inv(c, s)
    ensures Measure(c, s) >= 0
  {
    SumNonNegative(s.workers, WorkerRank);
    if |s.sunk| < c.batches {
      BatchRank(c.batches, c.jobs, |s.sunk|);
    }
  }

  function SpuriousIn(steps: seq<Step>): nat {
    if steps == [] then 0 else SpuriousIn(steps[..|steps| - 1]) + if steps[|steps| - 1].Spurious() then 1 else 0
  }

  lemma {:induction false} RunMeasure<P>(c: Config<P>, run: seq<State<P>>, steps: seq<Step>, k: nat)
    requires c.Valid() && IsRun(c, run, steps) && k <= |steps|
    ensures Measure(c, run[k]) <= Measure(c, Init(c)) + 2 * SpuriousIn(steps[..k]) - k
  {
    if k > 0 {
      RunMeasure(c, run, steps, k - 1);
      RunInv(c, run, steps, k - 1);
      MeasureFalls(c, run[k - 1], steps[k - 1]);
      assert steps[..k][..k - 1] == steps[..k - 1];
    }
  }

  // ---- the main theorems, over every run ----

  /** A run is no longer than a constant of the configuration plus twice the spurious wakeups in it. */
  lemma EveryRunIsBounded<P>(c: Config<P>, run: seq<State<P>>, steps: seq<Step>)
    requires c.Valid() && IsRun(c, run, steps)
    ensures |steps| <= c.batches * (c.jobs + 14) + 2 * c.jobs + 2 * SpuriousIn(steps)
  {
    hide Sum, Inv, SpuriousIn;
    var k := |steps|;
    RunMeasure(c, run, steps, k);
    RunInv(c, run, steps, k);
    MeasureNonNegative(c, run[k]);
    assert steps[..k] == steps;
    SumBounds(Init(c).workers, 0, 2, WorkerRank);
    assert c.batches * (c.jobs + 14) == c.batches * (c.jobs + 10) + 4 * c.batches;
  }

  /** A run that cannot go on without a spurious wakeup has ended. */
  lemma NoRunGetsStuck<P>(c: Config<P>, run: seq<State<P>>, steps: seq<Step>)
    requires c.Valid() && IsRun(c, run, steps)
    requires forall step: Step :: Enabled(c, run[|steps|], step) ==> step.Spurious()
    ensures run[|steps|].consumer.Done?
  {
    RunInv(c, run, steps, |steps|);
    if !run[|steps|].consumer.Done? {
      var step := Progress(c, run[|steps|]);
    }
  }

  /** From wherever a run has got to, finitely many steps without spurious wakeups take it to its end. */
  lemma EveryRunCanFinish<P>(c: Config<P>, run: seq<State<P>>, steps: seq<Step>)
      returns (run': seq<State<P>>, steps': seq<Step>)
    requires c.Valid() && IsRun(c, run, steps)
    ensures IsRun(c, run', steps') && run <= run' && steps <= steps'
    ensures run'[|steps'|].consumer.Done?
    ensures forall k | |steps| <= k < |steps'| :: !steps'[k].Spurious()
    decreases Measure(c, run[|steps|])
  {
    hide Inv, Measure, Enabled, Apply;
    var s := run[|steps|];
    if s.consumer.Done? {
      return run, steps;
    }
    RunInv(c, run, steps, |steps|);
    var step := Progress(c, s);
    MeasureFalls(c, s, step);
    MeasureNonNegative(c, s);
    run', steps' := EveryRunCanFinish(c, run + [Apply(c, s, step)], steps + [step]);
    assert steps'[|steps|] == (steps + [step])[|steps|];
  }

  /** Any interleaving hands the sink what the one-thread loop hands it, and fails exactly when it does. */
  lemma ConcurrentRefinesSerial<P>(c: Config<P>, run: seq<State<P>>, steps: seq<Step>, sunk: seq<P>, failed: bool)
    requires c.Valid() && IsRun(c, run, steps) && SerialResult(c, sunk, failed)
    ensures forall s <- run :: s.sunk <= sunk || OutcomeOf(s) == Some(LaunchFailed)
    ensures var s := run[|steps|];
            s.consumer.Done? ==>
              if s.consumer.why.LaunchFailed? then s.sunk == []
              else s.sunk == sunk && (s.consumer.why.SinkFailed? <==> failed)
  {
    forall s | s in run && OutcomeOf(s) != Some(LaunchFailed) ensures s.sunk <= sunk {
      var k :| 0 <= k < |run| && run[k] == s;
      RunInv(c, run, steps, k);
      SerialPrefix(c, s, sunk, failed);
    }
    RunInv(c, run, steps, |steps|);
    var s := run[|steps|];
    if s.consumer.Done? && !s.consumer.why.LaunchFailed? {
      SerialResultIsUnique(c, sunk, failed, s.sunk, s.consumer.why.SinkFailed?);
    }
  }

  lemma SerialPrefix<P>(c: Config<P>, s: State<P>, sunk: seq<P>, failed: bool)
    requires Inv(c, s) && SerialResult(c, sunk, failed) && OutcomeOf(s) != Some(LaunchFailed)
    ensures s.sunk <= sunk
  {
    if OutcomeOf(s).Some? {
      SerialResultIsUnique(c, sunk, failed, s.sunk, OutcomeOf(s) == Some(SinkFailed));
    } else {
      assert failed ==> !c.accepts(|sunk| - 1);
    }
  }

  /** Back-pressure: the slots holding finished, unconsumed batches never exceed 3J - 1. */
  lemma BacklogIsBounded<P>(c: Config<P>, run: seq<State<P>>, steps: seq<Step>, k: nat)
    requires c.Valid() && IsRun(c, run, steps) && k < |run|
    ensures |set b | 0 <= b < |run[k].parts| && run[k].parts[b].Some?| <= 3 * c.jobs - 1
  {
    RunInv(c, run, steps, k);
    FilledSlots(run[k].parts, |run[k].parts|);
    ActiveAtMostAll(run[k].workers);
    assert run[k].parts[..|run[k].parts|] == run[k].parts;
  }

  lemma {:induction false} FilledSlots<P>(parts: seq<Option<P>>, n: nat)
    requires n <= |parts|
    ensures |set b | 0 <= b < n && parts[b].Some?| == Sum(parts[..n], FilledWeight<P>)
  {
    if n > 0 {
      FilledSlots(parts, n - 1);
      var before := set b | 0 <= b < n - 1 && parts[b].Some?;
      var now := set b | 0 <= b < n && parts[b].Some?;
      assert now == if parts[n - 1].Some? then before + {n - 1} else before;
      assert parts[..n] == parts[..n - 1] + [parts[n - 1]];
      SumAppend(parts[..n - 1], parts[n - 1], FilledWeight<P>);
    }
  }

  lemma {:induction false} SumAppend<T>(s: seq<T>, x: T, f: T -> int)
    ensures Sum(s + [x], f) == Sum(s, f) + f(x)
  {
    if s != [] {
      assert (s + [x])[1..] == s[1..] + [x];
      SumAppend(s[1..], x, f);
    }
  }
}
