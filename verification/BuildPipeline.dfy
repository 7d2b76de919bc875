/** The goroutines of `Build` (internal/indexer/indexer.go): a producer, workers and
    the collector, joined by two unbuffered channels and an error channel that
    holds one error; then the build is published or fails. */
module BuildPipeline {
  import opened Prelude
  import opened Conservation
  import opened ContentSpec
  import opened IndexEntry

  const WORKERS_MIN := 4
  const WORKERS_MAX := 8

  /** The number of workers: at least one, whatever the caller asks for. */
  method WorkerCount(requested: int, cpus: int) returns (workers: nat)
    ensures workers > 0 && (requested > 0 ==> workers == requested)
    ensures requested <= 0
        ==> WORKERS_MIN <= workers <= WORKERS_MAX && (WORKERS_MIN <= cpus <= WORKERS_MAX ==> workers == cpus)
    ensures requested <= 0 ==> (cpus < WORKERS_MIN ==> workers == WORKERS_MIN)
    ensures requested <= 0 ==> (cpus > WORKERS_MAX ==> workers == WORKERS_MAX)
  {
    if requested <= 0 {
      var n := cpus;
      if n > WORKERS_MAX {
        n := WORKERS_MAX;
      }
      if n < WORKERS_MIN {
        n := WORKERS_MIN;
      }
      return n;
    }
    return requested;
  }

  /** A worker waits for an entry, works on it, waits to hand over its result, has
      returned because there are no more entries, or has returned on an error. */
  datatype Worker =
    | Receiving
    | Working(entry: Entry)
    | Sending(entry: Entry, result: Indexed)
    | Returned
    | Failed(entry: Entry)

  /** What `Build` does in the end. */
  datatype Outcome = Rejected(error: string) | Publishes(batch: Batch)

  datatype Pipeline = Pipeline(
    next: nat, jobsClosed: bool, workers: seq<Worker>, firstError: Option<string>,
    results: seq<Indexed>, resultsClosed: bool, outcome: Option<Outcome>)

  function Start(workers: nat): Pipeline {
    Pipeline(0, false, seq(workers, _ => Receiving), None, [], false, None)
  }

  datatype Action =
    | Give(worker: nat)
    | CloseJobs
    | Finish(worker: nat, result: Indexed)
    | Fail(worker: nat, error: string)
    | Deliver(worker: nat)
    | Return(worker: nat)
    | CloseResults
    | Decide

  /** Results are for the entry at hand, however they were come by. */
  predicate Enabled(entries: seq<Entry>, p: Pipeline, a: Action) {
    match a
    case Give(w) => !p.jobsClosed && p.next < |entries| && w < |p.workers| && p.workers[w].Receiving?
    case CloseJobs => !p.jobsClosed && p.next == |entries|
    case Finish(w, result) => w < |p.workers| && p.workers[w].Working? && result.file.path == p.workers[w].entry.path
    case Fail(w, _) => w < |p.workers| && p.workers[w].Working?
    case Deliver(w) => !p.resultsClosed && w < |p.workers| && p.workers[w].Sending?
    case Return(w) => p.jobsClosed && w < |p.workers| && p.workers[w].Receiving?
    case CloseResults => !p.resultsClosed && AllReturned(p)
    case Decide => p.resultsClosed && p.outcome.None?
  }

  predicate AllReturned(p: Pipeline) {
    forall w :: 0 <= w < |p.workers| ==> p.workers[w].Returned? || p.workers[w].Failed?
  }

  function Step(entries: seq<Entry>, p: Pipeline, a: Action): Pipeline
    requires Enabled(entries, p, a)
  {
    match a
    case Give(w) => p.(next := p.next + 1, workers := p.workers[w := Working(entries[p.next])])
    case CloseJobs => p.(jobsClosed := true)
    case Finish(w, result) => p.(workers := p.workers[w := Sending(p.workers[w].entry, result)])
    case Fail(w, error) =>
      p.(workers := p.workers[w := Failed(p.workers[w].entry)],
         firstError := if p.firstError.None? then Some(error) else p.firstError)
    case Deliver(w) => p.(workers := p.workers[w := Receiving], results := p.results + [p.workers[w].result])
    case Return(w) => p.(workers := p.workers[w := Returned])
    case CloseResults => p.(resultsClosed := true)
    case Decide =>
      p.(outcome := Some(if p.firstError.Some? then Rejected(p.firstError.value) else Publishes(Collect(p.results))))
  }

  // ----- what every step keeps -----

  function Paths(entries: seq<Entry>): seq<string> {
    Map(entries, (e: Entry) => e.path)
  }

  function ResultPaths(results: seq<Indexed>): seq<string> {
    Map(results, (r: Indexed) => r.file.path)
  }

  /** The path that a worker has taken and not handed over; if it failed, it never will. */
  function Holds(w: Worker): seq<string> {
    match w
    case Working(e) => [e.path]
    case Sending(e, _) => [e.path]
    case Failed(e) => [e.path]
    case _ => []
  }

  predicate InHand(w: Worker) {
    w.Sending? ==> w.result.file.path == w.entry.path
  }

  predicate Shaped(entries: seq<Entry>, p: Pipeline) {
    && p.next <= |entries| && |p.workers| > 0
    && (forall w :: 0 <= w < |p.workers| ==> InHand(p.workers[w]))
    && (p.jobsClosed ==> p.next == |entries|)
    && (forall w :: 0 <= w < |p.workers| && p.workers[w].Returned? ==> p.jobsClosed)
    && (p.firstError.Some? <==> exists w :: 0 <= w < |p.workers| && p.workers[w].Failed?)
    && (p.resultsClosed ==> AllReturned(p))
  }

  ghost predicate Conserved(entries: seq<Entry>, p: Pipeline)
    requires p.next <= |entries|
  {
    AllBalanced(ResultPaths(p.results), p.workers, Holds, Paths(entries[p.next..]), Paths(entries))
  }

  predicate Settled(p: Pipeline) {
    p.outcome.Some? ==>
      && p.resultsClosed
      && p.outcome.value == if p.firstError.Some? then Rejected(p.firstError.value) else Publishes(Collect(p.results))
  }

  ghost predicate Good(entries: seq<Entry>, p: Pipeline) {
    Shaped(entries, p) && Conserved(entries, p) && Settled(p)
  }

  // ----- each step -----

  lemma StepConserves(entries: seq<Entry>, p: Pipeline, a: Action)
    requires Good(entries, p) && Enabled(entries, p, a)
    ensures Step(entries, p, a).next <= |entries| && Conserved(entries, Step(entries, p, a))
  {
    hide AllBalanced, Collect;
    var p' := Step(entries, p, a);
    match a {
      case Give(w) =>
        assert Paths(entries[p.next..]) == Holds(Working(entries[p.next])) + Paths(entries[p'.next..]);
        ListSent(p.workers, w, p'.workers[w], Holds, ResultPaths(p.results), Paths(entries[p'.next..]), Paths(entries));
      case Deliver(w) =>
        assert InHand(p.workers[w]);
        assert ResultPaths(p'.results) == ResultPaths(p.results) + Holds(p.workers[w]);
        ListRecorded(p.workers, w, p'.workers[w], Holds, ResultPaths(p.results), Holds(p.workers[w]),
            Paths(entries[p.next..]), Paths(entries));
      case Finish(w, _) => QuietStep(entries, p, w, p'.workers[w]);
      case Fail(w, _) => QuietStep(entries, p, w, p'.workers[w]);
      case Return(w) => QuietStep(entries, p, w, p'.workers[w]);
      case _ =>
    }
  }

  lemma QuietStep(entries: seq<Entry>, p: Pipeline, w: nat, v: Worker)
    requires p.next <= |entries| && Conserved(entries, p) && w < |p.workers| && Holds(p.workers[w]) == Holds(v)
    ensures Conserved(entries, p.(workers := p.workers[w := v]))
  {
    hide AllBalanced, Holds;
    ListRecorded(p.workers, w, v, Holds, ResultPaths(p.results), [], Paths(entries[p.next..]), Paths(entries));
    assert ResultPaths(p.results) + [] == ResultPaths(p.results);
  }

  lemma StepKeepsGood(entries: seq<Entry>, p: Pipeline, a: Action)
    requires Good(entries, p) && Enabled(entries, p, a)
    ensures Good(entries, Step(entries, p, a))
  {
    StepConserves(entries, p, a);
    hide Conserved, Collect;
    var p' := Step(entries, p, a);
    if !a.CloseJobs? && !a.CloseResults? && !a.Decide? {
      WorkerErrors(p, a.worker, p'.workers[a.worker], p');
    }
  }

  /** A worker that does not become failed leaves the failed workers as they are. */
  lemma WorkerErrors(p: Pipeline, w: nat, v: Worker, p': Pipeline)
    requires w < |p.workers| && p'.workers == p.workers[w := v] && !p.workers[w].Failed?
    requires p.firstError.Some? <==> exists u :: 0 <= u < |p.workers| && p.workers[u].Failed?
    requires p'.firstError.Some? <==> p.firstError.Some? || v.Failed?
    ensures p'.firstError.Some? <==> exists u :: 0 <= u < |p'.workers| && p'.workers[u].Failed?
  {
    if u :| 0 <= u < |p.workers| && p.workers[u].Failed? {
      assert p'.workers[u].Failed?;
    }
    if v.Failed? {
      assert p'.workers[w].Failed?;
    }
  }

  lemma StartIsGood(entries: seq<Entry>, workers: nat)
    requires workers > 0
    ensures Good(entries, Start(workers))
  {
    NothingYet(Start(workers).workers, Holds, Paths(entries));
    assert entries[0..] == entries;
  }

  // ----- runs -----

  ghost predicate Legal(entries: seq<Entry>, p: Pipeline, run: seq<Action>)
    decreases |run|
  {
    run == [] || (Enabled(entries, p, run[0]) && Legal(entries, Step(entries, p, run[0]), run[1..]))
  }

  ghost function After(entries: seq<Entry>, p: Pipeline, run: seq<Action>): Pipeline
    requires Legal(entries, p, run)
    decreases |run|
  {
    if run == [] then p else After(entries, Step(entries, p, run[0]), run[1..])
  }

  lemma {:induction false} RunKeepsGood(entries: seq<Entry>, p: Pipeline, run: seq<Action>)
    requires Good(entries, p) && Legal(entries, p, run)
    ensures Good(entries, After(entries, p, run))
    decreases |run|
  {
    hide Good, Enabled, Step;
    if run != [] {
      StepKeepsGood(entries, p, run[0]);
      RunKeepsGood(entries, Step(entries, p, run[0]), run[1..]);
    }
  }

  /** A build with no failed worker has collected every entry once. */
  lemma AllCollected(entries: seq<Entry>, p: Pipeline)
    requires Good(entries, p) && p.resultsClosed && p.firstError.None?
    ensures multiset(ResultPaths(p.results)) == multiset(Paths(entries))
  {
    hide AllBalanced;
    assert p.workers[0].Returned?;
    assert Paths(entries[p.next..]) == [];
    SettledIsAll(ResultPaths(p.results), p.workers, Holds, Paths(entries));
  }

  /** Whatever the interleaving, a build that comes to an end either fails with the
      error of a worker, and publishes nothing, or no worker failed and it publishes
      a batch with exactly one file for each entry. */
  lemma {:induction false} PublishesAllOrFails(entries: seq<Entry>, workers: nat, run: seq<Action>)
    requires workers > 0 && Legal(entries, Start(workers), run) && After(entries, Start(workers), run).outcome.Some?
    ensures var p := After(entries, Start(workers), run);
            && (p.outcome.value.Rejected? <==> exists w :: 0 <= w < |p.workers| && p.workers[w].Failed?)
            && (p.outcome.value.Publishes? ==>
                  multiset(Map(p.outcome.value.batch.files, (f: FileFact) => f.path)) == multiset(Paths(entries)))
  {
    StartIsGood(entries, workers);
    RunKeepsGood(entries, Start(workers), run);
    var p := After(entries, Start(workers), run);
    hide After, Legal, Conserved;
    if p.firstError.None? {
      AllCollected(entries, p);
      assert Map(Collect(p.results).files, (f: FileFact) => f.path) == ResultPaths(p.results);
    }
  }

  /** The first failure of the run is one with `error`. */
  ghost predicate FailsFirst(run: seq<Action>, error: string) {
    exists k: nat :: FailsAt(run, k, error)
  }

  predicate FailsAt(run: seq<Action>, k: nat, error: string) {
    k < |run| && run[k].Fail? && run[k].error == error && forall i :: 0 <= i < k ==> !run[i].Fail?
  }

  lemma {:induction false} ErrorStays(entries: seq<Entry>, p: Pipeline, run: seq<Action>)
    requires Legal(entries, p, run) && p.firstError.Some?
    ensures After(entries, p, run).firstError == p.firstError
    decreases |run|
  {
    hide Enabled;
    if run != [] {
      ErrorStays(entries, Step(entries, p, run[0]), run[1..]);
    }
  }

  lemma {:induction false} FirstErrorOfRun(entries: seq<Entry>, p: Pipeline, run: seq<Action>, error: string)
    requires Legal(entries, p, run) && p.firstError.None?
    ensures After(entries, p, run).firstError == Some(error) <==> FailsFirst(run, error)
    decreases |run|
  {
    hide Enabled;
    if run != [] {
      var p', rest := Step(entries, p, run[0]), run[1..];
      if run[0].Fail? {
        ErrorStays(entries, p', rest);
        assert FailsAt(run, 0, run[0].error);
      } else {
        FirstErrorOfRun(entries, p', rest, error);
        if k: nat :| FailsAt(rest, k, error) {
          assert FailsAt(run, k + 1, error);
        }
        if k: nat :| FailsAt(run, k, error) {
          assert FailsAt(rest, k - 1, error);
        }
      }
    }
  }

  /** A build is rejected with the error of its first failure, however many there are,
      and not rejected if there is none. */
  lemma {:induction false} RejectedWithFirstError(entries: seq<Entry>, workers: nat, run: seq<Action>, error: string)
    requires workers > 0 && Legal(entries, Start(workers), run) && After(entries, Start(workers), run).outcome.Some?
    ensures After(entries, Start(workers), run).outcome.value == Rejected(error) <==> FailsFirst(run, error)
  {
    StartIsGood(entries, workers);
    RunKeepsGood(entries, Start(workers), run);
    FirstErrorOfRun(entries, Start(workers), run, error);
    hide After, Legal, Conserved, Shaped, FailsFirst, Collect;
  }

  // ----- it comes to an end -----

  /** Until the build has decided, something other than a failure can happen. */
  lemma NeverStuck(entries: seq<Entry>, p: Pipeline) returns (a: Action)
    requires Good(entries, p) && p.outcome.None?
    ensures Enabled(entries, p, a) && !a.Fail?
  {
    hide Conserved, Settled;
    if p.resultsClosed {
      a := Decide;
    } else if AllReturned(p) {
      a := CloseResults;
    } else {
      var w :| 0 <= w < |p.workers| && !p.workers[w].Returned? && !p.workers[w].Failed?;
      if p.workers[w].Sending? {
        a := Deliver(w);
      } else if p.workers[w].Working? {
        a := Finish(w, Indexed(FileFact(p.workers[w].entry.path, "", "", TextFile, "", "", 0), NO_ITEMS));
      } else {
        a := if p.jobsClosed then Return(w) else if p.next < |entries| then Give(w) else CloseJobs;
      }
    }
  }

  function WorkerWork(w: Worker): nat {
    match w
    case Receiving => 1
    case Working(_) => 3
    case Sending(_, _) => 2
    case Returned => 0
    case Failed(_) => 0
  }

  function WorkersWork(workers: seq<Worker>): nat {
    if workers == [] then 0 else WorkerWork(workers[0]) + WorkersWork(workers[1..])
  }

  function Work(entries: seq<Entry>, p: Pipeline): nat
    requires p.next <= |entries|
  {
    3 * (|entries| - p.next) + WorkersWork(p.workers) + (if p.jobsClosed then 0 else 1)
    + (if p.resultsClosed then 0 else 1) + if p.outcome.Some? then 0 else 1
  }

  lemma {:induction false} WorkChange(workers: seq<Worker>, w: nat, x: Worker)
    requires w < |workers|
    ensures WorkersWork(workers[w := x]) + WorkerWork(workers[w]) == WorkersWork(workers) + WorkerWork(x)
  {
    if w == 0 {
      assert workers[0 := x][1..] == workers[1..];
    } else {
      assert workers[w := x][1..] == workers[1..][w - 1 := x];
      WorkChange(workers[1..], w - 1, x);
    }
  }

  /** Every step leaves less to do. */
  lemma StepsRunOut(entries: seq<Entry>, p: Pipeline, a: Action)
    requires Good(entries, p) && Enabled(entries, p, a)
    ensures Step(entries, p, a).next <= |entries| && Work(entries, Step(entries, p, a)) < Work(entries, p)
  {
    hide Conserved, WorkersWork, Collect;
    var p' := Step(entries, p, a);
    if !a.CloseJobs? && !a.CloseResults? && !a.Decide? {
      WorkChange(p.workers, a.worker, p'.workers[a.worker]);
    }
  }

  /** From wherever it has got to, a build can go on until it has decided, without
      another failure. */
  lemma {:induction false} EveryBuildEnds(entries: seq<Entry>, p: Pipeline) returns (run: seq<Action>)
    requires Good(entries, p)
    ensures Legal(entries, p, run) && After(entries, p, run).outcome.Some?
    ensures After(entries, p, run).firstError == p.firstError
    decreases Work(entries, p)
  {
    if p.outcome.Some? {
      run := [];
    } else {
      var a := NeverStuck(entries, p);
      StepKeepsGood(entries, p, a);
      StepsRunOut(entries, p, a);
      assert Step(entries, p, a).firstError == p.firstError;
      hide Good, Enabled, Step, Work;
      var rest := EveryBuildEnds(entries, Step(entries, p, a));
      run := [a] + rest;
      assert run[1..] == rest;
    }
  }

  /** No run goes on for longer than the work there is. */
  lemma {:induction false} RunsAreBounded(entries: seq<Entry>, p: Pipeline, run: seq<Action>)
    requires Good(entries, p) && Legal(entries, p, run)
    ensures |run| <= Work(entries, p)
    decreases |run|
  {
    if run != [] {
      StepKeepsGood(entries, p, run[0]);
      StepsRunOut(entries, p, run[0]);
      hide Conserved, Enabled, Step, Work;
      RunsAreBounded(entries, Step(entries, p, run[0]), run[1..]);
    }
  }

  // ----- the producer -----

  /** The build has decided, and its producer is blocked for ever on an entry that
      nobody takes. */
  ghost predicate LeavesProducer(entries: seq<Entry>, workers: nat, run: seq<Action>) {
    && Legal(entries, Start(workers), run)
    && var p := After(entries, Start(workers), run);
    && p.outcome.Some? && !p.jobsClosed && forall x :: !Enabled(entries, p, x)
  }

  /** Then entries are left, and every worker failed. */
  lemma {:induction false} ProducerIsBlocked(entries: seq<Entry>, workers: nat, run: seq<Action>)
    requires workers > 0 && Legal(entries, Start(workers), run) && After(entries, Start(workers), run).outcome.Some?
    ensures var p := After(entries, Start(workers), run);
            && Good(entries, p) && |p.workers| == workers
            && (LeavesProducer(entries, workers, run) <==> p.next < |entries|)
            && (p.next < |entries| ==> forall w :: 0 <= w < |p.workers| ==> p.workers[w].Failed?)
  {
    StartIsGood(entries, workers);
    RunKeepsGood(entries, Start(workers), run);
    WorkersStay(entries, Start(workers), run);
    var p := After(entries, Start(workers), run);
    hide After, Legal, Conserved;
    assert !p.jobsClosed && p.next == |entries| ==> Enabled(entries, p, CloseJobs);
  }

  lemma {:induction false} WorkersStay(entries: seq<Entry>, p: Pipeline, run: seq<Action>)
    requires Legal(entries, p, run)
    ensures |After(entries, p, run).workers| == |p.workers|
    decreases |run|
  {
    if run != [] {
      WorkersStay(entries, Step(entries, p, run[0]), run[1..]);
    }
  }

  /** Each failed worker has taken an entry with it. */
  lemma {:induction false} FailedTakeOneEach(workers: seq<Worker>)
    requires forall w :: 0 <= w < |workers| ==> workers[w].Failed?
    ensures |AllOwed(workers, Holds)| == |workers|
  {
    if workers != [] {
      FailedTakeOneEach(workers[1..]);
    }
  }

  /** The first workers have failed on one entry each, and the others wait. */
  predicate FailedSoFar(p: Pipeline, k: nat) {
    && p.next == k <= |p.workers| && !p.jobsClosed && !p.resultsClosed && p.outcome.None?
    && forall w :: 0 <= w < |p.workers| ==> if w < k then p.workers[w].Failed? else p.workers[w].Receiving?
  }

  /** A run in which every worker fails on its first entry. */
  lemma {:induction false} AllFail(entries: seq<Entry>, p: Pipeline, k: nat) returns (run: seq<Action>)
    requires FailedSoFar(p, k) && |p.workers| < |entries|
    ensures Legal(entries, p, run) && After(entries, p, run).outcome.Some? && After(entries, p, run).next == |p.workers|
    decreases |p.workers| - k
  {
    if k == |p.workers| {
      run := [CloseResults, Decide];
      TwoSteps(entries, p, CloseResults, Decide, []);
      assert [CloseResults, Decide] + [] == run;
    } else {
      var rest := AllFail(entries, Step(entries, Step(entries, p, Give(k)), Fail(k, "lookup")), k + 1);
      run := [Give(k), Fail(k, "lookup")] + rest;
      TwoSteps(entries, p, Give(k), Fail(k, "lookup"), rest);
    }
  }

  lemma {:induction false} TwoSteps(entries: seq<Entry>, p: Pipeline, a: Action, b: Action, rest: seq<Action>)
    requires Enabled(entries, p, a) && Enabled(entries, Step(entries, p, a), b)
    requires Legal(entries, Step(entries, Step(entries, p, a), b), rest)
    ensures Legal(entries, p, [a, b] + rest)
    ensures After(entries, p, [a, b] + rest) == After(entries, Step(entries, Step(entries, p, a), b), rest)
  {
    hide Enabled, Step;
    var run := [a, b] + rest;
    assert run[1..] == [b] + rest && ([b] + rest)[1..] == rest;
    assert Legal(entries, Step(entries, p, a), [b] + rest);
  }

  /** A build can leave its producer behind if and only if it has more entries than
      workers: the error path of a worker does not drain the entries. */
  lemma ProducerLeftBehind(entries: seq<Entry>, workers: nat)
    requires workers > 0
    ensures (exists run :: LeavesProducer(entries, workers, run)) <==> |entries| > workers
  {
    if |entries| > workers {
      var run := AllFail(entries, Start(workers), 0);
      ProducerIsBlocked(entries, workers, run);
    } else {
      forall run | LeavesProducer(entries, workers, run) ensures false {
        NoneLeftBehind(entries, workers, run);
      }
    }
  }

  /** With no more entries than workers somebody takes every entry. */
  lemma NoneLeftBehind(entries: seq<Entry>, workers: nat, run: seq<Action>)
    requires workers > 0 && LeavesProducer(entries, workers, run)
    ensures |entries| > workers
  {
    ProducerIsBlocked(entries, workers, run);
    var p := After(entries, Start(workers), run);
    hide After, LeavesProducer;
    BalancedLengths(ResultPaths(p.results), p.workers, Holds, Paths(entries[p.next..]), Paths(entries));
    FailedTakeOneEach(p.workers);
  }

  /** Two entries and one worker, which fails on the first. */
  lemma ProducerCanBeLeftBehind(a: Entry, b: Entry)
    ensures var run := [Give(0), Fail(0, "lookup"), CloseResults, Decide];
            && LeavesProducer([a, b], 1, run)
            && After([a, b], Start(1), run).outcome == Some(Rejected("lookup"))
  {
    var entries, p := [a, b], Start(1);
    var p2 := Step(entries, Step(entries, p, Give(0)), Fail(0, "lookup"));
    var end := Step(entries, Step(entries, p2, CloseResults), Decide);
    TwoSteps(entries, p2, CloseResults, Decide, []);
    assert [CloseResults, Decide] + [] == [CloseResults, Decide];
    TwoSteps(entries, p, Give(0), Fail(0, "lookup"), [CloseResults, Decide]);
    var run := [Give(0), Fail(0, "lookup")] + [CloseResults, Decide];
    assert run == [Give(0), Fail(0, "lookup"), CloseResults, Decide];
    assert After(entries, p, run) == end;
    ProducerIsBlocked(entries, 1, run);
  }
}
