/** Every schedule of `wowdoc init` ends, and with the same lists. */
module InitTheorems {
  import opened Prelude
  import opened Ordering
  import opened Conservation
  import opened InitScheduler

  // ----- conservation -----

  /** A step of worker `w` that records `stats` and `failures`. */
  lemma WorkerStepConserves(build: Builder, jobs: seq<Job>, p: Pool, w: nat, v: Worker, p': Pool, stats: seq<Stats>,
        failures: seq<Failure>)
    requires w < |p.workers| && p.next <= |jobs| && Conserved(build, jobs, p)
    requires OwesBuilt(build, p.workers[w]) == stats + OwesBuilt(build, v)
    requires OwesFailed(build, p.workers[w]) == failures + OwesFailed(build, v)
    requires p'.next == p.next && p'.workers == p.workers[w := v]
    requires p'.built == p.built + stats && p'.failures == p.failures + failures
    ensures Conserved(build, jobs, p')
  {
    hide OwesBuilt, OwesFailed, AllBuilt, AllFailed, AllBalanced;
    ListRecorded(p.workers, w, v, BuiltOwed(build), p.built, stats, AllBuilt(build, jobs[p.next..]),
        AllBuilt(build, jobs));
    ListRecorded(p.workers, w, v, FailedOwed(build), p.failures, failures, AllFailed(build, jobs[p.next..]),
        AllFailed(build, jobs));
  }

  lemma FirstOfRest(build: Builder, jobs: seq<Job>, next: nat)
    requires next < |jobs|
    ensures AllBuilt(build, jobs[next..]) == BuiltFrom(build, jobs[next], 0) + AllBuilt(build, jobs[next + 1..])
    ensures AllFailed(build, jobs[next..]) == FailedFrom(build, jobs[next], 0) + AllFailed(build, jobs[next + 1..])
  {
    hide BuiltFrom, FailedFrom;
    assert jobs[next..][0] == jobs[next] && jobs[next..][1..] == jobs[next + 1..];
  }

  lemma SendConserves(build: Builder, jobs: seq<Job>, p: Pool, w: nat, p': Pool)
    requires w < |p.workers| && p.next < |jobs| && Conserved(build, jobs, p)
    requires p.workers[w].Waiting?
    requires p' == p.(next := p.next + 1, workers := p.workers[w := Building(jobs[p.next], 0)])
    ensures Conserved(build, jobs, p')
  {
    hide BuiltFrom, FailedFrom, AllBuilt, AllFailed, AllBalanced;
    var v := Building(jobs[p.next], 0);
    FirstOfRest(build, jobs, p.next);
    ListSent(p.workers, w, v, BuiltOwed(build), p.built, AllBuilt(build, jobs[p'.next..]), AllBuilt(build, jobs));
    ListSent(p.workers, w, v, FailedOwed(build), p.failures, AllFailed(build, jobs[p'.next..]), AllFailed(build, jobs));
  }

  lemma OwesRecorded(build: Builder, job: Job, k: nat)
    requires k < |job.refs|
    ensures var r := build(job, job.refs[k]);
            var (owed, failed) := (BuiltFrom(build, job, k), FailedFrom(build, job, k));
            && (r.Ok? ==>
                  owed == [r.value] + BuiltFrom(build, job, k + 1) && failed == [] + FailedFrom(build, job, k + 1))
            && (r.Err? ==>
                  && owed == [] + []
                  && failed == [Failure(job.source, job.product, job.refs[k].requested, r.error)] + [])
  {
  }

  lemma RecordConserves(build: Builder, jobs: seq<Job>, p: Pool, w: nat)
    requires w < |p.workers| && p.next <= |jobs| && Conserved(build, jobs, p)
    requires p.workers[w].Recording? && InRange(p.workers[w])
    ensures Conserved(build, jobs, RecordStep(build, p, w))
  {
    var p' := RecordStep(build, p, w);
    var job, k := p.workers[w].job, p.workers[w].k;
    hide Conserved, BuiltFrom, FailedFrom;
    OwesRecorded(build, job, k);
    if build(job, job.refs[k]).Ok? {
      WorkerStepConserves(build, jobs, p, w, Building(job, k + 1), p', [build(job, job.refs[k]).value], []);
    } else {
      WorkerStepConserves(build, jobs, p, w, Waiting, p', [],
                          [Failure(job.source, job.product, job.refs[k].requested, build(job, job.refs[k]).error)]);
    }
  }

  /** A step that only changes the state of one worker. */
  lemma QuietStepConserves(build: Builder, jobs: seq<Job>, p: Pool, w: nat, v: Worker, p': Pool)
    requires w < |p.workers| && p.next <= |jobs| && Conserved(build, jobs, p)
    requires OwesBuilt(build, p.workers[w]) == OwesBuilt(build, v)
        && OwesFailed(build, p.workers[w]) == OwesFailed(build, v)
    requires p' == p.(workers := p.workers[w := v], mutex := p'.mutex)
    ensures Conserved(build, jobs, p')
  {
    hide *;
    WorkerStepConserves(build, jobs, p, w, v, p', [], []);
  }

  lemma StepConserves(build: Builder, jobs: seq<Job>, p: Pool, a: Action)
    requires Shaped(jobs, p) && Conserved(build, jobs, p) && Enabled(jobs, p, a)
    ensures Step(build, jobs, p, a).next <= |jobs|
    ensures Conserved(build, jobs, Step(build, jobs, p, a))
  {
    var p' := Step(build, jobs, p, a);
    if a.Close? || a.Join? {
      ConservedAlike(build, jobs, p, p');
    } else {
      OneInRange(p, a.worker);
      hide Conserved, AllInRange, Exclusive, BuiltFrom, FailedFrom;
      match a {
        case Send(w) => SendConserves(build, jobs, p, w, p');
        case Record(w) => RecordConserves(build, jobs, p, w);
        case Build(w) => QuietStepConserves(build, jobs, p, w, p'.workers[w], p');
        case Lock(w) => QuietStepConserves(build, jobs, p, w, p'.workers[w], p');
        case NextJob(w) => QuietStepConserves(build, jobs, p, w, p'.workers[w], p');
        case Return(w) => QuietStepConserves(build, jobs, p, w, p'.workers[w], p');
      }
    }
  }

  lemma ConservedAlike(build: Builder, jobs: seq<Job>, p: Pool, p': Pool)
    requires p.next <= |jobs| && Conserved(build, jobs, p)
    requires p' == p.(closed := p'.closed, joined := p'.joined)
    ensures Conserved(build, jobs, p')
  {
    hide AllBalanced, OwesBuilt, OwesFailed, AllBuilt, AllFailed;
  }

  lemma StepKeepsShape(build: Builder, jobs: seq<Job>, p: Pool, a: Action)
    requires Shaped(jobs, p) && Enabled(jobs, p, a)
    ensures Shaped(jobs, Step(build, jobs, p, a))
  {
    hide Exclusive;
    var p' := Step(build, jobs, p, a);
    MutexIsKept(build, jobs, p, a);
    if !a.Close? && !a.Join? {
      assert InRange(p.workers[a.worker]);
      assert p'.workers == p.workers[a.worker := p'.workers[a.worker]];
    }
  }

  lemma MutexIsKept(build: Builder, jobs: seq<Job>, p: Pool, a: Action)
    requires Exclusive(p) && AllInRange(p) && Enabled(jobs, p, a)
    ensures Exclusive(Step(build, jobs, p, a))
  {
    hide AllInRange;
    if a.Record? {
      assert InRange(p.workers[a.worker]) by { OneInRange(p, a.worker); }
    }
  }

  lemma OneInRange(p: Pool, w: nat)
    requires AllInRange(p) && w < |p.workers|
    ensures InRange(p.workers[w])
  {
  }

  lemma StepKeepsGood(build: Builder, jobs: seq<Job>, p: Pool, a: Action)
    requires Good(build, jobs, p) && Enabled(jobs, p, a)
    ensures Good(build, jobs, Step(build, jobs, p, a))
  {
    hide Conserved, Enabled, Step, AllInRange, Exclusive;
    StepConserves(build, jobs, p, a);
    StepKeepsShape(build, jobs, p, a);
  }

  lemma StartIsGood(build: Builder, jobs: seq<Job>, workers: nat)
    requires workers > 0
    ensures Good(build, jobs, Start(workers))
  {
    var p := Start(workers);
    assert jobs[0..] == jobs;
    NothingYet(p.workers, BuiltOwed(build), AllBuilt(build, jobs));
    NothingYet(p.workers, FailedOwed(build), AllFailed(build, jobs));
  }

  // ----- no deadlock, and an end -----

  /** Until the main goroutine has joined its workers, something can happen. */
  lemma NeverStuck(build: Builder, jobs: seq<Job>, p: Pool)
    requires Good(build, jobs, p) && !p.joined
    ensures exists a :: Enabled(jobs, p, a)
  {
    hide Conserved;
    if p.mutex.Some? {
      assert Enabled(jobs, p, Record(p.mutex.value));
    } else if w :| 0 <= w < |p.workers| && !p.workers[w].Waiting? && !p.workers[w].Returned? {
      if p.workers[w].Holding? {
        assert Enabled(jobs, p, Lock(w));
      } else if p.workers[w].k < |p.workers[w].job.refs| {
        assert Enabled(jobs, p, Build(w));
      } else {
        assert Enabled(jobs, p, NextJob(w));
      }
    } else if !p.closed {
      if p.next == |jobs| {
        assert Enabled(jobs, p, Close);
      } else {
        assert p.workers[0].Waiting?;
        assert Enabled(jobs, p, Send(0));
      }
    } else if w :| 0 <= w < |p.workers| && p.workers[w].Waiting? {
      assert Enabled(jobs, p, Return(w));
    } else {
      assert Enabled(jobs, p, Join);
    }
  }

  function WorkOf(job: Job): nat {
    3 * |job.refs| + 2
  }

  function WorkerWork(w: Worker): nat {
    match w
    case Waiting => 1
    case Returned => 0
    case Building(job, k) => if k < |job.refs| then 3 * (|job.refs| - k) + 2 else 2
    case Holding(job, k) => if k < |job.refs| then 3 * (|job.refs| - k) + 1 else 1
    case Recording(job, k) => if k < |job.refs| then 3 * (|job.refs| - k) else 0
  }

  function WorkersWork(workers: seq<Worker>): nat {
    if workers == [] then 0 else WorkerWork(workers[0]) + WorkersWork(workers[1..])
  }

  function JobsWork(jobs: seq<Job>): nat {
    if jobs == [] then 0 else WorkOf(jobs[0]) + JobsWork(jobs[1..])
  }

  /** A bound on the steps that are left. */
  function Work(jobs: seq<Job>, p: Pool): nat
    requires p.next <= |jobs|
  {
    JobsWork(jobs[p.next..]) + WorkersWork(p.workers) + (if p.closed then 0 else 1) + if p.joined then 0 else 1
  }

  lemma {:induction false} WorkChange(workers: seq<Worker>, w: nat, x: Worker)
    requires w < |workers|
    ensures WorkersWork(workers[w := x]) + WorkerWork(workers[w]) == WorkersWork(workers) + WorkerWork(x)
  {
    if w == 0 {
      assert workers[0 := x][1..] == workers[1..];
    } else {
      assert workers[w := x][1..] == workers[1..][w - 1 := x];
      WorkChange(workers[1..], w - 1, x);
    }
  }

  /** Every step leaves less to do: there is no endless schedule. */
  lemma StepsRunOut(build: Builder, jobs: seq<Job>, p: Pool, a: Action)
    requires Good(build, jobs, p) && Enabled(jobs, p, a)
    ensures Step(build, jobs, p, a).next <= |jobs|
    ensures Work(jobs, Step(build, jobs, p, a)) < Work(jobs, p)
  {
    hide Conserved, WorkersWork;
    var p' := Step(build, jobs, p, a);
    if a.Send? {
      assert jobs[p.next..][0] == jobs[p.next] && jobs[p.next..][1..] == jobs[p.next + 1..];
    }
    if !a.Close? && !a.Join? {
      var w := a.worker;
      assert InRange(p.workers[w]);
      assert p'.workers == p.workers[w := p'.workers[w]];
      WorkChange(p.workers, w, p'.workers[w]);
    }
  }

  // ----- every schedule gives the same lists -----

  ghost predicate Legal(build: Builder, jobs: seq<Job>, p: Pool, run: seq<Action>)
    decreases |run|
  {
    run == [] || (Enabled(jobs, p, run[0]) && Legal(build, jobs, Step(build, jobs, p, run[0]), run[1..]))
  }

  ghost function After(build: Builder, jobs: seq<Job>, p: Pool, run: seq<Action>): Pool
    requires Legal(build, jobs, p, run)
    decreases |run|
  {
    if run == [] then p else After(build, jobs, Step(build, jobs, p, run[0]), run[1..])
  }

  lemma {:induction false} RunKeepsGood(build: Builder, jobs: seq<Job>, p: Pool, run: seq<Action>)
    requires Good(build, jobs, p) && Legal(build, jobs, p, run)
    ensures Good(build, jobs, After(build, jobs, p, run))
    decreases |run|
  {
    hide Good, Enabled, Step;
    if run != [] {
      StepKeepsGood(build, jobs, p, run[0]);
      RunKeepsGood(build, jobs, Step(build, jobs, p, run[0]), run[1..]);
    }
  }

  /** No schedule is longer than the work there is at its start. */
  lemma {:induction false} RunsAreBounded(build: Builder, jobs: seq<Job>, p: Pool, run: seq<Action>)
    requires Good(build, jobs, p) && Legal(build, jobs, p, run)
    ensures |run| <= Work(jobs, p)
    decreases |run|
  {
    hide Conserved, Enabled, Step, Work, AllInRange, Exclusive;
    if run != [] {
      StepKeepsGood(build, jobs, p, run[0]);
      StepsRunOut(build, jobs, p, run[0]);
      hide Good;
      RunsAreBounded(build, jobs, Step(build, jobs, p, run[0]), run[1..]);
    }
  }

  /** From wherever a schedule has got to, it can go on until all workers are
      joined: there is no deadlock. */
  lemma {:induction false} EveryScheduleEnds(build: Builder, jobs: seq<Job>, p: Pool) returns (run: seq<Action>)
    requires Good(build, jobs, p)
    ensures Legal(build, jobs, p, run) && After(build, jobs, p, run).joined
    decreases Work(jobs, p)
  {
    if p.joined {
      run := [];
    } else {
      hide Conserved, Enabled, Step, Work, AllInRange, Exclusive;
      NeverStuck(build, jobs, p);
      var a :| Enabled(jobs, p, a);
      StepKeepsGood(build, jobs, p, a);
      StepsRunOut(build, jobs, p, a);
      var rest := EveryScheduleEnds(build, jobs, Step(build, jobs, p, a));
      run := [a] + rest;
      assert run[1..] == rest;
    }
  }

  /** When the workers are joined, the lists hold what each job gives on its own. */
  lemma {:induction false} JoinedIsComplete(build: Builder, jobs: seq<Job>, p: Pool)
    requires Good(build, jobs, p) && p.joined
    ensures multiset(p.built) == multiset(AllBuilt(build, jobs))
    ensures multiset(p.failures) == multiset(AllFailed(build, jobs))
  {
    assert jobs[p.next..] == [];
    assert AllBuilt(build, jobs[p.next..]) == [] && AllFailed(build, jobs[p.next..]) == [];
    hide AllBalanced, AllBuilt, AllFailed, Exclusive, AllInRange;
    SettledIsAll(p.built, p.workers, BuiltOwed(build), AllBuilt(build, jobs));
    SettledIsAll(p.failures, p.workers, FailedOwed(build), AllFailed(build, jobs));
  }

  predicate BeforeStats(a: Stats, b: Stats) {
    Before(a.snapshotID, b.snapshotID)
  }

  predicate BeforeFailure(a: Failure, b: Failure) {
    if a.source != b.source then Before(a.source, b.source)
    else if a.product != b.product then Before(a.product, b.product)
    else Before(a.ref, b.ref)
  }

  predicate UniqueSnapshots(stats: seq<Stats>) {
    forall i, j :: 0 <= i < j < |stats| ==> stats[i].snapshotID != stats[j].snapshotID
  }

  predicate UniqueBranches(jobs: seq<Job>) {
    forall i, j :: 0 <= i < j < |jobs| ==> !(jobs[i].source == jobs[j].source && jobs[i].product == jobs[j].product)
  }

  lemma StatsSeparated(stats: seq<Stats>)
    requires UniqueSnapshots(stats)
    ensures Separated(stats, BeforeStats)
  {
    forall x, y | x in stats && y in stats && !BeforeStats(x, y) && !BeforeStats(y, x) ensures x == y {
      BeforeIsTotal(x.snapshotID, y.snapshotID);
      hide BeforeStats;
      var i :| 0 <= i < |stats| && stats[i] == x;
      var j :| 0 <= j < |stats| && stats[j] == y;
    }
  }

  lemma {:induction false} FailureOfJob(build: Builder, job: Job, k: nat)
    ensures |FailedFrom(build, job, k)| <= 1
    ensures forall f :: f in FailedFrom(build, job, k) ==> f.source == job.source && f.product == job.product
    decreases |job.refs| - k
  {
    if k < |job.refs| {
      FailureOfJob(build, job, k + 1);
    }
  }

  predicate OfJob(job: Job, f: Failure) {
    job.source == f.source && job.product == f.product
  }

  lemma {:induction false} FailureHasJob(build: Builder, jobs: seq<Job>, f: Failure)
    requires forall job :: job in jobs ==> !OfJob(job, f)
    ensures f !in AllFailed(build, jobs)
  {
    if jobs != [] {
      FailureOfJob(build, jobs[0], 0);
      FailureHasJob(build, jobs[1..], f);
      assert !OfJob(jobs[0], f);
    }
  }

  lemma FailsOnlyOnce(build: Builder, jobs: seq<Job>, f: Failure)
    requires UniqueBranches(jobs) && jobs != [] && OfJob(jobs[0], f)
    ensures f !in AllFailed(build, jobs[1..])
  {
    forall job | job in jobs[1..] ensures !OfJob(job, f) {
      var i :| 0 <= i < |jobs[1..]| && jobs[1..][i] == job;
      assert jobs[i + 1] == job;
    }
    FailureHasJob(build, jobs[1..], f);
  }

  /** A branch fails at most once. */
  lemma {:induction false} OneFailurePerBranch(build: Builder, jobs: seq<Job>, x: Failure, y: Failure)
    requires UniqueBranches(jobs) && x in AllFailed(build, jobs) && y in AllFailed(build, jobs)
    requires x.source == y.source && x.product == y.product
    ensures x == y
  {
    hide FailedFrom;
    FailureOfJob(build, jobs[0], 0);
    if OfJob(jobs[0], x) {
      FailsOnlyOnce(build, jobs, x);
      FailsOnlyOnce(build, jobs, y);
    } else {
      assert UniqueBranches(jobs[1..]);
      OneFailurePerBranch(build, jobs[1..], x, y);
    }
  }

  lemma {:induction false} FailuresSeparated(build: Builder, jobs: seq<Job>)
    requires UniqueBranches(jobs)
    ensures Separated(AllFailed(build, jobs), BeforeFailure)
  {
    var all := AllFailed(build, jobs);
    hide AllFailed;
    forall x, y | x in all && y in all && !BeforeFailure(x, y) && !BeforeFailure(y, x) ensures x == y {
      BeforeIsTotal(x.source, y.source);
      BeforeIsTotal(x.product, y.product);
      OneFailurePerBranch(build, jobs, x, y);
    }
  }

  lemma SeparatedAlike<T>(a: seq<T>, b: seq<T>, less: (T, T) -> bool)
    requires multiset(a) == multiset(b) && Separated(b, less)
    ensures Separated(a, less)
  {
    SameMembers(a, b);
  }

  /** Two sorts of the same elements agree. */
  lemma SortsAgree<T>(s: seq<T>, s': seq<T>, all: seq<T>, r: seq<T>, r': seq<T>, less: (T, T) -> bool)
    requires multiset(s) == multiset(all) && multiset(s') == multiset(all) && Separated(all, less)
    requires SortOf(s, r, less) && SortOf(s', r', less)
    ensures r == r'
  {
    SeparatedAlike(r, all, less);
    SortIsUnique(r, r', less);
  }

  /** Whatever the number of workers and the order of their steps, the sorted lists
      that `runInitJobs` returns are the same, and hold for each job its refs up to
      the first that fails, and that one. */
  lemma {:induction false} ScheduleDoesNotMatter(build: Builder, jobs: seq<Job>, workers: nat, workers': nat,
        run: seq<Action>, run': seq<Action>, built: seq<Stats>, built': seq<Stats>, failures: seq<Failure>,
        failures': seq<Failure>)
    requires workers > 0 && workers' > 0
    requires UniqueSnapshots(AllBuilt(build, jobs)) && UniqueBranches(jobs)
    requires Legal(build, jobs, Start(workers), run) && Legal(build, jobs, Start(workers'), run')
    requires var p := After(build, jobs, Start(workers), run);
             p.joined && SortOf(p.built, built, BeforeStats) && SortOf(p.failures, failures, BeforeFailure)
    requires var p' := After(build, jobs, Start(workers'), run');
             p'.joined && SortOf(p'.built, built', BeforeStats) && SortOf(p'.failures, failures', BeforeFailure)
    ensures built == built' && failures == failures'
    ensures multiset(built) == multiset(AllBuilt(build, jobs)) && multiset(failures) == multiset(AllFailed(build, jobs))
  {
    var p, p' := After(build, jobs, Start(workers), run), After(build, jobs, Start(workers'), run');
    hide After, Legal, AllBuilt, AllFailed, Good, UniqueSnapshots, UniqueBranches, Separated, BeforeFailure,
        BeforeStats;
    StartIsGood(build, jobs, workers);
    StartIsGood(build, jobs, workers');
    RunKeepsGood(build, jobs, Start(workers), run);
    RunKeepsGood(build, jobs, Start(workers'), run');
    JoinedIsComplete(build, jobs, p);
    JoinedIsComplete(build, jobs, p');
    StatsSeparated(AllBuilt(build, jobs));
    FailuresSeparated(build, jobs);
    SortsAgree(p.built, p'.built, AllBuilt(build, jobs), built, built', BeforeStats);
    SortsAgree(p.failures, p'.failures, AllFailed(build, jobs), failures, failures', BeforeFailure);
  }

  /** A failure comes before another by source, then product, then ref. */
  predicate FailureFirst(a: Failure, b: Failure) {
    || Before(a.source, b.source)
    || (a.source == b.source && Before(a.product, b.product))
    || (a.source == b.source && a.product == b.product && (a.ref == b.ref || Before(a.ref, b.ref)))
  }

  /** The returned lists ascend: the built ones strictly, by snapshot id; the failures
      by source, product and ref. */
  lemma ListsAscend(stats: seq<Stats>, built: seq<Stats>, failed: seq<Failure>, failures: seq<Failure>)
    requires UniqueSnapshots(stats) && SortOf(stats, built, BeforeStats) && SortOf(failed, failures, BeforeFailure)
    ensures forall i, j :: 0 <= i < j < |built| ==> Before(built[i].snapshotID, built[j].snapshotID)
    ensures forall i, j :: 0 <= i < j < |failures| ==> FailureFirst(failures[i], failures[j])
  {
    forall i, j | 0 <= i < j < |built| ensures Before(built[i].snapshotID, built[j].snapshotID) {
      BeforeIsTotal(built[i].snapshotID, built[j].snapshotID);
      if built[i].snapshotID == built[j].snapshotID {
        OneOfEachId(stats, built, i, j);
      }
    }
    forall i, j | 0 <= i < j < |failures| ensures FailureFirst(failures[i], failures[j]) {
      assert !BeforeFailure(failures[j], failures[i]);
      BeforeIsTotal(failures[i].source, failures[j].source);
      BeforeIsTotal(failures[i].product, failures[j].product);
      BeforeIsTotal(failures[i].ref, failures[j].ref);
    }
  }

  lemma OneOfEachId(stats: seq<Stats>, built: seq<Stats>, i: nat, j: nat)
    requires UniqueSnapshots(stats) && multiset(built) == multiset(stats) && i < j < |built|
    ensures built[i].snapshotID != built[j].snapshotID
  {
    SameMembers(built, stats);
    assert built[i] in built && built[j] in built;
    if built[i].snapshotID == built[j].snapshotID {
      SameIdSame(stats, built[i], built[j]);
      OnceOnly(stats, built[i]);
      TwiceIn(built, i, j);
    }
  }

  lemma SameIdSame(stats: seq<Stats>, x: Stats, y: Stats)
    requires UniqueSnapshots(stats) && x in stats && y in stats && x.snapshotID == y.snapshotID
    ensures x == y
  {
    var a :| 0 <= a < |stats| && stats[a] == x;
    var b :| 0 <= b < |stats| && stats[b] == y;
  }

  lemma {:induction false} OnceOnly(stats: seq<Stats>, x: Stats)
    requires UniqueSnapshots(stats)
    ensures multiset(stats)[x] <= 1
  {
    if stats != [] {
      OnceOnly(stats[1..], x);
      assert stats == [stats[0]] + stats[1..];
      assert x == stats[0] ==> x !in stats[1..];
    }
  }

  lemma TwiceIn(s: seq<Stats>, i: nat, j: nat)
    requires i < j < |s| && s[i] == s[j]
    ensures multiset(s)[s[i]] >= 2
  {
    assert s == s[..i] + [s[i]] + s[i + 1..j] + [s[j]] + s[j + 1..];
  }
}
