/** The scheduler of `wowdoc init` (internal/app/lifecycle.go): workers take jobs
    from one channel, build the refs of a job in order until one fails, and append
    to two shared lists under a mutex.  Sends, receives, builds, and the steps of
    the critical section interleave in any way. */
module InitScheduler {
  import opened Prelude
  import opened Ordering
  import opened Conservation

  // ----- the worker budget -----

  const CPU_MIN := 4
  const BUDGET_MAX := 8

  /** `initWorkerBudget`: the processor count bounds the default. */
  method InitWorkerBudget(requested: int, cpus: int) returns (budget: int)
    ensures 1 <= budget <= BUDGET_MAX
    ensures 0 < requested <= BUDGET_MAX ==> budget == requested
    ensures requested <= 0 ==> budget >= CPU_MIN && (CPU_MIN <= cpus <= BUDGET_MAX ==> budget == cpus)
    ensures requested <= 0 && cpus < CPU_MIN ==> budget == CPU_MIN
    ensures requested > BUDGET_MAX || (requested <= 0 && cpus > BUDGET_MAX) ==> budget == BUDGET_MAX
  {
    if requested > 0 {
      if requested > BUDGET_MAX {
        return BUDGET_MAX;
      }
      return requested;
    }
    var workers := cpus;
    if workers < CPU_MIN {
      workers := CPU_MIN;
    }
    if workers > BUDGET_MAX {
      workers := BUDGET_MAX;
    }
    return workers;
  }

  /** `sourceSyncWorkers`: one to three workers, and no more than there are sources. */
  method SourceSyncWorkers(requested: int, sources: nat) returns (workers: int)
    ensures 0 <= workers <= 3 && workers <= sources
    ensures workers == 0 <==> sources == 0
    ensures workers <= if requested < 1 then 1 else requested
    ensures workers == 3 || workers == sources || workers == requested || (workers == 1 && requested < 1)
  {
    workers := requested;
    if workers < 1 {
      workers := 1;
    }
    if workers > 3 {
      workers := 3;
    }
    if workers > sources {
      workers := sources;
    }
  }

  /** The split of a budget by `runInitJobs`: between one and four branches at a
      time, and together no more parsers than the budget, with less than one
      parser per branch left over. */
  method SplitBudget(budget: int, jobs: nat) returns (branchWorkers: nat, workersPerBuild: nat)
    ensures branchWorkers <= 4 && branchWorkers <= jobs
    ensures branchWorkers == 0 <==> jobs == 0
    ensures branchWorkers > 0 ==> workersPerBuild >= 1
    ensures branchWorkers > 0 && budget >= 1 ==>
              branchWorkers * workersPerBuild <= budget < branchWorkers * (workersPerBuild + 1)
    ensures branchWorkers > 1 ==> workersPerBuild >= 2
    ensures branchWorkers < 4 && branchWorkers < jobs ==> budget < 2 * (branchWorkers + 1)
  {
    branchWorkers := if budget < 2 then 0 else budget / 2;
    if branchWorkers < 1 {
      branchWorkers := 1;
    }
    if branchWorkers > 4 {
      branchWorkers := 4;
    }
    if branchWorkers > jobs {
      branchWorkers := jobs;
    }
    if branchWorkers == 0 {
      return 0, 0;
    }
    workersPerBuild := if budget < 0 then 0 else budget / branchWorkers;
    if workersPerBuild < 1 {
      workersPerBuild := 1;
    }
    if budget >= 1 {
      QuotientFits(budget, branchWorkers);
    }
  }

  lemma QuotientFits(a: nat, b: nat)
    requires b > 0
    ensures b * (a / b) <= a < b * (a / b + 1)
    ensures a >= 2 * b ==> a / b >= 2
  {
    assert a == b * (a / b) + a % b;
  }

  // ----- jobs and their outcomes -----

  datatype Ref = Ref(commit: string, requested: string, tag: string)

  datatype Job = Job(source: string, product: string, refs: seq<Ref>)

  datatype Stats = Stats(snapshotID: string, files: nat)

  datatype Failure = Failure(source: string, product: string, ref: string, code: string)

  /** What a build gives; it is fixed for a job and a ref. */
  type Builder = (Job, Ref) -> Result<Stats, string>

  /** The statistics of the refs from `k` on, up to the first that fails. */
  function BuiltFrom(build: Builder, job: Job, k: nat): seq<Stats>
    decreases |job.refs| - k
  {
    if k >= |job.refs| || build(job, job.refs[k]).Err? then []
    else [build(job, job.refs[k]).value] + BuiltFrom(build, job, k + 1)
  }

  /** The failure that ends the job, if a ref from `k` on fails. */
  function FailedFrom(build: Builder, job: Job, k: nat): seq<Failure>
    decreases |job.refs| - k
  {
    if k >= |job.refs| then []
    else if build(job, job.refs[k]).Err? then
      [Failure(job.source, job.product, job.refs[k].requested, build(job, job.refs[k]).error)]
    else FailedFrom(build, job, k + 1)
  }

  function AllBuilt(build: Builder, jobs: seq<Job>): seq<Stats> {
    if jobs == [] then [] else BuiltFrom(build, jobs[0], 0) + AllBuilt(build, jobs[1..])
  }

  function AllFailed(build: Builder, jobs: seq<Job>): seq<Failure> {
    if jobs == [] then [] else FailedFrom(build, jobs[0], 0) + AllFailed(build, jobs[1..])
  }

  /** The specification of one job: the refs before the first that fails are built,
      in order, and that one is the job's only failure. */
  lemma {:induction false} JobStopsAtFirstFailure(build: Builder, job: Job, n: nat)
    requires n <= |job.refs| && forall i :: 0 <= i < n ==> build(job, job.refs[i]).Ok?
    requires n < |job.refs| ==> build(job, job.refs[n]).Err?
    ensures |BuiltFrom(build, job, 0)| == n
    ensures forall i :: 0 <= i < n ==> BuiltFrom(build, job, 0)[i] == build(job, job.refs[i]).value
    ensures FailedFrom(build, job, 0)
         == if n == |job.refs| then []
            else [Failure(job.source, job.product, job.refs[n].requested, build(job, job.refs[n]).error)]
  {
    StopsAtFirstFailure(build, job, 0, n);
  }

  lemma {:induction false} StopsAtFirstFailure(build: Builder, job: Job, k: nat, n: nat)
    requires k <= n <= |job.refs| && forall i :: k <= i < n ==> build(job, job.refs[i]).Ok?
    requires n < |job.refs| ==> build(job, job.refs[n]).Err?
    ensures |BuiltFrom(build, job, k)| == n - k
    ensures forall i :: k <= i < n ==> BuiltFrom(build, job, k)[i - k] == build(job, job.refs[i]).value
    ensures FailedFrom(build, job, k)
         == if n == |job.refs| then []
            else [Failure(job.source, job.product, job.refs[n].requested, build(job, job.refs[n]).error)]
    decreases n - k
  {
    if k < n {
      StopsAtFirstFailure(build, job, k + 1, n);
    }
  }

  // ----- the machine -----

  /** A worker waits for a job, is about to build ref `k`, has an outcome to record,
      holds the mutex to record it, or has returned. */
  datatype Worker =
    | Waiting
    | Building(job: Job, k: nat)
    | Holding(job: Job, k: nat)
    | Recording(job: Job, k: nat)
    | Returned

  /** `next` is the job the main goroutine sends next; `joined` is set once it has
      seen every worker return. */
  datatype Pool = Pool(
    next: nat, closed: bool, joined: bool, workers: seq<Worker>, mutex: Option<nat>,
    built: seq<Stats>, failures: seq<Failure>)

  function Start(workers: nat): Pool {
    Pool(0, false, false, seq(workers, _ => Waiting), None, [], [])
  }

  datatype Action =
    | Send(worker: nat)
    | Close
    | Build(worker: nat)
    | Lock(worker: nat)
    | Record(worker: nat)
    | NextJob(worker: nat)
    | Return(worker: nat)
    | Join

  /** The ref whose outcome a worker holds is one of its job's. */
  predicate InRange(w: Worker) {
    (w.Holding? || w.Recording?) ==> w.k < |w.job.refs|
  }

  predicate Enabled(jobs: seq<Job>, p: Pool, a: Action) {
    match a
    case Send(w) => !p.closed && p.next < |jobs| && w < |p.workers| && p.workers[w].Waiting?
    case Close => !p.closed && p.next == |jobs|
    case Build(w) => w < |p.workers| && p.workers[w].Building? && p.workers[w].k < |p.workers[w].job.refs|
    case Lock(w) => p.mutex.None? && w < |p.workers| && p.workers[w].Holding?
    case Record(w) => p.mutex == Some(w) && w < |p.workers| && p.workers[w].Recording? && InRange(p.workers[w])
    case NextJob(w) => w < |p.workers| && p.workers[w].Building? && p.workers[w].k >= |p.workers[w].job.refs|
    case Return(w) => p.closed && w < |p.workers| && p.workers[w].Waiting?
    case Join => p.closed && !p.joined && forall w :: 0 <= w < |p.workers| ==> p.workers[w].Returned?
  }

  predicate AllInRange(p: Pool) {
    forall w :: 0 <= w < |p.workers| ==> InRange(p.workers[w])
  }

  function RecordStep(build: Builder, p: Pool, w: nat): Pool
    requires w < |p.workers| && p.workers[w].Recording? && InRange(p.workers[w])
  {
    var job, k := p.workers[w].job, p.workers[w].k;
    match build(job, job.refs[k])
    case Err(code) =>
      p.(failures := p.failures + [Failure(job.source, job.product, job.refs[k].requested, code)],
         workers := p.workers[w := Waiting], mutex := None)
    case Ok(stats) =>
      p.(built := p.built + [stats], workers := p.workers[w := Building(job, k + 1)], mutex := None)
  }

  function Step(build: Builder, jobs: seq<Job>, p: Pool, a: Action): Pool
    requires Enabled(jobs, p, a)
  {
    match a
    case Send(w) => p.(next := p.next + 1, workers := p.workers[w := Building(jobs[p.next], 0)])
    case Close => p.(closed := true)
    case Build(w) => p.(workers := p.workers[w := Holding(p.workers[w].job, p.workers[w].k)])
    case Lock(w) => p.(workers := p.workers[w := Recording(p.workers[w].job, p.workers[w].k)], mutex := Some(w))
    case Record(w) => RecordStep(build, p, w)
    case NextJob(w) => p.(workers := p.workers[w := Waiting])
    case Return(w) => p.(workers := p.workers[w := Returned])
    case Join => p.(joined := true)
  }

  // ----- what every step keeps -----

  /** What a worker will still add to the list of built snapshots. */
  function OwesBuilt(build: Builder, w: Worker): seq<Stats> {
    if w.Waiting? || w.Returned? then [] else BuiltFrom(build, w.job, w.k)
  }

  function OwesFailed(build: Builder, w: Worker): seq<Failure> {
    if w.Waiting? || w.Returned? then [] else FailedFrom(build, w.job, w.k)
  }

  function BuiltOwed(build: Builder): Worker -> seq<Stats> {
    (w: Worker) => OwesBuilt(build, w)
  }

  function FailedOwed(build: Builder): Worker -> seq<Failure> {
    (w: Worker) => OwesFailed(build, w)
  }

  ghost predicate Conserved(build: Builder, jobs: seq<Job>, p: Pool)
    requires p.next <= |jobs|
  {
    && AllBalanced(p.built, p.workers, BuiltOwed(build), AllBuilt(build, jobs[p.next..]), AllBuilt(build, jobs))
    && AllBalanced(p.failures, p.workers, FailedOwed(build), AllFailed(build, jobs[p.next..]), AllFailed(build, jobs))
  }

  /** The mutex is held exactly by the worker that records. */
  predicate Exclusive(p: Pool) {
    forall w :: 0 <= w < |p.workers| ==> (p.workers[w].Recording? <==> p.mutex == Some(w))
  }

  predicate Shaped(jobs: seq<Job>, p: Pool) {
    && p.next <= |jobs| && |p.workers| > 0 && AllInRange(p)
    && Exclusive(p) && (p.mutex.Some? ==> p.mutex.value < |p.workers|)
    && (p.closed ==> p.next == |jobs|) && (p.joined ==> p.closed)
    && (forall w :: 0 <= w < |p.workers| && p.workers[w].Returned? ==> p.closed)
    && (p.joined ==> forall w :: 0 <= w < |p.workers| ==> p.workers[w].Returned?)
  }

  ghost predicate Good(build: Builder, jobs: seq<Job>, p: Pool) {
    Shaped(jobs, p) && Conserved(build, jobs, p)
  }
}
