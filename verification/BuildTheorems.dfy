/** The goroutines of a build hand over what the content machine merges. */
module BuildTheorems {
  import opened Prelude
  import opened ContentSpec
  import opened IndexEntry
  import opened BuildPipeline
  import M = ContentMachine

  /** Each worker has for its entry a result that the machine takes: a parsed file, or
      one that brings no facts because its content is stored. */
  ghost predicate TakesGood(ix: Indexer, c: Content, p: Pipeline, a: Action) {
    a.Finish? && a.worker < |p.workers| && p.workers[a.worker].Working? ==>
      M.ResultGood(ix, c, p.workers[a.worker].entry, a.result)
  }

  ghost predicate RunTakesGood(ix: Indexer, c: Content, entries: seq<Entry>, p: Pipeline, run: seq<Action>)
    requires Legal(entries, p, run)
    decreases |run|
  {
    run == [] ||
    (TakesGood(ix, c, p, run[0]) && RunTakesGood(ix, c, entries, Step(entries, p, run[0]), run[1..]))
  }

  ghost predicate EntryOf(ix: Indexer, c: Content, entries: seq<Entry>, e: Entry, r: Indexed) {
    e in entries && M.ResultGood(ix, c, e, r)
  }

  ghost predicate HasEntry(ix: Indexer, c: Content, entries: seq<Entry>, r: Indexed) {
    exists e :: EntryOf(ix, c, entries, e, r)
  }

  ghost predicate WorkerGood(ix: Indexer, c: Content, entries: seq<Entry>, w: Worker) {
    match w
    case Working(e) => e in entries
    case Sending(e, r) => EntryOf(ix, c, entries, e, r)
    case _ => true
  }

  ghost predicate ResultsGood(ix: Indexer, c: Content, entries: seq<Entry>, p: Pipeline) {
    && (forall w :: 0 <= w < |p.workers| ==> WorkerGood(ix, c, entries, p.workers[w]))
    && (forall i :: 0 <= i < |p.results| ==> HasEntry(ix, c, entries, p.results[i]))
  }

  lemma StepKeepsResults(ix: Indexer, c: Content, entries: seq<Entry>, p: Pipeline, a: Action)
    requires ResultsGood(ix, c, entries, p) && Enabled(entries, p, a) && TakesGood(ix, c, p, a)
    ensures ResultsGood(ix, c, entries, Step(entries, p, a))
  {
    hide M.ResultGood, Collect;
    var p' := Step(entries, p, a);
    if a.Deliver? {
      assert WorkerGood(ix, c, entries, p.workers[a.worker]);
      assert HasEntry(ix, c, entries, p.workers[a.worker].result);
    }
    forall i | 0 <= i < |p'.results| ensures HasEntry(ix, c, entries, p'.results[i]) {
      assert i < |p.results| ==> p'.results[i] == p.results[i];
    }
    forall w | 0 <= w < |p'.workers| ensures WorkerGood(ix, c, entries, p'.workers[w]) {
      assert WorkerGood(ix, c, entries, p.workers[w]);
    }
  }

  lemma {:induction false} RunKeepsResults(ix: Indexer, c: Content, entries: seq<Entry>, p: Pipeline, run: seq<Action>)
    requires ResultsGood(ix, c, entries, p) && Legal(entries, p, run) && RunTakesGood(ix, c, entries, p, run)
    ensures ResultsGood(ix, c, entries, After(entries, p, run))
    decreases |run|
  {
    hide ResultsGood, TakesGood, Enabled, Step;
    if run != [] {
      StepKeepsResults(ix, c, entries, p, run[0]);
      RunKeepsResults(ix, c, entries, Step(entries, p, run[0]), run[1..]);
    }
  }

  /** The entries of the results, in the order of the results. */
  lemma {:induction false} EntriesOf(ix: Indexer, c: Content, entries: seq<Entry>, results: seq<Indexed>)
      returns (done: seq<Entry>)
    requires forall i :: 0 <= i < |results| ==> HasEntry(ix, c, entries, results[i])
    ensures |done| == |results| && forall i :: 0 <= i < |done| ==> EntryOf(ix, c, entries, done[i], results[i])
  {
    hide EntryOf;
    if results == [] {
      done := [];
    } else {
      var n := |results| - 1;
      done := EntriesOf(ix, c, entries, results[..n]);
      assert HasEntry(ix, c, entries, results[n]);
      var e :| EntryOf(ix, c, entries, e, results[n]);
      done := done + [e];
    }
  }

  lemma PathsOfDone(ix: Indexer, c: Content, entries: seq<Entry>, done: seq<Entry>, results: seq<Indexed>)
    requires |done| == |results| && forall i :: 0 <= i < |done| ==> EntryOf(ix, c, entries, done[i], results[i])
    ensures Paths(done) == ResultPaths(results)
  {
    forall i | 0 <= i < |done| ensures Paths(done)[i] == ResultPaths(results)[i] {
      assert EntryOf(ix, c, entries, done[i], results[i]);
    }
  }

  lemma OnePathOnce(paths: seq<string>, i: nat, j: nat)
    requires i < j < |paths| && paths[i] == paths[j]
    ensures multiset(paths)[paths[i]] > 1
  {
    assert paths == paths[..i] + [paths[i]] + paths[i + 1..j] + [paths[j]] + paths[j + 1..];
  }

  lemma {:induction false} DistinctCount(paths: seq<string>, path: string)
    requires Distinct(paths)
    ensures multiset(paths)[path] <= 1
  {
    if paths != [] {
      DistinctCount(paths[1..], path);
      assert paths == [paths[0]] + paths[1..];
      assert path == paths[0] ==> path !in paths[1..];
    }
  }

  /** Entries with the paths of all entries are all the entries, each once. */
  lemma DoneIsAll(entries: seq<Entry>, done: seq<Entry>)
    requires M.DistinctEntries(entries) && multiset(Paths(done)) == multiset(Paths(entries))
    requires forall e :: e in done ==> e in entries
    ensures M.DistinctEntries(done) && forall e :: e in entries ==> e in done
  {
    forall i, j | 0 <= i < j < |done| ensures done[i].path != done[j].path {
      if done[i].path == done[j].path {
        assert Paths(done)[i] == Paths(done)[j];
        OnePathOnce(Paths(done), i, j);
        assert Distinct(Paths(entries));
        DistinctCount(Paths(entries), Paths(done)[i]);
        assert false;
      }
    }
    forall e | e in entries ensures e in done {
      var i :| 0 <= i < |entries| && entries[i] == e;
      assert Paths(entries)[i] in multiset(Paths(entries));
      assert e.path in multiset(Paths(done));
      var j :| 0 <= j < |done| && Paths(done)[j] == e.path;
      assert done[j] in done && done[j] in entries;
    }
  }

  /** A build whose workers find good results either fails, or publishes the batch of
      a build that the content machine can merge: it has one good result for each
      entry, in some order. */
  lemma PublishedBatchIsMerged(ix: Indexer, stored: set<string>, c: Content, entries: seq<Entry>, workers: nat,
        run: seq<Action>, product: nat, snapshot: string)
      returns (done: seq<Entry>)
    requires workers > 0 && Legal(entries, Start(workers), run) && M.DistinctEntries(entries)
    requires forall e :: e in entries ==> e.data in stored && (e.oid != "" ==> ix.blob(e.oid) == e.data)
    requires RunTakesGood(ix, c, entries, Start(workers), run)
    requires var p := After(entries, Start(workers), run); p.outcome.Some? && p.outcome.value.Publishes?
    ensures var p := After(entries, Start(workers), run);
            var build := M.Build(product, snapshot, entries, done, p.results, None);
            && M.BuildGood(ix, stored, c, build) && M.AllDone(build) && p.outcome.value.batch == Collect(build.results)
  {
    StartIsGood(entries, workers);
    RunKeepsGood(entries, Start(workers), run);
    RunKeepsResults(ix, c, entries, Start(workers), run);
    var p := After(entries, Start(workers), run);
    assert Settled(p) && p.firstError.None?;
    hide After, Legal, Conserved, Collect;
    AllCollected(entries, p);
    done := EntriesOf(ix, c, entries, p.results);
    PathsOfDone(ix, c, entries, done, p.results);
    forall i | 0 <= i < |done| ensures done[i] in entries && M.ResultGood(ix, c, done[i], p.results[i]) {
      assert EntryOf(ix, c, entries, done[i], p.results[i]);
    }
    hide M.ResultGood, Good;
    DoneIsAll(entries, done);
  }
}
