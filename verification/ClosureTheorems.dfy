/** What a load closure promises its reader: which files it lists and in which
    order, how references and warnings are counted, and when a circular-reference
    warning appears. */
module ClosureTheorems {
  import opened Prelude
  import opened ClosureSpec
  import opened ClosureTrace

  // ----- depth-first preorder -----

  /** Depth-first preorder of the include graph: the files the references of
      `work` reach, outside `seen`, each when it is first reached. */
  function Preorder(addon: AddOn, work: seq<Attempt>, seen: set<string>): (r: seq<string>)
    decreases addon.files.Keys - seen, |work|
  {
    if work == [] then []
    else
      match Classify(addon, work[0])
      case Rejected(_, _) => Preorder(addon, work[1..], seen)
      case Target(rel) =>
        if rel in seen then Preorder(addon, work[1..], seen)
        else
          assert rel in addon.files.Keys - seen;
          [rel] + Preorder(addon, AttemptsOf(addon, rel) + work[1..], seen + {rel})
  }

  lemma {:induction false} FirstsAdded(addon: AddOn, log: seq<Attempt>, a: Attempt)
    ensures var outcome, before := Classify(addon, a), Firsts(addon, log);
            Firsts(addon, log + [a]) ==
              if outcome.Rejected? || outcome.rel in before then before else before + [outcome.rel]
  {
    assert (log + [a])[..|log|] == log;
  }

  lemma {:induction false} PreorderUnchanged(addon: AddOn, a: Attempt, rest: seq<Attempt>, seen: set<string>)
    requires Classify(addon, a).Rejected? || Classify(addon, a).rel in seen
    ensures Preorder(addon, [a] + rest, seen) == Preorder(addon, rest, seen)
  {
    assert ([a] + rest)[1..] == rest;
  }

  lemma {:induction false} PreorderFirst(addon: AddOn, a: Attempt, rel: string, rest: seq<Attempt>, seen: set<string>)
    requires Leads(addon, a, rel) && rel !in seen
    ensures Preorder(addon, [a] + rest, seen) == [rel] + Preorder(addon, AttemptsOf(addon, rel) + rest, seen + {rel})
  {
    assert ([a] + rest)[1..] == rest;
  }

  lemma {:induction false} FirstsOfTrace(addon: AddOn, log: seq<Attempt>, work: seq<Attempt>, seen: set<string>)
    requires forall r :: r in seen <==> r in Firsts(addon, log)
    ensures Firsts(addon, log + Trace(addon, work, seen)) == Firsts(addon, log) + Preorder(addon, work, seen)
    decreases addon.files.Keys - seen, |work|
  {
    if work == [] {
      assert log + [] == log;
    } else {
      var a, rest := work[0], work[1..];
      var outcome := Classify(addon, a);
      assert work == [a] + rest;
      FirstsAdded(addon, log, a);
      assert !outcome.Rejected? ==> outcome.rel in addon.files;
      hide Firsts, Trace, Preorder, Classify, AttemptsOf;
      if outcome.Rejected? || outcome.rel in seen {
        TraceUnchanged(addon, a, rest, seen);
        PreorderUnchanged(addon, a, rest, seen);
        FirstsOfTrace(addon, log + [a], rest, seen);
        ConcatAssociative(log, [a], Trace(addon, rest, seen));
      } else {
        var rel := outcome.rel;
        assert rel in addon.files.Keys - seen;
        var inner := AttemptsOf(addon, rel) + rest;
        TraceFirst(addon, a, rel, rest, seen);
        PreorderFirst(addon, a, rel, rest, seen);
        FirstsOfTrace(addon, log + [a], inner, seen + {rel});
        ConcatAssociative(log, [a], Trace(addon, inner, seen + {rel}));
        ConcatAssociative(Firsts(addon, log), [rel], Preorder(addon, inner, seen + {rel}));
      }
    }
  }

  lemma {:induction false} PreorderIsDistinct(addon: AddOn, work: seq<Attempt>, seen: set<string>)
    ensures Distinct(Preorder(addon, work, seen))
    ensures forall rel :: rel in Preorder(addon, work, seen) ==> rel !in seen && rel in addon.files
    decreases addon.files.Keys - seen, |work|
  {
    if work != [] {
      match Classify(addon, work[0]) {
        case Rejected(_, _) => PreorderIsDistinct(addon, work[1..], seen);
        case Target(rel) =>
          if rel in seen {
            PreorderIsDistinct(addon, work[1..], seen);
          } else {
            assert rel in addon.files.Keys - seen;
            PreorderIsDistinct(addon, AttemptsOf(addon, rel) + work[1..], seen + {rel});
          }
      }
    }
  }

  /** The references of the files in `rels`. */
  function ReferencesOf(addon: AddOn, rels: seq<string>): seq<Attempt> {
    if rels == [] then [] else AttemptsOf(addon, rels[0]) + ReferencesOf(addon, rels[1..])
  }

  /** Every reference of the work list and of every file reached is attempted
      exactly once, and nothing else is. */
  lemma {:induction false} TraceAttemptsEachOnce(addon: AddOn, work: seq<Attempt>, seen: set<string>)
    ensures multiset(Trace(addon, work, seen))
         == multiset(work) + multiset(ReferencesOf(addon, Preorder(addon, work, seen)))
    decreases addon.files.Keys - seen, |work|
  {
    if work != [] {
      var a, rest := work[0], work[1..];
      assert work == [a] + rest;
      match Classify(addon, a) {
        case Rejected(_, _) => TraceAttemptsEachOnce(addon, rest, seen);
        case Target(rel) =>
          if rel in seen {
            TraceAttemptsEachOnce(addon, rest, seen);
          } else {
            assert rel in addon.files.Keys - seen;
            var inner := AttemptsOf(addon, rel) + rest;
            TraceAttemptsEachOnce(addon, inner, seen + {rel});
            var later := Preorder(addon, inner, seen + {rel});
            assert Preorder(addon, work, seen) == [rel] + later;
            assert ([rel] + later)[1..] == later;
          }
      }
    }
  }

  // ----- reachability -----

  /** A chain of files, each holding a reference to the next. */
  ghost predicate Chain(addon: AddOn, p: seq<string>) {
    |p| > 0 && forall i :: 0 <= i < |p| - 1 ==> Edge(addon, p[i], p[i + 1])
  }

  ghost predicate ChainBetween(addon: AddOn, p: seq<string>, from: string, to: string) {
    Chain(addon, p) && p[0] == from && p[|p| - 1] == to
  }

  ghost predicate Reaches(addon: AddOn, from: string, to: string) {
    exists p :: ChainBetween(addon, p, from, to)
  }

  /** Some root reference leads to a chain that ends in `rel`. */
  ghost predicate Loaded(addon: AddOn, roots: seq<Attempt>, rel: string) {
    exists a, top :: a in roots && Leads(addon, a, top) && Reaches(addon, top, rel)
  }

  lemma ReachesSelf(addon: AddOn, rel: string)
    ensures Reaches(addon, rel, rel)
  {
    assert ChainBetween(addon, [rel], rel, rel);
  }

  lemma ReachesStep(addon: AddOn, from: string, via: string, to: string)
    requires Reaches(addon, from, via) && Edge(addon, via, to)
    ensures Reaches(addon, from, to)
  {
    var p :| ChainBetween(addon, p, from, via);
    var q := p + [to];
    forall i | 0 <= i < |q| - 1 ensures Edge(addon, q[i], q[i + 1]) {
      if i < |p| - 1 { assert Edge(addon, p[i], p[i + 1]); }
    }
    assert ChainBetween(addon, q, from, to);
  }

  ghost predicate Closed(addon: AddOn, rels: set<string>) {
    forall from, to :: from in rels && Edge(addon, from, to) ==> to in rels
  }

  lemma {:induction false} ChainStaysInside(addon: AddOn, p: seq<string>, rels: set<string>, n: nat)
    requires Chain(addon, p) && Closed(addon, rels) && p[0] in rels && n < |p|
    ensures p[n] in rels
  {
    if n > 0 {
      ChainStaysInside(addon, p, rels, n - 1);
      assert Edge(addon, p[n - 1], p[n - 1 + 1]);
    }
  }

  lemma {:induction false} PreorderStaysInside(addon: AddOn, work: seq<Attempt>, seen: set<string>, rels: set<string>)
    requires Closed(addon, rels)
    requires forall a, rel :: a in work && Leads(addon, a, rel) ==> rel in rels
    ensures forall rel :: rel in Preorder(addon, work, seen) ==> rel in rels
    decreases addon.files.Keys - seen, |work|
  {
    if work != [] {
      match Classify(addon, work[0]) {
        case Rejected(_, _) => PreorderStaysInside(addon, work[1..], seen, rels);
        case Target(rel) =>
          assert Leads(addon, work[0], rel);
          if rel in seen {
            PreorderStaysInside(addon, work[1..], seen, rels);
          } else {
            assert rel in addon.files.Keys - seen;
            forall a, to | a in AttemptsOf(addon, rel) && Leads(addon, a, to) ensures to in rels {
              assert Edge(addon, rel, to);
            }
            PreorderStaysInside(addon, AttemptsOf(addon, rel) + work[1..], seen + {rel}, rels);
          }
      }
    }
  }

  /** Every reference held by a file in `seen` leads into `seen` or waits in `work`. */
  ghost predicate Pending(addon: AddOn, seen: set<string>, work: seq<Attempt>) {
    forall from, a, to :: from in seen && a in AttemptsOf(addon, from) && Leads(addon, a, to)
        ==> to in seen || a in work
  }

  ghost predicate Covers(addon: AddOn, all: set<string>, work: seq<Attempt>) {
    forall a, to :: a in work && Leads(addon, a, to) ==> to in all
  }

  lemma PendingSkip(addon: AddOn, seen: set<string>, work: seq<Attempt>)
    requires work != [] && Pending(addon, seen, work)
    requires Classify(addon, work[0]).Rejected? || Classify(addon, work[0]).rel in seen
    ensures Pending(addon, seen, work[1..])
  {
    forall from, a, to | from in seen && a in AttemptsOf(addon, from) && Leads(addon, a, to)
      ensures to in seen || a in work[1..]
    {
    }
  }

  lemma PendingEnter(addon: AddOn, seen: set<string>, work: seq<Attempt>, rel: string)
    requires work != [] && Pending(addon, seen, work) && Leads(addon, work[0], rel)
    ensures Pending(addon, seen + {rel}, AttemptsOf(addon, rel) + work[1..])
  {
    forall from, a, to | from in seen + {rel} && a in AttemptsOf(addon, from) && Leads(addon, a, to)
      ensures to in seen + {rel} || a in AttemptsOf(addon, rel) + work[1..]
    {
    }
  }

  lemma {:induction false} PreorderIsClosed(addon: AddOn, work: seq<Attempt>, seen: set<string>, all: set<string>)
    requires forall r :: r in all <==> r in seen || r in Preorder(addon, work, seen)
    requires Pending(addon, seen, work)
    ensures Covers(addon, all, work) && Closed(addon, all)
    decreases addon.files.Keys - seen, |work|
  {
    if work != [] {
      hide Closed;
      hide Pending;
      match Classify(addon, work[0]) {
        case Rejected(_, _) =>
          PendingSkip(addon, seen, work);
          PreorderIsClosed(addon, work[1..], seen, all);
        case Target(rel) =>
          if rel in seen {
            PendingSkip(addon, seen, work);
            PreorderIsClosed(addon, work[1..], seen, all);
          } else {
            assert rel in addon.files.Keys - seen;
            PendingEnter(addon, seen, work, rel);
            PreorderIsClosed(addon, AttemptsOf(addon, rel) + work[1..], seen + {rel}, all);
          }
      }
    }
  }

  lemma {:induction false} PreorderFindsAll(addon: AddOn, roots: seq<Attempt>, rel: string)
    requires Loaded(addon, roots, rel)
    ensures rel in Preorder(addon, roots, {})
  {
    var all := set r | r in Preorder(addon, roots, {});
    PreorderIsClosed(addon, roots, {}, all);
    var a, top :| a in roots && Leads(addon, a, top) && Reaches(addon, top, rel);
    var p :| ChainBetween(addon, p, top, rel);
    ChainStaysInside(addon, p, all, |p| - 1);
  }

  lemma LoadedIsClosed(addon: AddOn, roots: seq<Attempt>, from: string, to: string)
    requires Loaded(addon, roots, from) && Edge(addon, from, to)
    ensures Loaded(addon, roots, to)
  {
    var a, top :| a in roots && Leads(addon, a, top) && Reaches(addon, top, from);
    ReachesStep(addon, top, from, to);
  }

  ghost function ReachedFiles(addon: AddOn, roots: seq<Attempt>): set<string> {
    set r | r in addon.files && Loaded(addon, roots, r)
  }

  lemma ReachedIsClosed(addon: AddOn, roots: seq<Attempt>)
    ensures Closed(addon, ReachedFiles(addon, roots))
    ensures forall a, to :: a in roots && Leads(addon, a, to) ==> to in ReachedFiles(addon, roots)
  {
    forall from, to | from in ReachedFiles(addon, roots) && Edge(addon, from, to)
      ensures to in ReachedFiles(addon, roots)
    {
      LoadedIsClosed(addon, roots, from, to);
    }
    forall a, to | a in roots && Leads(addon, a, to) ensures to in ReachedFiles(addon, roots) {
      ReachesSelf(addon, to);
    }
  }

  lemma {:induction false} PreorderFindsOnly(addon: AddOn, roots: seq<Attempt>, rel: string)
    requires rel in Preorder(addon, roots, {})
    ensures Loaded(addon, roots, rel)
  {
    hide Preorder, Loaded, Edge, Leads, Closed;
    ReachedIsClosed(addon, roots);
    PreorderStaysInside(addon, roots, {}, ReachedFiles(addon, roots));
    assert rel in ReachedFiles(addon, roots);
  }

  /** Preorder lists exactly the files that chains of references reach. */
  lemma {:induction false} PreorderIsReachability(addon: AddOn, roots: seq<Attempt>, rel: string)
    ensures rel in Preorder(addon, roots, {}) <==> Loaded(addon, roots, rel)
  {
    if Loaded(addon, roots, rel) {
      PreorderFindsAll(addon, roots, rel);
    } else if rel in Preorder(addon, roots, {}) {
      PreorderFindsOnly(addon, roots, rel);
    }
  }

  // ----- the file list -----

  ghost predicate Reads(addon: AddOn, toc: string, rel: string, lines: seq<string>, truncated: bool) {
    addon.resolveToc(toc) == Resolved(rel) && addon.readToc(rel) == TocData(lines, truncated)
  }

  lemma {:induction false} BuildRunsTheLines(addon: AddOn, toc: string, rel: string, lines: seq<string>,
        truncated: bool)
    requires Reads(addon, toc, rel, lines, truncated)
    ensures var closure := BuildClosure(addon, toc);
            var st := ParseTocLines(addon, Opened(rel), lines, |lines|);
            && closure.files == st.result.files && closure.contents == st.result.contents
            && closure.diagnostics == st.result.diagnostics +
                 if truncated
                 then [Displayed(addon, Diagnostic(Error, UnreadableFile, st.result.toc, |lines|, 0, NoEvidence))]
                 else []
  {
  }

  lemma {:induction false} FaithfulFiles(addon: AddOn, st: Builder, log: seq<Attempt>)
    requires Logged(addon, st, log)
    ensures Map(st.result.files, (f: LoadFile) => f.path) == Firsts(addon, log)
    ensures forall i :: 0 <= i < |st.result.files| ==>
              var f := st.result.files[i];
              && f.loadOrder == i && TypeOf(addon, f.path) == Some(f.fileType)
              && f.loadedBy == SourcesOf(addon, log, f.path)
              && f.path in addon.files && f.path in st.result.contents
              && st.result.contents[f.path] == addon.files[f.path]
    ensures forall r :: r in st.result.contents ==> r in Firsts(addon, log)
  {
    forall i | 0 <= i < |st.result.files| ensures st.result.files[i].path in Paths(st) {
      assert Paths(st)[i] == st.result.files[i].path;
    }
  }

  /** The file list is the depth-first preorder of the references of the TOC:
      every readable Lua or XML file they reach, each once, numbered in order. */
  lemma {:induction false} FilesAreThePreorder(addon: AddOn, toc: string, rel: string, lines: seq<string>,
        truncated: bool)
    requires CaseDistinct(addon) && Reads(addon, toc, rel, lines, truncated)
    ensures var closure := BuildClosure(addon, toc);
            var roots := Roots(addon, rel, lines, |lines|);
            && Map(closure.files, (f: LoadFile) => f.path) == Preorder(addon, roots, {})
            && (forall r :: r in Preorder(addon, roots, {}) <==> Loaded(addon, roots, r))
            && Distinct(Preorder(addon, roots, {}))
            && (forall i :: 0 <= i < |closure.files| ==> closure.files[i].loadOrder == i)
            && (forall i :: 0 <= i < |closure.files| ==>
                  var f := closure.files[i];
                  f.path in closure.contents && f.path in addon.files
                  && closure.contents[f.path] == addon.files[f.path])
            && (forall r :: r in closure.contents ==> r in Preorder(addon, roots, {}))
  {
    hide Logged, BuildClosure, ParseTocLines, Preorder, Trace, Loaded;
    var roots := Roots(addon, rel, lines, |lines|);
    ClosureIsTrace(addon, rel, lines);
    BuildRunsTheLines(addon, toc, rel, lines, truncated);
    FirstsOfTrace(addon, [], roots, {});
    assert [] + Trace(addon, roots, {}) == Trace(addon, roots, {});
    assert Firsts(addon, Trace(addon, roots, {})) == Preorder(addon, roots, {});
    PreorderIsDistinct(addon, roots, {});
    FaithfulFiles(addon, ParseTocLines(addon, Opened(rel), lines, |lines|), Trace(addon, roots, {}));
    forall r ensures r in Preorder(addon, roots, {}) <==> Loaded(addon, roots, r) {
      PreorderIsReachability(addon, roots, r);
    }
  }

  /** A file's `loadedBy` lists the sources of the references that lead to it, in
      the order in which they are met. */
  lemma {:induction false} LoadedByListsTheReferences(addon: AddOn, toc: string, rel: string, lines: seq<string>,
        truncated: bool)
    requires CaseDistinct(addon) && Reads(addon, toc, rel, lines, truncated)
    ensures var closure := BuildClosure(addon, toc);
            var trace := Trace(addon, Roots(addon, rel, lines, |lines|), {});
            forall i :: 0 <= i < |closure.files| ==>
              closure.files[i].loadedBy == SourcesOf(addon, trace, closure.files[i].path)
  {
    ClosureIsTrace(addon, rel, lines);
  }

  // ----- counting -----

  function TotalLoads(files: seq<LoadFile>): nat {
    if files == [] then 0 else TotalLoads(files[..|files| - 1]) + |files[|files| - 1].loadedBy|
  }

  function SourceCount(addon: AddOn, log: seq<Attempt>, rels: seq<string>): nat {
    if rels == [] then 0
    else SourceCount(addon, log, rels[..|rels| - 1]) + |SourcesOf(addon, log, rels[|rels| - 1])|
  }

  lemma {:induction false} TotalIsSourceCount(addon: AddOn, log: seq<Attempt>, files: seq<LoadFile>)
    requires forall i :: 0 <= i < |files| ==> files[i].loadedBy == SourcesOf(addon, log, files[i].path)
    ensures TotalLoads(files) == SourceCount(addon, log, Map(files, (f: LoadFile) => f.path))
  {
    if files != [] {
      var init := files[..|files| - 1];
      TotalIsSourceCount(addon, log, init);
      var paths := Map(files, (f: LoadFile) => f.path);
      assert paths[..|paths| - 1] == Map(init, (f: LoadFile) => f.path);
    }
  }

  lemma {:induction false} SourceCountAdded(addon: AddOn, log: seq<Attempt>, a: Attempt, rels: seq<string>)
    requires Distinct(rels)
    ensures SourceCount(addon, log + [a], rels) == SourceCount(addon, log, rels)
              + if exists rel :: rel in rels && Leads(addon, a, rel) then 1 else 0
  {
    assert (log + [a])[..|log|] == log;
    if rels != [] {
      SourceCountAdded(addon, log, a, rels[..|rels| - 1]);
    }
  }

  lemma {:induction false} FirstsAreDistinct(addon: AddOn, log: seq<Attempt>)
    ensures Distinct(Firsts(addon, log))
  {
    if log != [] {
      FirstsAreDistinct(addon, log[..|log| - 1]);
    }
  }

  /** Each attempt is a load, a rejection, or both a load and a repeat. */
  lemma {:induction false} AttemptsAreCounted(addon: AddOn, log: seq<Attempt>)
    ensures |log| == SourceCount(addon, log, Firsts(addon, log)) + |RejectionsOf(addon, log)|
    ensures SourceCount(addon, log, Firsts(addon, log)) == |Firsts(addon, log)| + |RepeatsOf(addon, log)|
  {
    if log != [] {
      var init, a := log[..|log| - 1], log[|log| - 1];
      assert log == init + [a];
      AttemptsAreCounted(addon, init);
      FirstsAreDistinct(addon, init);
      var rels := Firsts(addon, init);
      SourceCountAdded(addon, init, a, rels);
      match Classify(addon, a) {
        case Rejected(_, _) =>
        case Target(rel) =>
          if rel in rels {
            assert Leads(addon, a, rel);
          } else {
            SourcesUntouched(addon, init, rel);
            assert (rels + [rel])[..|rels|] == rels;
          }
      }
    }
  }

  /** Conservation: every reference of the TOC and of the loaded files is attempted
      exactly once; it is recorded as a load or reported as an error; and the
      warnings make up for every load of a file beyond its first. */
  lemma {:induction false} ReferencesAreConserved(addon: AddOn, toc: string, rel: string, lines: seq<string>,
        truncated: bool)
    requires CaseDistinct(addon) && Reads(addon, toc, rel, lines, truncated)
    ensures var closure := BuildClosure(addon, toc);
            var roots := Roots(addon, rel, lines, |lines|);
            var held := ReferencesOf(addon, Map(closure.files, (f: LoadFile) => f.path));
            var trace := Trace(addon, roots, {});
            var errors := |Filter(closure.diagnostics, IsRejection)| - if truncated then 1 else 0;
            && multiset(trace) == multiset(roots) + multiset(held)
            && |roots| + |held| == TotalLoads(closure.files) + errors
            && |Filter(closure.diagnostics, IsRepeat)| == TotalLoads(closure.files) - |closure.files|
  {
    var roots := Roots(addon, rel, lines, |lines|);
    var trace := Trace(addon, roots, {});
    var st := ParseTocLines(addon, Opened(rel), lines, |lines|);
    FilesAreThePreorder(addon, toc, rel, lines, truncated);
    ClosureIsTrace(addon, rel, lines);
    TraceAttemptsEachOnce(addon, roots, {});
    TotalIsSourceCount(addon, trace, st.result.files);
    AttemptsAreCounted(addon, trace);
    var held := ReferencesOf(addon, Paths(st));
    assert |multiset(trace)| == |trace| && |multiset(roots) + multiset(held)| == |roots| + |held|;
    if truncated {
      DiagnosticAdded(st.result.diagnostics,
        Displayed(addon, Diagnostic(Error, UnreadableFile, st.result.toc, |lines|, 0, NoEvidence)));
    }
  }
}
