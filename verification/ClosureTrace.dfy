/** What the recursive expansion computes, told by a simple machine: a work list
    of references and the set of files already seen.  The closure's file list,
    `loadedBy` lists and error diagnostics are read off the list of references
    that machine attempts. */
module ClosureTrace {
  import opened Prelude
  import opened ClosureSpec

  // ----- the include graph -----

  /** The references of a file, in document order. */
  function AttemptsIn(addon: AddOn, file: string, tokens: FileData): seq<Attempt> {
    if tokens == [] || tokens[0].SyntaxError? then []
    else
      (if ReferenceOf(addon, tokens[0]).Some? then [AttemptOf(addon, file, tokens[0])] else [])
      + AttemptsIn(addon, file, tokens[1..])
  }

  function AttemptsOf(addon: AddOn, rel: string): seq<Attempt> {
    if rel in addon.files && TypeOf(addon, rel) == Some(Xml) then AttemptsIn(addon, rel, addon.files[rel]) else []
  }

  predicate Leads(addon: AddOn, a: Attempt, rel: string) {
    Classify(addon, a) == Target(rel)
  }

  ghost predicate Edge(addon: AddOn, from: string, to: string) {
    exists a :: a in AttemptsOf(addon, from) && Leads(addon, a, to)
  }

  /** No path a reference can resolve to differs only in letter case from a readable file. */
  ghost predicate CaseDistinct(addon: AddOn) {
    forall from, reference, rel ::
      addon.resolve(from, reference).Resolved? && rel in addon.files &&
      addon.lower(addon.resolve(from, reference).rel) == addon.lower(rel)
      ==> addon.resolve(from, reference).rel == rel
  }

  // ----- the reference machine -----

  /** The references attempted, in order: the head of the work list is attempted,
      and the references of a file reached for the first time go in front. */
  function Trace(addon: AddOn, work: seq<Attempt>, seen: set<string>): seq<Attempt>
    decreases addon.files.Keys - seen, |work|
  {
    if work == [] then []
    else
      match Classify(addon, work[0])
      case Rejected(_, _) => [work[0]] + Trace(addon, work[1..], seen)
      case Target(rel) =>
        if rel in seen then [work[0]] + Trace(addon, work[1..], seen)
        else
          assert rel in addon.files.Keys - seen;
          [work[0]] + Trace(addon, AttemptsOf(addon, rel) + work[1..], seen + {rel})
  }

  /** The files reached by `log`, each at its first reference. */
  function Firsts(addon: AddOn, log: seq<Attempt>): seq<string> {
    if log == [] then []
    else
      var before := Firsts(addon, log[..|log| - 1]);
      match Classify(addon, log[|log| - 1])
      case Rejected(_, _) => before
      case Target(rel) => if rel in before then before else before + [rel]
  }

  /** The sources that referred to `rel`, in order. */
  function SourcesOf(addon: AddOn, log: seq<Attempt>, rel: string): seq<LoadSource> {
    if log == [] then []
    else
      SourcesOf(addon, log[..|log| - 1], rel)
      + if Leads(addon, log[|log| - 1], rel) then [log[|log| - 1].source] else []
  }

  function Displayed(addon: AddOn, d: Diagnostic): Diagnostic {
    d.(file := addon.display(d.file))
  }

  /** The diagnostics of the references that lead nowhere. */
  function RejectionsOf(addon: AddOn, log: seq<Attempt>): seq<Diagnostic> {
    if log == [] then []
    else
      var last := log[|log| - 1];
      RejectionsOf(addon, log[..|log| - 1])
      + match Classify(addon, last)
        case Rejected(code, evidence) => [Displayed(addon, Rejection(last, code, evidence))]
        case Target(_) => []
  }

  /** The references to a file that an earlier reference had reached. */
  function RepeatsOf(addon: AddOn, log: seq<Attempt>): seq<Attempt> {
    if log == [] then []
    else
      var last := log[|log| - 1];
      RepeatsOf(addon, log[..|log| - 1])
      + match Classify(addon, last)
        case Rejected(_, _) => []
        case Target(rel) => if rel in Firsts(addon, log[..|log| - 1]) then [last] else []
  }

  predicate IsRejection(d: Diagnostic) {
    d.code in {MissingFile, UnreadableFile, PathEscape, UnsupportedType}
  }

  predicate IsRepeat(d: Diagnostic) {
    d.code in {DuplicateReference, CircularReference}
  }

  /** A repeat warning stands at its reference and names its target. */
  predicate WarnsOf(addon: AddOn, d: Diagnostic, a: Attempt) {
    && d.severity == Warning && d.file == addon.display(a.source.file) && d.line == a.source.line && d.column == 0
    && match Classify(addon, a)
       case Rejected(_, _) => false
       case Target(rel) =>
         match d.evidence
         case NoEvidence => false
         case Reference(reference, target) =>
           d.code == CircularReference && reference == a.reference && target == rel
         case Repeated(reference, target, _) =>
           d.code == DuplicateReference && reference == a.reference && target == rel
  }

  // ----- invariants of the builder -----

  function Paths(st: Builder): seq<string> {
    Map(st.result.files, (f: LoadFile) => f.path)
  }

  ghost predicate Faithful(addon: AddOn, st: Builder) {
    && Indexed(st)
    && (forall k :: k in st.files ==> k == addon.lower(st.result.files[st.files[k]].path))
    && (forall i :: 0 <= i < |st.result.files| ==>
          var f := st.result.files[i];
          && f.path in addon.files && TypeOf(addon, f.path) == Some(f.fileType)
          && f.loadOrder == i
          && addon.lower(f.path) in st.files && st.files[addon.lower(f.path)] == i)
    && Stored(addon, st.result.contents, Paths(st))
    && st.active <= st.files.Keys
  }

  /** The stored contents are those of the listed files. */
  ghost predicate Stored(addon: AddOn, contents: map<string, FileData>, paths: seq<string>) {
    && (forall rel :: rel in contents <==> rel in paths)
    && forall rel :: rel in contents ==> rel in addon.files && contents[rel] == addon.files[rel]
  }

  ghost predicate Logged(addon: AddOn, st: Builder, log: seq<Attempt>) {
    && Faithful(addon, st)
    && Paths(st) == Firsts(addon, log)
    && Sourced(addon, st.result.files, log)
    && Diagnosed(addon, st.result.diagnostics, log)
  }

  ghost predicate Sourced(addon: AddOn, files: seq<LoadFile>, log: seq<Attempt>) {
    forall i :: 0 <= i < |files| ==> files[i].loadedBy == SourcesOf(addon, log, files[i].path)
  }

  /** The error diagnostics are those of the rejected references and the warnings
      those of the repeated ones, each in order. */
  ghost predicate Diagnosed(addon: AddOn, diagnostics: seq<Diagnostic>, log: seq<Attempt>) {
    && Filter(diagnostics, IsRejection) == RejectionsOf(addon, log)
    && var repeats := Filter(diagnostics, IsRepeat);
       && |repeats| == |RepeatsOf(addon, log)|
       && forall i :: 0 <= i < |repeats| ==> WarnsOf(addon, repeats[i], RepeatsOf(addon, log)[i])
  }

  /** An unvisited key means an unvisited path, and the other way round. */
  lemma KeyIsPath(addon: AddOn, st: Builder, a: Attempt, rel: string)
    requires CaseDistinct(addon) && Faithful(addon, st)
    requires addon.resolve(a.source.file, a.reference) == Resolved(rel)
    ensures addon.lower(rel) in st.files <==> rel in Paths(st)
    ensures addon.lower(rel) in st.files ==>
              rel in addon.files && st.result.files[st.files[addon.lower(rel)]].path == rel
  {
    if addon.lower(rel) in st.files {
      var f := st.result.files[st.files[addon.lower(rel)]];
      assert f.path in addon.files && addon.lower(rel) == addon.lower(f.path);
      assert Paths(st)[st.files[addon.lower(rel)]] == f.path;
    }
    if rel in Paths(st) {
      var i :| 0 <= i < |st.result.files| && Paths(st)[i] == rel;
      assert st.result.files[i].path == rel;
    }
  }

  lemma {:induction false} SourcesUntouched(addon: AddOn, log: seq<Attempt>, rel: string)
    ensures rel !in Firsts(addon, log) ==> SourcesOf(addon, log, rel) == []
  {
    if log != [] {
      SourcesUntouched(addon, log[..|log| - 1], rel);
    }
  }

  lemma {:induction false} DiagnosticAdded(ds: seq<Diagnostic>, d: Diagnostic)
    ensures Filter(ds + [d], IsRejection) == Filter(ds, IsRejection) + if IsRejection(d) then [d] else []
    ensures Filter(ds + [d], IsRepeat) == Filter(ds, IsRepeat) + if IsRepeat(d) then [d] else []
  {
    FilterConcat(ds, [d], IsRejection);
    FilterConcat(ds, [d], IsRepeat);
    assert [d][1..] == [];
  }

  lemma DiagnosedRejection(addon: AddOn, ds: seq<Diagnostic>, log: seq<Attempt>, a: Attempt)
    requires Diagnosed(addon, ds, log) && Classify(addon, a).Rejected?
    ensures var c := Classify(addon, a);
            Diagnosed(addon, ds + [Displayed(addon, Rejection(a, c.code, c.evidence))], log + [a])
  {
    var c := Classify(addon, a);
    assert (log + [a])[..|log|] == log;
    DiagnosticAdded(ds, Displayed(addon, Rejection(a, c.code, c.evidence)));
  }

  lemma {:induction false} DiagnosedRepeat(addon: AddOn, ds: seq<Diagnostic>, log: seq<Attempt>, a: Attempt,
        rel: string, d: Diagnostic)
    requires Diagnosed(addon, ds, log) && Leads(addon, a, rel) && rel in Firsts(addon, log)
    requires IsRepeat(d) && WarnsOf(addon, d, a)
    ensures Diagnosed(addon, ds + [d], log + [a])
  {
    assert (log + [a])[..|log|] == log;
    DiagnosticAdded(ds, d);
    assert RepeatsOf(addon, log + [a]) == RepeatsOf(addon, log) + [a];
    assert RejectionsOf(addon, log + [a]) == RejectionsOf(addon, log) + [];
    hide Firsts, RepeatsOf, RejectionsOf, WarnsOf;
  }

  lemma {:induction false} DiagnosedFirst(addon: AddOn, ds: seq<Diagnostic>, log: seq<Attempt>, a: Attempt, rel: string)
    requires Diagnosed(addon, ds, log) && Leads(addon, a, rel) && rel !in Firsts(addon, log)
    ensures Diagnosed(addon, ds, log + [a])
  {
    assert (log + [a])[..|log|] == log;
  }

  lemma DiagnosedOther(addon: AddOn, ds: seq<Diagnostic>, log: seq<Attempt>, d: Diagnostic)
    requires Diagnosed(addon, ds, log) && !IsRejection(d) && !IsRepeat(d)
    ensures Diagnosed(addon, ds + [d], log)
  {
    DiagnosticAdded(ds, d);
  }

  lemma LogRejected(addon: AddOn, st: Builder, a: Attempt, log: seq<Attempt>)
    requires Logged(addon, st, log) && Classify(addon, a).Rejected?
    ensures var c := Classify(addon, a);
            Logged(addon, Report(addon, st, Rejection(a, c.code, c.evidence)), log + [a])
  {
    var c := Classify(addon, a);
    assert (log + [a])[..|log|] == log;
    DiagnosedRejection(addon, st.result.diagnostics, log, a);
    assert Paths(Report(addon, st, Rejection(a, c.code, c.evidence))) == Paths(st);
  }

  lemma FaithfulAgain(addon: AddOn, st: Builder, rel: string, a: Attempt)
    requires Faithful(addon, st) && addon.lower(rel) in st.files
    ensures Faithful(addon, LoadAgain(addon, st, rel, a))
    ensures Paths(LoadAgain(addon, st, rel, a)) == Paths(st)
  {
    var r := LoadAgain(addon, st, rel, a);
    forall i | 0 <= i < |st.result.files|
      ensures r.result.files[i] == st.result.files[i].(loadedBy := r.result.files[i].loadedBy)
    {
    }
    assert Paths(r) == Paths(st);
  }

  lemma SourcedAdded(addon: AddOn, files: seq<LoadFile>, log: seq<Attempt>, a: Attempt, rel: string,
        files': seq<LoadFile>)
    requires Sourced(addon, files, log) && Leads(addon, a, rel) && |files'| == |files|
    requires forall i :: 0 <= i < |files| ==>
               files'[i] == if files[i].path == rel then files[i].(loadedBy := files[i].loadedBy + [a.source])
                   else files[i]
    ensures Sourced(addon, files', log + [a])
  {
    assert (log + [a])[..|log|] == log;
  }

  /** The warning of a repeated reference. */
  lemma AgainWarns(addon: AddOn, st: Builder, rel: string, a: Attempt) returns (d: Diagnostic)
    requires Indexed(st) && addon.lower(rel) in st.files && Leads(addon, a, rel)
    ensures LoadAgain(addon, st, rel, a).result.diagnostics == st.result.diagnostics + [d]
    ensures IsRepeat(d) && WarnsOf(addon, d, a)
  {
    d := LoadAgain(addon, st, rel, a).result.diagnostics[|st.result.diagnostics|];
  }

  /** Only the file of the reference gets a source more. */
  lemma AgainSources(addon: AddOn, st: Builder, rel: string, a: Attempt)
    requires Faithful(addon, st) && addon.lower(rel) in st.files
        && st.result.files[st.files[addon.lower(rel)]].path == rel
    ensures var files, files' := st.result.files, LoadAgain(addon, st, rel, a).result.files;
            && |files'| == |files|
            && forall i :: 0 <= i < |files| ==>
                 files'[i] == if files[i].path == rel then files[i].(loadedBy := files[i].loadedBy + [a.source])
                     else files[i]
  {
    hide Stored, TypeOf;
    forall i | 0 <= i < |st.result.files| && i != st.files[addon.lower(rel)]
      ensures st.result.files[i].path != rel
    {
      assert st.files[addon.lower(st.result.files[i].path)] == i;
    }
  }

  lemma LogAgain(addon: AddOn, st: Builder, rel: string, a: Attempt, log: seq<Attempt>)
    requires CaseDistinct(addon) && Logged(addon, st, log)
    requires Leads(addon, a, rel) && addon.lower(rel) in st.files
    ensures Logged(addon, LoadAgain(addon, st, rel, a), log + [a])
    ensures Paths(LoadAgain(addon, st, rel, a)) == Paths(st)
  {
    hide Diagnosed, Sourced, Faithful, LoadAgain, Paths, WarnsOf, IsRepeat;
    assert Indexed(st) by { FaithfulIsIndexed(addon, st); }
    KeyIsPath(addon, st, a, rel);
    FaithfulAgain(addon, st, rel, a);
    assert (log + [a])[..|log|] == log;
    var d := AgainWarns(addon, st, rel, a);
    DiagnosedRepeat(addon, st.result.diagnostics, log, a, rel, d);
    AgainSources(addon, st, rel, a);
    SourcedAdded(addon, st.result.files, log, a, rel, LoadAgain(addon, st, rel, a).result.files);
  }

  lemma FaithfulIsIndexed(addon: AddOn, st: Builder)
    requires Faithful(addon, st)
    ensures Indexed(st)
  {
  }

  lemma StoredFirst(addon: AddOn, contents: map<string, FileData>, paths: seq<string>, rel: string)
    requires Stored(addon, contents, paths) && rel in addon.files
    ensures Stored(addon, contents[rel := addon.files[rel]], paths + [rel])
  {
  }

  lemma FaithfulFirst(addon: AddOn, st: Builder, rel: string, a: Attempt)
    requires Faithful(addon, st) && Leads(addon, a, rel) && addon.lower(rel) !in st.files
    ensures Faithful(addon, Append(addon, st, rel, a))
    ensures Paths(Append(addon, st, rel, a)) == Paths(st) + [rel]
  {
    hide TypeOf, Stored;
    var r := Append(addon, st, rel, a);
    assert r.result.files == st.result.files + [LoadFile(rel, TypeOf(addon, rel).value, [a.source], |st.result.files|)];
    assert Paths(r) == Paths(st) + [rel];
    StoredFirst(addon, st.result.contents, Paths(st), rel);
    hide Paths;
    forall i | 0 <= i < |r.result.files|
      ensures var f := r.result.files[i];
              && f.path in addon.files && TypeOf(addon, f.path) == Some(f.fileType)
              && f.loadOrder == i
              && addon.lower(f.path) in r.files && r.files[addon.lower(f.path)] == i
    {
      if i < |st.result.files| {
        assert r.result.files[i] == st.result.files[i];
      }
    }
  }

  lemma {:induction false} SourcedFirst(addon: AddOn, files: seq<LoadFile>, log: seq<Attempt>, a: Attempt, f: LoadFile)
    requires Sourced(addon, files, log) && Leads(addon, a, f.path) && f.path !in Firsts(addon, log)
    requires forall i :: 0 <= i < |files| ==> files[i].path != f.path
    requires f.loadedBy == [a.source]
    ensures Sourced(addon, files + [f], log + [a])
  {
    assert (log + [a])[..|log|] == log;
    SourcesUntouched(addon, log, f.path);
    assert SourcesOf(addon, log + [a], f.path) == [a.source];
  }

  lemma LogFirst(addon: AddOn, st: Builder, rel: string, a: Attempt, log: seq<Attempt>)
    requires CaseDistinct(addon) && Logged(addon, st, log)
    requires Leads(addon, a, rel) && addon.lower(rel) !in st.files
    ensures Logged(addon, Append(addon, st, rel, a), log + [a])
    ensures Paths(Append(addon, st, rel, a)) == Paths(st) + [rel]
  {
    hide Diagnosed, Sourced, Faithful;
    assert Faithful(addon, st);
    KeyIsPath(addon, st, a, rel);
    FaithfulFirst(addon, st, rel, a);
    assert (log + [a])[..|log|] == log;
    DiagnosedFirst(addon, st.result.diagnostics, log, a, rel);
    forall i | 0 <= i < |st.result.files| ensures st.result.files[i].path != rel {
      assert Paths(st)[i] == st.result.files[i].path;
    }
    SourcedFirst(addon, st.result.files, log, a,
        LoadFile(rel, TypeOf(addon, rel).value, [a.source], |st.result.files|));
  }

  lemma Unlogged(addon: AddOn, st: Builder, log: seq<Attempt>)
    requires Logged(addon, st, log)
    ensures Faithful(addon, st) && Diagnosed(addon, st.result.diagnostics, log)
  {
  }

  function SeenBy(st: Builder): set<string> {
    set rel | rel in Paths(st)
  }

  // ----- the recursion follows the machine -----

  lemma {:induction false} TraceUnchanged(addon: AddOn, a: Attempt, rest: seq<Attempt>, seen: set<string>)
    requires Classify(addon, a).Rejected? || Classify(addon, a).rel in seen
    ensures Trace(addon, [a] + rest, seen) == [a] + Trace(addon, rest, seen)
  {
    assert ([a] + rest)[1..] == rest;
  }

  lemma {:induction false} TraceFirst(addon: AddOn, a: Attempt, rel: string, rest: seq<Attempt>, seen: set<string>)
    requires Leads(addon, a, rel) && rel !in seen
    ensures Trace(addon, [a] + rest, seen) == [a] + Trace(addon, AttemptsOf(addon, rel) + rest, seen + {rel})
  {
    assert ([a] + rest)[1..] == rest;
  }

  /** The builder has done `log`; what is left of the machine's run is `work`. */
  ghost predicate Following(addon: AddOn, st: Builder, log: seq<Attempt>, work: seq<Attempt>, total: seq<Attempt>) {
    Logged(addon, st, log) && log + Trace(addon, work, SeenBy(st)) == total
  }

  lemma FollowRejected(addon: AddOn, st: Builder, a: Attempt, log: seq<Attempt>, rest: seq<Attempt>,
        total: seq<Attempt>)
    requires Following(addon, st, log, [a] + rest, total) && Classify(addon, a).Rejected?
    ensures var c := Classify(addon, a);
            Following(addon, Report(addon, st, Rejection(a, c.code, c.evidence)), log + [a], rest, total)
  {
    var c := Classify(addon, a);
    LogRejected(addon, st, a, log);
    assert Paths(Report(addon, st, Rejection(a, c.code, c.evidence))) == Paths(st);
    TraceUnchanged(addon, a, rest, SeenBy(st));
    ConcatAssociative(log, [a], Trace(addon, rest, SeenBy(st)));
  }

  lemma FollowAgain(addon: AddOn, st: Builder, rel: string, a: Attempt, log: seq<Attempt>, rest: seq<Attempt>,
        total: seq<Attempt>)
    requires CaseDistinct(addon) && Following(addon, st, log, [a] + rest, total)
    requires Leads(addon, a, rel) && addon.lower(rel) in st.files
    ensures Following(addon, LoadAgain(addon, st, rel, a), log + [a], rest, total)
  {
    hide Diagnosed, Sourced, LoadAgain, Trace, Firsts;
    LogAgain(addon, st, rel, a, log);
    KeyIsPath(addon, st, a, rel);
    TraceUnchanged(addon, a, rest, SeenBy(st));
    ConcatAssociative(log, [a], Trace(addon, rest, SeenBy(st)));
  }

  lemma FollowFirst(addon: AddOn, st: Builder, rel: string, a: Attempt, log: seq<Attempt>, rest: seq<Attempt>,
        total: seq<Attempt>)
    requires CaseDistinct(addon) && Following(addon, st, log, [a] + rest, total)
    requires Leads(addon, a, rel) && addon.lower(rel) !in st.files
    ensures Following(addon, Append(addon, st, rel, a), log + [a], AttemptsOf(addon, rel) + rest, total)
  {
    hide Diagnosed, Sourced, Append, Trace, Firsts, Logged;
    assert Faithful(addon, st) by { Unlogged(addon, st, log); }
    LogFirst(addon, st, rel, a, log);
    KeyIsPath(addon, st, a, rel);
    assert SeenBy(Append(addon, st, rel, a)) == SeenBy(st) + {rel};
    TraceFirst(addon, a, rel, rest, SeenBy(st));
    ConcatAssociative(log, [a], Trace(addon, AttemptsOf(addon, rel) + rest, SeenBy(st) + {rel}));
  }

  /** Opening and closing an XML file only touches the active set. */
  lemma FollowActive(addon: AddOn, st: Builder, active: set<string>, log: seq<Attempt>, work: seq<Attempt>,
        total: seq<Attempt>)
    requires Following(addon, st, log, work, total) && active <= st.files.Keys
    ensures Following(addon, st.(active := active), log, work, total)
  {
    assert Paths(st.(active := active)) == Paths(st);
  }

  lemma FollowInterface(addon: AddOn, st: Builder, value: string, log: seq<Attempt>, work: seq<Attempt>,
        total: seq<Attempt>)
    requires Following(addon, st, log, work, total)
    ensures Following(addon, st.(result := st.result.(interfaceValue := value)), log, work, total)
  {
    assert Paths(st.(result := st.result.(interfaceValue := value))) == Paths(st);
  }

  lemma FollowSyntaxError(addon: AddOn, st: Builder, d: Diagnostic, log: seq<Attempt>, work: seq<Attempt>,
        total: seq<Attempt>)
    requires Following(addon, st, log, work, total) && d.code == XmlParseFailed
    ensures Following(addon, Report(addon, st, d), log, work, total)
  {
    DiagnosedOther(addon, st.result.diagnostics, log, Displayed(addon, d));
    assert Paths(Report(addon, st, d)) == Paths(st);
  }

  lemma KnownKey(addon: AddOn, st: Builder, a: Attempt, log: seq<Attempt>, work: seq<Attempt>, total: seq<Attempt>)
    requires CaseDistinct(addon) && Following(addon, st, log, work, total)
    requires var r := addon.resolve(a.source.file, a.reference);
             r.Resolved? && TypeOf(addon, r.rel).Some? && addon.lower(r.rel) in st.files
    ensures Leads(addon, a, addon.resolve(a.source.file, a.reference).rel)
  {
    KeyIsPath(addon, st, a, addon.resolve(a.source.file, a.reference).rel);
  }

  lemma {:induction false} LoadFollowsTrace(addon: AddOn, st: Builder, a: Attempt, log: seq<Attempt>,
        rest: seq<Attempt>, total: seq<Attempt>)
      returns (log': seq<Attempt>)
    requires CaseDistinct(addon) && Indexed(st) && st.active <= st.files.Keys
    requires Following(addon, st, log, [a] + rest, total)
    ensures Load(addon, st, a).active == st.active
    ensures Following(addon, Load(addon, st, a), log', rest, total)
    decreases Keys(addon) - st.files.Keys, 0, 0
  {
    hide Following, Trace, Append, LoadAgain, Report;
    log' := log + [a];
    var resolution := addon.resolve(a.source.file, a.reference);
    if !resolution.Resolved? || TypeOf(addon, resolution.rel).None? {
      FollowRejected(addon, st, a, log, rest, total);
    } else if addon.lower(resolution.rel) in st.files {
      KnownKey(addon, st, a, log, [a] + rest, total);
      FollowAgain(addon, st, resolution.rel, a, log, rest, total);
    } else if resolution.rel !in addon.files {
      FollowRejected(addon, st, a, log, rest, total);
    } else {
      var rel := resolution.rel;
      var key := addon.lower(rel);
      var st' := Append(addon, st, rel, a);
      FollowFirst(addon, st, rel, a, log, rest, total);
      if TypeOf(addon, rel) != Some(Xml) {
        assert AttemptsOf(addon, rel) + rest == rest;
      } else {
        assert key in Keys(addon) - st.files.Keys;
        var entered := st'.(active := st'.active + {key});
        FollowActive(addon, st', entered.active, log + [a], AttemptsOf(addon, rel) + rest, total);
        log' := ExpandFollowsTrace(addon, entered, rel, addon.files[rel], log + [a], rest, total);
        var expanded := ParseXml(addon, entered, rel, addon.files[rel]);
        assert expanded.active - {key} == st.active;
        FollowActive(addon, expanded, expanded.active - {key}, log', rest, total);
      }
    }
  }

  lemma {:induction false} ExpandFollowsTrace(addon: AddOn, st: Builder, file: string, tokens: FileData,
        log: seq<Attempt>, rest: seq<Attempt>, total: seq<Attempt>)
      returns (log': seq<Attempt>)
    requires CaseDistinct(addon) && Indexed(st) && st.active <= st.files.Keys
    requires Following(addon, st, log, AttemptsIn(addon, file, tokens) + rest, total)
    ensures ParseXml(addon, st, file, tokens).active == st.active
    ensures Following(addon, ParseXml(addon, st, file, tokens), log', rest, total)
    decreases Keys(addon) - st.files.Keys, 1, |tokens|
  {
    log' := log;
    if tokens == [] {
      assert AttemptsIn(addon, file, tokens) + rest == rest;
    } else if tokens[0].SyntaxError? {
      assert AttemptsIn(addon, file, tokens) + rest == rest;
      FollowSyntaxError(addon, st,
        Diagnostic(Error, XmlParseFailed, file, tokens[0].line, tokens[0].column, NoEvidence), log, rest, total);
    } else if ReferenceOf(addon, tokens[0]).None? {
      assert AttemptsIn(addon, file, tokens) == AttemptsIn(addon, file, tokens[1..]);
      log' := ExpandFollowsTrace(addon, st, file, tokens[1..], log, rest, total);
    } else {
      var a := AttemptOf(addon, file, tokens[0]);
      var later := AttemptsIn(addon, file, tokens[1..]) + rest;
      assert AttemptsIn(addon, file, tokens) + rest == [a] + later;
      var log1 := LoadFollowsTrace(addon, st, a, log, later, total);
      log' := ExpandFollowsTrace(addon, Load(addon, st, a), file, tokens[1..], log1, rest, total);
    }
  }

  /** The references of the first `n` TOC lines. */
  function Roots(addon: AddOn, toc: string, lines: seq<string>, n: nat): seq<Attempt>
    requires n <= |lines|
  {
    if n == 0 then []
    else
      Roots(addon, toc, lines, n - 1)
      + match ReadTocLine(addon, lines[n - 1], n == 1)
        case Entry(reference) => [Attempt(reference, LoadSource(toc, n, "toc"))]
        case _ => []
  }

  function Opened(toc: string): Builder {
    EMPTY_BUILDER.(result := EMPTY_CLOSURE.(toc := toc))
  }

  lemma {:induction false} LoadKeepsHeader(addon: AddOn, st: Builder, a: Attempt)
    requires Indexed(st)
    ensures Load(addon, st, a).result.toc == st.result.toc
    ensures Load(addon, st, a).result.interfaceValue == st.result.interfaceValue
    decreases Keys(addon) - st.files.Keys, 0, 0
  {
    var resolution := addon.resolve(a.source.file, a.reference);
    if resolution.Resolved? && TypeOf(addon, resolution.rel).Some? {
      var rel := resolution.rel;
      var key := addon.lower(rel);
      if key !in st.files && rel in addon.files && TypeOf(addon, rel) == Some(Xml) {
        assert key in Keys(addon) - st.files.Keys;
        var st' := Append(addon, st, rel, a);
        ExpandKeepsHeader(addon, st'.(active := st'.active + {key}), rel, addon.files[rel]);
      }
    }
  }

  lemma {:induction false} ExpandKeepsHeader(addon: AddOn, st: Builder, file: string, tokens: FileData)
    requires Indexed(st)
    ensures ParseXml(addon, st, file, tokens).result.toc == st.result.toc
    ensures ParseXml(addon, st, file, tokens).result.interfaceValue == st.result.interfaceValue
    decreases Keys(addon) - st.files.Keys, 1, |tokens|
  {
    if tokens != [] && !tokens[0].SyntaxError? {
      if ReferenceOf(addon, tokens[0]).None? {
        ExpandKeepsHeader(addon, st, file, tokens[1..]);
      } else {
        LoadKeepsHeader(addon, st, AttemptOf(addon, file, tokens[0]));
        ExpandKeepsHeader(addon, Load(addon, st, AttemptOf(addon, file, tokens[0])), file, tokens[1..]);
      }
    }
  }

  lemma {:induction false} FollowStart(addon: AddOn, toc: string, work: seq<Attempt>)
    ensures Following(addon, Opened(toc), [], work, Trace(addon, work, {}))
  {
    assert SeenBy(Opened(toc)) == {};
  }

  lemma {:induction false} LinesFollowTrace(addon: AddOn, toc: string, lines: seq<string>, n: nat, rest: seq<Attempt>)
      returns (log: seq<Attempt>)
    requires CaseDistinct(addon) && n <= |lines|
    ensures var st := ParseTocLines(addon, Opened(toc), lines, n);
            && st.active == {} && st.result.toc == toc
            && Following(addon, st, log, rest, Trace(addon, Roots(addon, toc, lines, n) + rest, {}))
  {
    hide Following, Load, Trace, ReadTocLine;
    var total := Trace(addon, Roots(addon, toc, lines, n) + rest, {});
    if n == 0 {
      log := [];
      assert Roots(addon, toc, lines, n) + rest == rest;
      FollowStart(addon, toc, rest);
    } else {
      var st := ParseTocLines(addon, Opened(toc), lines, n - 1);
      match ReadTocLine(addon, lines[n - 1], n == 1) {
        case Skipped =>
          assert Roots(addon, toc, lines, n) == Roots(addon, toc, lines, n - 1);
          log := LinesFollowTrace(addon, toc, lines, n - 1, rest);
        case Interface(value) =>
          assert Roots(addon, toc, lines, n) == Roots(addon, toc, lines, n - 1);
          log := LinesFollowTrace(addon, toc, lines, n - 1, rest);
          FollowInterface(addon, st, value, log, rest, total);
        case Entry(reference) =>
          var a := Attempt(reference, LoadSource(toc, n, "toc"));
          assert Roots(addon, toc, lines, n) + rest == Roots(addon, toc, lines, n - 1) + ([a] + rest);
          var log1 := LinesFollowTrace(addon, toc, lines, n - 1, [a] + rest);
          LoadKeepsHeader(addon, st, a);
          log := LoadFollowsTrace(addon, st, a, log1, rest, total);
      }
    }
  }

  /** The closure is the one the reference machine describes: its files are those
      reached, in order of first reference, each loaded by the references that
      lead to it; the error diagnostics are those of the references that lead
      nowhere and the warnings those of the references that repeat. */
  lemma {:induction false} ClosureIsTrace(addon: AddOn, toc: string, lines: seq<string>)
    requires CaseDistinct(addon)
    ensures var st := ParseTocLines(addon, Opened(toc), lines, |lines|);
            var roots := Roots(addon, toc, lines, |lines|);
            Logged(addon, st, Trace(addon, roots, {})) && st.active == {}
  {
    var log := LinesFollowTrace(addon, toc, lines, |lines|, []);
    var roots := Roots(addon, toc, lines, |lines|);
    assert roots + [] == roots;
    assert log + [] == log;
  }
}
