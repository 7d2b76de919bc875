/** Circular-reference warnings: there is one exactly when the include graph below
    the TOC has a cycle, and each names a file on the chain that leads to it. */
module ClosureCycles {
  import opened Prelude
  import opened ClosureSpec
  import opened ClosureTrace
  import opened ClosureTheorems

  /** A chain of at least one reference that comes back to its first file. */
  ghost predicate Cycle(addon: AddOn, p: seq<string>) {
    Chain(addon, p) && |p| >= 2 && p[0] == p[|p| - 1]
  }

  predicate NoCircular(st: Builder) {
    forall d :: d in st.result.diagnostics ==> d.code != CircularReference
  }

  /** The files whose expansion is over. */
  function Done(addon: AddOn, st: Builder): set<string> {
    set rel | rel in Paths(st) && addon.lower(rel) !in st.active
  }

  ghost predicate Acyclic(addon: AddOn, rels: set<string>) {
    forall p :: Cycle(addon, p) ==> p[0] !in rels
  }

  ghost predicate Settled(addon: AddOn, rels: set<string>) {
    Closed(addon, rels) && Acyclic(addon, rels)
  }

  /** Adding a file whose references all lead into a settled set keeps it settled. */
  lemma SettleOne(addon: AddOn, rels: set<string>, rel: string)
    requires Settled(addon, rels) && rel !in rels
    requires forall to :: Edge(addon, rel, to) ==> to in rels
    ensures Settled(addon, rels + {rel})
  {
    forall p | Cycle(addon, p) ensures p[0] !in rels + {rel} {
      if p[0] == rel {
        assert Edge(addon, p[0], p[1]);
        var q := p[1..];
        forall i | 0 <= i < |q| - 1 ensures Edge(addon, q[i], q[i + 1]) {
          assert Edge(addon, p[i + 1], p[i + 1 + 1]);
        }
        ChainStaysInside(addon, q, rels, |q| - 1);
      }
    }
  }

  /** Between two builder states: the files being expanded are the same, nothing is
      forgotten, and with no circular warning so far what is over is settled. */
  ghost predicate Advances(addon: AddOn, st: Builder, r: Builder) {
    && Faithful(addon, r) && r.active == st.active
    && (NoCircular(r) ==> NoCircular(st))
    && Done(addon, st) <= Done(addon, r)
    && (NoCircular(r) ==> Settled(addon, Done(addon, r)))
  }

  ghost predicate Sound(addon: AddOn, st: Builder) {
    Faithful(addon, st) && (NoCircular(st) ==> Settled(addon, Done(addon, st)))
  }

  lemma ReportAdvances(addon: AddOn, st: Builder, d: Diagnostic)
    requires Sound(addon, st)
    ensures Advances(addon, st, Report(addon, st, d))
    ensures d.code == CircularReference ==> !NoCircular(Report(addon, st, d))
  {
    var r := Report(addon, st, d);
    assert Paths(r) == Paths(st);
    assert Done(addon, r) == Done(addon, st);
    assert r.result.diagnostics[|st.result.diagnostics|] in r.result.diagnostics;
    forall e | e in st.result.diagnostics ensures e in r.result.diagnostics {}
  }

  lemma AgainAdvances(addon: AddOn, st: Builder, rel: string, a: Attempt)
    requires CaseDistinct(addon) && Sound(addon, st)
    requires addon.resolve(a.source.file, a.reference) == Resolved(rel) && addon.lower(rel) in st.files
    ensures var r := LoadAgain(addon, st, rel, a);
            Advances(addon, st, r) && (NoCircular(r) ==> rel in Done(addon, r))
  {
    KeyIsPath(addon, st, a, rel);
    FaithfulAgain(addon, st, rel, a);
    var r := LoadAgain(addon, st, rel, a);
    assert Done(addon, r) == Done(addon, st);
    assert r.result.diagnostics[|st.result.diagnostics|] in r.result.diagnostics;
    forall e | e in st.result.diagnostics ensures e in r.result.diagnostics {}
  }

  lemma PathsAreIndexed(addon: AddOn, st: Builder, rel: string)
    requires Faithful(addon, st) && rel in Paths(st)
    ensures addon.lower(rel) in st.files
  {
    var i :| 0 <= i < |st.result.files| && Paths(st)[i] == rel;
    assert st.result.files[i].path == rel;
  }

  lemma EnterKeepsDone(addon: AddOn, st: Builder, rel: string, a: Attempt)
    requires Faithful(addon, st) && Leads(addon, a, rel) && addon.lower(rel) !in st.files
    ensures var entered := Append(addon, st, rel, a).(active := st.active + {addon.lower(rel)});
            Done(addon, entered) == Done(addon, st) && Paths(entered) == Paths(st) + [rel]
  {
    var entered := Append(addon, st, rel, a).(active := st.active + {addon.lower(rel)});
    assert Paths(entered) == Paths(st) + [rel];
    forall r | r in Paths(st) ensures addon.lower(r) in st.files {
      PathsAreIndexed(addon, st, r);
    }
    assert Done(addon, entered) == Done(addon, st);
  }

  lemma EnterAdvances(addon: AddOn, st: Builder, rel: string, a: Attempt)
    requires CaseDistinct(addon) && Sound(addon, st)
    requires Leads(addon, a, rel) && addon.lower(rel) !in st.files
    ensures var entered := Append(addon, st, rel, a).(active := st.active + {addon.lower(rel)});
            Sound(addon, entered) && Done(addon, entered) == Done(addon, st)
                && (NoCircular(entered) <==> NoCircular(st))
  {
    hide Settled, Done;
    FaithfulFirst(addon, st, rel, a);
    EnterKeepsDone(addon, st, rel, a);
  }

  /** Closing a file all of whose references lead to files that are over. */
  lemma LeaveAdvances(addon: AddOn, st: Builder, active: set<string>, rel: string)
    requires Sound(addon, st) && rel in Paths(st) && addon.lower(rel) !in active
    requires st.active == active + {addon.lower(rel)}
    requires NoCircular(st) ==> forall to :: Edge(addon, rel, to) ==> to in Done(addon, st)
    ensures Sound(addon, st.(active := active))
    ensures Done(addon, st.(active := active)) == Done(addon, st) + {rel}
  {
    var left := st.(active := active);
    assert Paths(left) == Paths(st);
    forall r | r in Paths(st) && addon.lower(r) == addon.lower(rel) ensures r == rel {
      var i :| 0 <= i < |st.result.files| && Paths(st)[i] == r;
      var j :| 0 <= j < |st.result.files| && Paths(st)[j] == rel;
      assert st.result.files[i].path == r && st.result.files[j].path == rel;
    }
    assert Done(addon, left) == Done(addon, st) + {rel};
    if NoCircular(left) {
      assert NoCircular(st);
      SettleOne(addon, Done(addon, st), rel);
    }
  }

  lemma LeafAdvances(addon: AddOn, st: Builder, rel: string, a: Attempt)
    requires CaseDistinct(addon) && Sound(addon, st)
    requires Leads(addon, a, rel) && addon.lower(rel) !in st.files && TypeOf(addon, rel) != Some(Xml)
    ensures var r := Append(addon, st, rel, a); Advances(addon, st, r) && rel in Done(addon, r)
  {
    EnterAdvances(addon, st, rel, a);
    var st' := Append(addon, st, rel, a);
    var entered := st'.(active := st.active + {addon.lower(rel)});
    assert entered.result.files[|st.result.files|].path == rel;
    assert Paths(entered)[|st.result.files|] == rel;
    LeaveAdvances(addon, entered, st.active, rel);
    assert entered.(active := st.active) == st';
  }

  lemma AdvancesTransitive(addon: AddOn, a: Builder, b: Builder, c: Builder)
    requires Advances(addon, a, b) && Advances(addon, b, c)
    ensures Advances(addon, a, c)
  {
  }

  lemma AdvancesFacts(addon: AddOn, st: Builder, r: Builder)
    requires Advances(addon, st, r)
    ensures Sound(addon, r) && r.active == st.active && Done(addon, st) <= Done(addon, r)
    ensures NoCircular(r) ==> NoCircular(st)
  {
  }

  lemma {:induction false} LoadAdvances(addon: AddOn, st: Builder, a: Attempt)
    requires CaseDistinct(addon) && Sound(addon, st)
    ensures Advances(addon, st, Load(addon, st, a))
    ensures NoCircular(Load(addon, st, a)) ==>
              forall to :: Leads(addon, a, to) ==> to in Done(addon, Load(addon, st, a))
    decreases Keys(addon) - st.files.Keys, 0, 0
  {
    hide Advances, Done, NoCircular, Append, LoadAgain, Report, Faithful;
    var resolution := addon.resolve(a.source.file, a.reference);
    if !resolution.Resolved? || TypeOf(addon, resolution.rel).None? {
      var c := Classify(addon, a);
      ReportAdvances(addon, st, Rejection(a, c.code, c.evidence));
    } else if addon.lower(resolution.rel) in st.files {
      AgainAdvances(addon, st, resolution.rel, a);
    } else if resolution.rel !in addon.files {
      var c := Classify(addon, a);
      ReportAdvances(addon, st, Rejection(a, c.code, c.evidence));
    } else if TypeOf(addon, resolution.rel) != Some(Xml) {
      LeafAdvances(addon, st, resolution.rel, a);
    } else {
      ExpansionAdvances(addon, st, resolution.rel, a);
    }
  }

  lemma {:induction false} ExpansionAdvances(addon: AddOn, st: Builder, rel: string, a: Attempt)
    requires CaseDistinct(addon) && Sound(addon, st)
    requires Leads(addon, a, rel) && addon.lower(rel) !in st.files && TypeOf(addon, rel) == Some(Xml)
    ensures Advances(addon, st, Load(addon, st, a))
    ensures rel in Done(addon, Load(addon, st, a))
    decreases Keys(addon) - st.files.Keys, 0, 0, 0
  {
    var key := addon.lower(rel);
    var st' := Append(addon, st, rel, a);
    var entered := st'.(active := st.active + {key});
    assert key in Keys(addon) - st.files.Keys;
    EnterAdvances(addon, st, rel, a);
    ExpandAdvances(addon, entered, rel, addon.files[rel]);
    var expanded := ParseXml(addon, entered, rel, addon.files[rel]);
    assert Load(addon, st, a) == expanded.(active := st.active) by {
      assert expanded.active - {key} == st.active;
    }
    assert entered.result.files[|st.result.files|].path == rel;
    assert Paths(entered)[|st.result.files|] == rel;
    ExpandKeepsPaths(addon, entered, rel, addon.files[rel]);
    forall to | NoCircular(expanded) && Edge(addon, rel, to) ensures to in Done(addon, expanded) {
    }
    LeaveAdvances(addon, expanded, st.active, rel);
  }

  lemma {:induction false} ExpandAdvances(addon: AddOn, st: Builder, file: string, tokens: FileData)
    requires CaseDistinct(addon) && Sound(addon, st)
    ensures var r := ParseXml(addon, st, file, tokens);
            && Advances(addon, st, r)
            && (NoCircular(r) ==>
                  forall a, to :: a in AttemptsIn(addon, file, tokens) && Leads(addon, a, to) ==> to in Done(addon, r))
    decreases Keys(addon) - st.files.Keys, 1, |tokens|
  {
    hide Done, NoCircular, Load, Report;
    if tokens == [] {
    } else if tokens[0].SyntaxError? {
      ReportAdvances(addon, st,
        Diagnostic(Error, XmlParseFailed, file, tokens[0].line, tokens[0].column, NoEvidence));
    } else if ReferenceOf(addon, tokens[0]).None? {
      ExpandAdvances(addon, st, file, tokens[1..]);
    } else {
      var a := AttemptOf(addon, file, tokens[0]);
      var st' := Load(addon, st, a);
      LoadAdvances(addon, st, a);
      AdvancesFacts(addon, st, st');
      ExpandAdvances(addon, st', file, tokens[1..]);
      var r := ParseXml(addon, st', file, tokens[1..]);
      AdvancesFacts(addon, st', r);
      AdvancesTransitive(addon, st, st', r);
    }
  }

  // ----- nothing is forgotten -----

  lemma {:induction false} LoadKeepsPaths(addon: AddOn, st: Builder, a: Attempt)
    requires Indexed(st)
    ensures |st.result.files| <= |Load(addon, st, a).result.files|
    ensures forall i :: 0 <= i < |st.result.files| ==>
              Load(addon, st, a).result.files[i].path == st.result.files[i].path
    ensures forall rel :: rel in Paths(st) ==> rel in Paths(Load(addon, st, a))
    decreases Keys(addon) - st.files.Keys, 0, 0
  {
    var resolution := addon.resolve(a.source.file, a.reference);
    if resolution.Resolved? && TypeOf(addon, resolution.rel).Some? {
      hide TypeOf, Paths;
      var rel := resolution.rel;
      var key := addon.lower(rel);
      if key !in st.files && rel in addon.files && TypeOf(addon, rel) == Some(Xml) {
        assert key in Keys(addon) - st.files.Keys;
        var st' := Append(addon, st, rel, a);
        ExpandKeepsPaths(addon, st'.(active := st'.active + {key}), rel, addon.files[rel]);
      }
    }
    SamePathsKept(st, Load(addon, st, a));
  }

  lemma SamePathsKept(st: Builder, r: Builder)
    requires |st.result.files| <= |r.result.files|
    requires forall i :: 0 <= i < |st.result.files| ==> r.result.files[i].path == st.result.files[i].path
    ensures forall rel :: rel in Paths(st) ==> rel in Paths(r)
  {
    forall rel | rel in Paths(st) ensures rel in Paths(r) {
      var i :| 0 <= i < |st.result.files| && Paths(st)[i] == rel;
      assert Paths(r)[i] == rel;
    }
  }

  lemma {:induction false} ExpandKeepsPaths(addon: AddOn, st: Builder, file: string, tokens: FileData)
    requires Indexed(st)
    ensures |st.result.files| <= |ParseXml(addon, st, file, tokens).result.files|
    ensures forall i :: 0 <= i < |st.result.files| ==>
              ParseXml(addon, st, file, tokens).result.files[i].path == st.result.files[i].path
    ensures forall rel :: rel in Paths(st) ==> rel in Paths(ParseXml(addon, st, file, tokens))
    decreases Keys(addon) - st.files.Keys, 1, |tokens|
  {
    if tokens != [] && !tokens[0].SyntaxError? {
      if ReferenceOf(addon, tokens[0]).None? {
        ExpandKeepsPaths(addon, st, file, tokens[1..]);
      } else {
        LoadKeepsPaths(addon, st, AttemptOf(addon, file, tokens[0]));
        ExpandKeepsPaths(addon, Load(addon, st, AttemptOf(addon, file, tokens[0])), file, tokens[1..]);
      }
    }
    SamePathsKept(st, ParseXml(addon, st, file, tokens));
  }

  // ----- each warning has its chain -----

  ghost predicate IsRoot(addon: AddOn, roots: seq<Attempt>, rel: string) {
    exists a :: a in roots && Leads(addon, a, rel)
  }

  /** `stack` are the files being expanded: a chain of references from one that the
      TOC names down to the file at hand. */
  ghost predicate OnStack(addon: AddOn, roots: seq<Attempt>, st: Builder, stack: seq<string>) {
    && (forall rel :: rel in stack <==> rel in Paths(st) && addon.lower(rel) in st.active)
    && (stack != [] ==> Chain(addon, stack) && IsRoot(addon, roots, stack[0]))
  }

  /** The reference stands in the file at hand, or in the TOC if no file is expanded. */
  ghost predicate FromStack(addon: AddOn, roots: seq<Attempt>, st: Builder, stack: seq<string>, a: Attempt) {
    && OnStack(addon, roots, st, stack)
    && if stack == [] then a in roots
       else a.source.file == stack[|stack| - 1] && a in AttemptsOf(addon, stack[|stack| - 1])
  }

  /** The warning stands in the last file of a chain that starts at the TOC, at a
      reference from there back to `to`, which is on the chain. */
  ghost predicate ClosesChain(addon: AddOn, roots: seq<Attempt>, d: Diagnostic, chain: seq<string>, to: string) {
    && Chain(addon, chain) && IsRoot(addon, roots, chain[0]) && to in chain
    && d.severity == Warning && d.file == addon.display(chain[|chain| - 1])
    && d.evidence.Reference? && d.evidence.resolved == to && Edge(addon, chain[|chain| - 1], to)
  }

  ghost predicate Witnessed(addon: AddOn, roots: seq<Attempt>, d: Diagnostic) {
    exists chain, to :: ClosesChain(addon, roots, d, chain, to)
  }

  ghost predicate AllWitnessed(addon: AddOn, roots: seq<Attempt>, st: Builder) {
    forall d :: d in st.result.diagnostics && d.code == CircularReference ==> Witnessed(addon, roots, d)
  }

  lemma StillWitnessed(addon: AddOn, roots: seq<Attempt>, st: Builder, r: Builder, d: Diagnostic)
    requires AllWitnessed(addon, roots, st)
    requires r.result.diagnostics == st.result.diagnostics || r.result.diagnostics == st.result.diagnostics + [d]
    requires d.code == CircularReference && d in r.result.diagnostics ==> Witnessed(addon, roots, d)
    ensures AllWitnessed(addon, roots, r)
  {
    hide Witnessed;
  }

  predicate LoadFails(addon: AddOn, st: Builder, a: Attempt) {
    var resolution := addon.resolve(a.source.file, a.reference);
    !resolution.Resolved? || TypeOf(addon, resolution.rel).None? ||
    (addon.lower(resolution.rel) !in st.files && resolution.rel !in addon.files)
  }

  lemma {:induction false} FailedLoad(addon: AddOn, st: Builder, a: Attempt)
    requires Indexed(st) && LoadFails(addon, st, a)
    ensures var c := Classify(addon, a);
            && c.Rejected? && c.code != CircularReference
            && Load(addon, st, a) == Report(addon, st, Rejection(a, c.code, c.evidence))
  {
    hide TypeOf, Report;
  }

  lemma {:induction false} LoadWitnessed(addon: AddOn, roots: seq<Attempt>, st: Builder, stack: seq<string>, a: Attempt)
    requires CaseDistinct(addon) && Sound(addon, st) && AllWitnessed(addon, roots, st)
    requires FromStack(addon, roots, st, stack, a)
    ensures AllWitnessed(addon, roots, Load(addon, st, a))
    decreases Keys(addon) - st.files.Keys, 0, 0, 1
  {
    assert Faithful(addon, st);
    hide Sound, AllWitnessed, FromStack, Faithful, Report, LoadAgain, Append, Classify;
    var resolution := addon.resolve(a.source.file, a.reference);
    if LoadFails(addon, st, a) {
      FailedLoad(addon, st, a);
      var c := Classify(addon, a);
      ReportWitnessed(addon, roots, st, Rejection(a, c.code, c.evidence));
    } else if addon.lower(resolution.rel) in st.files {
      AgainWitnessed(addon, roots, st, stack, resolution.rel, a);
    } else if TypeOf(addon, resolution.rel) != Some(Xml) {
      AppendWitnessed(addon, roots, st, resolution.rel, a);
    } else {
      ExpansionWitnessed(addon, roots, st, stack, resolution.rel, a);
    }
  }

  lemma ReportWitnessed(addon: AddOn, roots: seq<Attempt>, st: Builder, d: Diagnostic)
    requires AllWitnessed(addon, roots, st) && d.code != CircularReference
    ensures AllWitnessed(addon, roots, Report(addon, st, d))
  {
    StillWitnessed(addon, roots, st, Report(addon, st, d), Displayed(addon, d));
  }

  lemma AppendWitnessed(addon: AddOn, roots: seq<Attempt>, st: Builder, rel: string, a: Attempt)
    requires Faithful(addon, st) && AllWitnessed(addon, roots, st)
    requires Leads(addon, a, rel) && addon.lower(rel) !in st.files
    ensures AllWitnessed(addon, roots, Append(addon, st, rel, a))
  {
    StillWitnessed(addon, roots, st, Append(addon, st, rel, a), Rejection(a, MissingFile, NoEvidence));
  }

  /** A circular-reference warning names a file on the stack. */
  lemma AgainWitnessed(addon: AddOn, roots: seq<Attempt>, st: Builder, stack: seq<string>, rel: string, a: Attempt)
    requires CaseDistinct(addon) && Sound(addon, st) && AllWitnessed(addon, roots, st)
    requires FromStack(addon, roots, st, stack, a)
    requires addon.resolve(a.source.file, a.reference) == Resolved(rel) && TypeOf(addon, rel).Some?
    requires addon.lower(rel) in st.files
    ensures AllWitnessed(addon, roots, LoadAgain(addon, st, rel, a))
  {
    hide AllWitnessed, Settled;
    KeyIsPath(addon, st, a, rel);
    var r := LoadAgain(addon, st, rel, a);
    var d := r.result.diagnostics[|st.result.diagnostics|];
    if d.code == CircularReference {
      assert rel in stack;
      assert Leads(addon, a, rel);
      assert Edge(addon, a.source.file, rel);
      assert ClosesChain(addon, roots, d, stack, rel);
    }
    StillWitnessed(addon, roots, st, r, d);
  }

  /** A file whose expansion begins goes on top of the stack. */
  lemma EnterStack(addon: AddOn, roots: seq<Attempt>, st: Builder, stack: seq<string>, rel: string, a: Attempt)
    requires Faithful(addon, st) && FromStack(addon, roots, st, stack, a)
    requires Leads(addon, a, rel) && addon.lower(rel) !in st.files
    ensures OnStack(addon, roots, Append(addon, st, rel, a).(active := st.active + {addon.lower(rel)}), stack + [rel])
  {
    var entered := Append(addon, st, rel, a).(active := st.active + {addon.lower(rel)});
    EnterIsListed(addon, st, rel, a);
    PushOnChain(addon, roots, stack, rel, a);
    hide *;
    StackIsActive(addon, Paths(st), st.active, stack, rel);
    MakeStack(addon, roots, entered, Paths(st) + [rel], stack + [rel]);
  }

  lemma MakeStack(addon: AddOn, roots: seq<Attempt>, st: Builder, listed: seq<string>, stack: seq<string>)
    requires Paths(st) == listed && forall r :: r in stack <==> r in listed && addon.lower(r) in st.active
    requires stack != [] && Chain(addon, stack) && IsRoot(addon, roots, stack[0])
    ensures OnStack(addon, roots, st, stack)
  {
    hide Paths, Chain, IsRoot;
  }

  lemma StackIsActive(addon: AddOn, listed: seq<string>, active: set<string>, stack: seq<string>, rel: string)
    requires forall r :: r in stack <==> r in listed && addon.lower(r) in active
    requires forall r :: r in listed ==> addon.lower(r) != addon.lower(rel)
    ensures forall r :: r in stack + [rel] <==> r in listed + [rel] && addon.lower(r) in active + {addon.lower(rel)}
  {
  }

  lemma EnterIsListed(addon: AddOn, st: Builder, rel: string, a: Attempt)
    requires Faithful(addon, st) && Leads(addon, a, rel) && addon.lower(rel) !in st.files
    ensures Paths(Append(addon, st, rel, a).(active := st.active + {addon.lower(rel)})) == Paths(st) + [rel]
    ensures forall r :: r in Paths(st) ==> addon.lower(r) != addon.lower(rel)
  {
    FaithfulFirst(addon, st, rel, a);
    assert Paths(Append(addon, st, rel, a).(active := st.active + {addon.lower(rel)})) == Paths(st) + [rel];
    hide Append;
    forall r | r in Paths(st) ensures addon.lower(r) != addon.lower(rel) {
      PathsAreIndexed(addon, st, r);
    }
  }

  lemma PushOnChain(addon: AddOn, roots: seq<Attempt>, stack: seq<string>, rel: string, a: Attempt)
    requires Leads(addon, a, rel) && (stack != [] ==> Chain(addon, stack) && IsRoot(addon, roots, stack[0]))
    requires if stack == [] then a in roots else a in AttemptsOf(addon, stack[|stack| - 1])
    ensures Chain(addon, stack + [rel]) && IsRoot(addon, roots, (stack + [rel])[0])
  {
    hide Leads, AttemptsOf;
    if stack == [] {
      assert IsRoot(addon, roots, rel);
    } else {
      assert Edge(addon, stack[|stack| - 1], rel);
      assert Chain(addon, stack + [rel]);
    }
  }

  lemma {:induction false} ExpansionWitnessed(addon: AddOn, roots: seq<Attempt>, st: Builder, stack: seq<string>,
        rel: string, a: Attempt)
    requires CaseDistinct(addon) && Sound(addon, st) && AllWitnessed(addon, roots, st)
    requires FromStack(addon, roots, st, stack, a)
    requires Leads(addon, a, rel) && addon.lower(rel) !in st.files && TypeOf(addon, rel) == Some(Xml)
    ensures AllWitnessed(addon, roots, Load(addon, st, a))
    decreases Keys(addon) - st.files.Keys, 0, 0, 0
  {
    hide Settled, OnStack, FromStack;
    var key := addon.lower(rel);
    var entered := Append(addon, st, rel, a).(active := st.active + {key});
    assert key in Keys(addon) - st.files.Keys;
    EnterAdvances(addon, st, rel, a);
    EnterKeepsDone(addon, st, rel, a);
    AppendWitnessed(addon, roots, st, rel, a);
    EnterStack(addon, roots, st, stack, rel, a);
    ExpandWitnessed(addon, roots, entered, stack + [rel], rel, addon.files[rel]);
  }

  lemma {:induction false} ExpandWitnessed(addon: AddOn, roots: seq<Attempt>, st: Builder, stack: seq<string>,
        file: string, tokens: FileData)
    requires CaseDistinct(addon) && Sound(addon, st) && AllWitnessed(addon, roots, st)
    requires OnStack(addon, roots, st, stack) && stack != [] && file == stack[|stack| - 1]
    requires forall a :: a in AttemptsIn(addon, file, tokens) ==> a in AttemptsOf(addon, file)
    ensures AllWitnessed(addon, roots, ParseXml(addon, st, file, tokens))
    decreases Keys(addon) - st.files.Keys, 1, |tokens|
  {
    assert Indexed(st);
    hide Sound, AllWitnessed, OnStack;
    if tokens == [] {
    } else if tokens[0].SyntaxError? {
      ReportWitnessed(addon, roots, st,
        Diagnostic(Error, XmlParseFailed, file, tokens[0].line, tokens[0].column, NoEvidence));
    } else if ReferenceOf(addon, tokens[0]).None? {
      ExpandWitnessed(addon, roots, st, stack, file, tokens[1..]);
    } else {
      var a := AttemptOf(addon, file, tokens[0]);
      var st' := Load(addon, st, a);
      assert a in AttemptsIn(addon, file, tokens);
      LoadWitnessed(addon, roots, st, stack, a);
      LoadAdvances(addon, st, a);
      AdvancesFacts(addon, st, st');
      StillOnStack(addon, roots, st, stack, a);
      ExpandWitnessed(addon, roots, st', stack, file, tokens[1..]);
    }
  }

  /** A load leaves the stack as it was. */
  lemma {:induction false} StillOnStack(addon: AddOn, roots: seq<Attempt>, st: Builder, stack: seq<string>, a: Attempt)
    requires CaseDistinct(addon) && Sound(addon, st) && OnStack(addon, roots, st, stack)
    ensures OnStack(addon, roots, Load(addon, st, a), stack)
  {
    var r := Load(addon, st, a);
    LoadAdvances(addon, st, a);
    LoadKeepsPaths(addon, st, a);
    assert Faithful(addon, st) && Faithful(addon, r) && r.active == st.active;
    hide Load, Settled, Done, Stored;
    forall rel | rel in Paths(r) && addon.lower(rel) in r.active ensures rel in Paths(st) {
      var i :| 0 <= i < |r.result.files| && Paths(r)[i] == rel;
      var j := st.files[addon.lower(rel)];
      assert st.result.files[j].path == r.result.files[j].path;
      assert addon.lower(st.result.files[j].path) == addon.lower(rel);
      assert r.result.files[i].path == rel;
      assert Paths(st)[j] == st.result.files[j].path;
    }
  }

  // ----- the theorem -----

  /** The state between two TOC lines: nothing is being expanded, and with no
      circular warning so far all that `roots` lead to is over. */
  ghost predicate BetweenLines(addon: AddOn, st: Builder, toc: string, roots: seq<Attempt>) {
    && Sound(addon, st) && AllWitnessed(addon, roots, st) && st.active == {} && st.result.toc == toc
    && (NoCircular(st) ==> forall a, to :: a in roots && Leads(addon, a, to) ==> to in Done(addon, st))
  }

  lemma MoreRoots(addon: AddOn, roots: seq<Attempt>, a: Attempt, st: Builder)
    requires AllWitnessed(addon, roots, st)
    ensures AllWitnessed(addon, roots + [a], st)
  {
    forall d | d in st.result.diagnostics && d.code == CircularReference ensures Witnessed(addon, roots + [a], d) {
      var chain, to :| ClosesChain(addon, roots, d, chain, to);
      var b :| b in roots && Leads(addon, b, chain[0]);
      assert b in roots + [a];
      assert ClosesChain(addon, roots + [a], d, chain, to);
    }
  }

  lemma {:induction false} EntryAdvances(addon: AddOn, st: Builder, toc: string, roots: seq<Attempt>, a: Attempt)
    requires CaseDistinct(addon) && BetweenLines(addon, st, toc, roots)
    ensures BetweenLines(addon, Load(addon, st, a), toc, roots + [a])
  {
    hide Load, Done, Settled;
    LoadAdvances(addon, st, a);
    MoreRoots(addon, roots, a, st);
    assert a in roots + [a];
    LoadWitnessed(addon, roots + [a], st, [], a);
    LoadKeepsHeader(addon, st, a);
  }

  lemma InterfaceAdvances(addon: AddOn, st: Builder, toc: string, roots: seq<Attempt>, value: string)
    requires BetweenLines(addon, st, toc, roots)
    ensures BetweenLines(addon, st.(result := st.result.(interfaceValue := value)), toc, roots)
  {
    assert Paths(st.(result := st.result.(interfaceValue := value))) == Paths(st);
  }

  lemma StartBetweenLines(addon: AddOn, toc: string)
    ensures BetweenLines(addon, Opened(toc), toc, [])
  {
    assert Paths(Opened(toc)) == [];
  }

  lemma {:induction false} LinesAdvance(addon: AddOn, rel: string, lines: seq<string>, n: nat)
    requires CaseDistinct(addon) && n <= |lines|
    ensures BetweenLines(addon, ParseTocLines(addon, Opened(rel), lines, n), rel, Roots(addon, rel, lines, n))
  {
    hide ReadTocLine, Load;
    if n == 0 {
      StartBetweenLines(addon, rel);
    } else {
      LinesAdvance(addon, rel, lines, n - 1);
      var before := ParseTocLines(addon, Opened(rel), lines, n - 1);
      var roots := Roots(addon, rel, lines, n - 1);
      assert before.result.toc == rel;
      hide BetweenLines;
      match ReadTocLine(addon, lines[n - 1], n == 1) {
        case Skipped =>
          assert roots + [] == roots;
        case Interface(value) =>
          assert roots + [] == roots;
          InterfaceAdvances(addon, before, rel, roots, value);
        case Entry(reference) =>
          EntryAdvances(addon, before, rel, roots, Attempt(reference, LoadSource(rel, n, "toc")));
      }
    }
  }

  /** A circular-reference warning appears exactly when some chain of references
      that starts at the TOC runs into a cycle; and each such warning stands at the end
      of a chain of references from the TOC and names a file on that chain. */
  lemma {:induction false} CircularWarningIffCycle(addon: AddOn, toc: string, rel: string, lines: seq<string>,
        truncated: bool)
    requires CaseDistinct(addon) && Reads(addon, toc, rel, lines, truncated)
    ensures var closure := BuildClosure(addon, toc);
            var roots := Roots(addon, rel, lines, |lines|);
            && ((exists d :: d in closure.diagnostics && d.code == CircularReference)
                  <==> exists p :: Cycle(addon, p) && Loaded(addon, roots, p[0]))
            && forall d :: d in closure.diagnostics && d.code == CircularReference ==> Witnessed(addon, roots, d)
  {
    var closure := BuildClosure(addon, toc);
    var roots := Roots(addon, rel, lines, |lines|);
    var st := ParseTocLines(addon, Opened(rel), lines, |lines|);
    LinesAdvance(addon, rel, lines, |lines|);
    FilesAreThePreorder(addon, toc, rel, lines, truncated);
    BuildRunsTheLines(addon, toc, rel, lines, truncated);
    hide BuildClosure, ParseTocLines, Loaded, Settled, Preorder, Reads;
    forall d | d in closure.diagnostics && d.code == CircularReference
      ensures Witnessed(addon, roots, d)
      ensures exists p :: Cycle(addon, p) && Loaded(addon, roots, p[0])
    {
      assert d in st.result.diagnostics;
      var chain, to :| ClosesChain(addon, roots, d, chain, to);
      CycleOf(addon, roots, chain, to);
    }
    if NoCircular(st) {
      forall p | Cycle(addon, p) && Loaded(addon, roots, p[0]) ensures false {
        NoCycleLoaded(addon, roots, p, Done(addon, st));
      }
    } else {
      var d :| d in st.result.diagnostics && d.code == CircularReference;
      assert d in closure.diagnostics;
    }
  }

  lemma NoCycleLoaded(addon: AddOn, roots: seq<Attempt>, p: seq<string>, done: set<string>)
    requires Cycle(addon, p) && Settled(addon, done)
    requires forall a, to :: a in roots && Leads(addon, a, to) ==> to in done
    ensures !Loaded(addon, roots, p[0])
  {
    if Loaded(addon, roots, p[0]) {
      LoadedIsDone(addon, roots, p[0], done);
    }
  }

  lemma CycleOf(addon: AddOn, roots: seq<Attempt>, chain: seq<string>, to: string)
    requires Chain(addon, chain) && IsRoot(addon, roots, chain[0]) && to in chain && Edge(addon, chain[|chain| - 1], to)
    ensures exists p :: Cycle(addon, p) && Loaded(addon, roots, p[0])
  {
    hide Chain, Edge, IsRoot, Leads;
    var k :| 0 <= k < |chain| && chain[k] == to;
    var p := chain[k..] + [to];
    ChainParts(addon, chain, k);
    ChainGrows(addon, chain[k..], to);
    assert Cycle(addon, p);
    RootLoads(addon, roots, chain[..k + 1]);
    assert Loaded(addon, roots, p[0]);
  }

  lemma ChainParts(addon: AddOn, chain: seq<string>, k: nat)
    requires Chain(addon, chain) && k < |chain|
    ensures Chain(addon, chain[k..]) && Chain(addon, chain[..k + 1])
  {
    hide Edge;
    var tail, head := chain[k..], chain[..k + 1];
    forall i | 0 <= i < |tail| - 1 ensures Edge(addon, tail[i], tail[i + 1]) {
      assert Edge(addon, chain[k + i], chain[k + i + 1]);
    }
    forall i | 0 <= i < |head| - 1 ensures Edge(addon, head[i], head[i + 1]) {
      assert Edge(addon, chain[i], chain[i + 1]);
    }
  }

  lemma ChainGrows(addon: AddOn, chain: seq<string>, to: string)
    requires Chain(addon, chain) && Edge(addon, chain[|chain| - 1], to)
    ensures Chain(addon, chain + [to])
  {
    hide Edge;
  }

  lemma RootLoads(addon: AddOn, roots: seq<Attempt>, chain: seq<string>)
    requires Chain(addon, chain) && IsRoot(addon, roots, chain[0])
    ensures Loaded(addon, roots, chain[|chain| - 1])
  {
    hide Edge, Leads;
    assert ChainBetween(addon, chain, chain[0], chain[|chain| - 1]);
    assert Reaches(addon, chain[0], chain[|chain| - 1]);
  }

  lemma LoadedIsDone(addon: AddOn, roots: seq<Attempt>, rel: string, done: set<string>)
    requires Loaded(addon, roots, rel) && Closed(addon, done)
    requires forall a, to :: a in roots && Leads(addon, a, to) ==> to in done
    ensures rel in done
  {
    var a, top :| a in roots && Leads(addon, a, top) && Reaches(addon, top, rel);
    var p :| ChainBetween(addon, p, top, rel);
    ChainStaysInside(addon, p, done, |p| - 1);
  }
}
