/** The validation of an AddOn (internal/validator/validate.go) against a snapshot
    (internal/app/validation.go): the verdict and the coverage counts. */
module Validate {
  import opened Prelude
  import opened Text
  import ClosureSpec
  import opened CompatSpec
  import opened CompatLookup

  /** A Lua file that does not parse, the only diagnostic of the analysis. */
  datatype ParseFailure = ParseFailure(file: string, line: int)

  /** What the analysis of the loaded files gives. */
  datatype Analysis = Analysis(usages: seq<Usage>, unresolved: seq<Unresolved>, failures: seq<ParseFailure>)

  datatype AbsenceCode =
    ApiNotFound | EventNotFound | XmlTemplateNotFound | TocInterfaceMismatch | CompatibilityReferenceNotFound

  /** What the closure, the analysis and the lookup report. */
  datatype Diagnostic =
    | Loading(found: ClosureSpec.Diagnostic)
    | Parsing(failure: ParseFailure)
    | Absence(code: AbsenceCode, location: Location, evidence: Evidence)

  predicate IsError(d: Diagnostic) {
    d.Loading? ==> d.found.severity == ClosureSpec.Error
  }

  datatype Coverage = Coverage(checked: nat, resolved: nat, unresolved: nat)

  datatype Validation = Validation(
    valid: bool, checkedLua: nat, checkedXml: nat, diagnostics: seq<Diagnostic>, facts: seq<Fact>,
    unresolved: seq<Unresolved>, coverage: Coverage)

  function OfType(files: seq<ClosureSpec.LoadFile>, fileType: ClosureSpec.FileType): seq<ClosureSpec.LoadFile> {
    Filter(files, (f: ClosureSpec.LoadFile) => f.fileType == fileType)
  }

  predicate NoErrors(diagnostics: seq<Diagnostic>) {
    forall d :: d in diagnostics ==> !IsError(d)
  }

  method HasErrors(diagnostics: seq<Diagnostic>) returns (r: bool)
    ensures !r <==> NoErrors(diagnostics)
  {
    var i := 0;
    while i < |diagnostics|
      invariant 0 <= i <= |diagnostics|
      invariant forall j :: 0 <= j < i ==> !IsError(diagnostics[j])
    {
      if IsError(diagnostics[i]) {
        return true;
      }
      i := i + 1;
    }
    return false;
  }

  lemma CountOne(files: seq<ClosureSpec.LoadFile>, f: ClosureSpec.LoadFile, fileType: ClosureSpec.FileType)
    ensures |OfType(files + [f], fileType)| == |OfType(files, fileType)| + if f.fileType == fileType then 1 else 0
  {
    var matches := (f: ClosureSpec.LoadFile) => f.fileType == fileType;
    FilterConcat(files, [f], matches);
    assert Filter([f], matches) == (if matches(f) then [f] else []) + Filter([], matches) by { assert [f][1..] == []; }
  }

  lemma NoFiles()
    ensures OfType([], ClosureSpec.Lua) == [] && OfType([], ClosureSpec.Xml) == []
  {
  }

  method CountTypes(files: seq<ClosureSpec.LoadFile>) returns (lua: nat, xml: nat)
    ensures lua == |OfType(files, ClosureSpec.Lua)| && xml == |OfType(files, ClosureSpec.Xml)|
    ensures lua + xml == |files|
  {
    hide OfType;
    lua, xml := 0, 0;
    var i := 0;
    assert OfType([], ClosureSpec.Lua) == [] && OfType([], ClosureSpec.Xml) == [] by { NoFiles(); }
    while i < |files|
      invariant 0 <= i <= |files| && lua + xml == i
      invariant lua == |OfType(files[..i], ClosureSpec.Lua)| && xml == |OfType(files[..i], ClosureSpec.Xml)|
    {
      assert files[..i + 1] == files[..i] + [files[i]];
      CountOne(files[..i], files[i], ClosureSpec.Lua);
      CountOne(files[..i], files[i], ClosureSpec.Xml);
      if files[i].fileType == ClosureSpec.Lua {
        lua := lua + 1;
      }
      if files[i].fileType == ClosureSpec.Xml {
        xml := xml + 1;
      }
      i := i + 1;
    }
    assert files[..i] == files;
  }

  // ----- the evidence of a snapshot -----

  /** `compatibilityMissing` */
  function AbsenceCodeOf(kind: Kind): AbsenceCode {
    match kind
    case Api => ApiNotFound
    case Event => EventNotFound
    case Template => XmlTemplateNotFound
    case Interface => TocInterfaceMismatch
    case _ => CompatibilityReferenceNotFound
  }

  function AbsenceOf(fact: Fact): Diagnostic {
    var usage := fact.evidence.usage;
    Absence(AbsenceCodeOf(fact.kind), if usage.Some? then usage.value else Location("", 0, 0), fact.evidence)
  }

  predicate IsAbsent(fact: Fact) {
    !fact.present
  }

  /** One diagnostic for each fact that the snapshot has not, in order. */
  function Absences(facts: seq<Fact>): seq<Diagnostic> {
    Map(Filter(facts, IsAbsent), AbsenceOf)
  }

  lemma AbsencesOfOneMore(facts: seq<Fact>, fact: Fact)
    ensures Absences(facts + [fact]) == Absences(facts) + if fact.present then [] else [AbsenceOf(fact)]
  {
    FilterConcat(facts, [fact], IsAbsent);
    assert Filter([fact], IsAbsent) == (if IsAbsent(fact) then [fact] else []) + Filter([], IsAbsent) by {
      assert [fact][1..] == [];
    }
  }

  /** `snapshotEvidence.Lookup`, the lookup that validations are given. */
  method LookupEvidence(snap: Snapshot, usages: seq<Usage>, interfaceValue: string)
      returns (r: Result<(Report, seq<Diagnostic>), string>)
    ensures var report := LookupAll(snap, usages, interfaceValue);
            r == if report.Err? then Err(report.error) else Ok((report.value, Absences(report.value.facts)))
  {
    hide LookupAll, Absences;
    var report := LookupCompatibility(snap, usages, interfaceValue);
    if report.Err? {
      return Err(report.error);
    }
    var facts := report.value.facts;
    var diagnostics: seq<Diagnostic> := [];
    var i := 0;
    assert Absences(facts[..0]) == [] by { NoAbsences(facts); }
    while i < |facts|
      invariant 0 <= i <= |facts|
      invariant diagnostics == Absences(facts[..i])
    {
      AbsencesOfOneMore(facts[..i], facts[i]);
      assert facts[..i + 1] == facts[..i] + [facts[i]];
      if !facts[i].present {
        diagnostics := diagnostics + [AbsenceOf(facts[i])];
      }
      i := i + 1;
    }
    assert facts[..i] == facts;
    r := Ok((report.value, diagnostics));
  }

  lemma NoAbsences(facts: seq<Fact>)
    ensures Absences(facts[..0]) == []
  {
  }

  // ----- the validation -----

  /** What the snapshot adds to the analysis; nothing if there is no snapshot. */
  function EvidenceFor(evidence: Option<Snapshot>, usages: seq<Usage>, interfaceValue: string): Result<Report, string> {
    match evidence
    case None => Ok(Report([], []))
    case Some(snap) => LookupAll(snap, usages, interfaceValue)
  }

  function DiagnosticsOf(closure: ClosureSpec.Closure, analysis: Analysis, report: Report): seq<Diagnostic> {
    Map(closure.diagnostics, (d: ClosureSpec.Diagnostic) => Loading(d))
    + Map(analysis.failures, (f: ParseFailure) => Parsing(f)) + Absences(report.facts)
  }

  ghost predicate ValidationOf(closure: ClosureSpec.Closure, analysis: Analysis, evidence: Option<Snapshot>,
        report: Report, v: Validation) {
    && v.diagnostics == DiagnosticsOf(closure, analysis, report)
    && (v.valid <==> NoErrors(v.diagnostics))
    && v.checkedLua == |OfType(closure.files, ClosureSpec.Lua)|
    && v.checkedXml == |OfType(closure.files, ClosureSpec.Xml)|
    && v.facts == report.facts && v.unresolved == analysis.unresolved + report.unresolved
    && v.coverage.resolved == |v.facts| && v.coverage.unresolved == |v.unresolved|
    && v.coverage.checked == |analysis.usages| + if closure.interfaceValue != "" && evidence.Some? then 1 else 0
  }

  method Validate(closure: ClosureSpec.Closure, analysis: Analysis, evidence: Option<Snapshot>)
      returns (r: Result<Validation, string>)
    ensures var report := EvidenceFor(evidence, analysis.usages, closure.interfaceValue);
            && (r.Err? <==> report.Err?) && (r.Err? ==> r.error == report.error)
            && (r.Ok? ==> ValidationOf(closure, analysis, evidence, report.value, r.value))
  {
    hide LookupAll, Absences, OfType, IsError;
    var unresolved, facts := analysis.unresolved, [];
    var diagnostics := Map(closure.diagnostics, (d: ClosureSpec.Diagnostic) => Loading(d))
                       + Map(analysis.failures, (f: ParseFailure) => Parsing(f));
    assert Absences([]) == [] by { NoAbsences([]); }
    if evidence.Some? {
      var found := LookupEvidence(evidence.value, analysis.usages, closure.interfaceValue);
      if found.Err? {
        return Err(found.error);
      }
      facts := facts + found.value.0.facts;
      unresolved := unresolved + found.value.0.unresolved;
      diagnostics := diagnostics + found.value.1;
    }
    var lua, xml := CountTypes(closure.files);
    var errors := HasErrors(diagnostics);
    var checked := |analysis.usages|;
    if closure.interfaceValue != "" && evidence.Some? {
      checked := checked + 1;
    }
    r := Ok(Validation(!errors, lua, xml, diagnostics, facts, unresolved, Coverage(checked, |facts|, |unresolved|)));
  }

  // ----- the verdict -----

  /** Nothing was wrong with the files themselves. */
  predicate FilesAreFine(closure: ClosureSpec.Closure, analysis: Analysis) {
    && (forall d :: d in closure.diagnostics ==> d.severity != ClosureSpec.Error)
    && analysis.failures == []
  }

  predicate AllPresent(facts: seq<Fact>) {
    forall f :: f in facts ==> f.present
  }

  lemma NoErrorsConcat(a: seq<Diagnostic>, b: seq<Diagnostic>)
    ensures NoErrors(a + b) <==> NoErrors(a) && NoErrors(b)
  {
    hide IsError;
    if NoErrors(a + b) {
      forall d | d in a || d in b ensures !IsError(d) {
        assert d in a + b;
      }
    }
  }

  lemma NoLoadingErrors(found: seq<ClosureSpec.Diagnostic>)
    ensures NoErrors(Map(found, (d: ClosureSpec.Diagnostic) => Loading(d))) <==>
            forall d :: d in found ==> d.severity != ClosureSpec.Error
  {
    var all := Map(found, (d: ClosureSpec.Diagnostic) => Loading(d));
    forall i | 0 <= i < |found| ensures all[i] in all && !IsError(all[i]) <==> found[i].severity != ClosureSpec.Error {
      assert all[i] == Loading(found[i]);
    }
    if NoErrors(all) {
      forall d | d in found ensures d.severity != ClosureSpec.Error {
        var i :| 0 <= i < |found| && found[i] == d;
        assert all[i] in all;
      }
    }
  }

  /** Absence is an error, whatever the kind of the fact. */
  lemma AbsenceIsError(facts: seq<Fact>)
    ensures NoErrors(Absences(facts)) <==> AllPresent(facts)
  {
    var absent := Filter(facts, IsAbsent);
    if absent != [] {
      assert absent[0] in absent;
      assert absent[0] in facts && !absent[0].present;
      assert Absences(facts)[0] in Absences(facts) && IsError(AbsenceOf(absent[0]));
    } else {
      assert Absences(facts) == [];
      forall f | f in facts ensures f.present {
        assert f in absent <==> IsAbsent(f);
      }
    }
  }

  lemma ErrorsOf(closure: ClosureSpec.Closure, analysis: Analysis, report: Report)
    ensures NoErrors(DiagnosticsOf(closure, analysis, report)) <==>
            FilesAreFine(closure, analysis) && AllPresent(report.facts)
  {
    var loaded := Map(closure.diagnostics, (d: ClosureSpec.Diagnostic) => Loading(d));
    var parsed := Map(analysis.failures, (f: ParseFailure) => Parsing(f));
    NoLoadingErrors(closure.diagnostics);
    AbsenceIsError(report.facts);
    assert NoErrors(parsed) <==> analysis.failures == [] by {
      assert parsed != [] ==> parsed[0] in parsed && IsError(parsed[0]);
    }
    hide NoErrors, Absences;
    NoErrorsConcat(loaded, parsed);
    NoErrorsConcat(loaded + parsed, Absences(report.facts));
  }

  /** The snapshot refutes a usage: it has facts of that kind, and none of that name. */
  predicate Refuted(snap: Snapshot, u: Usage) {
    var kind, name := NormalizeKind(snap, u.kind), TrimSpace(u.name);
    && kind in {Some(Api), Some(Event), Some(Template), Some(Interface)} && name != ""
    && !snap.candidate(TrimSpace(u.kind)) && snap.find(kind.value, name) == Ok(Found([], true))
  }

  lemma RefutedIsAbsent(snap: Snapshot, u: Usage)
    requires Judge(snap, u).Ok?
    ensures Refuted(snap, u) <==> Judge(snap, u).value.Resolved? && !Judge(snap, u).value.fact.present
  {
    hide NormalizeKind, TrimSpace, SortMatches;
  }

  predicate InterfaceRefuted(snap: Snapshot, usages: seq<Usage>, interfaceValue: string) {
    InterfaceAdded(snap, usages, interfaceValue)
    && snap.find(Interface, TrimSpace(interfaceValue)) == Ok(Found([], true))
  }

  /** What the verdict of a validation means: nothing is wrong with the files, and the
      snapshot refutes neither a usage nor the declared interface. */
  lemma VerdictIsExact(closure: ClosureSpec.Closure, analysis: Analysis, snap: Snapshot, v: Validation)
    requires var report := LookupAll(snap, analysis.usages, closure.interfaceValue);
             report.Ok? && ValidationOf(closure, analysis, Some(snap), report.value, v)
    ensures v.valid <==>
            && FilesAreFine(closure, analysis)
            && (forall u :: u in analysis.usages ==> !Refuted(snap, u))
            && !InterfaceRefuted(snap, analysis.usages, closure.interfaceValue)
  {
    var report := LookupAll(snap, analysis.usages, closure.interfaceValue).value;
    ErrorsOf(closure, analysis, report);
    FactsArePresent(snap, analysis.usages, closure.interfaceValue);
    hide LookupAll, DiagnosticsOf, IsError, OfType, FilesAreFine, Refuted, InterfaceRefuted;
  }

  lemma PresentOneMore(facts: seq<Fact>, fact: Fact)
    ensures AllPresent(facts + [fact]) <==> AllPresent(facts) && fact.present
  {
    assert (facts + [fact])[|facts|] == fact;
    forall f | f in facts ensures f in facts + [fact] {
    }
  }

  lemma {:induction false} ReportedFacts(snap: Snapshot, usages: seq<Usage>, n: nat)
    requires n <= |usages| && ReportOf(snap, usages, n).Ok?
    ensures AllPresent(ReportOf(snap, usages, n).value.facts) <==> forall i :: 0 <= i < n ==> !Refuted(snap, usages[i])
  {
    hide Judge, Refuted, AllPresent;
    if n == 0 {
      NothingReported(snap, usages);
      NothingAbsent();
    } else {
      ReportedFacts(snap, usages, n - 1);
      RefutedIsAbsent(snap, usages[n - 1]);
      AddedIsPresent(ReportOf(snap, usages, n - 1).value, Judge(snap, usages[n - 1]).value);
    }
  }

  lemma NothingAbsent()
    ensures AllPresent([])
  {
  }

  lemma AddedIsPresent(r: Report, v: Verdict)
    ensures AllPresent(Add(r, v).facts) <==> AllPresent(r.facts) && !(v.Resolved? && !v.fact.present)
  {
    if v.Resolved? {
      PresentOneMore(r.facts, v.fact);
    }
    hide AllPresent;
  }

  lemma FactsArePresent(snap: Snapshot, usages: seq<Usage>, interfaceValue: string)
    requires LookupAll(snap, usages, interfaceValue).Ok?
    ensures AllPresent(LookupAll(snap, usages, interfaceValue).value.facts) <==>
            (forall u :: u in usages ==> !Refuted(snap, u)) && !InterfaceRefuted(snap, usages, interfaceValue)
  {
    hide JudgeInterface, Refuted, ReportOf, InterfaceAdded, AllPresent, TrimSpace;
    ReportedFacts(snap, usages, |usages|);
    if InterfaceAdded(snap, usages, interfaceValue) {
      InterfaceIsPresent(snap, interfaceValue);
      AddedIsPresent(ReportOf(snap, usages, |usages|).value, JudgeInterface(snap, TrimSpace(interfaceValue)).value);
    }
  }

  lemma InterfaceIsPresent(snap: Snapshot, interfaceValue: string)
    requires JudgeInterface(snap, TrimSpace(interfaceValue)).Ok?
    ensures var verdict := JudgeInterface(snap, TrimSpace(interfaceValue)).value;
            verdict.Resolved? && !verdict.fact.present <==>
            snap.find(Interface, TrimSpace(interfaceValue)) == Ok(Found([], true))
  {
    TrimSpaceTwice(interfaceValue);
    hide TrimSpace, SortMatches;
  }

  // ----- each usage is answered once -----

  function Resolveds(verdicts: seq<Verdict>): seq<Fact> {
    if verdicts == [] then []
    else
      Resolveds(verdicts[..|verdicts| - 1])
      + match verdicts[|verdicts| - 1] { case Resolved(f) => [f] case Open(_) => [] }
  }

  function Opens(verdicts: seq<Verdict>): seq<Unresolved> {
    if verdicts == [] then []
    else
      Opens(verdicts[..|verdicts| - 1])
      + match verdicts[|verdicts| - 1] { case Resolved(_) => [] case Open(u) => [u] }
  }

  lemma {:induction false} VerdictsSplit(verdicts: seq<Verdict>)
    ensures |Resolveds(verdicts)| + |Opens(verdicts)| == |verdicts|
  {
    if verdicts != [] {
      VerdictsSplit(verdicts[..|verdicts| - 1]);
    }
  }

  /** Each usage has one verdict, which is a fact or an unresolved item; both lists
      are in the order of the usages. */
  ghost predicate AnsweredInOrder(snap: Snapshot, usages: seq<Usage>, verdicts: seq<Verdict>, r: Report) {
    && |verdicts| == |usages| && (forall i :: 0 <= i < |usages| ==> Judge(snap, usages[i]) == Ok(verdicts[i]))
    && r == Report(Resolveds(verdicts), Opens(verdicts))
  }

  lemma {:induction false} OneMoreAnswered(snap: Snapshot, usages: seq<Usage>, verdicts: seq<Verdict>)
    requires usages != [] && ReportOf(snap, usages, |usages|).Ok?
    requires ReportOf(snap, usages, |usages| - 1).Ok?
    requires AnsweredInOrder(snap, usages[..|usages| - 1], verdicts, ReportOf(snap, usages, |usages| - 1).value)
    ensures Judge(snap, usages[|usages| - 1]).Ok?
    ensures AnsweredInOrder(snap, usages, verdicts + [Judge(snap, usages[|usages| - 1]).value],
        ReportOf(snap, usages, |usages|).value)
  {
    hide Judge;
    var n := |usages| - 1;
    var v := Judge(snap, usages[n]).value;
    assert (verdicts + [v])[..n] == verdicts;
    forall i | 0 <= i < n ensures Judge(snap, usages[i]) == Ok(verdicts[i]) {
      assert usages[..n][i] == usages[i];
    }
  }

  lemma {:induction false} UsagesAreAnsweredOnce(snap: Snapshot, usages: seq<Usage>) returns (verdicts: seq<Verdict>)
    requires ReportOf(snap, usages, |usages|).Ok?
    ensures AnsweredInOrder(snap, usages, verdicts, ReportOf(snap, usages, |usages|).value)
  {
    hide Judge;
    if usages == [] {
      verdicts := [];
    } else {
      hide AnsweredInOrder;
      var n := |usages| - 1;
      ReportOfPrefix(snap, usages, n, n);
      assert usages[..n][..n] == usages[..n];
      verdicts := UsagesAreAnsweredOnce(snap, usages[..n]);
      OneMoreAnswered(snap, usages, verdicts);
      verdicts := verdicts + [Judge(snap, usages[n]).value];
    }
  }

  lemma {:induction false} ReportOfPrefix(snap: Snapshot, usages: seq<Usage>, n: nat, k: nat)
    requires n <= k <= |usages|
    ensures ReportOf(snap, usages[..k], n) == ReportOf(snap, usages, n)
  {
    hide Judge;
    if n > 0 {
      ReportOfPrefix(snap, usages, n - 1, k);
    }
  }

  /** The answers are as many as the usages, and one more for a declared interface
      that no usage names. */
  lemma AnswersAreCounted(snap: Snapshot, usages: seq<Usage>, interfaceValue: string)
    requires LookupAll(snap, usages, interfaceValue).Ok?
    ensures var r := LookupAll(snap, usages, interfaceValue).value;
            |r.facts| + |r.unresolved| == |usages| + if InterfaceAdded(snap, usages, interfaceValue) then 1 else 0
  {
    hide JudgeInterface, ReportOf, InterfaceAdded;
    var verdicts := UsagesAreAnsweredOnce(snap, usages);
    VerdictsSplit(verdicts);
  }

  // ----- coverage -----

  /** When the counts are those of the usages: with a snapshot, unless a declared
      interface is blank or named by a usage; without one, only if there is nothing
      to check. */
  predicate CoverageFits(closure: ClosureSpec.Closure, analysis: Analysis, evidence: Option<Snapshot>) {
    match evidence
    case None => analysis.usages == []
    case Some(snap) =>
      closure.interfaceValue != "" ==>
        TrimSpace(closure.interfaceValue) != "" && !InterfaceSeen(snap, analysis.usages, closure.interfaceValue)
  }

  /** Resolved and unresolved together are the checked usages and what the analysis
      itself left unresolved, exactly if the coverage fits. */
  lemma CoverageIsBalanced(closure: ClosureSpec.Closure, analysis: Analysis, evidence: Option<Snapshot>, v: Validation)
    requires var report := EvidenceFor(evidence, analysis.usages, closure.interfaceValue);
             report.Ok? && ValidationOf(closure, analysis, evidence, report.value, v)
    ensures v.coverage.resolved + v.coverage.unresolved == v.coverage.checked + |analysis.unresolved|
            <==> CoverageFits(closure, analysis, evidence)
  {
    if evidence.Some? {
      AnswersAreCounted(evidence.value, analysis.usages, closure.interfaceValue);
    }
    assert TrimSpace("") == "";
    hide LookupAll, InterfaceSeen, TrimSpace, OfType;
  }

  /** The kinds of the usages that `Analyze` finds. */
  const ANALYZED_KINDS := {"api", "api-candidate", "event", "frame-type", "template", "mixin"}

  lemma AnalyzedIsNoInterface(snap: Snapshot, kind: string)
    requires kind in ANALYZED_KINDS && snap.lower(kind) == kind
    ensures NormalizeKind(snap, kind) != Some(Interface)
  {
    assert kind[0] != 'i' && !IsSpace(kind[0]) && !IsSpace(kind[|kind| - 1]);
    assert TrimSpace(kind) == kind;
    assert "interface"[0] == 'i';
  }

  /** The analysis never takes a reference for an interface declaration, and the
      declaration is trimmed when it is read; then the counts always fit. */
  lemma CoverageOfAnalysis(closure: ClosureSpec.Closure, analysis: Analysis, snap: Snapshot)
    requires forall k :: k in ANALYZED_KINDS ==> snap.lower(k) == k
    requires forall u :: u in analysis.usages ==> u.kind in ANALYZED_KINDS
    requires TrimSpace(closure.interfaceValue) == closure.interfaceValue
    ensures CoverageFits(closure, analysis, Some(snap))
  {
    forall u | u in analysis.usages ensures NormalizeKind(snap, u.kind) != Some(Interface) {
      AnalyzedIsNoInterface(snap, u.kind);
    }
    hide NormalizeKind, TrimSpace;
  }

  /** A usage that names the declared interface is counted twice and answered once. */
  lemma NamedInterfaceIsCountedTwice(closure: ClosureSpec.Closure, snap: Snapshot, v: Validation)
    requires closure.interfaceValue == "110200" && snap.lower("interface") == "interface"
    requires var report := LookupAll(snap, [InterfaceUsage("110200")], "110200");
             report.Ok? && ValidationOf(closure, Analysis([InterfaceUsage("110200")], [], []), Some(snap), report.value,
                 v)
    ensures v.coverage.checked == 2 && v.coverage.resolved + v.coverage.unresolved == 1
  {
    var u := InterfaceUsage("110200");
    InterfaceIsNormal(snap);
    assert InterfaceSeen(snap, [u], "110200") by {
      hide NormalizeKind, TrimSpace;
      assert u in [u] && NamesInterface(snap, u, "110200");
    }
    hide LookupAll, DiagnosticsOf, OfType, NormalizeKind, TrimSpace, InterfaceSeen;
    AnswersAreCounted(snap, [u], "110200");
  }

  lemma InterfaceIsNormal(snap: Snapshot)
    requires snap.lower("interface") == "interface"
    ensures NormalizeKind(snap, "interface") == Some(Interface)
  {
    assert "interface"[0] == 'i' && "interface"[|"interface"| - 1] == 'e';
    assert TrimSpace("interface") == "interface";
    assert "api"[0] == "api-candidate"[0] == 'a' && "function"[0] == 'f' && "event"[0] == 'e';
    assert "template"[0] == 't' && "xml-template"[0] == 'x' && "mixin"[0] == 'm';
    assert "frame-type"[0] == "frametype"[0] == "frame"[0] == 'f';
  }

  /** Without a snapshot the usages are counted as checked and not as unresolved. */
  lemma UncheckedIsCounted(closure: ClosureSpec.Closure, u: Usage, v: Validation)
    requires ValidationOf(closure, Analysis([u], [], []), None, Report([], []), v)
    ensures v.coverage == Coverage(1, 0, 0)
  {
  }
}
