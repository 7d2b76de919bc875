/** What a usage of an AddOn comes to, told by the spelling of its kind and by what
    the snapshot finds. */
module CompatVerdicts {
  import opened Prelude
  import opened Ordering
  import opened Text
  import opened CompatSpec
  import opened CompatLookup
  import opened Validate

  // ----- kinds -----

  /** The spellings of a kind, in lower case. */
  predicate Spells(k: string, kind: Kind) {
    match kind
    case Api => k in {"api", "api-candidate", "function"}
    case Event => k == "event"
    case Template => k in {"template", "xml-template"}
    case Mixin => k == "mixin"
    case FrameType => k in {"frame-type", "frametype", "frame"}
    case Interface => k == "interface"
  }

  predicate IsSpelled(snap: Snapshot, u: Usage, kind: Kind) {
    Spells(snap.lower(TrimSpace(u.kind)), kind)
  }

  lemma KindIsSpelled(snap: Snapshot, u: Usage, kind: Kind)
    ensures NormalizeKind(snap, u.kind) == Some(kind) <==> IsSpelled(snap, u, kind)
  {
    hide TrimSpace;
    assert |"api"| == 3 && |"api-candidate"| == 13 && |"function"| == 8 && |"template"| == 8 && |"xml-template"| == 12;
    assert |"event"| == |"mixin"| == |"frame"| == 5 && |"frame-type"| == 10 && |"frametype"| == |"interface"| == 9;
    assert "event"[0] == 'e' && "mixin"[0] == 'm' && "frame"[0] == 'f' && "function"[0] == 'f' && "template"[0] == 't';
    assert "frametype"[0] == 'f' && "interface"[0] == 'i';
  }

  // ----- one usage -----

  /** A usage is left open where it stands, with its expression or else its name. */
  ghost predicate LeftOpen(u: Usage, reason: Reason, verdict: Result<Verdict, string>) {
    && verdict.Ok? && verdict.value.Open?
    && var open := verdict.value.unresolved;
       && open.kind == u.kind && open.file == u.file && open.line == u.line && open.column == u.column
       && open.reason == reason
       && open.expression == (if TrimSpace(u.expression) != "" then TrimSpace(u.expression) else TrimSpace(u.name))
  }

  /** A fact of the usage at its own place, present if and only if there are matches. */
  ghost predicate Settled(u: Usage, kind: Kind, found: Found, verdict: Result<Verdict, string>) {
    && verdict.Ok? && verdict.value.Resolved?
    && var fact := verdict.value.fact;
       && fact.kind == kind && fact.name == TrimSpace(u.name) && (fact.present <==> found.matches != [])
       && fact.evidence.usage == (if u.file == "" then None else Some(Location(u.file, u.line, u.column)))
       && fact.evidence.matchCount == |found.matches| && (fact.evidence.truncated <==> |found.matches| > 5)
       && (fact.evidence.categoryPresent <==> found.matches == [])
  }

  /** A usage with a known kind and a name is decided by what the snapshot finds of
      that kind under that name. */
  lemma VerdictOfNamed(snap: Snapshot, u: Usage, kind: Kind)
    requires IsSpelled(snap, u, kind) && TrimSpace(u.name) != ""
    ensures match snap.find(kind, TrimSpace(u.name))
            case Err(e) => Judge(snap, u) == Err(e)
            case Ok(found) =>
              if found.matches != [] then Settled(u, kind, found, Judge(snap, u))
              else if !found.known || kind.Mixin? || kind.FrameType? then LeftOpen(u, Unproven, Judge(snap, u))
              else if snap.candidate(TrimSpace(u.kind)) then LeftOpen(u, NotAnApi, Judge(snap, u))
              else Settled(u, kind, found, Judge(snap, u))
  {
    KindIsSpelled(snap, u, kind);
    hide NormalizeKind, IsSpelled, TrimSpace, SortMatches;
  }

  /** Any other usage is left open: its kind is unknown, or its name is blank. */
  lemma VerdictOfOthers(snap: Snapshot, u: Usage)
    ensures (forall kind :: !IsSpelled(snap, u, kind)) ==> LeftOpen(u, UnsupportedKind, Judge(snap, u))
    ensures (exists kind :: IsSpelled(snap, u, kind)) && TrimSpace(u.name) == "" ==>
              LeftOpen(u, EmptyReference, Judge(snap, u))
  {
    forall kind ensures NormalizeKind(snap, u.kind) == Some(kind) <==> IsSpelled(snap, u, kind) {
      KindIsSpelled(snap, u, kind);
    }
    hide NormalizeKind, IsSpelled, TrimSpace, SortMatches;
    var k := NormalizeKind(snap, u.kind);
    assert k.Some? ==> IsSpelled(snap, u, k.value);
  }

  /** A refuted usage: it is of a kind whose absence is proof, and the snapshot has
      facts of that kind but none of that name. */
  lemma RefutedBySpelling(snap: Snapshot, u: Usage)
    ensures Refuted(snap, u) <==>
              exists kind :: IsSpelled(snap, u, kind) && !kind.Mixin? && !kind.FrameType? && TrimSpace(u.name) != ""
                && !snap.candidate(TrimSpace(u.kind)) && snap.find(kind, TrimSpace(u.name)) == Ok(Found([], true))
  {
    forall kind ensures NormalizeKind(snap, u.kind) == Some(kind) <==> IsSpelled(snap, u, kind) {
      KindIsSpelled(snap, u, kind);
    }
    hide NormalizeKind, IsSpelled, TrimSpace;
  }

  /** The declared interface, when it is looked up by itself: it stands nowhere, and the
      snapshot either settles it or has no evidence about interfaces. */
  lemma VerdictOfDeclared(snap: Snapshot, value: string)
    requires TrimSpace(value) == value
    ensures match snap.find(Interface, value)
            case Err(e) => JudgeInterface(snap, value) == Err(e)
            case Ok(found) =>
              var u := Usage("interface", value, value, "", 0, 0);
              if found.matches == [] && !found.known then LeftOpen(u, NoInterfaceEvidence, JudgeInterface(snap, value))
              else Settled(u, Interface, found, JudgeInterface(snap, value))
  {
    hide TrimSpace, SortMatches;
  }

  // ----- the order of the evidence -----

  predicate At(m: Match, path: string, line: int) {
    m.path == path && m.line == line
  }

  lemma {:induction false} FilterFirst(m: Match, s: seq<Match>, here: Match -> bool)
    ensures Filter([m] + s, here) == (if here(m) then [m] else []) + Filter(s, here)
  {
    assert ([m] + s)[1..] == s;
  }

  lemma {:induction false} SwapApart(m: Match, x: Match, s: seq<Match>, here: Match -> bool)
    requires !(here(m) && here(x))
    ensures Filter([m] + ([x] + s), here) == Filter([x] + ([m] + s), here)
  {
    FilterFirst(m, [x] + s, here);
    FilterFirst(x, s, here);
    FilterFirst(x, [m] + s, here);
    FilterFirst(m, s, here);
    hide Filter;
  }

  lemma {:induction false} InsertIsStable(m: Match, s: seq<Match>, path: string, line: int)
    ensures var here := (x: Match) => At(x, path, line);
            Filter(Insert(m, s), here) == Filter([m] + s, here)
  {
    hide Filter;
    var here := (x: Match) => At(x, path, line);
    if s != [] && Less(s[0], m) {
      BeforeIsStrict(m.path);
      InsertIsStable(m, s[1..], path, line);
      FilterFirst(s[0], Insert(m, s[1..]), here);
      FilterFirst(s[0], [m] + s[1..], here);
      SwapApart(m, s[0], s[1..], here);
      assert s == [s[0]] + s[1..];
    }
  }

  /** Matches at one place keep their order when matches are sorted. */
  lemma {:induction false} SortIsStable(s: seq<Match>, path: string, line: int)
    ensures var here := (x: Match) => At(x, path, line);
            Filter(SortMatches(s), here) == Filter(s, here)
  {
    var here := (x: Match) => At(x, path, line);
    if s != [] {
      SortIsStable(s[1..], path, line);
      InsertIsStable(s[0], SortMatches(s[1..]), path, line);
      FilterFirst(s[0], SortMatches(s[1..]), here);
      FilterFirst(s[0], s[1..], here);
      assert s == [s[0]] + s[1..];
    }
  }

  /** The evidence is ordered by path, and by line within a path. */
  lemma OrderedByPlace(s: seq<Match>, i: nat, j: nat)
    requires InOrder(s) && i < j < |s|
    ensures Before(s[i].path, s[j].path) || (s[i].path == s[j].path && s[i].line <= s[j].line)
  {
    BeforeIsTotal(s[i].path, s[j].path);
  }

  // ----- what is absent -----

  /** The code under which the absence of a kind is reported. */
  predicate Reports(code: AbsenceCode, kind: Kind) {
    match code
    case ApiNotFound => kind == Api
    case EventNotFound => kind == Event
    case XmlTemplateNotFound => kind == Template
    case TocInterfaceMismatch => kind == Interface
    case CompatibilityReferenceNotFound => kind == Mixin || kind == FrameType
  }

  /** The diagnostic stands where the usage of the fact stands, and has its evidence. */
  predicate ReportsFact(d: Diagnostic, fact: Fact) {
    && d.Absence? && Reports(d.code, fact.kind) && d.evidence == fact.evidence
    && d.location == match fact.evidence.usage case Some(place) => place case None => Location("", 0, 0)
  }

  /** Each absent fact, and no other, is reported under the code of its kind, in order. */
  lemma {:induction false} AbsencesNameTheFacts(facts: seq<Fact>) returns (at: seq<nat>)
    ensures |at| == |Absences(facts)| && (forall i, j :: 0 <= i < j < |at| ==> at[i] < at[j])
    ensures forall k: nat :: k in at <==> k < |facts| && !facts[k].present
    ensures forall i :: 0 <= i < |at| ==> at[i] < |facts| && ReportsFact(Absences(facts)[i], facts[at[i]])
  {
    at := FilterPicks(facts, IsAbsent);
  }
}
