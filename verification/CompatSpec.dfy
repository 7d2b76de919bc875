/** Compatibility lookups against one snapshot (internal/query/compat.go), as
    functions: what each usage of an AddOn comes to, without any cache. */
module CompatSpec {
  import opened Prelude
  import opened Ordering
  import opened Text

  datatype Kind = Api | Event | Template | Mixin | FrameType | Interface

  datatype Usage = Usage(kind: string, name: string, expression: string, file: string, line: int, column: int)

  datatype Match = Match(path: string, line: int, role: string, signature: string, detail: string)

  datatype Found = Found(matches: seq<Match>, known: bool)

  /** A snapshot does not change: `find` gives the matches of a name among the facts
      of its files, and whether it has any fact of the kind.  `lower` and `candidate`
      are the case rules: `candidate` holds of the spellings of "api-candidate". */
  datatype Snapshot = Snapshot(find: (Kind, string) -> Result<Found, string>, lower: string -> string,
      candidate: string -> bool)

  datatype Location = Location(file: string, line: int, column: int)

  datatype Evidence = Evidence(usage: Option<Location>, matchCount: nat, truncated: bool, matches: seq<Match>,
      categoryPresent: bool)

  datatype Fact = Fact(kind: Kind, name: string, present: bool, signature: string, evidence: Evidence)

  datatype Reason = UnsupportedKind | EmptyReference | NotAnApi | Unproven | NoInterfaceEvidence

  datatype Unresolved = Unresolved(kind: string, expression: string, file: string, line: int, column: int,
      reason: Reason)

  function NormalizeKind(snap: Snapshot, kind: string): Option<Kind> {
    var k := snap.lower(TrimSpace(kind));
    if k == "api" || k == "api-candidate" || k == "function" then Some(Api)
    else if k == "event" then Some(Event)
    else if k == "template" || k == "xml-template" then Some(Template)
    else if k == "mixin" then Some(Mixin)
    else if k == "frame-type" || k == "frametype" || k == "frame" then Some(FrameType)
    else if k == "interface" then Some(Interface)
    else None
  }

  function UnresolvedUsage(u: Usage, reason: Reason): Unresolved {
    var expression := TrimSpace(u.expression);
    Unresolved(u.kind, if expression == "" then TrimSpace(u.name) else expression, u.file, u.line, u.column, reason)
  }

  // ----- the evidence of the first matches -----

  const EVIDENCE_LIMIT := 5

  predicate Less(a: Match, b: Match) {
    if a.path != b.path then Before(a.path, b.path) else a.line < b.line
  }

  function Insert(m: Match, s: seq<Match>): (r: seq<Match>)
    ensures |r| == |s| + 1
  {
    if s == [] || !Less(s[0], m) then [m] + s else [s[0]] + Insert(m, s[1..])
  }

  /** `sort.SliceStable` by path and line. */
  function SortMatches(s: seq<Match>): (r: seq<Match>)
    ensures |r| == |s|
  {
    if s == [] then [] else Insert(s[0], SortMatches(s[1..]))
  }

  function Limit(n: nat): nat {
    if n < EVIDENCE_LIMIT then n else EVIDENCE_LIMIT
  }

  /** The matches once their first few have been sorted where they are. */
  function Settle(m: seq<Match>): (r: seq<Match>)
    ensures |r| == |m|
  {
    SortMatches(m[..Limit(|m|)]) + m[Limit(|m|)..]
  }

  // ----- one usage -----

  function LocationOf(u: Usage): Option<Location> {
    if u.file == "" then None else Some(Location(u.file, u.line, u.column))
  }

  function FactOf(u: Usage, kind: Kind, name: string, settled: seq<Match>): Fact {
    Fact(kind, name, settled != [], if settled == [] then "" else settled[0].signature,
         Evidence(LocationOf(u), |settled|, |settled| > EVIDENCE_LIMIT, settled[..Limit(|settled|)], settled == []))
  }

  /** Absence proves nothing of a kind the snapshot has no facts of, nor of a mixin
      or a frame type, which an AddOn may define itself. */
  predicate Silent(found: Found, kind: Kind) {
    found.matches == [] && (!found.known || kind == Mixin || kind == FrameType)
  }

  /** A lookup that asks the snapshot every time. */
  function LookupFact(snap: Snapshot, u: Usage, kind: Kind): Result<Option<Fact>, string> {
    match snap.find(kind, TrimSpace(u.name))
    case Err(e) => Err(e)
    case Ok(found) =>
      if Silent(found, kind) then Ok(None)
      else Ok(Some(FactOf(u, kind, TrimSpace(u.name), Settle(found.matches))))
  }

  datatype Verdict = Resolved(fact: Fact) | Open(unresolved: Unresolved)

  function Judge(snap: Snapshot, u: Usage): Result<Verdict, string> {
    var kind := NormalizeKind(snap, u.kind);
    if kind.None? then Ok(Open(UnresolvedUsage(u, UnsupportedKind)))
    else if TrimSpace(u.name) == "" then Ok(Open(UnresolvedUsage(u, EmptyReference)))
    else
      match LookupFact(snap, u, kind.value)
      case Err(e) => Err(e)
      case Ok(None) => Ok(Open(UnresolvedUsage(u, Unproven)))
      case Ok(Some(fact)) =>
        if snap.candidate(TrimSpace(u.kind)) && !fact.present then Ok(Open(UnresolvedUsage(u, NotAnApi)))
        else Ok(Resolved(fact))
  }

  // ----- all usages -----

  datatype Report = Report(facts: seq<Fact>, unresolved: seq<Unresolved>)

  function Add(r: Report, v: Verdict): Report {
    match v
    case Resolved(fact) => r.(facts := r.facts + [fact])
    case Open(unresolved) => r.(unresolved := r.unresolved + [unresolved])
  }

  function ReportOf(snap: Snapshot, usages: seq<Usage>, n: nat): Result<Report, string>
    requires n <= |usages|
  {
    if n == 0 then Ok(Report([], []))
    else
      match ReportOf(snap, usages, n - 1)
      case Err(e) => Err(e)
      case Ok(r) =>
        match Judge(snap, usages[n - 1])
        case Err(e) => Err(e)
        case Ok(v) => Ok(Add(r, v))
  }

  /** The usage is the AddOn's own declaration of its interface. */
  predicate NamesInterface(snap: Snapshot, u: Usage, interfaceValue: string) {
    NormalizeKind(snap, u.kind) == Some(Interface) && TrimSpace(u.name) == TrimSpace(interfaceValue)
  }

  predicate InterfaceSeen(snap: Snapshot, usages: seq<Usage>, interfaceValue: string) {
    exists u :: u in usages && NamesInterface(snap, u, interfaceValue)
  }

  /** Whether the declared interface is looked up by itself, after the usages. */
  predicate InterfaceAdded(snap: Snapshot, usages: seq<Usage>, interfaceValue: string) {
    TrimSpace(interfaceValue) != "" && !InterfaceSeen(snap, usages, interfaceValue)
  }

  function InterfaceUsage(value: string): Usage {
    Usage("interface", value, value, "", 0, 0)
  }

  function JudgeInterface(snap: Snapshot, value: string): Result<Verdict, string> {
    match LookupFact(snap, InterfaceUsage(value), Interface)
    case Err(e) => Err(e)
    case Ok(None) => Ok(Open(UnresolvedUsage(InterfaceUsage(value), NoInterfaceEvidence)))
    case Ok(Some(fact)) => Ok(Resolved(fact))
  }

  function LookupAll(snap: Snapshot, usages: seq<Usage>, interfaceValue: string): Result<Report, string> {
    match ReportOf(snap, usages, |usages|)
    case Err(e) => Err(e)
    case Ok(r) =>
      if !InterfaceAdded(snap, usages, interfaceValue) then Ok(r)
      else
        match JudgeInterface(snap, TrimSpace(interfaceValue))
        case Err(e) => Err(e)
        case Ok(v) => Ok(Add(r, v))
  }
}
