/** The verdict of a validation in terms of freshly parsed files: the lookups of
    `CompatLookup` asked of the tables of `ContentMachine`. */
module VerdictTheorems {
  import opened Prelude
  import opened Text
  import opened ContentSpec
  import opened IndexEntry
  import opened ContentMachine
  import opened ContentTheorems
  import C = CompatSpec
  import ClosureSpec
  import L = Like
  import opened Validate

  // ----- which facts a lookup asks for -----

  /** The facts of a kind. */
  predicate OfKind(kind: C.Kind, body: Body<string>) {
    match kind
    case Api => body.Symbol? && body.symbolKind in {"api-function", "api-scriptobject"}
    case Event => body.Symbol? && body.symbolKind == "api-event"
    case Mixin => body.Symbol? && body.symbolKind == "mixin"
    case Template => body.Xml? && body.name != ""
    case FrameType => body.Xml?
    case Interface => body.Toc? && L.StartsWith(body.key, "interface")
  }

  /** The facts of a kind and a name: an API or an event by either of its names. */
  predicate Named(kind: C.Kind, name: string, body: Body<string>) {
    OfKind(kind, body) &&
    match kind
    case Mixin => body.qualified == name
    case Template => body.name == name
    case FrameType => body.xmlKind == name
    case Interface => body.value == name
    case _ => body.qualified == name || body.name == name
  }

  /** The parts of a text between commas. */
  function SplitCommas(s: string): (parts: seq<string>)
    ensures |parts| > 0
  {
    if s == "" then [""]
    else
      var rest := SplitCommas(s[1..]);
      if s[0] == ',' then [""] + rest else [[s[0]] + rest[0]] + rest[1..]
  }

  /** `interfaceValueMatches` */
  predicate Covers(name: string, build: string) {
    exists part :: part in SplitCommas(name) && TrimSpace(part) == build
  }

  /** `parts` with a comma between each two. */
  function JoinCommas(parts: seq<string>): string {
    if parts == [] then []
    else if |parts| == 1 then parts[0]
    else parts[0] + [','] + JoinCommas(parts[1..])
  }

  /** The parts hold no comma, and together they are the text again. */
  lemma {:induction false} PartsJoinAgain(s: string)
    ensures JoinCommas(SplitCommas(s)) == s && forall part :: part in SplitCommas(s) ==> ',' !in part
  {
    if s != "" {
      var rest := SplitCommas(s[1..]);
      PartsJoinAgain(s[1..]);
      var parts := SplitCommas(s);
      if s[0] == ',' {
        assert parts[1..] == rest;
      } else {
        assert parts[1..] == rest[1..];
      }
    }
  }

  /** Which lookups a fact answers: an API, an event or a mixin by its symbol, a template
      or a frame type by its element, and an interface by its TOC line. */
  lemma LookupsOfFact(kind: C.Kind, name: string, body: Body<string>)
    ensures Named(kind, name, body) <==>
              match body
              case Symbol(own, qualified, _, symbolKind, _, _) =>
                if symbolKind == "mixin" then kind == C.Mixin && qualified == name
                else if symbolKind == "api-event" then kind == C.Event && (own == name || qualified == name)
                else kind == C.Api && symbolKind in {"api-function", "api-scriptobject"}
                     && (own == name || qualified == name)
              case Xml(own, element, _, _) =>
                (kind == C.Template && own == name != "") || (kind == C.FrameType && element == name)
              case Toc(key, value, _) => kind == C.Interface && L.OccursAt(key, "interface", 0) && value == name
              case _ => false
  {
    assert "mixin"[0] == 'm' && "api-event"[4] == 'e' && "api-function"[4] == 'f' && "api-scriptobject"[4] == 's';
    if body.Toc? {
      L.StartsWithIsOccurs(body.key, "interface", 0);
      assert body.key[0..] == body.key;
    }
  }

  // ----- asking the stored snapshot -----

  /** What `compatibilityMatches` finds in a snapshot: facts of its files, under the
      roles of the files; a declared interface may also match the build of the
      snapshot (`build` is blank if it is not known or not a game's). */
  ghost predicate Answers(snap: C.Snapshot, b: Branch, c: Content, snapshot: string, build: string) {
    forall kind, name :: snap.find(kind, name).Ok?
        ==> Answer(snap.find(kind, name).value, b, c, snapshot, build, kind, name)
  }

  ghost predicate Answer(found: C.Found, b: Branch, c: Content, snapshot: string, build: string, kind: C.Kind,
        name: string) {
    && (found.known <==>
          (exists path, item :: item in Visible(b, c, snapshot, path) && OfKind(kind, item.body))
          || (kind.Interface? && build != ""))
    && (found.matches != [] <==>
          (exists path, item :: item in Visible(b, c, snapshot, path) && Named(kind, name, item.body))
          || (kind.Interface? && build != "" && Covers(name, build)))
  }

  // ----- asking freshly parsed files -----

  ghost predicate FreshFact(ix: Indexer, entries: seq<Entry>, path: string, item: Item) {
    exists e :: e in entries && e.path == path && item in Expected(ix, path, e.data)
  }

  ghost predicate FreshlyKnown(ix: Indexer, entries: seq<Entry>, build: string, kind: C.Kind) {
    (exists path, item :: FreshFact(ix, entries, path, item) && OfKind(kind, item.body))
        || (kind.Interface? && build != "")
  }

  ghost predicate FreshlyNamed(ix: Indexer, entries: seq<Entry>, build: string, kind: C.Kind, name: string) {
    || (exists path, item :: FreshFact(ix, entries, path, item) && Named(kind, name, item.body))
    || (kind.Interface? && build != "" && Covers(name, build))
  }

  /** Parsing the files of the snapshot gives facts of the kind, and none of the name. */
  ghost predicate FreshlyAbsent(ix: Indexer, entries: seq<Entry>, build: string, kind: C.Kind, name: string) {
    FreshlyKnown(ix, entries, build, kind) && !FreshlyNamed(ix, entries, build, kind, name)
  }

  lemma VisibleIsFresh(ix: Indexer, c: Content, b: Branch, snapshot: string, entries: seq<Entry>, path: string,
        item: Item)
    requires ShowsFresh(ix, c, b, snapshot, entries)
    ensures item in Visible(b, c, snapshot, path) <==> FreshFact(ix, entries, path, item)
  {
    hide Expected, ItemsOf;
    if Placed(snapshot, path) in b.files {
      hide Visible;
      var e :| e in entries && e.path == path;
    } else {
      assert Visible(b, c, snapshot, path) == [];
    }
  }

  lemma AbsentIsFresh(ix: Indexer, c: Content, b: Branch, snapshot: string, entries: seq<Entry>, build: string,
        found: C.Found, kind: C.Kind, name: string)
    requires ShowsFresh(ix, c, b, snapshot, entries) && Answer(found, b, c, snapshot, build, kind, name)
    ensures found == C.Found([], true) <==> FreshlyAbsent(ix, entries, build, kind, name)
  {
    hide ShowsFresh, Visible, FreshFact, OfKind, Named, Covers;
    forall path, item ensures item in Visible(b, c, snapshot, path) <==> FreshFact(ix, entries, path, item) {
      VisibleIsFresh(ix, c, b, snapshot, entries, path, item);
    }
  }

  /** The snapshot's files refute a usage: it is of a kind whose absence is proof,
      parsing the files gives facts of that kind, and none of that name. */
  ghost predicate FreshlyRefuted(ix: Indexer, entries: seq<Entry>, build: string, snap: C.Snapshot, u: C.Usage) {
    var kind, name := C.NormalizeKind(snap, u.kind), TrimSpace(u.name);
    && kind.Some? && !kind.value.Mixin? && !kind.value.FrameType? && name != "" && !snap.candidate(TrimSpace(u.kind))
    && FreshlyAbsent(ix, entries, build, kind.value, name)
  }

  lemma RefutedIsFresh(ix: Indexer, c: Content, b: Branch, snapshot: string, entries: seq<Entry>, build: string,
        snap: C.Snapshot, u: C.Usage)
    requires ShowsFresh(ix, c, b, snapshot, entries) && Answers(snap, b, c, snapshot, build)
    requires C.Judge(snap, u).Ok?
    ensures Refuted(snap, u) <==> FreshlyRefuted(ix, entries, build, snap, u)
  {
    var kind, name := C.NormalizeKind(snap, u.kind), TrimSpace(u.name);
    hide C.NormalizeKind, TrimSpace, ShowsFresh, Answer, FreshlyAbsent, C.FactOf, C.Settle;
    if kind.Some? && name != "" {
      AbsentIsFresh(ix, c, b, snapshot, entries, build, snap.find(kind.value, name).value, kind.value, name);
    }
  }

  /** A usage that was judged without an error was looked up without one. */
  lemma {:induction false} AllAreJudged(snap: C.Snapshot, usages: seq<C.Usage>, n: nat)
    requires n <= |usages| && C.ReportOf(snap, usages, n).Ok?
    ensures forall i :: 0 <= i < n ==> C.Judge(snap, usages[i]).Ok?
  {
    hide C.Judge;
    if n > 0 {
      AllAreJudged(snap, usages, n - 1);
    }
  }

  ghost predicate InterfaceFreshlyRefuted(ix: Indexer, entries: seq<Entry>, build: string, snap: C.Snapshot,
        usages: seq<C.Usage>, interfaceValue: string) {
    && C.InterfaceAdded(snap, usages, interfaceValue)
    && FreshlyAbsent(ix, entries, build, C.Interface, TrimSpace(interfaceValue))
  }

  lemma InterfaceIsFresh(ix: Indexer, c: Content, b: Branch, snapshot: string, entries: seq<Entry>, build: string,
        snap: C.Snapshot, usages: seq<C.Usage>, interfaceValue: string)
    requires ShowsFresh(ix, c, b, snapshot, entries) && Answers(snap, b, c, snapshot, build)
    requires C.LookupAll(snap, usages, interfaceValue).Ok?
    ensures InterfaceRefuted(snap, usages, interfaceValue)
            <==> InterfaceFreshlyRefuted(ix, entries, build, snap, usages, interfaceValue)
  {
    var name := TrimSpace(interfaceValue);
    TrimSpaceTwice(interfaceValue);
    hide TrimSpace, ShowsFresh, Answer, FreshlyAbsent, C.InterfaceAdded, C.ReportOf, C.FactOf, C.Settle;
    if C.InterfaceAdded(snap, usages, interfaceValue) {
      assert C.JudgeInterface(snap, name).Ok?;
      AbsentIsFresh(ix, c, b, snapshot, entries, build, snap.find(C.Interface, name).value, C.Interface, name);
    }
  }

  /** After any run of builds, an AddOn that is checked against a ready snapshot is
      valid exactly if nothing is wrong with its own files and freshly parsing the
      snapshot's files refutes none of its usages, nor the interface it declares. */
  lemma {:induction false} VerdictIsOfFreshParses(ix: Indexer, stored: set<string>, run: seq<Action>, product: nat,
        snapshot: string, build: string, snap: C.Snapshot, closure: ClosureSpec.Closure, analysis: Analysis,
        v: Validation)
    requires Separates(ix, stored) && Legal(ix, stored, INITIAL, run)
    requires var s := After(ix, stored, INITIAL, run);
             && snapshot in BranchOf(s, product).ready
             && Answers(snap, BranchOf(s, product), s.content, snapshot, build)
    requires var report := C.LookupAll(snap, analysis.usages, closure.interfaceValue);
             report.Ok? && ValidationOf(closure, analysis, Some(snap), report.value, v)
    ensures var s := After(ix, stored, INITIAL, run);
            && (product, snapshot) in s.shown
            && var entries := s.shown[(product, snapshot)];
            v.valid <==>
              && FilesAreFine(closure, analysis)
              && (forall u :: u in analysis.usages ==> !FreshlyRefuted(ix, entries, build, snap, u))
              && !InterfaceFreshlyRefuted(ix, entries, build, snap, analysis.usages, closure.interfaceValue)
  {
    SnapshotsShowFreshParses(ix, stored, run, product, snapshot);
    var s := After(ix, stored, INITIAL, run);
    var b, entries := BranchOf(s, product), s.shown[(product, snapshot)];
    VerdictIsExact(closure, analysis, snap, v);
    assert C.ReportOf(snap, analysis.usages, |analysis.usages|).Ok?;
    AllAreJudged(snap, analysis.usages, |analysis.usages|);
    InterfaceIsFresh(ix, s.content, b, snapshot, entries, build, snap, analysis.usages, closure.interfaceValue);
    hide *;
    forall u | u in analysis.usages ensures Refuted(snap, u) <==> FreshlyRefuted(ix, entries, build, snap, u) {
      RefutedIsFresh(ix, s.content, b, snapshot, entries, build, snap, u);
    }
  }
}
