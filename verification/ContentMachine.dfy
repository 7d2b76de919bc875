/** Builds of several products over one shared content store, interleaved in any
    way: entries are looked up and parsed at any time, the two transactions of a
    publish are separate steps under one lock, and a build may stop after any
    step. */
module ContentMachine {
  import opened Prelude
  import opened Text
  import opened ContentSpec
  import opened IndexEntry
  import opened ContentFacts

  /** `done` are the entries whose results have been collected, in that order;
      `merged` is set between the two transactions. */
  datatype Build = Build(
    product: nat, snapshot: string, entries: seq<Entry>, done: seq<Entry>, results: seq<Indexed>,
    merged: Option<map<string, nat>>)

  /** The entries each ready snapshot was built from. */
  type Shown = map<(nat, string), seq<Entry>>

  datatype Sys = Sys(content: Content, branches: map<nat, Branch>, builds: map<nat, Build>, holder: Option<nat>,
      shown: Shown)

  const INITIAL := Sys(EMPTY_CONTENT, map[], map[], None, map[])

  datatype Action =
    | Start(build: nat, product: nat, snapshot: string, entries: seq<Entry>)
    | Process(build: nat, entry: Entry, oidObject: bool, hashObject: bool)
    | MergeContent(build: nat)
    | PublishSnapshot(build: nat, objects: map<string, string>)
    | Stop(build: nat)

  function BranchOf(s: Sys, product: nat): Branch {
    if product in s.branches then s.branches[product] else EMPTY_BRANCH
  }

  predicate DistinctEntries(entries: seq<Entry>) {
    forall i, j :: 0 <= i < j < |entries| ==> entries[i].path != entries[j].path
  }

  predicate AllDone(b: Build) {
    forall e :: e in b.entries ==> e in b.done
  }

  /** Entry paths are distinct; a Git id names its bytes; an object that is read
      back by hash has that hash (the reader checks it). */
  predicate Enabled(ix: Indexer, stored: set<string>, s: Sys, a: Action) {
    match a
    case Start(b, _, _, entries) =>
      && b !in s.builds && DistinctEntries(entries)
      && forall e :: e in entries ==> e.data in stored && (e.oid != "" ==> ix.blob(e.oid) == e.data)
    case Process(b, e, _, _) =>
      b in s.builds && s.builds[b].merged.None? && e in s.builds[b].entries && e !in s.builds[b].done
    case MergeContent(b) => s.holder.None? && b in s.builds && s.builds[b].merged.None? && AllDone(s.builds[b])
    case PublishSnapshot(b, objects) =>
      && s.holder == Some(b) && b in s.builds && s.builds[b].merged.Some?
      && forall h :: h in objects ==> objects[h] in stored && ix.hash(objects[h]) == h
    case Stop(b) => b in s.builds
  }

  /** What a worker makes of an entry, given what the store knows by now and
      whether the objects of the contents it finds still exist. */
  function Outcome(ix: Indexer, c: Content, e: Entry, oidObject: bool, hashObject: bool): Indexed {
    var language := LanguageOf(ix, e.path);
    var byOid := if e.oid != "" then LookupOid(c, e.oid, language) else 0;
    var byHash := LookupHash(c, ix.hash(e.data), language);
    if byOid > 0 && oidObject then ReusedEntry(ix, e, c.contents[byOid - 1])
    else if byHash > 0 && hashObject then ReusedEntry(ix, e, c.contents[byHash - 1])
    else ParseEntry(ix, e)
  }

  function Step(ix: Indexer, stored: set<string>, s: Sys, a: Action): Sys
    requires Enabled(ix, stored, s, a)
  {
    match a
    case Start(b, product, snapshot, entries) =>
      s.(builds := s.builds[b := Build(product, snapshot, entries, [], [], None)])
    case Process(b, e, oidObject, hashObject) =>
      var build := s.builds[b];
      var result := Outcome(ix, s.content, e, oidObject, hashObject);
      s.(builds := s.builds[b := build.(done := build.done + [e], results := build.results + [result])])
    case MergeContent(b) => MergeStep(s, b)
    case PublishSnapshot(b, objects) => PublishStep(s, b, objects)
    case Stop(b) => s.(builds := s.builds - {b}, holder := if s.holder == Some(b) then None else s.holder)
  }

  /** The content transaction, taken under the shared lock. */
  function MergeStep(s: Sys, b: nat): Sys
    requires b in s.builds
  {
    var build := s.builds[b];
    var (c, ids) := PublishContent(s.content, Collect(build.results));
    s.(content := c, builds := s.builds[b := build.(merged := Some(ids))], holder := Some(b))
  }

  /** The branch transaction; the lock is released whether it commits or not. */
  function PublishStep(s: Sys, b: nat, objects: map<string, string>): Sys
    requires b in s.builds && s.builds[b].merged.Some?
  {
    var build := s.builds[b];
    var ended := s.(builds := s.builds - {b}, holder := None);
    match PublishBranch(BranchOf(s, build.product), s.content, build.snapshot, Collect(build.results).files,
                        build.merged.value, objects)
    case Err(_) => ended
    case Ok(branch) =>
      ended.(branches := s.branches[build.product := branch],
             shown := s.shown[(build.product, build.snapshot) := build.entries])
  }

  // ----- the shared tables -----

  /** The row was made for these bytes and has all their facts, each once. */
  ghost predicate RowIs(ix: Indexer, c: Content, id: nat, data: string)
    requires 0 < id <= |c.contents|
  {
    var row := c.contents[id - 1];
    && row == ContentRow(ix.hash(data), row.language, AstFor(ix, row.language, data), |data|)
    && ItemsIn(c.strings, c.facts, id) == FreshItems(ix, row.language, data)
  }

  ghost predicate RowGood(ix: Indexer, stored: set<string>, c: Content, id: nat)
    requires 0 < id <= |c.contents|
  {
    exists data :: data in stored && RowIs(ix, c, id, data)
  }

  ghost predicate ContentGood(ix: Indexer, stored: set<string>, c: Content) {
    && UniqueKeys(c.contents) && AllBound(Tables(c.strings, c.facts)) && AliasesMatch(c.contents, c.aliases, ix)
    && (forall i :: 0 <= i < |c.facts| ==> 0 < c.facts[i].content <= |c.contents|)
    && forall id :: 0 < id <= |c.contents| ==> RowGood(ix, stored, c, id)
  }

  // ----- the builds -----

  function KeyOf(ix: Indexer, c: Content, e: Entry): nat {
    FindContent(c.contents, ix.hash(e.data), LanguageOf(ix, e.path))
  }

  /** A result is the parsed entry, or it brings no facts and its content is there. */
  ghost predicate ResultGood(ix: Indexer, c: Content, e: Entry, r: Indexed) {
    && r.file == ParseEntry(ix, e).file.(astHash := r.file.astHash, size := r.file.size)
    && (r == ParseEntry(ix, e) || (r.items == NO_ITEMS && KeyOf(ix, c, e) > 0))
  }

  ghost predicate MergedGood(ix: Indexer, c: Content, b: Build) {
    b.merged.Some? ==>
      && AllDone(b)
      && (forall e :: e in b.entries ==> e.path in b.merged.value && b.merged.value[e.path] == KeyOf(ix, c, e) > 0)
      && forall p :: p in b.merged.value ==> exists e :: e in b.entries && e.path == p
  }

  ghost predicate BuildGood(ix: Indexer, stored: set<string>, c: Content, b: Build) {
    && DistinctEntries(b.entries)
    && (forall e :: e in b.entries ==> e.data in stored && (e.oid != "" ==> ix.blob(e.oid) == e.data))
    && |b.done| == |b.results| && DistinctEntries(b.done)
    && (forall e :: e in b.done ==> e in b.entries)
    && (forall i :: 0 <= i < |b.done| ==> ResultGood(ix, c, b.done[i], b.results[i]))
    && MergedGood(ix, c, b)
  }

  // ----- the branches -----

  /** The file of an entry is placed with the content of its bytes and its role. */
  ghost predicate PlacedGood(ix: Indexer, c: Content, b: Branch, snapshot: string, e: Entry) {
    var place := Placed(snapshot, e.path);
    && place in b.files && b.files[place] == Member(KeyOf(ix, c, e), RoleOf(ix, e.path))
    && KeyOf(ix, c, e) > 0 && KeyOf(ix, c, e) in b.contents
  }

  ghost predicate SnapshotGood(ix: Indexer, stored: set<string>, c: Content, b: Branch, snapshot: string,
        entries: seq<Entry>) {
    && DistinctEntries(entries)
    && (forall e :: e in entries ==> e.data in stored && PlacedGood(ix, c, b, snapshot, e))
    && forall p :: p in b.files && p.snapshot == snapshot ==> exists e :: e in entries && e.path == p.path
  }

  /** The text a search document is indexed under: a document of kind "source"
      under the text of its file, any other under its own. */
  ghost predicate TextIs(ix: Indexer, stored: set<string>, c: Content, d: nat, text: string)
    requires 0 < d <= |c.facts| && c.facts[d - 1].body.Doc?
  {
    var row := c.facts[d - 1];
    if NeedsObject(row) then
      exists data :: data in stored && ix.hash(data) == HashOf(c, row.content) && text == TrimSpace(data)
    else text == row.body.text
  }

  ghost predicate TextGood(ix: Indexer, stored: set<string>, c: Content, b: Branch) {
    && (forall id :: id in b.contents ==> 0 < id <= |c.contents|)
    && b.fullText.Keys == DocsOf(c, b.contents)
    && forall d :: d in b.fullText ==>
         0 < d <= |c.facts| && c.facts[d - 1].body.Doc? && TextIs(ix, stored, c, d, b.fullText[d])
  }

  ghost predicate BranchGood(ix: Indexer, stored: set<string>, c: Content, b: Branch, product: nat, shown: Shown) {
    && (forall snapshot :: snapshot in b.ready <==> (product, snapshot) in shown)
    && (forall snapshot :: snapshot in b.ready ==> SnapshotGood(ix, stored, c, b, snapshot, shown[(product, snapshot)]))
    && TextGood(ix, stored, c, b)
  }

  ghost predicate Good(ix: Indexer, stored: set<string>, s: Sys) {
    && ContentGood(ix, stored, s.content)
    && (forall b :: b in s.builds ==> BuildGood(ix, stored, s.content, s.builds[b]))
    && (forall p :: BranchGood(ix, stored, s.content, BranchOf(s, p), p, s.shown))
    && (forall b :: b in s.builds && s.builds[b].merged.Some? ==> s.holder == Some(b))
  }
}
