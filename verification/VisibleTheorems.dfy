/** What a ready snapshot shows, fact by fact and with nothing of the store's own. */
module VisibleTheorems {
  import opened Prelude
  import opened Text
  import opened ContentSpec
  import opened IndexEntry
  import opened ContentFacts
  import opened ContentMachine
  import opened ContentTheorems

  /** A parser puts facts of the right kind into each of its tables. */
  predicate TablesFit(p: Parsed) {
    && (forall i :: i in p.symbols ==> i.body.Symbol?) && (forall i :: i in p.edges ==> i.body.Edge?)
    && (forall i :: i in p.xml ==> i.body.Xml?) && (forall i :: i in p.toc ==> i.body.Toc?)
    && (forall i :: i in p.assetRefs ==> i.body.AssetRef?)
  }

  /** The stored facts of a parsed file: the tables of the parser one after the other,
      with the search documents before the asset references; a document has its name in
      its text, and the document of the whole file has no text. */
  ghost predicate LaidOut(p: Parsed, search: seq<Item>, all: seq<Item>) {
    var facts := p.symbols + p.edges + p.xml + p.toc;
    && |all| == |facts| + |search| + |p.assetRefs|
    && all[..|facts|] == facts && all[|facts| + |search|..] == p.assetRefs
    && forall k :: 0 <= k < |search| && search[k].body.Doc? ==>
         var d := search[k].body;
         all[|facts| + k] == Item(search[k].requiredRole,
                                  Doc(d.name, d.docKind,
                                      if d.docKind == "source" then "" else TrimSpace(d.name + " " + d.text), d.line))
  }

  /** All facts of a file with these bytes. */
  ghost predicate AllFacts(ix: Indexer, language: Language, data: string, all: seq<Item>) {
    if language !in {LuaFile, XmlFile, TocFile} || ix.parse(language, data).None? then all == []
    else
      var p := ix.parse(language, data).value;
      exists search :: SearchList(p, language, data, search) && LaidOut(p, search, all)
  }

  predicate ParserFits(ix: Indexer, language: Language, data: string) {
    ix.parse(language, data).Some? ==> TablesFit(ix.parse(language, data).value)
  }

  lemma NoDocsStoredAlike(items: seq<Item>)
    requires forall i :: i in items ==> !i.body.Doc?
    ensures Map(items, StoredItem) == items
  {
    forall k | 0 <= k < |items| ensures StoredItem(items[k]) == items[k] {
      assert items[k] in items;
    }
  }

  lemma FreshIsAllFacts(ix: Indexer, language: Language, data: string)
    requires ParserFits(ix, language, data)
    ensures AllFacts(ix, language, data, FreshItems(ix, language, data))
  {
    if language in {LuaFile, XmlFile, TocFile} && ix.parse(language, data).Some? {
      var p := ix.parse(language, data).value;
      var search := DocumentsOf(p, language, data);
      DocumentsAreListed(p, language, data);
      StoredIsLaidOut(p, search);
      assert FreshItems(ix, language, data)
          == Map(p.symbols + p.edges + p.xml + p.toc + search + p.assetRefs, StoredItem);
    }
  }

  lemma StoredIsLaidOut(p: Parsed, search: seq<Item>)
    requires TablesFit(p)
    ensures LaidOut(p, search, Map(p.symbols + p.edges + p.xml + p.toc + search + p.assetRefs, StoredItem))
  {
    var facts := p.symbols + p.edges + p.xml + p.toc;
    NoDocsStoredAlike(facts);
    NoDocsStoredAlike(p.assetRefs);
    MapConcat(facts, search, StoredItem);
    MapConcat(facts + search, p.assetRefs, StoredItem);
  }

  /** The shown facts are the stored ones whose role is open or the file's, in order. */
  ghost predicate ShowsByRole(all: seq<Item>, shown: seq<Item>, role: string, at: seq<nat>) {
    && Picks(all, shown, at)
    && (forall k: nat :: k in at <==> k < |all| && (all[k].requiredRole == "" || all[k].requiredRole == role))
    && forall i :: i in shown <==> i in all && (i.requiredRole == "" || i.requiredRole == role)
  }

  lemma ExpectedByRole(ix: Indexer, path: string, data: string) returns (all: seq<Item>, at: seq<nat>)
    requires ParserFits(ix, LanguageOf(ix, path), data)
    ensures AllFacts(ix, LanguageOf(ix, path), data, all)
    ensures ShowsByRole(all, Expected(ix, path, data), RoleOf(ix, path), at)
  {
    hide FreshItems, RoleOf, LanguageOf, AllFacts;
    FreshIsAllFacts(ix, LanguageOf(ix, path), data);
    all := FreshItems(ix, LanguageOf(ix, path), data);
    var allows := (i: Item) => RoleAllows(i.requiredRole, RoleOf(ix, path));
    at := FilterPicks(all, allows);
  }

  /** After any run, a file of a ready snapshot shows exactly those facts of its bytes
      that ask for no role or for the role of the file, in their order. */
  lemma SnapshotShowsByRole(ix: Indexer, stored: set<string>, run: seq<Action>, product: nat, snapshot: string,
        e: Entry)
      returns (all: seq<Item>, at: seq<nat>)
    requires Separates(ix, stored) && Legal(ix, stored, INITIAL, run)
    requires var s := After(ix, stored, INITIAL, run);
             (product, snapshot) in s.shown && e in s.shown[(product, snapshot)]
    requires ParserFits(ix, LanguageOf(ix, e.path), e.data)
    ensures AllFacts(ix, LanguageOf(ix, e.path), e.data, all)
    ensures var s := After(ix, stored, INITIAL, run);
            ShowsByRole(all, Visible(BranchOf(s, product), s.content, snapshot, e.path), RoleOf(ix, e.path), at)
  {
    SnapshotsShowFreshParses(ix, stored, run, product, snapshot);
    hide After, Legal, Separates, BranchOf, Visible, Expected, AllFacts, ShowsByRole, RoleOf, LanguageOf;
    all, at := ExpectedByRole(ix, e.path, e.data);
  }

  /** A query with any condition finds an item in a file of a ready snapshot exactly if
      the item meets the condition, is among the facts of the file's bytes, and asks for
      no role or for the role of the file. */
  lemma QueriesFindByRole(ix: Indexer, stored: set<string>, run: seq<Action>, product: nat, snapshot: string,
        query: Item -> bool, e: Entry, item: Item)
      returns (all: seq<Item>)
    requires Separates(ix, stored) && Legal(ix, stored, INITIAL, run)
    requires var s := After(ix, stored, INITIAL, run);
             (product, snapshot) in s.shown && e in s.shown[(product, snapshot)]
    requires ParserFits(ix, LanguageOf(ix, e.path), e.data)
    ensures AllFacts(ix, LanguageOf(ix, e.path), e.data, all)
    ensures var s := After(ix, stored, INITIAL, run);
            Hit(BranchOf(s, product), s.content, snapshot, query, e.path, item) <==>
              query(item) && item in all && (item.requiredRole == "" || item.requiredRole == RoleOf(ix, e.path))
  {
    hide After, Legal, Separates, BranchOf, Visible, AllFacts, RoleOf, LanguageOf, Picks;
    var at;
    all, at := SnapshotShowsByRole(ix, stored, run, product, snapshot, e);
  }
}
