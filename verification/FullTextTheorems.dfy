/** The full text of a branch: which documents it has, and under which text. */
module FullTextTheorems {
  import opened Prelude
  import opened Text
  import opened ContentSpec
  import opened IndexEntry
  import opened ContentFacts
  import opened ContentMachine
  import opened ContentSteps
  import opened ContentTheorems

  /** The text a document was made for. */
  function OriginalText(body: Body<string>): string
    requires body.Doc?
  {
    TrimSpace(body.name + " " + body.text)
  }

  // ----- which documents -----

  lemma SnapshotCovered(ix: Indexer, stored: set<string>, c: Content, b: Branch, entries: seq<Entry>, p: Placed)
    requires SnapshotGood(ix, stored, c, b, p.snapshot, entries) && p in b.files
    ensures b.files[p].content in b.contents
  {
    hide KeyOf, RoleOf, DistinctEntries;
    var e :| e in entries && e.path == p.path;
    assert PlacedGood(ix, c, b, p.snapshot, e) && p == Placed(p.snapshot, e.path);
  }

  /** A branch has covered the content of every file of every ready snapshot, and its
      full text has exactly the search documents of the contents it covered. */
  lemma {:induction false} FullTextIsExact(ix: Indexer, stored: set<string>, run: seq<Action>, product: nat)
    requires Legal(ix, stored, INITIAL, run)
    ensures var s := After(ix, stored, INITIAL, run);
            var b := BranchOf(s, product);
            && b.fullText.Keys == DocsOf(s.content, b.contents)
            && forall p: Placed :: p in b.files && p.snapshot in b.ready ==> b.files[p].content in b.contents
  {
    ReachableIsGood(ix, stored, run);
    var s := After(ix, stored, INITIAL, run);
    var b := BranchOf(s, product);
    assert BranchGood(ix, stored, s.content, b, product, s.shown);
    hide After, Legal, Good, SnapshotGood, BranchOf, TextIs;
    forall p: Placed | p in b.files && p.snapshot in b.ready ensures b.files[p].content in b.contents {
      SnapshotCovered(ix, stored, s.content, b, s.shown[(product, p.snapshot)], p);
    }
  }

  // ----- under which text -----

  lemma {:induction false} ItemsGrow(strings: seq<string>, facts: seq<Row>, i: nat, id: nat)
    requires i <= |facts|
    ensures ItemsIn(strings, facts[..i], id) <= ItemsIn(strings, facts, id)
    decreases |facts|
  {
    if i < |facts| {
      var init := facts[..|facts| - 1];
      ItemsGrow(strings, init, i, id);
      assert init[..i] == facts[..i];
    } else {
      assert facts[..i] == facts;
    }
  }

  /** Each row is one of the items of its content. */
  lemma RowIsItem(strings: seq<string>, facts: seq<Row>, i: nat) returns (k: nat)
    requires i < |facts|
    ensures k < |ItemsIn(strings, facts, facts[i].content)|
    ensures ItemsIn(strings, facts, facts[i].content)[k] == Read(strings, facts[i])
  {
    var id := facts[i].content;
    k := |ItemsIn(strings, facts[..i], id)|;
    ItemsGrow(strings, facts, i + 1, id);
    assert facts[..i + 1][..i] == facts[..i];
  }

  /** Each item of a content is read off one of its rows. */
  lemma {:induction false} ItemIsRow(strings: seq<string>, facts: seq<Row>, id: nat, k: nat) returns (i: nat)
    requires k < |ItemsIn(strings, facts, id)|
    ensures i < |facts| && facts[i].content == id && Read(strings, facts[i]) == ItemsIn(strings, facts, id)[k]
  {
    hide Read;
    var n := |facts| - 1;
    if k < |ItemsIn(strings, facts[..n], id)| {
      i := ItemIsRow(strings, facts[..n], id, k);
    } else {
      i := n;
    }
  }

  /** The text a document is indexed under: its file's, if it is marked "source". */
  function IndexedText(body: Body<string>, data: string): string
    requires body.Doc?
  {
    if body.docKind == "source" then TrimSpace(data) else OriginalText(body)
  }

  function ItemsFrom(ix: Indexer, language: Language, data: string): seq<Item> {
    AllItems(ItemsFor(ix, language, data))
  }

  /** The row of document `d` was made for the k-th item found by parsing `data`. */
  ghost predicate MadeFor(ix: Indexer, stored: set<string>, c: Content, d: nat, data: string, k: nat) {
    && 0 < d <= |c.facts| && 0 < c.facts[d - 1].content <= |c.contents|
    && var row := c.contents[c.facts[d - 1].content - 1];
    var items := ItemsFrom(ix, row.language, data);
    && data in stored && ix.hash(data) == row.contentHash && k < |items| && items[k].body.Doc?
    && Read(c.strings, c.facts[d - 1]) == StoredItem(items[k])
  }

  function ItemMade(ix: Indexer, c: Content, d: nat, data: string, k: nat): Item
    requires 0 < d <= |c.facts| && 0 < c.facts[d - 1].content <= |c.contents|
    requires k < |ItemsFrom(ix, c.contents[c.facts[d - 1].content - 1].language, data)|
  {
    ItemsFrom(ix, c.contents[c.facts[d - 1].content - 1].language, data)[k]
  }

  lemma StoredDocument(strings: seq<string>, row: Row, item: Item)
    requires item.body.Doc? && Read(strings, row) == StoredItem(item)
    ensures row.body.Doc? && row.body.docKind == item.body.docKind
    ensures row.body.text == if item.body.docKind == "source" then "" else OriginalText(item.body)
  {
  }

  lemma MadeForDocument(strings: seq<string>, row: Row, item: Item)
    requires row.body.Doc? && Read(strings, row) == StoredItem(item)
    ensures item.body.Doc?
  {
  }

  /** Whatever a document was made for, that decides its text. */
  lemma DocumentText(ix: Indexer, stored: set<string>, c: Content, d: nat, text: string, data: string, k: nat)
    requires Separates(ix, stored) && MadeFor(ix, stored, c, d, data, k)
    requires c.facts[d - 1].body.Doc? && TextIs(ix, stored, c, d, text)
    ensures text == IndexedText(ItemMade(ix, c, d, data, k).body, data)
  {
    hide AllItems, ItemsFor, Read, StoredItem, OriginalText, TrimSpace;
    StoredDocument(c.strings, c.facts[d - 1], ItemMade(ix, c, d, data, k));
  }

  lemma DataOf(ix: Indexer, stored: set<string>, c: Content, id: nat) returns (data: string)
    requires ContentGood(ix, stored, c) && 0 < id <= |c.contents|
    ensures data in stored && ix.hash(data) == c.contents[id - 1].contentHash
    ensures ItemsIn(c.strings, c.facts, id) == Map(ItemsFrom(ix, c.contents[id - 1].language, data), StoredItem)
  {
    hide AllBound, UniqueKeys, AllItems, ItemsFor, ItemsIn, StoredItem, AstFor;
    assert RowGood(ix, stored, c, id);
    data :| data in stored && RowIs(ix, c, id, data);
  }

  /** Every document was made for an item of its file. */
  lemma DocumentIsMade(ix: Indexer, stored: set<string>, c: Content, d: nat) returns (data: string, k: nat)
    requires ContentGood(ix, stored, c) && 0 < d <= |c.facts| && c.facts[d - 1].body.Doc?
    ensures MadeFor(ix, stored, c, d, data, k)
  {
    var row := c.facts[d - 1];
    data := DataOf(ix, stored, c, row.content);
    k := RowIsItem(c.strings, c.facts, d - 1);
    hide ContentGood, ItemsFrom, ItemsIn, Read, StoredItem;
    MadeForDocument(c.strings, row, ItemMade(ix, c, d, data, k));
  }

  /** What a branch of a reachable state knows of one of its documents. */
  lemma {:induction false} BranchDocument(ix: Indexer, stored: set<string>, run: seq<Action>, product: nat, d: nat)
    requires Legal(ix, stored, INITIAL, run)
    requires d in BranchOf(After(ix, stored, INITIAL, run), product).fullText
    ensures var s := After(ix, stored, INITIAL, run);
            && ContentGood(ix, stored, s.content) && 0 < d <= |s.content.facts| && s.content.facts[d - 1].body.Doc?
            && TextIs(ix, stored, s.content, d, BranchOf(s, product).fullText[d])
  {
    ReachableIsGood(ix, stored, run);
    var s := After(ix, stored, INITIAL, run);
    assert ContentGood(ix, stored, s.content);
    assert BranchGood(ix, stored, s.content, BranchOf(s, product), product, s.shown);
    hide After, Legal, Good, ContentGood, SnapshotGood, TextIs, BranchOf;
  }

  /** The document was made for an item of its file, and whichever item and bytes it
      was made for, it is indexed under their text. */
  ghost predicate TextAgrees(ix: Indexer, stored: set<string>, c: Content, d: nat, text: string) {
    && (exists data, k :: MadeFor(ix, stored, c, d, data, k))
    && forall data, k :: MadeFor(ix, stored, c, d, data, k)
        ==> text == IndexedText(ItemMade(ix, c, d, data, k).body, data)
  }

  /** Every document of a branch is indexed under the text it was made for, except
      that a document of kind "source" is indexed under the text of its file. */
  lemma {:induction false} FullTextAgrees(ix: Indexer, stored: set<string>, run: seq<Action>, product: nat, d: nat)
    requires Separates(ix, stored) && Legal(ix, stored, INITIAL, run)
    requires d in BranchOf(After(ix, stored, INITIAL, run), product).fullText
    ensures var s := After(ix, stored, INITIAL, run);
            TextAgrees(ix, stored, s.content, d, BranchOf(s, product).fullText[d])
  {
    BranchDocument(ix, stored, run, product, d);
    var s := After(ix, stored, INITIAL, run);
    var text := BranchOf(s, product).fullText[d];
    hide After, Legal, ContentGood, BranchOf, Separates, TextIs, MadeFor;
    var _, _ := DocumentIsMade(ix, stored, s.content, d);
    forall data, k | MadeFor(ix, stored, s.content, d, data, k)
      ensures MadeFor(ix, stored, s.content, d, data, k)
      ensures text == IndexedText(ItemMade(ix, s.content, d, data, k).body, data)
    {
      DocumentText(ix, stored, s.content, d, text, data, k);
    }
  }

  /** After any run, a document gets back the text it was made for, exactly unless it
      is marked "source" and its own text is not its file's; the document of a whole
      file, whose text was dropped at the merge, always does. */
  lemma {:induction false} SourceTextComesBack(ix: Indexer, stored: set<string>, run: seq<Action>, product: nat, d: nat,
        data: string, k: nat)
    requires Separates(ix, stored) && Legal(ix, stored, INITIAL, run)
    requires d in BranchOf(After(ix, stored, INITIAL, run), product).fullText
    requires MadeFor(ix, stored, After(ix, stored, INITIAL, run).content, d, data, k)
    ensures var s := After(ix, stored, INITIAL, run);
            var body, text := ItemMade(ix, s.content, d, data, k).body, BranchOf(s, product).fullText[d];
            && (text == OriginalText(body) <==> body.docKind != "source" || OriginalText(body) == TrimSpace(data))
            && (body == Doc("", "source", data, 0) ==> text == TrimSpace(data) == OriginalText(body))
  {
    FullTextAgrees(ix, stored, run, product, d);
    FileDocumentText(data);
    hide After, Legal, BranchOf, Separates, MadeFor, TrimSpace;
  }

  lemma FileDocumentText(data: string)
    ensures OriginalText(Doc("", "source", data, 0)) == TrimSpace(data)
  {
    assert "" + " " + data == " " + data;
    TrimSpacePrefix(data);
  }

  // ----- every document of a ready snapshot is indexed -----

  /** The items of an entry stand in the rows of the content it is placed with. */
  lemma ItemOfEntry(ix: Indexer, stored: set<string>, c: Content, e: Entry, k: nat) returns (d: nat)
    requires ContentGood(ix, stored, c) && Separates(ix, stored) && e.data in stored && KeyOf(ix, c, e) > 0
    requires k < |ItemsFrom(ix, LanguageOf(ix, e.path), e.data)|
    requires ItemsFrom(ix, LanguageOf(ix, e.path), e.data)[k].body.Doc?
    ensures MadeFor(ix, stored, c, d, e.data, k)
    ensures c.facts[d - 1].body.Doc? && c.facts[d - 1].content == KeyOf(ix, c, e)
    ensures ItemMade(ix, c, d, e.data, k) == ItemsFrom(ix, LanguageOf(ix, e.path), e.data)[k]
  {
    var id := KeyOf(ix, c, e);
    var data := DataOf(ix, stored, c, id);
    hide ContentGood, ItemsFrom, ItemsIn, Read, StoredItem, LanguageOf;
    assert data == e.data;
    var i := ItemIsRow(c.strings, c.facts, id, k);
    d := i + 1;
    StoredDocument(c.strings, c.facts[i], ItemsFrom(ix, LanguageOf(ix, e.path), e.data)[k]);
  }

  /** After any run, each document that parsing a file of a ready snapshot gives is in
      the full text of its branch, under the text that goes with it. */
  lemma EveryDocumentIsIndexed(ix: Indexer, stored: set<string>, run: seq<Action>, product: nat, snapshot: string,
        e: Entry, k: nat)
      returns (d: nat)
    requires Separates(ix, stored) && Legal(ix, stored, INITIAL, run)
    requires var s := After(ix, stored, INITIAL, run);
             (product, snapshot) in s.shown && e in s.shown[(product, snapshot)]
    requires k < |ItemsFrom(ix, LanguageOf(ix, e.path), e.data)|
    requires ItemsFrom(ix, LanguageOf(ix, e.path), e.data)[k].body.Doc?
    ensures var s := After(ix, stored, INITIAL, run);
            && MadeFor(ix, stored, s.content, d, e.data, k) && d in BranchOf(s, product).fullText
            && ItemMade(ix, s.content, d, e.data, k) == ItemsFrom(ix, LanguageOf(ix, e.path), e.data)[k]
            && BranchOf(s, product).fullText[d]
                == IndexedText(ItemsFrom(ix, LanguageOf(ix, e.path), e.data)[k].body, e.data)
  {
    ReachableIsGood(ix, stored, run);
    var s := After(ix, stored, INITIAL, run);
    var b := BranchOf(s, product);
    assert ContentGood(ix, stored, s.content);
    assert BranchGood(ix, stored, s.content, b, product, s.shown);
    hide After, Legal, Good, ContentGood, Separates, BranchOf, ItemsFrom, LanguageOf, KeyOf, TextIs, DistinctEntries;
    assert snapshot in b.ready && SnapshotGood(ix, stored, s.content, b, snapshot, s.shown[(product, snapshot)]);
    assert PlacedGood(ix, s.content, b, snapshot, e);
    d := ItemOfEntry(ix, stored, s.content, e, k);
    assert d in DocsOf(s.content, b.contents);
    hide MadeFor;
    FullTextAgrees(ix, stored, run, product, d);
  }

  /** The text of a small Lua or XML file of a ready snapshot is in the full text. */
  lemma FileTextIsIndexed(ix: Indexer, stored: set<string>, run: seq<Action>, product: nat, snapshot: string, e: Entry)
      returns (d: nat)
    requires Separates(ix, stored) && Legal(ix, stored, INITIAL, run)
    requires var s := After(ix, stored, INITIAL, run);
             (product, snapshot) in s.shown && e in s.shown[(product, snapshot)]
    requires LanguageOf(ix, e.path) in {LuaFile, XmlFile} && |e.data| < SOURCE_LIMIT
    requires Parse(ix, LanguageOf(ix, e.path), e.data).Some?
    ensures var text := BranchOf(After(ix, stored, INITIAL, run), product).fullText;
            d in text && text[d] == TrimSpace(e.data)
  {
    var k := FileDocument(ix, LanguageOf(ix, e.path), e.data);
    hide After, Legal, Separates, BranchOf, ItemsFrom, LanguageOf, MadeFor, TrimSpace;
    d := EveryDocumentIsIndexed(ix, stored, run, product, snapshot, e, k);
  }

  lemma FileDocument(ix: Indexer, language: Language, data: string) returns (k: nat)
    requires language in {LuaFile, XmlFile} && |data| < SOURCE_LIMIT && Parse(ix, language, data).Some?
    ensures k < |ItemsFrom(ix, language, data)|
    ensures ItemsFrom(ix, language, data)[k] == Item("", Doc("", "source", data, 0))
  {
    var p := Parse(ix, language, data).value;
    var documents := DocumentsOf(p, language, data);
    var before := p.symbols + p.edges + p.xml + p.toc;
    assert documents[|documents| - 1] == Item("", Doc("", "source", data, 0));
    k := |before| + |documents| - 1;
    assert ItemsFrom(ix, language, data) == before + documents + p.assetRefs;
  }

  /** A document marked "source" whose own text is not its file's loses its text. */
  lemma MarkedDocumentLosesItsText(ix: Indexer, stored: set<string>, run: seq<Action>, product: nat, snapshot: string,
        e: Entry, k: nat)
      returns (d: nat)
    requires Separates(ix, stored) && Legal(ix, stored, INITIAL, run)
    requires var s := After(ix, stored, INITIAL, run);
             (product, snapshot) in s.shown && e in s.shown[(product, snapshot)]
    requires k < |ItemsFrom(ix, LanguageOf(ix, e.path), e.data)|
    requires var body := ItemsFrom(ix, LanguageOf(ix, e.path), e.data)[k].body;
             body.Doc? && body.docKind == "source" && OriginalText(body) != TrimSpace(e.data)
    ensures var s := After(ix, stored, INITIAL, run);
            && MadeFor(ix, stored, s.content, d, e.data, k) && d in BranchOf(s, product).fullText
            && ItemMade(ix, s.content, d, e.data, k) == ItemsFrom(ix, LanguageOf(ix, e.path), e.data)[k]
            && BranchOf(s, product).fullText[d] != OriginalText(ItemMade(ix, s.content, d, e.data, k).body)
  {
    hide After, Legal, Separates, BranchOf, ItemsFrom, LanguageOf, MadeFor, TrimSpace, OriginalText;
    d := EveryDocumentIsIndexed(ix, stored, run, product, snapshot, e, k);
  }

  const SOURCE_ELEMENT := "<source name=\"Bar\"/>"
  const SOURCE_ATTRIBUTES := "{\"name\":\"Bar\"}"

  /** The XML element is itself named `source`: it is indexed under its file's text
      and not under its own, since the marker of file documents takes it for one. */
  lemma SourceElementLosesItsText(ix: Indexer, stored: set<string>, run: seq<Action>, product: nat, snapshot: string,
        e: Entry, ast: string)
      returns (d: nat)
    requires Separates(ix, stored) && Legal(ix, stored, INITIAL, run)
    requires var s := After(ix, stored, INITIAL, run);
             (product, snapshot) in s.shown && e in s.shown[(product, snapshot)]
    requires e.data == SOURCE_ELEMENT && LanguageOf(ix, e.path) == XmlFile
    requires ix.parse(XmlFile, e.data)
          == Some(Parsed([], [], [Item("", Xml("Bar", "source", SOURCE_ATTRIBUTES, 1))], [], [], ast))
    ensures var s := After(ix, stored, INITIAL, run);
            && MadeFor(ix, stored, s.content, d, e.data, 1) && d in BranchOf(s, product).fullText
            && ItemMade(ix, s.content, d, e.data, 1) == Item("", Doc("Bar", "source", SOURCE_ATTRIBUTES, 1))
            && BranchOf(s, product).fullText[d] != OriginalText(ItemMade(ix, s.content, d, e.data, 1).body)
  {
    ElementIsIndexed(ix, e.data, SOURCE_ATTRIBUTES, ast);
    ElementIsNotFile();
    hide *;
    d := MarkedDocumentLosesItsText(ix, stored, run, product, snapshot, e, 1);
  }

  lemma ElementIsIndexed(ix: Indexer, data: string, attributes: string, ast: string)
    requires ix.parse(XmlFile, data)
        == Some(Parsed([], [], [Item("", Xml("Bar", "source", attributes, 1))], [], [], ast))
    ensures |ItemsFrom(ix, XmlFile, data)| > 1
    ensures ItemsFrom(ix, XmlFile, data)[1] == Item("", Doc("Bar", "source", attributes, 1))
  {
    var p := ix.parse(XmlFile, data).value;
    assert DocumentsOf(p, XmlFile, data)[0] == Item("", Doc("Bar", "source", attributes, 1));
  }

  lemma ElementIsNotFile()
    ensures TrimSpace(SOURCE_ELEMENT) != OriginalText(Doc("Bar", "source", SOURCE_ATTRIBUTES, 1))
  {
    var original := "Bar" + " " + SOURCE_ATTRIBUTES;
    assert SOURCE_ELEMENT[0] == '<' && original[0] == 'B';
    assert SOURCE_ELEMENT[|SOURCE_ELEMENT| - 1] == '>' && original[|original| - 1] == '}';
    assert TrimSpace(SOURCE_ELEMENT) == SOURCE_ELEMENT && TrimSpace(original) == original;
  }
}
