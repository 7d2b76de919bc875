/** One entry of a build (internal/indexer/indexer.go): parsed, or taken over from
    the shared store; and the batch that collects the entries of a snapshot. */
module IndexEntry {
  import opened Prelude
  import opened Text
  import opened ContentSpec

  /** What a parser finds in a file; `ast` is the hash of its syntax tree. */
  datatype Parsed = Parsed(
    symbols: seq<Item>, edges: seq<Item>, xml: seq<Item>, toc: seq<Item>, assetRefs: seq<Item>, ast: string)

  /** The parsers, the content hash, and the contents of Git objects.  A parser that
      fails returns None; what it finds depends on the language and the bytes only. */
  datatype Indexer = Indexer(
    parse: (Language, string) -> Option<Parsed>, hash: string -> string, blob: string -> string,
        lower: string -> string)

  datatype Entry = Entry(path: string, oid: string, data: string)

  // ----- language and role -----

  predicate IsAsset(ext: string) {
    ext in [".blp", ".tga", ".png", ".jpg", ".jpeg", ".dds", ".ttf", ".otf", ".mp3", ".ogg", ".wav", ".m2", ".wmo"]
  }

  function LanguageFor(ext: string): Language {
    if ext == ".lua" then LuaFile
    else if ext == ".xml" then XmlFile
    else if ext == ".toc" then TocFile
    else if IsAsset(ext) then AssetFile
    else TextFile
  }

  predicate Contains(s: string, part: string) {
    part <= s || (s != "" && Contains(s[1..], part))
  }

  predicate EndsWith(s: string, suffix: string) {
    |suffix| <= |s| && s[|s| - |suffix|..] == suffix
  }

  /** The role of a lower-cased path. */
  function RoleFor(p: string): string {
    if Contains(p, "apidocumentationgenerated") then "official-generated-api"
    else if Contains(p, "locale") || Contains(p, "localization") then "locale"
    else if Contains(p, "libs/") || Contains(p, "vendor/") then "vendor"
    else if Contains(p, "modelpaths") || Contains(p, "generated") then "generated-data"
    else if Contains(p, "tools/") || EndsWith(p, "babelfish.lua") then "tool"
    else "project"
  }

  function LanguageOf(ix: Indexer, path: string): Language {
    LanguageFor(ix.lower(Extension(path)))
  }

  function RoleOf(ix: Indexer, path: string): string {
    RoleFor(ix.lower(path))
  }

  // ----- parsing an entry -----

  /** The facts of a file, table by table. */
  datatype Items = Items(
    symbols: seq<Item>, edges: seq<Item>, xml: seq<Item>, toc: seq<Item>, search: seq<Item>, assetRefs: seq<Item>)

  const NO_ITEMS := Items([], [], [], [], [], [])

  /** The search document of a symbol, an XML node or a TOC line. */
  function DocumentOf(item: Item): Item {
    match item.body
    case Symbol(_, qualified, signature, kind, line, _) => Item(item.requiredRole,
        Doc(qualified, kind, signature, line))
    case Xml(name, kind, attributes, line) => Item(item.requiredRole, Doc(name, kind, attributes, line))
    case Toc(key, value, line) => Item(item.requiredRole, Doc(key, "toc", value, line))
    case _ => item
  }

  const SOURCE_LIMIT := 0x10_0000

  /** The document of a whole file, if it is not too large. */
  function FileDocuments(language: Language, data: string): seq<Item> {
    if (language == LuaFile || language == XmlFile) && |data| < SOURCE_LIMIT
    then [Item("", Doc("", "source", data, 0))] else []
  }

  function DocumentsOf(p: Parsed, language: Language, data: string): seq<Item> {
    Map(p.symbols, DocumentOf) + Map(p.xml, DocumentOf) + Map(p.toc, DocumentOf) + FileDocuments(language, data)
  }

  /** The search documents, one by one: of the symbols, the XML nodes and the TOC lines,
      each with the role, the name, the kind, the text and the line it is found by; and
      of the whole file, if it is Lua or XML and less than a mebibyte long. */
  ghost predicate SearchList(p: Parsed, language: Language, data: string, search: seq<Item>) {
    var xml, toc, file := |p.symbols|, |p.symbols| + |p.xml|, |p.symbols| + |p.xml| + |p.toc|;
    var small := language in {LuaFile, XmlFile} && |data| < 0x10_0000;
    && |search| == file + (if small then 1 else 0)
    && (forall k :: 0 <= k < |p.symbols| && p.symbols[k].body.Symbol? ==>
          var s := p.symbols[k].body;
          search[k] == Item(p.symbols[k].requiredRole, Doc(s.qualified, s.symbolKind, s.signature, s.line)))
    && (forall k :: 0 <= k < |p.xml| && p.xml[k].body.Xml? ==>
          var x := p.xml[k].body;
          search[xml + k] == Item(p.xml[k].requiredRole, Doc(x.name, x.xmlKind, x.attributes, x.line)))
    && (forall k :: 0 <= k < |p.toc| && p.toc[k].body.Toc? ==>
          var t := p.toc[k].body;
          search[toc + k] == Item(p.toc[k].requiredRole, Doc(t.key, "toc", t.value, t.line)))
    && (small ==> search[file] == Item("", Doc("", "source", data, 0)))
  }

  lemma SymbolIsListed(p: Parsed, language: Language, data: string, k: nat)
    requires k < |p.symbols|
    ensures k < |DocumentsOf(p, language, data)| && DocumentsOf(p, language, data)[k] == DocumentOf(p.symbols[k])
  {
    var rest := Map(p.xml, DocumentOf) + Map(p.toc, DocumentOf) + FileDocuments(language, data);
    InMiddle([], Map(p.symbols, DocumentOf), rest, k);
    assert DocumentsOf(p, language, data) == [] + Map(p.symbols, DocumentOf) + rest;
    hide *;
  }

  lemma XmlIsListed(p: Parsed, language: Language, data: string, k: nat)
    requires k < |p.xml|
    ensures var at := |p.symbols| + k;
            at < |DocumentsOf(p, language, data)| && DocumentsOf(p, language, data)[at] == DocumentOf(p.xml[k])
  {
    var rest := Map(p.toc, DocumentOf) + FileDocuments(language, data);
    InMiddle(Map(p.symbols, DocumentOf), Map(p.xml, DocumentOf), rest, k);
    assert DocumentsOf(p, language, data) == Map(p.symbols, DocumentOf) + Map(p.xml, DocumentOf) + rest;
    hide *;
  }

  lemma TocIsListed(p: Parsed, language: Language, data: string, k: nat)
    requires k < |p.toc|
    ensures var at := |p.symbols| + |p.xml| + k;
            at < |DocumentsOf(p, language, data)| && DocumentsOf(p, language, data)[at] == DocumentOf(p.toc[k])
  {
    var before := Map(p.symbols, DocumentOf) + Map(p.xml, DocumentOf);
    InMiddle(before, Map(p.toc, DocumentOf), FileDocuments(language, data), k);
    assert DocumentsOf(p, language, data) == before + Map(p.toc, DocumentOf) + FileDocuments(language, data);
    hide *;
  }

  lemma FileIsListed(p: Parsed, language: Language, data: string)
    ensures var all, n := DocumentsOf(p, language, data), |p.symbols| + |p.xml| + |p.toc|;
            if language in {LuaFile, XmlFile} && |data| < 0x10_0000
            then |all| == n + 1 && all[n] == Item("", Doc("", "source", data, 0)) else |all| == n
  {
  }

  lemma DocumentsAreListed(p: Parsed, language: Language, data: string)
    ensures SearchList(p, language, data, DocumentsOf(p, language, data))
  {
    hide DocumentsOf;
    forall k | 0 <= k < |p.symbols|
      ensures k < |DocumentsOf(p, language, data)| && DocumentsOf(p, language, data)[k] == DocumentOf(p.symbols[k])
    {
      SymbolIsListed(p, language, data, k);
    }
    forall k | 0 <= k < |p.xml|
      ensures |p.symbols| + k < |DocumentsOf(p, language, data)|
      ensures DocumentsOf(p, language, data)[|p.symbols| + k] == DocumentOf(p.xml[k])
    {
      XmlIsListed(p, language, data, k);
    }
    forall k | 0 <= k < |p.toc|
      ensures |p.symbols| + |p.xml| + k < |DocumentsOf(p, language, data)|
      ensures DocumentsOf(p, language, data)[|p.symbols| + |p.xml| + k] == DocumentOf(p.toc[k])
    {
      TocIsListed(p, language, data, k);
    }
    FileIsListed(p, language, data);
  }

  lemma InMiddle<T>(a: seq<T>, b: seq<T>, c: seq<T>, k: nat)
    requires k < |b|
    ensures (a + b + c)[|a| + k] == b[k]
  {
  }

  /** The loops of `parseEntry` that build the search documents. */
  method BuildDocuments(p: Parsed, language: Language, data: string) returns (search: seq<Item>)
    ensures search == DocumentsOf(p, language, data) && SearchList(p, language, data, search)
  {
    DocumentsAreListed(p, language, data);
    hide SearchList;
    search := [];
    var i := 0;
    while i < |p.symbols|
      invariant 0 <= i <= |p.symbols|
      invariant search == Map(p.symbols[..i], DocumentOf)
    {
      search := search + [DocumentOf(p.symbols[i])];
      i := i + 1;
    }
    assert p.symbols[..i] == p.symbols;
    i := 0;
    while i < |p.xml|
      invariant 0 <= i <= |p.xml|
      invariant search == Map(p.symbols, DocumentOf) + Map(p.xml[..i], DocumentOf)
    {
      search := search + [DocumentOf(p.xml[i])];
      i := i + 1;
    }
    assert p.xml[..i] == p.xml;
    i := 0;
    while i < |p.toc|
      invariant 0 <= i <= |p.toc|
      invariant search == Map(p.symbols, DocumentOf) + Map(p.xml, DocumentOf) + Map(p.toc[..i], DocumentOf)
    {
      search := search + [DocumentOf(p.toc[i])];
      i := i + 1;
    }
    assert p.toc[..i] == p.toc;
    if (language == LuaFile || language == XmlFile) && |data| < SOURCE_LIMIT {
      search := search + [Item("", Doc("", "source", data, 0))];
    }
  }

  function Parse(ix: Indexer, language: Language, data: string): Option<Parsed> {
    if language == LuaFile || language == XmlFile || language == TocFile then ix.parse(language, data) else None
  }

  /** A file whose parser fails, a plain text and an asset carry no facts here. */
  function ItemsFor(ix: Indexer, language: Language, data: string): Items {
    match Parse(ix, language, data)
    case None => NO_ITEMS
    case Some(p) => Items(p.symbols, p.edges, p.xml, p.toc, DocumentsOf(p, language, data), p.assetRefs)
  }

  function AstFor(ix: Indexer, language: Language, data: string): string {
    match Parse(ix, language, data)
    case None => ""
    case Some(p) => p.ast
  }

  /** What one worker hands to the collector. */
  datatype Indexed = Indexed(file: FileFact, items: Items)

  function ParseEntry(ix: Indexer, e: Entry): Indexed {
    var language := LanguageOf(ix, e.path);
    Indexed(FileFact(e.path, ix.hash(e.data), AstFor(ix, language, e.data), language, RoleOf(ix, e.path), e.oid,
        |e.data|),
            ItemsFor(ix, language, e.data))
  }

  /** A file whose content the store has brings its place, and no facts. */
  function ReusedEntry(ix: Indexer, e: Entry, row: ContentRow): Indexed {
    Indexed(FileFact(e.path, row.contentHash, row.astHash, row.language, RoleOf(ix, e.path), e.oid, row.size), NO_ITEMS)
  }

  // ----- the batch -----

  function WithPath(path: string, items: seq<Item>): seq<Fact> {
    Map(items, (i: Item) => Fact(path, i))
  }

  function Gather(results: seq<Indexed>, pick: Items -> seq<Item>): seq<Fact> {
    if results == [] then []
    else
      var last := results[|results| - 1];
      Gather(results[..|results| - 1], pick) + WithPath(last.file.path, pick(last.items))
  }

  function Collect(results: seq<Indexed>): Batch {
    Batch(Map(results, (r: Indexed) => r.file),
          Gather(results, (i: Items) => i.symbols), Gather(results, (i: Items) => i.edges),
          Gather(results, (i: Items) => i.xml), Gather(results, (i: Items) => i.toc),
          Gather(results, (i: Items) => i.search), Gather(results, (i: Items) => i.assetRefs))
  }

  /** The collector's loop over the results channel. */
  method CollectResults(results: seq<Indexed>) returns (batch: Batch)
    ensures batch == Collect(results)
  {
    batch := Batch([], [], [], [], [], [], []);
    var n := 0;
    while n < |results|
      invariant 0 <= n <= |results|
      invariant batch == Collect(results[..n])
    {
      var p := results[n];
      assert results[..n + 1][..n] == results[..n];
      batch := Batch(batch.files + [p.file],
                     batch.symbols + WithPath(p.file.path, p.items.symbols),
                     batch.edges + WithPath(p.file.path, p.items.edges),
                     batch.xml + WithPath(p.file.path, p.items.xml),
                     batch.toc + WithPath(p.file.path, p.items.toc),
                     batch.search + WithPath(p.file.path, p.items.search),
                     batch.assetRefs + WithPath(p.file.path, p.items.assetRefs));
      n := n + 1;
    }
    assert results[..n] == results;
  }

  // ----- what a file shows -----

  function AllItems(items: Items): seq<Item> {
    items.symbols + items.edges + items.xml + items.toc + items.search + items.assetRefs
  }

  function StoredItem(i: Item): Item {
    Item(i.requiredRole, Stored(i.body))
  }

  /** The facts of freshly parsed bytes, as the tables would hold them. */
  function FreshItems(ix: Indexer, language: Language, data: string): seq<Item> {
    Map(AllItems(ItemsFor(ix, language, data)), StoredItem)
  }

  /** What a snapshot must show for a file: parse it, attach its role. */
  function Expected(ix: Indexer, path: string, data: string): seq<Item> {
    Filter(FreshItems(ix, LanguageOf(ix, path), data), (i: Item) => RoleAllows(i.requiredRole, RoleOf(ix, path)))
  }

  // ----- language and role, by the path -----

  lemma {:induction false} LanguageByExtension(ix: Indexer, path: string)
    ensures var ext := ix.lower(Extension(path));
            && (LanguageOf(ix, path) == LuaFile <==> ext == ".lua")
            && (LanguageOf(ix, path) == XmlFile <==> ext == ".xml")
            && (LanguageOf(ix, path) == TocFile <==> ext == ".toc")
            && (LanguageOf(ix, path) == AssetFile <==>
                  ext in {".blp", ".tga", ".png", ".jpg", ".jpeg", ".dds", ".ttf", ".otf", ".mp3", ".ogg", ".wav",
                      ".m2", ".wmo"})
  {
    assert ".lua"[1] == 'l' && ".xml"[1] == 'x' && ".toc"[2] == 'o' && ".tga"[2] == 'g' && ".ttf"[2] == 't';
    assert ".blp"[1] == 'b' && ".png"[1] == 'p' && ".jpg"[1] == ".jpeg"[1] == 'j' && ".dds"[1] == 'd'
        && ".otf"[1] == ".ogg"[1] == 'o';
    assert ".mp3"[1] == ".m2"[1] == 'm' && ".wav"[1] == ".wmo"[1] == 'w' && ".toc"[1] == ".tga"[1] == ".ttf"[1] == 't';
  }

  predicate StandsAt(s: string, part: string, i: nat) {
    i + |part| <= |s| && s[i..i + |part|] == part
  }

  ghost predicate Occurs(s: string, part: string) {
    exists i: nat :: StandsAt(s, part, i)
  }

  lemma StandsLater(s: string, part: string, i: nat)
    requires s != ""
    ensures StandsAt(s, part, i + 1) <==> StandsAt(s[1..], part, i)
  {
    if i + 1 + |part| <= |s| {
      assert s[i + 1..i + 1 + |part|] == s[1..][i..i + |part|];
    }
  }

  lemma StandsFirst(s: string, part: string)
    ensures StandsAt(s, part, 0) <==> part <= s
  {
  }

  lemma {:induction false} ContainsIsOccurs(s: string, part: string)
    ensures Contains(s, part) <==> Occurs(s, part)
  {
    StandsFirst(s, part);
    if s != "" {
      ContainsIsOccurs(s[1..], part);
      forall i: nat ensures StandsAt(s, part, i + 1) <==> StandsAt(s[1..], part, i) {
        StandsLater(s, part, i);
      }
      var rest := s[1..];
      assert Contains(s, part) <==> part <= s || Contains(rest, part);
      hide StandsAt, Contains;
      if i: nat :| StandsAt(s, part, i) {
        assert i > 0 ==> StandsAt(rest, part, i - 1);
      }
    }
  }

  ghost predicate OccursAny(s: string, part: string, other: string) {
    Occurs(s, part) || Occurs(s, other)
  }

  /** The role of a file, by what occurs in its lower-cased path; the first rule that
      applies decides. */
  lemma RoleByPath(ix: Indexer, path: string)
    ensures var p, role := ix.lower(path), RoleOf(ix, path);
            if Occurs(p, "apidocumentationgenerated") then role == "official-generated-api"
            else if OccursAny(p, "locale", "localization") then role == "locale"
            else if OccursAny(p, "libs/", "vendor/") then role == "vendor"
            else if OccursAny(p, "modelpaths", "generated") then role == "generated-data"
            else if Occurs(p, "tools/") || (exists base :: p == base + "babelfish.lua") then role == "tool"
            else role == "project"
  {
    var p := ix.lower(path);
    hide Contains, Occurs;
    ContainsIsOccurs(p, "apidocumentationgenerated");
    ContainsIsOccurs(p, "locale");
    ContainsIsOccurs(p, "localization");
    ContainsIsOccurs(p, "libs/");
    ContainsIsOccurs(p, "vendor/");
    ContainsIsOccurs(p, "modelpaths");
    ContainsIsOccurs(p, "generated");
    ContainsIsOccurs(p, "tools/");
    EndsWithIsSuffix(p, "babelfish.lua");
    hide EndsWith;
  }

  lemma EndsWithIsSuffix(s: string, suffix: string)
    ensures EndsWith(s, suffix) <==> exists base :: s == base + suffix
  {
    if EndsWith(s, suffix) {
      assert s == s[..|s| - |suffix|] + suffix;
    }
  }
}
