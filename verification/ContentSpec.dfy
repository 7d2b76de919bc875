/** The shared fact store and the branch stores of internal/store/branch.go, as
    functions on tables.  Facts are kept once per content and language; a branch
    keeps, per snapshot, which content each path has, and its own full text. */
module ContentSpec {
  import opened Prelude
  import opened Text

  datatype Language = LuaFile | XmlFile | TocFile | AssetFile | TextFile

  // ----- facts -----

  /** One fact without its path; `S` is `string` in a batch and a string id in a
      table.  Rows of the six fact tables share this type. */
  datatype Body<S> =
    | Symbol(name: S, qualified: S, signature: S, symbolKind: string, line: int, endLine: int)
    | Edge(source: S, target: S, edgeKind: string, confidence: string, line: int)
    | Xml(name: S, xmlKind: S, attributes: S, line: int)
    | Toc(key: string, value: string, line: int)
    | Doc(name: S, docKind: string, text: string, line: int)
    | AssetRef(refKind: string, value: string, normalized: string, line: int)

  datatype Item = Item(requiredRole: string, body: Body<string>)

  datatype Fact = Fact(path: string, item: Item)

  datatype FileFact =
    FileFact(path: string, contentHash: string, astHash: string, language: Language, role: string, gitOid: string,
        size: nat)

  datatype Batch = Batch(
    files: seq<FileFact>, symbols: seq<Fact>, edges: seq<Fact>, xml: seq<Fact>, toc: seq<Fact>,
    search: seq<Fact>, assetRefs: seq<Fact>)

  // ----- the shared tables -----

  datatype ContentRow = ContentRow(contentHash: string, language: Language, astHash: string, size: nat)

  datatype Alias = Alias(gitOid: string, language: Language)

  /** A row of a fact table: its string columns hold ids of the string table. */
  datatype Row = Row(content: nat, requiredRole: string, body: Body<nat>)

  /** Rows of `contents` and `strings` are never deleted; the id of a row is its
      position plus one, so that 0 is no row. */
  datatype Content = Content(
    contents: seq<ContentRow>, aliases: map<Alias, nat>, strings: seq<string>, facts: seq<Row>)

  const EMPTY_CONTENT := Content([], map[], [], [])

  /** The id of the row with this hash and language, or 0. */
  function FindContent(contents: seq<ContentRow>, hash: string, language: Language): (id: nat)
    ensures id <= |contents|
    ensures id > 0 ==> contents[id - 1].contentHash == hash && contents[id - 1].language == language
    ensures id == 0 ==> forall r :: r in contents ==> !(r.contentHash == hash && r.language == language)
  {
    if contents == [] then 0
    else
      var last := contents[|contents| - 1];
      if last.contentHash == hash && last.language == language then |contents|
      else FindContent(contents[..|contents| - 1], hash, language)
  }

  function FindString(strings: seq<string>, value: string): (id: nat)
    ensures id <= |strings|
    ensures id > 0 ==> strings[id - 1] == value
    ensures id == 0 ==> value !in strings
  {
    if strings == [] then 0
    else if strings[|strings| - 1] == value then |strings|
    else FindString(strings[..|strings| - 1], value)
  }

  // ----- the string dictionary -----

  function AddString(strings: seq<string>, value: string): (r: seq<string>)
    ensures strings <= r && value in r
  {
    if FindString(strings, value) > 0 then strings else strings + [value]
  }

  /** Three values added in turn. */
  function AddStrings(strings: seq<string>, values: seq<string>): (r: seq<string>)
    ensures strings <= r && forall v :: v in values ==> v in r
    decreases |values|
  {
    if values == [] then strings
    else
      var r := AddStrings(AddString(strings, values[0]), values[1..]);
      assert values[0] in AddString(strings, values[0]);
      assert forall v :: v in values ==> v == values[0] || v in values[1..];
      r
  }

  /** The values a fact refers to by id, in the order they are added. */
  function StringsOf(body: Body<string>): seq<string> {
    match body
    case Symbol(name, qualified, signature, _, _, _) => [name, qualified, signature]
    case Edge(source, target, _, _, _) => [source, target]
    case Xml(name, kind, attributes, _) => [name, kind, attributes]
    case Toc(_, _, _) => []
    case Doc(name, _, _, _) => [name]
    case AssetRef(_, _, _, _) => []
  }

  function Encode(strings: seq<string>, body: Body<string>): Body<nat> {
    match body
    case Symbol(name, qualified, signature, kind, line, endLine) =>
      Symbol(FindString(strings, name), FindString(strings, qualified), FindString(strings, signature), kind, line,
          endLine)
    case Edge(source, target, kind, confidence, line) =>
      Edge(FindString(strings, source), FindString(strings, target), kind, confidence, line)
    case Xml(name, kind, attributes, line) =>
      Xml(FindString(strings, name), FindString(strings, kind), FindString(strings, attributes), line)
    case Toc(key, value, line) => Toc(key, value, line)
    case Doc(name, kind, text, line) => Doc(FindString(strings, name), kind, text, line)
    case AssetRef(kind, value, normalized, line) => AssetRef(kind, value, normalized, line)
  }

  function StringAt(strings: seq<string>, id: nat): string {
    if 0 < id <= |strings| then strings[id - 1] else ""
  }

  /** The join of a fact row with the string table. */
  function Decode(strings: seq<string>, body: Body<nat>): Body<string> {
    match body
    case Symbol(name, qualified, signature, kind, line, endLine) =>
      Symbol(StringAt(strings, name), StringAt(strings, qualified), StringAt(strings, signature), kind, line, endLine)
    case Edge(source, target, kind, confidence, line) =>
      Edge(StringAt(strings, source), StringAt(strings, target), kind, confidence, line)
    case Xml(name, kind, attributes, line) =>
      Xml(StringAt(strings, name), StringAt(strings, kind), StringAt(strings, attributes), line)
    case Toc(key, value, line) => Toc(key, value, line)
    case Doc(name, kind, text, line) => Doc(StringAt(strings, name), kind, text, line)
    case AssetRef(kind, value, normalized, line) => AssetRef(kind, value, normalized, line)
  }

  /** The ids of a row are ids of the string table. */
  predicate Bound(strings: seq<string>, body: Body<nat>) {
    var n := |strings|;
    match body
    case Symbol(name, qualified, signature, _, _, _) => 0 < name <= n && 0 < qualified <= n && 0 < signature <= n
    case Edge(source, target, _, _, _) => 0 < source <= n && 0 < target <= n
    case Xml(name, kind, attributes, _) => 0 < name <= n && 0 < kind <= n && 0 < attributes <= n
    case Toc(_, _, _) => true
    case Doc(name, _, _, _) => 0 < name <= n
    case AssetRef(_, _, _, _) => true
  }

  // ----- merging a batch into the shared tables -----

  /** A search document is stored with its name in its text; the text of a
      document of kind "source" is dropped. */
  function Stored(body: Body<string>): Body<string> {
    if body.Doc? then
      body.(text := if body.docKind == "source" then "" else TrimSpace(body.name + " " + body.text))
    else body
  }

  /** The bookkeeping of one merge: `created` are the ids of the rows it created and
      `factPath` the path whose facts go with each of them. */
  datatype Merge = Merge(
    contents: seq<ContentRow>, aliases: map<Alias, nat>, pathContent: map<string, nat>,
    created: set<nat>, factPath: map<nat, string>)

  function MergeFile(m: Merge, f: FileFact): Merge {
    var found := FindContent(m.contents, f.contentHash, f.language);
    var contents := if found > 0 then m.contents
                    else m.contents + [ContentRow(f.contentHash, f.language, f.astHash, f.size)];
    var id := FindContent(contents, f.contentHash, f.language);
    var alias := Alias(f.gitOid, f.language);
    Merge(contents,
          if f.gitOid != "" && alias !in m.aliases then m.aliases[alias := id] else m.aliases,
          m.pathContent[f.path := id],
          if found > 0 then m.created else m.created + {id},
          if found > 0 then m.factPath else m.factPath[id := f.path])
  }

  function MergeFiles(c: Content, files: seq<FileFact>, n: nat): Merge
    requires n <= |files|
  {
    if n == 0 then Merge(c.contents, c.aliases, map[], {}, map[])
    else MergeFile(MergeFiles(c, files, n - 1), files[n - 1])
  }

  /** Whether a fact is inserted: its path gave its content a new row. */
  predicate Carries(m: Merge, path: string) {
    && path in m.pathContent && m.pathContent[path] != 0
    && m.pathContent[path] in m.created
    && m.pathContent[path] in m.factPath && m.factPath[m.pathContent[path]] == path
  }

  datatype Tables = Tables(strings: seq<string>, facts: seq<Row>)

  function InsertFact(m: Merge, t: Tables, f: Fact): Tables {
    if Carries(m, f.path) then
      var body := Stored(f.item.body);
      var strings := AddStrings(t.strings, StringsOf(body));
      Tables(strings, t.facts + [Row(m.pathContent[f.path], f.item.requiredRole, Encode(strings, body))])
    else t
  }

  function InsertFacts(m: Merge, t: Tables, facts: seq<Fact>, n: nat): Tables
    requires n <= |facts|
  {
    if n == 0 then t else InsertFact(m, InsertFacts(m, t, facts, n - 1), facts[n - 1])
  }

  /** The facts of a batch, table by table. */
  function FactsOf(batch: Batch): seq<Fact> {
    batch.symbols + batch.edges + batch.xml + batch.toc + batch.search + batch.assetRefs
  }

  /** `publishContent`: the new tables, and the content id of each path. */
  function PublishContent(c: Content, batch: Batch): (Content, map<string, nat>) {
    var m := MergeFiles(c, batch.files, |batch.files|);
    var facts := FactsOf(batch);
    var t := InsertFacts(m, Tables(c.strings, c.facts), facts, |facts|);
    (Content(m.contents, m.aliases, t.strings, t.facts), m.pathContent)
  }

  // ----- a branch -----

  datatype Placed = Placed(snapshot: string, path: string)

  datatype Member = Member(content: nat, role: string)

  /** `fullText` maps the row id of a search document to its indexed text. */
  datatype Branch = Branch(
    ready: set<string>, files: map<Placed, Member>, contents: set<nat>, fullText: map<nat, string>, active: string)

  const EMPTY_BRANCH := Branch({}, map[], {}, map[], "")

  datatype PublishError = MissingMapping(path: string) | DuplicatePath(path: string) | MissingObject | DuplicateDocument

  /** The rows of one snapshot, inserted after its old rows were deleted. */
  function PlaceFiles(files: map<Placed, Member>, snapshot: string, batch: seq<FileFact>, ids: map<string, nat>,
        n: nat): Result<map<Placed, Member>, PublishError>
    requires n <= |batch|
  {
    if n == 0 then Ok(map p | p in files && p.snapshot != snapshot :: files[p])
    else
      match PlaceFiles(files, snapshot, batch, ids, n - 1)
      case Err(e) => Err(e)
      case Ok(placed) =>
        var f := batch[n - 1];
        var id := if f.path in ids then ids[f.path] else 0;
        if id == 0 then Err(MissingMapping(f.path))
        else if Placed(snapshot, f.path) in placed then Err(DuplicatePath(f.path))
        else Ok(placed[Placed(snapshot, f.path) := Member(id, f.role)])
  }

  /** The ids of the search documents of a set of contents. */
  function DocsOf(c: Content, ids: set<nat>): set<nat> {
    set i | 0 <= i < |c.facts| && c.facts[i].body.Doc? && c.facts[i].content in ids :: i + 1
  }

  /** The source text of this document is read back from the object store. */
  predicate NeedsObject(row: Row) {
    row.body.Doc? && row.body.docKind == "source" && row.body.text == ""
  }

  function HashOf(c: Content, id: nat): string {
    if 0 < id <= |c.contents| then c.contents[id - 1].contentHash else ""
  }

  function DocText(c: Content, objects: map<string, string>, row: Row): string
    requires row.body.Doc?
  {
    if NeedsObject(row) then
      var hash := HashOf(c, row.content);
      TrimSpace(if hash in objects then objects[hash] else "")
    else row.body.text
  }

  /** Some document of these contents has its text in an object that is not there. */
  predicate ObjectsMissing(c: Content, ids: set<nat>, objects: map<string, string>) {
    exists i :: 0 <= i < |c.facts| && c.facts[i].content in ids && NeedsObject(c.facts[i])
      && HashOf(c, c.facts[i].content) !in objects
  }

  /** `ensureBranchFTS`: the documents of the contents that are new to the branch. */
  function IndexText(b: Branch, c: Content, ids: set<nat>, objects: map<string, string>): Branch {
    var added := ids - b.contents - {0};
    b.(contents := b.contents + added,
       fullText := b.fullText + DocTexts(c, objects, added))
  }

  /** Some document of these contents is in the full text already. */
  predicate Clashes(c: Content, ids: set<nat>, text: map<nat, string>) {
    exists d :: d in DocsOf(c, ids) && d in text
  }

  function DocTexts(c: Content, objects: map<string, string>, ids: set<nat>): map<nat, string> {
    map d | d in DocsOf(c, ids) :: DocTextAt(c, objects, d)
  }

  function DocTextAt(c: Content, objects: map<string, string>, d: nat): string {
    if 0 < d <= |c.facts| && c.facts[d - 1].body.Doc? then DocText(c, objects, c.facts[d - 1]) else ""
  }

  /** The branch transaction of `Publish`. */
  function PublishBranch(b: Branch, c: Content, snapshot: string, files: seq<FileFact>, ids: map<string, nat>,
        objects: map<string, string>): Result<Branch, PublishError> {
    match PlaceFiles(b.files, snapshot, files, ids, |files|)
    case Err(e) => Err(e)
    case Ok(placed) =>
      var added := ids.Values - b.contents - {0};
      if ObjectsMissing(c, added, objects) then Err(MissingObject)
      else if Clashes(c, added, b.fullText) then Err(DuplicateDocument)
      else
        Ok(IndexText(b.(files := placed), c, ids.Values, objects)
             .(ready := b.ready + {snapshot}, active := snapshot))
  }

  // ----- looking up -----

  function LookupHash(c: Content, hash: string, language: Language): nat {
    FindContent(c.contents, hash, language)
  }

  function LookupOid(c: Content, oid: string, language: Language): nat {
    var alias := Alias(oid, language);
    if alias in c.aliases && 0 < c.aliases[alias] <= |c.contents| then c.aliases[alias] else 0
  }

  // ----- what a snapshot shows -----

  /** The fact rows of one content, in row order. */
  function RowsOf(facts: seq<Row>, id: nat): seq<Row> {
    if facts == [] then []
    else RowsOf(facts[..|facts| - 1], id) + if facts[|facts| - 1].content == id then [facts[|facts| - 1]] else []
  }

  predicate RoleAllows(requiredRole: string, role: string) {
    requiredRole == "" || requiredRole == role
  }

  /** The items of a content: its rows joined with the string table. */
  function ItemsOf(c: Content, id: nat): seq<Item> {
    Map(RowsOf(c.facts, id), (r: Row) => Item(r.requiredRole, Decode(c.strings, r.body)))
  }

  /** Every query joins the snapshot's files with the facts of their contents and
      keeps the facts whose required role is the file's role. */
  function Visible(b: Branch, c: Content, snapshot: string, path: string): seq<Item> {
    var place := Placed(snapshot, path);
    if place !in b.files then []
    else
      var member := b.files[place];
      Filter(ItemsOf(c, member.content), (i: Item) => RoleAllows(i.requiredRole, member.role))
  }
}
