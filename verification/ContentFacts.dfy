/** What one merge does to the shared tables: content that was there keeps its
    facts, and content that is new gets the facts of one of its files, once. */
module ContentFacts {
  import opened Prelude
  import opened ContentSpec
  import opened IndexEntry

  // ----- the string dictionary -----

  lemma EncodeDecode(strings: seq<string>, body: Body<string>)
    requires forall v :: v in StringsOf(body) ==> v in strings
    ensures Bound(strings, Encode(strings, body)) && Decode(strings, Encode(strings, body)) == body
  {
    forall v | v in StringsOf(body)
      ensures 0 < FindString(strings, v) <= |strings| && StringAt(strings, FindString(strings, v)) == v
    {
    }
    match body {
      case Symbol(name, qualified, signature, _, _, _) =>
        assert StringsOf(body)[0] == name && StringsOf(body)[1] == qualified && StringsOf(body)[2] == signature;
      case Edge(source, target, _, _, _) =>
        assert StringsOf(body)[0] == source && StringsOf(body)[1] == target;
      case Xml(name, kind, attributes, _) =>
        assert StringsOf(body)[0] == name && StringsOf(body)[1] == kind && StringsOf(body)[2] == attributes;
      case Toc(_, _, _) =>
      case Doc(name, _, _, _) =>
        assert StringsOf(body)[0] == name;
      case AssetRef(_, _, _, _) =>
    }
  }

  lemma DecodeIsStable(strings: seq<string>, more: seq<string>, body: Body<nat>)
    requires strings <= more && Bound(strings, body)
    ensures Bound(more, body) && Decode(more, body) == Decode(strings, body)
  {
  }

  // ----- the rows of one content -----

  predicate AllBound(t: Tables) {
    forall i :: 0 <= i < |t.facts| ==> Bound(t.strings, t.facts[i].body)
  }

  function Read(strings: seq<string>, r: Row): Item {
    Item(r.requiredRole, Decode(strings, r.body))
  }

  /** The items of one content, read off the tables. */
  function ItemsIn(strings: seq<string>, facts: seq<Row>, id: nat): seq<Item> {
    if facts == [] then []
    else
      var last := facts[|facts| - 1];
      ItemsIn(strings, facts[..|facts| - 1], id) + if last.content == id then [Read(strings, last)] else []
  }

  lemma {:induction false} ItemsInIsItemsOf(c: Content, facts: seq<Row>, id: nat)
    ensures ItemsIn(c.strings, facts, id)
         == Map(RowsOf(facts, id), (r: Row) => Item(r.requiredRole, Decode(c.strings, r.body)))
  {
    if facts != [] {
      ItemsInIsItemsOf(c, facts[..|facts| - 1], id);
    }
  }

  lemma {:induction false} ItemsAreStable(strings: seq<string>, more: seq<string>, facts: seq<Row>, id: nat)
    requires strings <= more && forall i :: 0 <= i < |facts| ==> Bound(strings, facts[i].body)
    ensures ItemsIn(more, facts, id) == ItemsIn(strings, facts, id)
  {
    if facts != [] {
      ItemsAreStable(strings, more, facts[..|facts| - 1], id);
      DecodeIsStable(strings, more, facts[|facts| - 1].body);
    }
  }

  lemma {:induction false} NoRowsNoItems(strings: seq<string>, facts: seq<Row>, id: nat)
    requires forall i :: 0 <= i < |facts| ==> facts[i].content != id
    ensures ItemsIn(strings, facts, id) == []
  {
    if facts != [] {
      NoRowsNoItems(strings, facts[..|facts| - 1], id);
    }
  }

  // ----- what a merge inserts -----

  /** The facts of this path go with the content. */
  predicate Feeds(m: Merge, path: string, id: nat) {
    Carries(m, path) && m.pathContent[path] == id
  }

  /** The facts a merge inserts for one content. */
  function Chosen(m: Merge, facts: seq<Fact>, id: nat): seq<Item> {
    if facts == [] then []
    else
      var last := facts[|facts| - 1];
      Chosen(m, facts[..|facts| - 1], id) + if Feeds(m, last.path, id) then [StoredItem(last.item)] else []
  }

  /** Inserting facts adds to each content exactly the facts chosen for it. */
  lemma {:induction false} InsertAddsChosen(m: Merge, t: Tables, facts: seq<Fact>, n: nat, id: nat)
    requires AllBound(t) && n <= |facts|
    ensures var t' := InsertFacts(m, t, facts, n);
            && AllBound(t') && t.strings <= t'.strings
            && ItemsIn(t'.strings, t'.facts, id) == ItemsIn(t.strings, t.facts, id) + Chosen(m, facts[..n], id)
  {
    if n > 0 {
      InsertAddsChosen(m, t, facts, n - 1, id);
      var before := InsertFacts(m, t, facts, n - 1);
      assert facts[..n][..n - 1] == facts[..n - 1];
      InsertAddsOne(m, before, facts[n - 1], id);
    }
  }

  lemma {:induction false} InsertAddsOne(m: Merge, t: Tables, f: Fact, id: nat)
    requires AllBound(t)
    ensures var t' := InsertFact(m, t, f);
            && AllBound(t') && t.strings <= t'.strings
            && ItemsIn(t'.strings, t'.facts, id)
                 == ItemsIn(t.strings, t.facts, id) + if Feeds(m, f.path, id) then [StoredItem(f.item)] else []
  {
    if Carries(m, f.path) {
      var body := Stored(f.item.body);
      var strings := AddStrings(t.strings, StringsOf(body));
      var row := Row(m.pathContent[f.path], f.item.requiredRole, Encode(strings, body));
      EncodeDecode(strings, body);
      ItemsAreStable(t.strings, strings, t.facts, id);
      forall i | 0 <= i < |t.facts| ensures Bound(strings, t.facts[i].body) {
        DecodeIsStable(t.strings, strings, t.facts[i].body);
      }
      assert (t.facts + [row])[..|t.facts|] == t.facts;
    }
  }

  lemma {:induction false} ChosenConcat(m: Merge, a: seq<Fact>, b: seq<Fact>, id: nat)
    ensures Chosen(m, a + b, id) == Chosen(m, a, id) + Chosen(m, b, id)
  {
    if b == [] {
      assert a + b == a;
    } else {
      assert (a + b)[..|a + b| - 1] == a + b[..|b| - 1];
      ChosenConcat(m, a, b[..|b| - 1], id);
    }
  }

  lemma {:induction false} ChosenOfPath(m: Merge, path: string, items: seq<Item>, id: nat)
    ensures Chosen(m, WithPath(path, items), id)
         == if Feeds(m, path, id) then Map(items, StoredItem) else []
  {
    if items != [] {
      var init := items[..|items| - 1];
      hide Feeds, StoredItem, WithPath;
      ChosenOfPath(m, path, init, id);
      PathOfMore(path, items);
      assert Map(items, StoredItem) == Map(init, StoredItem) + [StoredItem(items[|items| - 1])];
    }
  }

  lemma PathOfMore(path: string, items: seq<Item>)
    requires items != []
    ensures var facts := WithPath(path, items);
            && |facts| == |items| && facts[..|items| - 1] == WithPath(path, items[..|items| - 1])
            && facts[|items| - 1] == Fact(path, items[|items| - 1])
  {
  }

  // ----- a batch of results with distinct paths -----

  predicate DistinctPaths(results: seq<Indexed>) {
    forall i, j :: 0 <= i < j < |results| ==> results[i].file.path != results[j].file.path
  }

  /** At most one path feeds a content. */
  lemma NoOtherFeeds(m: Merge, p: string, q: string, id: nat)
    requires Feeds(m, p, id) && p != q
    ensures !Feeds(m, q, id)
  {
  }

  lemma {:induction false} ChosenOfOthers(m: Merge, results: seq<Indexed>, pick: Items -> seq<Item>, id: nat)
    requires forall i :: 0 <= i < |results| ==> !Feeds(m, results[i].file.path, id)
    ensures Chosen(m, Gather(results, pick), id) == []
  {
    if results != [] {
      var init, last := results[..|results| - 1], results[|results| - 1];
      ChosenOfOthers(m, init, pick, id);
      ChosenConcat(m, Gather(init, pick), WithPath(last.file.path, pick(last.items)), id);
      ChosenOfPath(m, last.file.path, pick(last.items), id);
    }
  }

  /** Of the facts of a batch, a content gets those of the one result that feeds it. */
  lemma {:induction false} ChosenOfGather(m: Merge, results: seq<Indexed>, pick: Items -> seq<Item>, k: nat, id: nat)
    requires DistinctPaths(results) && k < |results|
    requires Feeds(m, results[k].file.path, id)
    ensures Chosen(m, Gather(results, pick), id) == Map(pick(results[k].items), StoredItem)
  {
    var n := |results| - 1;
    var init, last := results[..n], results[n];
    hide WithPath, Chosen, StoredItem, Feeds;
    ChosenConcat(m, Gather(init, pick), WithPath(last.file.path, pick(last.items)), id);
    ChosenOfPath(m, last.file.path, pick(last.items), id);
    if k == n {
      forall i | 0 <= i < n ensures !Feeds(m, init[i].file.path, id) {
        assert init[i] == results[i];
        NoOtherFeeds(m, last.file.path, init[i].file.path, id);
      }
      ChosenOfOthers(m, init, pick, id);
    } else {
      ChosenOfGather(m, init, pick, k, id);
      NoOtherFeeds(m, results[k].file.path, last.file.path, id);
    }
  }

  lemma {:induction false} ChosenOfBatch(m: Merge, results: seq<Indexed>, k: nat, id: nat)
    requires DistinctPaths(results) && k < |results|
    requires Feeds(m, results[k].file.path, id)
    ensures Chosen(m, FactsOf(Collect(results)), id) == Map(AllItems(results[k].items), StoredItem)
  {
    var b, items := Collect(results), results[k].items;
    ChosenOfGather(m, results, (i: Items) => i.symbols, k, id);
    ChosenOfGather(m, results, (i: Items) => i.edges, k, id);
    ChosenOfGather(m, results, (i: Items) => i.xml, k, id);
    ChosenOfGather(m, results, (i: Items) => i.toc, k, id);
    ChosenOfGather(m, results, (i: Items) => i.search, k, id);
    ChosenOfGather(m, results, (i: Items) => i.assetRefs, k, id);
    ChosenOfTables(m, b, id);
    MapConcat(items.symbols, items.edges, StoredItem);
    MapConcat(items.symbols + items.edges, items.xml, StoredItem);
    MapConcat(items.symbols + items.edges + items.xml, items.toc, StoredItem);
    MapConcat(items.symbols + items.edges + items.xml + items.toc, items.search, StoredItem);
    MapConcat(items.symbols + items.edges + items.xml + items.toc + items.search, items.assetRefs, StoredItem);
  }

  lemma {:induction false} ChosenOfTables(m: Merge, b: Batch, id: nat)
    ensures Chosen(m, FactsOf(b), id)
         == Chosen(m, b.symbols, id) + Chosen(m, b.edges, id) + Chosen(m, b.xml, id) + Chosen(m, b.toc, id)
            + Chosen(m, b.search, id) + Chosen(m, b.assetRefs, id)
  {
    ChosenConcat(m, b.symbols, b.edges, id);
    ChosenConcat(m, b.symbols + b.edges, b.xml, id);
    ChosenConcat(m, b.symbols + b.edges + b.xml, b.toc, id);
    ChosenConcat(m, b.symbols + b.edges + b.xml + b.toc, b.search, id);
    ChosenConcat(m, b.symbols + b.edges + b.xml + b.toc + b.search, b.assetRefs, id);
  }

  // ----- the content rows -----

  predicate UniqueKeys(contents: seq<ContentRow>) {
    forall i, j :: 0 <= i < j < |contents| ==>
      !(contents[i].contentHash == contents[j].contentHash && contents[i].language == contents[j].language)
  }

  lemma {:induction false} FindExact(contents: seq<ContentRow>, i: nat)
    requires UniqueKeys(contents) && i < |contents|
    ensures FindContent(contents, contents[i].contentHash, contents[i].language) == i + 1
  {
    var id := FindContent(contents, contents[i].contentHash, contents[i].language);
    assert contents[i] in contents;
  }

  lemma {:induction false} FindStable(contents: seq<ContentRow>, more: seq<ContentRow>, hash: string,
        language: Language)
    requires contents <= more && UniqueKeys(more) && FindContent(contents, hash, language) > 0
    ensures FindContent(more, hash, language) == FindContent(contents, hash, language)
  {
    var id := FindContent(contents, hash, language);
    assert more[id - 1] == contents[id - 1];
    FindExact(more, id - 1);
  }

  function RowFor(f: FileFact): ContentRow {
    ContentRow(f.contentHash, f.language, f.astHash, f.size)
  }

  ghost predicate AliasesMatch(contents: seq<ContentRow>, aliases: map<Alias, nat>, ix: Indexer) {
    forall a :: a in aliases ==>
      && 0 < aliases[a] <= |contents|
      && contents[aliases[a] - 1].contentHash == ix.hash(ix.blob(a.gitOid))
      && contents[aliases[a] - 1].language == a.language
  }

  ghost predicate RowsMerged(c: Content, m: Merge) {
    && c.contents <= m.contents && UniqueKeys(m.contents)
    && forall id :: id in m.created <==> |c.contents| < id <= |m.contents|
  }

  /** The path of a file has the row with its key. */
  predicate PathMerged(m: Merge, f: FileFact) {
    f.path in m.pathContent && m.pathContent[f.path] == FindContent(m.contents, f.contentHash, f.language) > 0
  }

  ghost predicate PathsMerged(files: seq<FileFact>, n: nat, m: Merge)
    requires n <= |files|
  {
    && (forall p :: p in m.pathContent ==> HasPath(files[..n], p))
    && forall i :: 0 <= i < n ==> PathMerged(m, files[i])
  }

  predicate HasPath(files: seq<FileFact>, path: string) {
    exists f :: f in files && f.path == path
  }

  ghost predicate MadeFor(files: seq<FileFact>, n: nat, path: string, row: ContentRow)
    requires n <= |files|
  {
    exists i :: 0 <= i < n && files[i].path == path && row == RowFor(files[i])
  }

  /** Each new row was made for the file at its `factPath`. */
  ghost predicate SourcesMerged(files: seq<FileFact>, n: nat, m: Merge)
    requires n <= |files|
  {
    forall id :: id in m.created
        ==> 0 < id <= |m.contents| && id in m.factPath && MadeFor(files, n, m.factPath[id], m.contents[id - 1])
  }

  /** After merging the first `n` files. */
  ghost predicate Merged(c: Content, files: seq<FileFact>, n: nat, m: Merge)
    requires n <= |files|
  {
    RowsMerged(c, m) && PathsMerged(files, n, m) && SourcesMerged(files, n, m)
  }

  predicate DistinctFiles(files: seq<FileFact>) {
    forall i, j :: 0 <= i < j < |files| ==> files[i].path != files[j].path
  }

  lemma {:induction false} MergeFilesIsMerged(c: Content, files: seq<FileFact>, n: nat)
    requires UniqueKeys(c.contents) && DistinctFiles(files) && n <= |files|
    ensures Merged(c, files, n, MergeFiles(c, files, n))
  {
    hide *;
    if n == 0 {
      NothingMerged(c, files);
    } else {
      MergeFilesIsMerged(c, files, n - 1);
      MergeOne(c, files, n, MergeFiles(c, files, n - 1));
      MergeFilesStep(c, files, n);
    }
  }

  lemma {:induction false} NothingMerged(c: Content, files: seq<FileFact>)
    requires UniqueKeys(c.contents)
    ensures Merged(c, files, 0, MergeFiles(c, files, 0))
  {
  }

  lemma MergeFilesStep(c: Content, files: seq<FileFact>, n: nat)
    requires 0 < n <= |files|
    ensures MergeFiles(c, files, n) == MergeFile(MergeFiles(c, files, n - 1), files[n - 1])
  {
  }

  lemma RowsMergedOne(c: Content, f: FileFact, m: Merge)
    requires RowsMerged(c, m)
    ensures RowsMerged(c, MergeFile(m, f))
    ensures FindContent(MergeFile(m, f).contents, f.contentHash, f.language) > 0
  {
    var m' := MergeFile(m, f);
    if FindContent(m.contents, f.contentHash, f.language) == 0 {
      hide FindContent;
      forall r | r in m.contents ensures !(r.contentHash == f.contentHash && r.language == f.language) {}
      assert UniqueKeys(m'.contents);
      FindExact(m'.contents, |m.contents|);
    }
  }

  lemma OtherPathKept(c: Content, m: Merge, f: FileFact, other: FileFact)
    requires RowsMerged(c, m) && PathMerged(m, other) && other.path != f.path
    ensures PathMerged(MergeFile(m, f), other)
  {
    RowsMergedOne(c, f, m);
    FindStable(m.contents, MergeFile(m, f).contents, other.contentHash, other.language);
  }

  lemma HasPathMore(files: seq<FileFact>, n: nat, path: string)
    requires 0 < n <= |files| && (HasPath(files[..n - 1], path) || path == files[n - 1].path)
    ensures HasPath(files[..n], path)
  {
    assert files[..n] == files[..n - 1] + [files[n - 1]];
    if path == files[n - 1].path {
      assert files[n - 1] in files[..n];
    } else {
      var g :| g in files[..n - 1] && g.path == path;
      assert g in files[..n];
    }
  }

  lemma ThisPathMerged(c: Content, m: Merge, f: FileFact)
    requires RowsMerged(c, m)
    ensures PathMerged(MergeFile(m, f), f) && MergeFile(m, f).pathContent.Keys == m.pathContent.Keys + {f.path}
  {
    RowsMergedOne(c, f, m);
  }

  lemma PathsMergedOne(c: Content, files: seq<FileFact>, n: nat, m: Merge)
    requires 0 < n <= |files| && DistinctFiles(files) && RowsMerged(c, m) && PathsMerged(files, n - 1, m)
    ensures PathsMerged(files, n, MergeFile(m, files[n - 1]))
  {
    hide MergeFile, PathMerged, RowsMerged, HasPath;
    var f := files[n - 1];
    var m' := MergeFile(m, f);
    ThisPathMerged(c, m, f);
    forall i | 0 <= i < n ensures PathMerged(m', files[i]) {
      if i < n - 1 {
        OtherPathKept(c, m, f, files[i]);
      }
    }
    forall p | p in m'.pathContent ensures HasPath(files[..n], p) {
      HasPathMore(files, n, p);
    }
  }

  lemma SourcesMergedOne(c: Content, files: seq<FileFact>, n: nat, m: Merge)
    requires 0 < n <= |files| && RowsMerged(c, m) && SourcesMerged(files, n - 1, m)
    ensures SourcesMerged(files, n, MergeFile(m, files[n - 1]))
  {
    var f := files[n - 1];
    var m' := MergeFile(m, f);
    RowsMergedOne(c, f, m);
    forall id | id in m'.created
      ensures 0 < id <= |m'.contents| && id in m'.factPath && MadeFor(files, n, m'.factPath[id], m'.contents[id - 1])
    {
      if id in m.created {
        var i :| 0 <= i < n - 1 && files[i].path == m.factPath[id] && m.contents[id - 1] == RowFor(files[i]);
        assert 0 <= i < n && m'.contents[id - 1] == m.contents[id - 1] && m'.factPath[id] == m.factPath[id];
      } else {
        assert id == |m.contents| + 1;
        assert files[n - 1].path == f.path && m'.contents[id - 1] == RowFor(f);
      }
    }
  }

  lemma MergeOne(c: Content, files: seq<FileFact>, n: nat, m: Merge)
    requires 0 < n <= |files| && DistinctFiles(files) && Merged(c, files, n - 1, m)
    ensures Merged(c, files, n, MergeFile(m, files[n - 1]))
  {
    RowsMergedOne(c, files[n - 1], m);
    PathsMergedOne(c, files, n, m);
    SourcesMergedOne(c, files, n, m);
  }

  // ----- the merge as a whole -----

  /** Tables only grow: nothing that was there is changed, and the rows that are
      added belong to new contents. */
  ghost predicate Extends(c: Content, c': Content) {
    && c.contents <= c'.contents && UniqueKeys(c'.contents)
    && c.strings <= c'.strings && c.facts <= c'.facts
    && AllBound(Tables(c'.strings, c'.facts))
    && forall i :: |c.facts| <= i < |c'.facts| ==> |c.contents| < c'.facts[i].content <= |c'.contents|
  }

  lemma {:induction false} InsertExtends(m: Merge, t: Tables, facts: seq<Fact>, n: nat)
    requires n <= |facts|
    ensures var t' := InsertFacts(m, t, facts, n);
            && t.facts <= t'.facts
            && forall i :: |t.facts| <= i < |t'.facts| ==> t'.facts[i].content in m.created
  {
    if n > 0 {
      hide Stored, Encode, AddStrings;
      InsertExtends(m, t, facts, n - 1);
    }
  }

  lemma {:induction false} PublishExtends(c: Content, batch: Batch)
    requires UniqueKeys(c.contents) && AllBound(Tables(c.strings, c.facts)) && DistinctFiles(batch.files)
    ensures Extends(c, PublishContent(c, batch).0)
    ensures Merged(c, batch.files, |batch.files|, MergeFiles(c, batch.files, |batch.files|))
  {
    MergeFilesIsMerged(c, batch.files, |batch.files|);
    var m := MergeFiles(c, batch.files, |batch.files|);
    var facts := FactsOf(batch);
    hide MergeFiles, FactsOf, PathsMerged, SourcesMerged;
    InsertExtends(m, Tables(c.strings, c.facts), facts, |facts|);
    InsertAddsChosen(m, Tables(c.strings, c.facts), facts, |facts|, 0);
  }

  /** Content that was there keeps its items. */
  lemma {:induction false} OldItemsKept(c: Content, c': Content, id: nat)
    requires Extends(c, c') && AllBound(Tables(c.strings, c.facts)) && id <= |c.contents|
    ensures ItemsIn(c'.strings, c'.facts, id) == ItemsIn(c.strings, c.facts, id)
  {
    ItemsAreStable(c.strings, c'.strings, c.facts, id);
    ItemsOfSplit(c'.strings, c.facts, c'.facts, id);
  }

  lemma {:induction false} ItemsOfSplit(strings: seq<string>, facts: seq<Row>, more: seq<Row>, id: nat)
    requires facts <= more && forall i :: |facts| <= i < |more| ==> more[i].content != id
    ensures ItemsIn(strings, more, id) == ItemsIn(strings, facts, id)
    decreases |more|
  {
    if |facts| < |more| {
      ItemsOfSplit(strings, facts, more[..|more| - 1], id);
    } else {
      assert facts == more;
    }
  }

  /** New content gets the items of the one result that its row was made for. */
  lemma {:induction false} NewItems(c: Content, results: seq<Indexed>, k: nat, id: nat)
    requires UniqueKeys(c.contents) && AllBound(Tables(c.strings, c.facts)) && DistinctPaths(results) && k < |results|
    requires forall i :: 0 <= i < |c.facts| ==> c.facts[i].content <= |c.contents|
    requires var m := MergeFiles(c, Collect(results).files, |results|);
             && id in m.created && id > |c.contents| && Feeds(m, results[k].file.path, id)
    ensures var c' := PublishContent(c, Collect(results)).0;
            ItemsIn(c'.strings, c'.facts, id) == Map(AllItems(results[k].items), StoredItem)
  {
    var batch := Collect(results);
    var m := MergeFiles(c, batch.files, |results|);
    var facts := FactsOf(batch);
    hide MergeFiles, FactsOf, Collect;
    InsertAddsChosen(m, Tables(c.strings, c.facts), facts, |facts|, id);
    NoRowsNoItems(c.strings, c.facts, id);
    assert facts[..|facts|] == facts;
    ChosenOfBatch(m, results, k, id);
  }
}
