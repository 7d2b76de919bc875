/** Every step of the interleaved builds keeps the invariants of `ContentMachine`. */
module ContentSteps {
  import opened Prelude
  import opened Text
  import opened ContentSpec
  import opened IndexEntry
  import opened ContentFacts
  import opened ContentMachine

  // ----- growing tables disturb nothing -----

  lemma KeyIsStable(ix: Indexer, c: Content, c': Content, e: Entry)
    requires Extends(c, c') && KeyOf(ix, c, e) > 0
    ensures KeyOf(ix, c', e) == KeyOf(ix, c, e)
  {
    FindStable(c.contents, c'.contents, ix.hash(e.data), LanguageOf(ix, e.path));
  }

  lemma BuildFrame(ix: Indexer, stored: set<string>, c: Content, c': Content, b: Build)
    requires Extends(c, c') && BuildGood(ix, stored, c, b)
    ensures BuildGood(ix, stored, c', b)
  {
    hide Extends, KeyOf, DistinctEntries, ParseEntry;
    forall i | 0 <= i < |b.done| ensures ResultGood(ix, c', b.done[i], b.results[i]) {
      if b.results[i] != ParseEntry(ix, b.done[i]) {
        KeyIsStable(ix, c, c', b.done[i]);
      }
    }
    if b.merged.Some? {
      forall e | e in b.entries
        ensures e.path in b.merged.value && b.merged.value[e.path] == KeyOf(ix, c', e) > 0
      {
        KeyIsStable(ix, c, c', e);
      }
    }
  }

  lemma SnapshotFrame(ix: Indexer, stored: set<string>, c: Content, c': Content, b: Branch, snapshot: string,
        entries: seq<Entry>)
    requires Extends(c, c') && SnapshotGood(ix, stored, c, b, snapshot, entries)
    ensures SnapshotGood(ix, stored, c', b, snapshot, entries)
  {
    hide Extends, KeyOf, DistinctEntries, RoleOf;
    forall e | e in entries ensures PlacedGood(ix, c', b, snapshot, e) {
      assert PlacedGood(ix, c, b, snapshot, e);
      KeyIsStable(ix, c, c', e);
    }
  }

  lemma DocsFrame(c: Content, c': Content, ids: set<nat>)
    requires Extends(c, c') && forall id :: id in ids ==> id <= |c.contents|
    ensures DocsOf(c', ids) == DocsOf(c, ids)
  {
    forall d | d in DocsOf(c', ids) ensures d in DocsOf(c, ids) {
      assert c'.facts[d - 1].content in ids;
      assert d - 1 < |c.facts|;
      assert c'.facts[d - 1] == c.facts[d - 1];
    }
    forall d | d in DocsOf(c, ids) ensures d in DocsOf(c', ids) {
      assert c'.facts[d - 1] == c.facts[d - 1];
    }
  }

  lemma TextFrame(ix: Indexer, stored: set<string>, c: Content, c': Content, b: Branch)
    requires Extends(c, c') && TextGood(ix, stored, c, b)
    ensures TextGood(ix, stored, c', b)
  {
    DocsFrame(c, c', b.contents);
    forall d | d in b.fullText
      ensures 0 < d <= |c'.facts| && c'.facts[d - 1].body.Doc? && TextIs(ix, stored, c', d, b.fullText[d])
    {
      assert d in DocsOf(c, b.contents);
      var row := c.facts[d - 1];
      assert c'.facts[d - 1] == row && row.content in b.contents;
      assert c'.contents[row.content - 1] == c.contents[row.content - 1];
    }
  }

  lemma BranchFrame(ix: Indexer, stored: set<string>, c: Content, c': Content, b: Branch, product: nat, shown: Shown)
    requires Extends(c, c') && BranchGood(ix, stored, c, b, product, shown)
    ensures BranchGood(ix, stored, c', b, product, shown)
  {
    hide Extends, SnapshotGood, TextGood;
    TextFrame(ix, stored, c, c', b);
    forall snapshot | snapshot in b.ready
      ensures SnapshotGood(ix, stored, c', b, snapshot, shown[(product, snapshot)])
    {
      SnapshotFrame(ix, stored, c, c', b, snapshot, shown[(product, snapshot)]);
    }
  }

  // ----- an entry -----

  lemma ReusedIsGood(ix: Indexer, c: Content, e: Entry, id: nat)
    requires UniqueKeys(c.contents) && 0 < id <= |c.contents|
    requires c.contents[id - 1].contentHash == ix.hash(e.data) && c.contents[id - 1].language == LanguageOf(ix, e.path)
    ensures ResultGood(ix, c, e, ReusedEntry(ix, e, c.contents[id - 1]))
  {
    hide AstFor, ItemsFor, LanguageOf, RoleOf, UniqueKeys;
    FindExact(c.contents, id - 1);
  }

  /** Whatever the store knows and whatever objects exist, an entry ends up parsed
      or pointing at content that holds its bytes. */
  lemma OutcomeIsGood(ix: Indexer, stored: set<string>, c: Content, e: Entry, oidObject: bool, hashObject: bool)
    requires ContentGood(ix, stored, c) && (e.oid != "" ==> ix.blob(e.oid) == e.data)
    ensures ResultGood(ix, c, e, Outcome(ix, c, e, oidObject, hashObject))
  {
    hide AstFor, ItemsFor, RowGood, AllBound, LanguageOf, RoleOf, UniqueKeys, ReusedEntry;
    var language := LanguageOf(ix, e.path);
    var byOid := if e.oid != "" then LookupOid(c, e.oid, language) else 0;
    var byHash := LookupHash(c, ix.hash(e.data), language);
    if byOid > 0 {
      assert Alias(e.oid, language) in c.aliases;
      ReusedIsGood(ix, c, e, byOid);
    }
    if byHash > 0 {
      ReusedIsGood(ix, c, e, byHash);
    }
  }

  // ----- the content transaction -----

  lemma DistinctEntriesGiveFiles(ix: Indexer, c: Content, b: Build)
    requires |b.done| == |b.results| && DistinctEntries(b.done)
    requires forall i :: 0 <= i < |b.done| ==> ResultGood(ix, c, b.done[i], b.results[i])
    ensures DistinctPaths(b.results) && DistinctFiles(Collect(b.results).files)
    ensures forall i :: 0 <= i < |b.done| ==> Collect(b.results).files[i] == b.results[i].file
    ensures forall i :: 0 <= i < |b.done| ==> b.results[i].file.path == b.done[i].path
  {
    hide AstFor, ItemsFor, Gather, RoleOf, LanguageOf;
    forall i | 0 <= i < |b.done| ensures b.results[i].file.path == b.done[i].path {
      assert ResultGood(ix, c, b.done[i], b.results[i]);
    }
  }

  /** A row that a merge creates was made for a parsed entry: an entry that was
      taken over has its row already, and rows have unique keys. */
  lemma {:induction false} NewRowIsParsed(ix: Indexer, c: Content, contents: seq<ContentRow>, e: Entry, r: Indexed,
        id: nat)
    requires c.contents <= contents && UniqueKeys(contents) && |c.contents| < id <= |contents|
    requires ResultGood(ix, c, e, r) && contents[id - 1] == RowFor(r.file)
    ensures r == ParseEntry(ix, e)
    ensures FindContent(contents, r.file.contentHash, r.file.language) == id
  {
    hide AstFor, ItemsFor, RoleOf, LanguageOf;
    FindExact(contents, id - 1);
  }

  lemma {:induction false} NewRowIsGood(ix: Indexer, stored: set<string>, c: Content, b: Build, id: nat)
    requires ContentGood(ix, stored, c) && BuildGood(ix, stored, c, b)
    requires var batch := Collect(b.results);
             && Merged(c, batch.files, |batch.files|, MergeFiles(c, batch.files, |batch.files|))
             && |c.contents| < id <= |PublishContent(c, batch).0.contents|
    ensures RowGood(ix, stored, PublishContent(c, Collect(b.results)).0, id)
  {
    var batch := Collect(b.results);
    var n := |batch.files|;
    var m := MergeFiles(c, batch.files, n);
    DistinctEntriesGiveFiles(ix, c, b);
    MergeTables(c, batch);
    assert c.contents <= m.contents && UniqueKeys(m.contents);
    var i := SourceOfRow(c, batch.files, n, m, id);
    var e, r := b.done[i], b.results[i];
    assert ResultGood(ix, c, e, r) && e in b.done && e in b.entries && e.data in stored;
    assert AllBound(Tables(c.strings, c.facts)) && UniqueKeys(c.contents);
    hide *;
    NewRowIsParsed(ix, c, m.contents, e, r, id);
    SourceCarries(batch.files[i], m, id);
    NewItems(c, b.results, i, id);
    ParsedRowIs(ix, PublishContent(c, batch).0, id, e);
    RowIsGood(ix, stored, PublishContent(c, batch).0, id, e.data);
  }

  lemma RowIsGood(ix: Indexer, stored: set<string>, c: Content, id: nat, data: string)
    requires 0 < id <= |c.contents| && data in stored && RowIs(ix, c, id, data)
    ensures RowGood(ix, stored, c, id)
  {
  }

  lemma SourceOfRow(c: Content, files: seq<FileFact>, n: nat, m: Merge, id: nat) returns (i: nat)
    requires n <= |files| && Merged(c, files, n, m) && |c.contents| < id <= |m.contents|
    ensures i < n && id in m.created && id in m.factPath && files[i].path == m.factPath[id]
    ensures m.contents[id - 1] == RowFor(files[i]) && PathMerged(m, files[i])
  {
    hide UniqueKeys;
    assert MadeFor(files, n, m.factPath[id], m.contents[id - 1]);
    i :| 0 <= i < n && files[i].path == m.factPath[id] && m.contents[id - 1] == RowFor(files[i]);
  }

  lemma SourceCarries(f: FileFact, m: Merge, id: nat)
    requires PathMerged(m, f) && FindContent(m.contents, f.contentHash, f.language) == id
    requires id in m.created && id in m.factPath && m.factPath[id] == f.path
    ensures Feeds(m, f.path, id)
  {
  }

  lemma {:induction false} ParsedRowIs(ix: Indexer, c: Content, id: nat, e: Entry)
    requires 0 < id <= |c.contents| && c.contents[id - 1] == RowFor(ParseEntry(ix, e).file)
    requires ItemsIn(c.strings, c.facts, id) == Map(AllItems(ParseEntry(ix, e).items), StoredItem)
    ensures RowIs(ix, c, id, e.data)
  {
    hide ItemsFor, AstFor, ItemsIn, AllItems;
  }

  lemma OldRowIsGood(ix: Indexer, stored: set<string>, c: Content, c': Content, id: nat)
    requires ContentGood(ix, stored, c) && Extends(c, c') && 0 < id <= |c.contents|
    ensures RowGood(ix, stored, c', id)
  {
    assert RowGood(ix, stored, c, id);
    var data :| data in stored && RowIs(ix, c, id, data);
    OldItemsKept(c, c', id);
    assert c'.contents[id - 1] == c.contents[id - 1];
    assert RowIs(ix, c', id, data);
  }

  lemma {:induction false} AliasesKept(ix: Indexer, c: Content, files: seq<FileFact>, n: nat)
    requires UniqueKeys(c.contents) && DistinctFiles(files) && AliasesMatch(c.contents, c.aliases, ix) && n <= |files|
    requires forall f :: f in files && f.gitOid != "" ==> f.contentHash == ix.hash(ix.blob(f.gitOid))
    ensures AliasesMatch(MergeFiles(c, files, n).contents, MergeFiles(c, files, n).aliases, ix)
  {
    hide *;
    if n == 0 {
      NoFilesMerged(c, files);
    } else {
      AliasesKept(ix, c, files, n - 1);
      MergeFilesIsMerged(c, files, n - 1);
      var m, f := MergeFiles(c, files, n - 1), files[n - 1];
      MergedParts(c, files, n - 1, m);
      assert f in files;
      MergeFilesStep(c, files, n);
      RowsMergedOne(c, f, m);
      AliasesKeptOne(ix, m, f);
    }
  }

  lemma {:induction false} NoFilesMerged(c: Content, files: seq<FileFact>)
    ensures MergeFiles(c, files, 0).contents == c.contents && MergeFiles(c, files, 0).aliases == c.aliases
  {
  }

  lemma MergedParts(c: Content, files: seq<FileFact>, n: nat, m: Merge)
    requires n <= |files| && Merged(c, files, n, m)
    ensures RowsMerged(c, m) && PathsMerged(files, n, m) && SourcesMerged(files, n, m)
  {
  }

  lemma AliasesKeptOne(ix: Indexer, m: Merge, f: FileFact)
    requires AliasesMatch(m.contents, m.aliases, ix)
    requires f.gitOid != "" ==> f.contentHash == ix.hash(ix.blob(f.gitOid))
    requires FindContent(MergeFile(m, f).contents, f.contentHash, f.language) > 0
    ensures AliasesMatch(MergeFile(m, f).contents, MergeFile(m, f).aliases, ix)
  {
    var m' := MergeFile(m, f);
    assert m.contents <= m'.contents;
    forall a | a in m'.aliases
      ensures 0 < m'.aliases[a] <= |m'.contents|
      ensures m'.contents[m'.aliases[a] - 1].contentHash == ix.hash(ix.blob(a.gitOid))
      ensures m'.contents[m'.aliases[a] - 1].language == a.language
    {
      if a in m.aliases {
        assert m'.aliases[a] == m.aliases[a] && m'.contents[m.aliases[a] - 1] == m.contents[m.aliases[a] - 1];
      }
    }
  }

  lemma {:induction false} RowsStayGood(ix: Indexer, stored: set<string>, c: Content, b: Build)
    requires ContentGood(ix, stored, c) && BuildGood(ix, stored, c, b)
    requires Extends(c, PublishContent(c, Collect(b.results)).0)
    requires var files := Collect(b.results).files; Merged(c, files, |files|, MergeFiles(c, files, |files|))
    ensures var c' := PublishContent(c, Collect(b.results)).0;
            forall id :: 0 < id <= |c'.contents| ==> RowGood(ix, stored, c', id)
  {
    hide *;
    var c' := PublishContent(c, Collect(b.results)).0;
    forall id | 0 < id <= |c'.contents| ensures RowGood(ix, stored, c', id) {
      if id <= |c.contents| {
        OldRowIsGood(ix, stored, c, c', id);
      } else {
        NewRowIsGood(ix, stored, c, b, id);
      }
    }
  }

  lemma RowsStayInRange(c: Content, c': Content)
    requires Extends(c, c') && forall i :: 0 <= i < |c.facts| ==> 0 < c.facts[i].content <= |c.contents|
    ensures forall i :: 0 <= i < |c'.facts| ==> 0 < c'.facts[i].content <= |c'.contents|
  {
    forall i | 0 <= i < |c'.facts| ensures 0 < c'.facts[i].content <= |c'.contents| {
      if i < |c.facts| {
        assert c'.facts[i] == c.facts[i];
      }
    }
  }

  lemma MergeKeepsContent(ix: Indexer, stored: set<string>, c: Content, b: Build)
    requires ContentGood(ix, stored, c) && BuildGood(ix, stored, c, b)
    ensures var c' := PublishContent(c, Collect(b.results)).0;
            ContentGood(ix, stored, c') && Extends(c, c')
  {
    var batch := Collect(b.results);
    var c' := PublishContent(c, batch).0;
    hide PublishContent, Collect, Merged, MergeFiles, RowGood, BuildGood, FactsOf, DistinctPaths, DistinctFiles,
        AliasesMatch, AllBound, UniqueKeys, ResultGood;
    DistinctFilesOfBuild(ix, stored, c, b);
    PublishExtends(c, batch);
    FilesNameTheirBytes(ix, stored, c, b);
    AliasesKept(ix, c, batch.files, |batch.files|);
    MergeTables(c, batch);
    RowsStayGood(ix, stored, c, b);
    RowsStayInRange(c, c');
  }

  lemma DistinctFilesOfBuild(ix: Indexer, stored: set<string>, c: Content, b: Build)
    requires BuildGood(ix, stored, c, b)
    ensures DistinctFiles(Collect(b.results).files)
  {
    hide ResultGood, Collect, DistinctFiles, DistinctPaths, DistinctEntries;
    DistinctEntriesGiveFiles(ix, c, b);
  }

  lemma {:induction false} MergeTables(c: Content, batch: Batch)
    ensures var m := MergeFiles(c, batch.files, |batch.files|);
            var (c', ids) := PublishContent(c, batch);
            c'.aliases == m.aliases && c'.contents == m.contents && ids == m.pathContent
  {
  }

  lemma FilesNameTheirBytes(ix: Indexer, stored: set<string>, c: Content, b: Build)
    requires BuildGood(ix, stored, c, b)
    ensures forall f :: f in Collect(b.results).files && f.gitOid != "" ==> f.contentHash == ix.hash(ix.blob(f.gitOid))
  {
    hide AstFor, ItemsFor, RoleOf, LanguageOf, Gather;
    forall f | f in Collect(b.results).files && f.gitOid != "" ensures f.contentHash == ix.hash(ix.blob(f.gitOid)) {
      var i :| 0 <= i < |b.results| && b.results[i].file == f;
      assert ResultGood(ix, c, b.done[i], b.results[i]);
      assert b.done[i] in b.done;
    }
  }

  /** The file of a result names the entry it was made from. */
  ghost predicate FileOf(ix: Indexer, e: Entry, f: FileFact) {
    && f.path == e.path && f.contentHash == ix.hash(e.data) && f.language == LanguageOf(ix, e.path)
    && f.role == RoleOf(ix, e.path)
  }

  lemma FilesOfBuild(ix: Indexer, stored: set<string>, c: Content, b: Build)
    requires BuildGood(ix, stored, c, b)
    ensures |Collect(b.results).files| == |b.done|
    ensures forall i :: 0 <= i < |b.done| ==> FileOf(ix, b.done[i], Collect(b.results).files[i])
    ensures DistinctFiles(Collect(b.results).files)
  {
    DistinctEntriesGiveFiles(ix, c, b);
    hide AstFor, ItemsFor, RoleFor, LanguageFor, Gather, DistinctEntries, DistinctFiles, DistinctPaths;
    forall i | 0 <= i < |b.done| ensures FileOf(ix, b.done[i], Collect(b.results).files[i]) {
      assert ResultGood(ix, c, b.done[i], b.results[i]);
    }
  }

  lemma MergedIdsAreKeys(ix: Indexer, stored: set<string>, c: Content, b: Build)
    requires ContentGood(ix, stored, c) && BuildGood(ix, stored, c, b) && AllDone(b)
    ensures var (c', ids) := PublishContent(c, Collect(b.results));
            MergedGood(ix, c', b.(merged := Some(ids)))
  {
    var batch := Collect(b.results);
    var n := |batch.files|;
    var m := MergeFiles(c, batch.files, n);
    FilesOfBuild(ix, stored, c, b);
    MergeFilesIsMerged(c, batch.files, n);
    MergeTables(c, batch);
    MergedParts(c, batch.files, n, m);
    assert forall e :: e in b.done ==> e in b.entries;
    hide *;
    PathsAreKeys(ix, b.done, batch.files, m);
    MergedGoodOf(ix, PublishContent(c, batch).0, b, m.pathContent);
  }

  /** The ids of a merge, read by entry. */
  ghost predicate IdsAreKeys(ix: Indexer, contents: seq<ContentRow>, done: seq<Entry>, ids: map<string, nat>) {
    && (forall e :: e in done ==>
          e.path in ids && ids[e.path] == FindContent(contents, ix.hash(e.data), LanguageOf(ix, e.path)) > 0)
    && forall p :: p in ids ==> exists e :: e in done && e.path == p
  }

  lemma PathsAreKeys(ix: Indexer, done: seq<Entry>, files: seq<FileFact>, m: Merge)
    requires |files| == |done| && PathsMerged(files, |files|, m)
    requires forall i :: 0 <= i < |done| ==> FileOf(ix, done[i], files[i])
    ensures IdsAreKeys(ix, m.contents, done, m.pathContent)
  {
    hide LanguageOf, RoleOf, FindContent;
    forall e | e in done
      ensures e.path in m.pathContent
      ensures m.pathContent[e.path] == FindContent(m.contents, ix.hash(e.data), LanguageOf(ix, e.path)) > 0
    {
      var i :| 0 <= i < |done| && done[i] == e;
      assert FileOf(ix, done[i], files[i]) && PathMerged(m, files[i]);
    }
    forall p | p in m.pathContent ensures exists e :: e in done && e.path == p {
      assert HasPath(files[..|files|], p);
      var f :| f in files[..|files|] && f.path == p;
      var i :| 0 <= i < |files| && files[i] == f;
      assert FileOf(ix, done[i], files[i]) && done[i] in done;
    }
  }

  lemma MergedGoodOf(ix: Indexer, c: Content, b: Build, ids: map<string, nat>)
    requires AllDone(b) && IdsAreKeys(ix, c.contents, b.done, ids) && forall e :: e in b.done ==> e in b.entries
    ensures MergedGood(ix, c, b.(merged := Some(ids)))
  {
    hide LanguageOf, FindContent;
  }

  lemma MergeKeepsGood(ix: Indexer, stored: set<string>, s: Sys, b: nat)
    requires Good(ix, stored, s) && s.holder.None? && b in s.builds && AllDone(s.builds[b])
    ensures Good(ix, stored, MergeStep(s, b))
  {
    var build := s.builds[b];
    var (c', ids) := PublishContent(s.content, Collect(build.results));
    MergeKeepsContent(ix, stored, s.content, build);
    MergedIdsAreKeys(ix, stored, s.content, build);
    hide ContentGood, Extends, PublishContent, Collect, MergedGood, AllDone, DistinctEntries, ResultGood;
    var s' := MergeStep(s, b);
    forall x | x in s'.builds ensures BuildGood(ix, stored, c', s'.builds[x]) {
      BuildFrame(ix, stored, s.content, c', s.builds[x]);
    }
    hide BuildGood;
    forall p ensures BranchGood(ix, stored, c', BranchOf(s', p), p, s'.shown) {
      BranchFrame(ix, stored, s.content, c', BranchOf(s, p), p, s.shown);
    }
  }

  // ----- the branch transaction -----

  ghost predicate OthersKept(files: map<Placed, Member>, placed: map<Placed, Member>, snapshot: string) {
    forall p: Placed :: p.snapshot != snapshot
        ==> (p in placed <==> p in files) && (p in files ==> placed[p] == files[p])
  }

  ghost predicate OnlyBatch(placed: map<Placed, Member>, snapshot: string, batch: seq<FileFact>, n: nat)
    requires n <= |batch|
  {
    forall p: Placed :: p in placed && p.snapshot == snapshot ==> exists i :: 0 <= i < n && batch[i].path == p.path
  }

  predicate FilePlaced(placed: map<Placed, Member>, snapshot: string, f: FileFact, ids: map<string, nat>) {
    var place := Placed(snapshot, f.path);
    place in placed && f.path in ids && placed[place] == Member(ids[f.path], f.role)
  }

  ghost predicate AllPlaced(placed: map<Placed, Member>, snapshot: string, batch: seq<FileFact>, ids: map<string, nat>,
        n: nat)
    requires n <= |batch|
  {
    forall i :: 0 <= i < n ==> FilePlaced(placed, snapshot, batch[i], ids)
  }

  lemma PlacedOne(files: map<Placed, Member>, before: map<Placed, Member>, snapshot: string, batch: seq<FileFact>,
        ids: map<string, nat>, n: nat)
    requires 0 < n <= |batch| && batch[n - 1].path in ids && Placed(snapshot, batch[n - 1].path) !in before
    requires OthersKept(files, before, snapshot) && OnlyBatch(before, snapshot, batch, n - 1)
    requires AllPlaced(before, snapshot, batch, ids, n - 1)
    ensures var f := batch[n - 1];
            var placed := before[Placed(snapshot, f.path) := Member(ids[f.path], f.role)];
            OthersKept(files, placed, snapshot) && OnlyBatch(placed, snapshot, batch, n)
                && AllPlaced(placed, snapshot, batch, ids, n)
  {
    var f := batch[n - 1];
    var placed := before[Placed(snapshot, f.path) := Member(ids[f.path], f.role)];
    forall p | p in placed && p.snapshot == snapshot ensures exists i :: 0 <= i < n && batch[i].path == p.path {
      if p == Placed(snapshot, f.path) {
        assert batch[n - 1].path == p.path;
      } else {
        var i :| 0 <= i < n - 1 && batch[i].path == p.path;
        assert 0 <= i < n;
      }
    }
    forall i | 0 <= i < n ensures FilePlaced(placed, snapshot, batch[i], ids) {
      assert i < n - 1 ==> FilePlaced(before, snapshot, batch[i], ids);
    }
  }

  /** The files of other snapshots stay; those of this one are the batch's. */
  lemma {:induction false} PlacedFiles(files: map<Placed, Member>, snapshot: string, batch: seq<FileFact>,
        ids: map<string, nat>, n: nat)
    requires n <= |batch| && PlaceFiles(files, snapshot, batch, ids, n).Ok?
    ensures var placed := PlaceFiles(files, snapshot, batch, ids, n).value;
            OthersKept(files, placed, snapshot) && OnlyBatch(placed, snapshot, batch, n)
                && AllPlaced(placed, snapshot, batch, ids, n)
  {
    if n > 0 {
      hide OthersKept, OnlyBatch, AllPlaced;
      PlacedFiles(files, snapshot, batch, ids, n - 1);
      PlacedOne(files, PlaceFiles(files, snapshot, batch, ids, n - 1).value, snapshot, batch, ids, n);
    }
  }

  lemma DocsOfUnion(c: Content, a: set<nat>, b: set<nat>)
    ensures DocsOf(c, a + b) == DocsOf(c, a) + DocsOf(c, b)
  {
  }

  lemma IndexKeepsText(ix: Indexer, stored: set<string>, c: Content, b: Branch, ids: set<nat>,
        objects: map<string, string>)
    requires TextGood(ix, stored, c, b) && forall id :: id in ids ==> 0 < id <= |c.contents|
    requires !ObjectsMissing(c, ids - b.contents - {0}, objects)
    requires forall h :: h in objects ==> objects[h] in stored && ix.hash(objects[h]) == h
    ensures TextGood(ix, stored, c, IndexText(b, c, ids, objects))
    ensures IndexText(b, c, ids, objects).contents == b.contents + ids
  {
    var added := ids - b.contents - {0};
    assert IndexText(b, c, ids, objects).contents == b.contents + ids;
    assert b.contents + added == b.contents + ids;
    DocsOfUnion(c, b.contents, added);
    AddedTextsAre(ix, stored, c, added, objects);
    hide TextIs, ObjectsMissing, DocTextAt, NeedsObject, DocsOf;
  }

  lemma AddedTextsAre(ix: Indexer, stored: set<string>, c: Content, added: set<nat>, objects: map<string, string>)
    requires !ObjectsMissing(c, added, objects)
    requires forall h :: h in objects ==> objects[h] in stored && ix.hash(objects[h]) == h
    ensures forall d :: d in DocTexts(c, objects, added) ==>
              0 < d <= |c.facts| && c.facts[d - 1].body.Doc? && TextIs(ix, stored, c, d, DocTexts(c, objects, added)[d])
  {
    hide TextIs, ObjectsMissing, DocTextAt, NeedsObject;
    forall d | d in DocsOf(c, added)
      ensures 0 < d <= |c.facts| && c.facts[d - 1].body.Doc? && TextIs(ix, stored, c, d, DocTextAt(c, objects, d))
    {
      AddedTextIs(ix, stored, c, added, d, objects);
    }
  }

  lemma AddedTextIs(ix: Indexer, stored: set<string>, c: Content, added: set<nat>, d: nat, objects: map<string, string>)
    requires d in DocsOf(c, added) && !ObjectsMissing(c, added, objects)
    requires forall h :: h in objects ==> objects[h] in stored && ix.hash(objects[h]) == h
    ensures TextIs(ix, stored, c, d, DocTextAt(c, objects, d))
  {
    var row := c.facts[d - 1];
    if NeedsObject(row) {
      var hash := HashOf(c, row.content);
      assert hash in objects;
      assert objects[hash] in stored && ix.hash(objects[hash]) == hash;
    }
  }

  /** The files of a batch are those of the entries they were made from. */
  ghost predicate FilesOf(ix: Indexer, done: seq<Entry>, files: seq<FileFact>) {
    |files| == |done| && forall i :: 0 <= i < |done| ==> FileOf(ix, done[i], files[i])
  }

  lemma EntryIsPlaced(ix: Indexer, c: Content, b: Branch, snapshot: string, done: seq<Entry>, files: seq<FileFact>,
        ids: map<string, nat>, e: Entry)
    requires FilesOf(ix, done, files) && e in done && AllPlaced(b.files, snapshot, files, ids, |files|)
    requires e.path in ids && ids[e.path] == KeyOf(ix, c, e) > 0 && b.contents >= ids.Values
    ensures PlacedGood(ix, c, b, snapshot, e)
  {
    hide RoleOf, LanguageOf, KeyOf;
    var i :| 0 <= i < |done| && done[i] == e;
    assert FileOf(ix, e, files[i]) && FilePlaced(b.files, snapshot, files[i], ids);
    assert ids[e.path] in ids.Values;
  }

  lemma OnlyEntriesPlaced(ix: Indexer, placed: map<Placed, Member>, snapshot: string, done: seq<Entry>,
        files: seq<FileFact>, p: Placed)
    requires FilesOf(ix, done, files) && OnlyBatch(placed, snapshot, files, |files|) && p in placed
        && p.snapshot == snapshot
    ensures exists e :: e in done && e.path == p.path
  {
    hide RoleOf, LanguageOf;
    var i :| 0 <= i < |files| && files[i].path == p.path;
    assert FileOf(ix, done[i], files[i]) && done[i] in done;
  }

  /** What a merged build promises of its entries. */
  lemma MergedEntries(ix: Indexer, stored: set<string>, c: Content, b: Build)
    requires BuildGood(ix, stored, c, b) && b.merged.Some?
    ensures DistinctEntries(b.entries) && FilesOf(ix, b.done, Collect(b.results).files)
    ensures forall e :: e in b.entries ==> e in b.done && e.data in stored && e.path in b.merged.value
    ensures forall e :: e in b.entries ==> b.merged.value[e.path] == KeyOf(ix, c, e) > 0
    ensures forall e :: e in b.done ==> e in b.entries
  {
    FilesOfBuild(ix, stored, c, b);
    hide FileOf, DistinctEntries, Collect, KeyOf, ResultGood;
  }

  lemma {:induction false} PublishedSnapshot(ix: Indexer, stored: set<string>, c: Content, b: Build, branch: Branch,
        files: map<Placed, Member>)
    requires BuildGood(ix, stored, c, b) && b.merged.Some?
    requires PlaceFiles(files, b.snapshot, Collect(b.results).files, b.merged.value, |Collect(b.results).files|)
        == Ok(branch.files)
    requires branch.contents >= b.merged.value.Values
    ensures SnapshotGood(ix, stored, c, branch, b.snapshot, b.entries)
  {
    hide KeyOf, RoleOf, LanguageOf, PlacedGood, BuildGood, Collect, PlaceFiles, OthersKept, OnlyBatch, AllPlaced,
        FilesOf, DistinctEntries;
    var batch := Collect(b.results).files;
    MergedEntries(ix, stored, c, b);
    PlacedFiles(files, b.snapshot, batch, b.merged.value, |batch|);
    forall e | e in b.entries ensures PlacedGood(ix, c, branch, b.snapshot, e) {
      EntryIsPlaced(ix, c, branch, b.snapshot, b.done, batch, b.merged.value, e);
    }
    forall p | p in branch.files && p.snapshot == b.snapshot ensures exists e :: e in b.entries && e.path == p.path {
      OnlyEntriesPlaced(ix, branch.files, b.snapshot, b.done, batch, p);
    }
  }

  lemma OtherSnapshotKept(ix: Indexer, stored: set<string>, c: Content, b: Branch, b': Branch, published: string,
        snapshot: string, entries: seq<Entry>)
    requires SnapshotGood(ix, stored, c, b, snapshot, entries) && b.contents <= b'.contents
    requires OthersKept(b.files, b'.files, published) && snapshot != published
    ensures SnapshotGood(ix, stored, c, b', snapshot, entries)
  {
    hide KeyOf, RoleOf, DistinctEntries;
    forall e | e in entries ensures PlacedGood(ix, c, b', snapshot, e) {
      assert PlacedGood(ix, c, b, snapshot, e);
      assert Placed(snapshot, e.path).snapshot != published;
    }
  }

  lemma MergedIdsInRange(ix: Indexer, c: Content, b: Build)
    requires MergedGood(ix, c, b) && b.merged.Some?
    ensures forall id :: id in b.merged.value.Values ==> 0 < id <= |c.contents|
  {
    var ids := b.merged.value;
    forall id | id in ids.Values ensures 0 < id <= |c.contents| {
      var p :| p in ids && ids[p] == id;
      var e :| e in b.entries && e.path == p;
    }
  }

  /** What a branch transaction that commits does to the branch. */
  lemma {:induction false} PublishBranchParts(b: Branch, c: Content, snapshot: string, files: seq<FileFact>,
        ids: map<string, nat>, objects: map<string, string>)
    requires PublishBranch(b, c, snapshot, files, ids, objects).Ok?
    ensures var b' := PublishBranch(b, c, snapshot, files, ids, objects).value;
            && PlaceFiles(b.files, snapshot, files, ids, |files|) == Ok(b'.files)
            && !ObjectsMissing(c, ids.Values - b.contents - {0}, objects)
            && b'.ready == b.ready + {snapshot}
            && b'.(ready := b.ready, active := b.active) == IndexText(b.(files := b'.files), c, ids.Values, objects)
  {
    hide PlaceFiles, ObjectsMissing, Clashes, DocTexts;
  }

  lemma TextIgnoresRest(ix: Indexer, stored: set<string>, c: Content, b: Branch, b': Branch)
    requires TextGood(ix, stored, c, b) && b'.contents == b.contents && b'.fullText == b.fullText
    ensures TextGood(ix, stored, c, b')
  {
    hide TextIs, DocsOf;
  }

  lemma ReadySnapshots(ix: Indexer, stored: set<string>, c: Content, b: Branch, b': Branch, product: nat,
        snapshot: string, entries: seq<Entry>, shown: Shown)
    requires BranchGood(ix, stored, c, b, product, shown)
    requires b'.ready == b.ready + {snapshot} && OthersKept(b.files, b'.files, snapshot) && b.contents <= b'.contents
    requires SnapshotGood(ix, stored, c, b', snapshot, entries) && TextGood(ix, stored, c, b')
    ensures BranchGood(ix, stored, c, b', product, shown[(product, snapshot) := entries])
  {
    hide SnapshotGood, TextGood, OthersKept;
    var after := shown[(product, snapshot) := entries];
    forall s | s in b'.ready ensures SnapshotGood(ix, stored, c, b', s, after[(product, s)]) {
      if s != snapshot {
        assert after[(product, s)] == shown[(product, s)];
        OtherSnapshotKept(ix, stored, c, b, b', snapshot, s, shown[(product, s)]);
      }
    }
  }

  /** The text of a branch after a publish that commits. */
  lemma PublishedText(ix: Indexer, stored: set<string>, c: Content, b: Branch, b': Branch, ids: set<nat>,
        objects: map<string, string>)
    requires TextGood(ix, stored, c, b) && forall id :: id in ids ==> 0 < id <= |c.contents|
    requires !ObjectsMissing(c, ids - b.contents - {0}, objects)
    requires forall h :: h in objects ==> objects[h] in stored && ix.hash(objects[h]) == h
    requires b'.(ready := b.ready, active := b.active) == IndexText(b.(files := b'.files), c, ids, objects)
    ensures TextGood(ix, stored, c, b') && b'.contents == b.contents + ids
  {
    hide TextGood, IndexText, ObjectsMissing;
    var placed := b.(files := b'.files);
    TextIgnoresRest(ix, stored, c, b, placed);
    IndexKeepsText(ix, stored, c, placed, ids, objects);
    TextIgnoresRest(ix, stored, c, IndexText(placed, c, ids, objects), b');
  }

  lemma MergedIds(ix: Indexer, stored: set<string>, c: Content, b: Build)
    requires BuildGood(ix, stored, c, b) && b.merged.Some?
    ensures forall id :: id in b.merged.value.Values ==> 0 < id <= |c.contents|
  {
    hide MergedGood;
    MergedIdsInRange(ix, c, b);
  }

  lemma TextOfBranch(ix: Indexer, stored: set<string>, c: Content, b: Branch, product: nat, shown: Shown)
    requires BranchGood(ix, stored, c, b, product, shown)
    ensures TextGood(ix, stored, c, b)
  {
    hide TextGood, SnapshotGood;
  }

  lemma PublishKeepsBranch(ix: Indexer, stored: set<string>, c: Content, b: Build, branch: Branch, shown: Shown,
        objects: map<string, string>)
    requires BuildGood(ix, stored, c, b) && b.merged.Some? && BranchGood(ix, stored, c, branch, b.product, shown)
    requires forall h :: h in objects ==> objects[h] in stored && ix.hash(objects[h]) == h
    requires PublishBranch(branch, c, b.snapshot, Collect(b.results).files, b.merged.value, objects).Ok?
    ensures BranchGood(ix, stored, c,
        PublishBranch(branch, c, b.snapshot, Collect(b.results).files, b.merged.value, objects).value,
                       b.product, shown[(b.product, b.snapshot) := b.entries])
  {
    hide *;
    var files, ids := Collect(b.results).files, b.merged.value;
    var branch' := PublishBranch(branch, c, b.snapshot, files, ids, objects).value;
    PublishBranchParts(branch, c, b.snapshot, files, ids, objects);
    MergedIds(ix, stored, c, b);
    TextOfBranch(ix, stored, c, branch, b.product, shown);
    PublishedText(ix, stored, c, branch, branch', ids.Values, objects);
    PublishedSnapshot(ix, stored, c, b, branch', branch.files);
    PlacedFiles(branch.files, b.snapshot, files, ids, |files|);
    ReadySnapshots(ix, stored, c, branch, branch', b.product, b.snapshot, b.entries, shown);
  }

  lemma PublishKeepsGood(ix: Indexer, stored: set<string>, s: Sys, a: Action)
    requires Good(ix, stored, s) && Enabled(ix, stored, s, a) && a.PublishSnapshot?
    ensures Good(ix, stored, PublishStep(s, a.build, a.objects))
  {
    var b := s.builds[a.build];
    var s' := PublishStep(s, a.build, a.objects);
    var r := PublishBranch(BranchOf(s, b.product), s.content, b.snapshot, Collect(b.results).files, b.merged.value,
        a.objects);
    hide PublishBranch, ContentGood, BuildGood, BranchGood, Collect;
    if r.Ok? {
      PublishKeepsBranch(ix, stored, s.content, b, BranchOf(s, b.product), s.shown, a.objects);
      forall p ensures BranchGood(ix, stored, s'.content, BranchOf(s', p), p, s'.shown) {
        if p != b.product {
          OtherProductKept(ix, stored, s.content, BranchOf(s, p), p, s.shown, b.product, b.snapshot, b.entries);
        }
      }
    } else {
      forall p ensures BranchOf(s', p) == BranchOf(s, p) {}
    }
  }

  lemma OtherProductKept(ix: Indexer, stored: set<string>, c: Content, b: Branch, product: nat, shown: Shown,
        other: nat, snapshot: string, entries: seq<Entry>)
    requires BranchGood(ix, stored, c, b, product, shown) && product != other
    ensures BranchGood(ix, stored, c, b, product, shown[(other, snapshot) := entries])
  {
    hide SnapshotGood, TextGood;
    forall s | s in b.ready
      ensures SnapshotGood(ix, stored, c, b, s, shown[(other, snapshot) := entries][(product, s)])
    {
      assert shown[(other, snapshot) := entries][(product, s)] == shown[(product, s)];
    }
  }

  // ----- every step -----

  lemma BuildProcessed(ix: Indexer, stored: set<string>, c: Content, b: Build, e: Entry, r: Indexed)
    requires BuildGood(ix, stored, c, b) && b.merged.None? && e in b.entries && e !in b.done && ResultGood(ix, c, e, r)
    ensures BuildGood(ix, stored, c, b.(done := b.done + [e], results := b.results + [r]))
  {
    hide ResultGood;
    forall i | 0 <= i < |b.done| ensures b.done[i].path != e.path {
      assert b.done[i] in b.done && b.done[i] in b.entries && e in b.entries;
    }
  }

  lemma ProcessKeepsGood(ix: Indexer, stored: set<string>, s: Sys, a: Action)
    requires Good(ix, stored, s) && Enabled(ix, stored, s, a) && a.Process?
    ensures Good(ix, stored, Step(ix, stored, s, a))
  {
    var b := s.builds[a.build];
    hide ContentGood, BranchGood, ResultGood, Outcome, DistinctEntries;
    assert BuildGood(ix, stored, s.content, b);
    OutcomeIsGood(ix, stored, s.content, a.entry, a.oidObject, a.hashObject);
    BuildProcessed(ix, stored, s.content, b, a.entry, Outcome(ix, s.content, a.entry, a.oidObject, a.hashObject));
    hide BuildGood;
    var s' := Step(ix, stored, s, a);
    forall p ensures BranchOf(s', p) == BranchOf(s, p) {}
  }

  lemma StartKeepsGood(ix: Indexer, stored: set<string>, s: Sys, a: Action)
    requires Good(ix, stored, s) && Enabled(ix, stored, s, a) && (a.Start? || a.Stop?)
    ensures Good(ix, stored, Step(ix, stored, s, a))
  {
    hide ContentGood, BranchGood, ResultGood, DistinctEntries;
    assert a.Start? ==> DistinctEntries(a.entries);
    assert DistinctEntries([]) by { NoEntries(); }
    var s' := Step(ix, stored, s, a);
    forall p ensures BranchOf(s', p) == BranchOf(s, p) {}
  }

  lemma NoEntries()
    ensures DistinctEntries([])
  {
  }

  lemma StepKeepsGood(ix: Indexer, stored: set<string>, s: Sys, a: Action)
    requires Good(ix, stored, s) && Enabled(ix, stored, s, a)
    ensures Good(ix, stored, Step(ix, stored, s, a))
  {
    hide Good, PublishStep, MergeStep, AllDone;
    match a {
      case Start(_, _, _, _) => StartKeepsGood(ix, stored, s, a);
      case Process(_, _, _, _) => ProcessKeepsGood(ix, stored, s, a);
      case MergeContent(b) => MergeKeepsGood(ix, stored, s, b);
      case PublishSnapshot(_, _) => PublishKeepsGood(ix, stored, s, a);
      case Stop(_) => StartKeepsGood(ix, stored, s, a);
    }
  }

  lemma InitialIsGood(ix: Indexer, stored: set<string>)
    ensures Good(ix, stored, INITIAL)
  {
  }

  /** What a worker makes of an entry: it takes over the row that the Git id names, or
      else the row with the hash and the language of the bytes, if that row's object is
      still there, and brings no facts; or it parses the bytes. */
  lemma EntryIsReused(ix: Indexer, c: Content, e: Entry, oidObject: bool, hashObject: bool)
    requires UniqueKeys(c.contents)
    ensures var language, alias := LanguageOf(ix, e.path), Alias(e.oid, LanguageOf(ix, e.path));
            var r := Outcome(ix, c, e, oidObject, hashObject);
            if e.oid != "" && alias in c.aliases && 0 < c.aliases[alias] <= |c.contents| && oidObject then
              TakesOver(ix, e, c.contents[c.aliases[alias] - 1], r)
            else if hashObject && exists row :: row in c.contents && HasBytes(ix, e, row) then
              forall row :: row in c.contents && HasBytes(ix, e, row) ==> TakesOver(ix, e, row, r)
            else
              && r.items == ItemsFor(ix, language, e.data)
              && r.file == FileFact(e.path, ix.hash(e.data), r.file.astHash, language, RoleOf(ix, e.path), e.oid,
                  |e.data|)
              && r.file.astHash == (if language in {LuaFile, XmlFile, TocFile} && ix.parse(language, e.data).Some?
                                    then ix.parse(language, e.data).value.ast else "")
  {
    hide LanguageOf, RoleOf, ItemsFor;
    var language := LanguageOf(ix, e.path);
    var id := FindContent(c.contents, ix.hash(e.data), language);
    forall row | row in c.contents && HasBytes(ix, e, row) ensures id > 0 && row == c.contents[id - 1] {
      var i :| 0 <= i < |c.contents| && c.contents[i] == row;
    }
    assert id > 0 ==> c.contents[id - 1] in c.contents;
  }

  /** The row is that of the bytes of the entry, in the entry's language. */
  predicate HasBytes(ix: Indexer, e: Entry, row: ContentRow) {
    row.contentHash == ix.hash(e.data) && row.language == LanguageOf(ix, e.path)
  }

  predicate TakesOver(ix: Indexer, e: Entry, row: ContentRow, r: Indexed) {
    && r.items == NO_ITEMS
    && r.file == FileFact(e.path, row.contentHash, row.astHash, row.language, RoleOf(ix, e.path), e.oid, row.size)
  }

  /** A publish makes its snapshot ready and the active one, and touches the files of no
      other snapshot. */
  lemma PublishIsRecorded(b: Branch, c: Content, snapshot: string, files: seq<FileFact>, ids: map<string, nat>,
        objects: map<string, string>)
    requires PublishBranch(b, c, snapshot, files, ids, objects).Ok?
    ensures var b' := PublishBranch(b, c, snapshot, files, ids, objects).value;
            && b'.active == snapshot && b'.ready == b.ready + {snapshot}
            && b'.contents == b.contents + (ids.Values - {0})
            && forall p: Placed :: p.snapshot != snapshot ==>
                 (p in b'.files <==> p in b.files) && (p in b.files ==> b'.files[p] == b.files[p])
  {
    hide ObjectsMissing, Clashes, DocTexts;
    PlacedFiles(b.files, snapshot, files, ids, |files|);
  }
}
