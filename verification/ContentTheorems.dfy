/** What the shared fact store shows, after any run of interleaved builds. */
module ContentTheorems {
  import opened Prelude
  import opened Text
  import opened ContentSpec
  import opened IndexEntry
  import opened ContentFacts
  import opened ContentMachine
  import opened ContentSteps

  ghost predicate Legal(ix: Indexer, stored: set<string>, s: Sys, run: seq<Action>)
    decreases |run|
  {
    run == [] || (Enabled(ix, stored, s, run[0]) && Legal(ix, stored, Step(ix, stored, s, run[0]), run[1..]))
  }

  ghost function After(ix: Indexer, stored: set<string>, s: Sys, run: seq<Action>): Sys
    requires Legal(ix, stored, s, run)
    decreases |run|
  {
    if run == [] then s else After(ix, stored, Step(ix, stored, s, run[0]), run[1..])
  }

  /** The hash tells the stored files apart. */
  ghost predicate Separates(ix: Indexer, stored: set<string>) {
    forall a, b :: a in stored && b in stored && ix.hash(a) == ix.hash(b) ==> a == b
  }

  lemma {:induction false} RunKeepsGood(ix: Indexer, stored: set<string>, s: Sys, run: seq<Action>)
    requires Good(ix, stored, s) && Legal(ix, stored, s, run)
    ensures Good(ix, stored, After(ix, stored, s, run))
    decreases |run|
  {
    hide Good, Enabled, Step;
    if run != [] {
      StepKeepsGood(ix, stored, s, run[0]);
      RunKeepsGood(ix, stored, Step(ix, stored, s, run[0]), run[1..]);
    }
  }

  lemma {:induction false} ReachableIsGood(ix: Indexer, stored: set<string>, run: seq<Action>)
    requires Legal(ix, stored, INITIAL, run)
    ensures Good(ix, stored, After(ix, stored, INITIAL, run))
  {
    hide Good;
    InitialIsGood(ix, stored);
    RunKeepsGood(ix, stored, INITIAL, run);
  }

  // ----- every content row is complete, once -----

  /** The row's facts are those of parsing its bytes, in order, each once. */
  ghost predicate Complete(ix: Indexer, stored: set<string>, c: Content, id: nat)
    requires 0 < id <= |c.contents|
  {
    exists data :: data in stored && c.contents[id - 1].contentHash == ix.hash(data)
      && ItemsOf(c, id) == FreshItems(ix, c.contents[id - 1].language, data)
  }

  /** Every row is complete, no two rows hold the same bytes in the same language,
      and no fact is without its row. */
  lemma {:induction false} EveryRowIsComplete(ix: Indexer, stored: set<string>, run: seq<Action>)
    requires Legal(ix, stored, INITIAL, run)
    ensures var c := After(ix, stored, INITIAL, run).content;
            && UniqueKeys(c.contents)
            && (forall i :: 0 <= i < |c.facts| ==> 0 < c.facts[i].content <= |c.contents|)
            && forall id :: 0 < id <= |c.contents| ==> Complete(ix, stored, c, id)
  {
    ReachableIsGood(ix, stored, run);
    var c := After(ix, stored, INITIAL, run).content;
    assert ContentGood(ix, stored, c);
    hide After, Legal, Good, FreshItems, ItemsOf, AllBound, UniqueKeys, RowIs;
    forall id | 0 < id <= |c.contents| ensures Complete(ix, stored, c, id) {
      var data := RowData(ix, stored, c, id);
    }
  }

  lemma RowData(ix: Indexer, stored: set<string>, c: Content, id: nat) returns (data: string)
    requires ContentGood(ix, stored, c) && 0 < id <= |c.contents|
    ensures data in stored && RowIs(ix, c, id, data)
    ensures ItemsOf(c, id) == FreshItems(ix, c.contents[id - 1].language, data)
    ensures c.contents[id - 1].contentHash == ix.hash(data)
  {
    hide FreshItems, AllBound, UniqueKeys, RowIs, AstFor;
    assert RowGood(ix, stored, c, id);
    data :| data in stored && RowIs(ix, c, id, data);
    ItemsOfRow(ix, c, id, data);
  }

  lemma ItemsOfRow(ix: Indexer, c: Content, id: nat, data: string)
    requires 0 < id <= |c.contents| && RowIs(ix, c, id, data)
    ensures ItemsOf(c, id) == FreshItems(ix, c.contents[id - 1].language, data)
    ensures c.contents[id - 1].contentHash == ix.hash(data)
  {
    hide FreshItems, AstFor;
    ItemsInIsItemsOf(c, c.facts, id);
  }

  // ----- a ready snapshot shows what parsing it again would show -----

  /** The content an entry is placed with holds the entry's own bytes. */
  lemma KeyHoldsEntry(ix: Indexer, stored: set<string>, c: Content, e: Entry)
    requires ContentGood(ix, stored, c) && Separates(ix, stored) && e.data in stored && KeyOf(ix, c, e) > 0
    ensures ItemsOf(c, KeyOf(ix, c, e)) == FreshItems(ix, LanguageOf(ix, e.path), e.data)
  {
    hide FreshItems, LanguageOf, ContentGood, ItemsOf, RowIs;
    var data := RowData(ix, stored, c, KeyOf(ix, c, e));
  }

  lemma EntryShows(ix: Indexer, stored: set<string>, c: Content, b: Branch, snapshot: string, e: Entry)
    requires ContentGood(ix, stored, c) && Separates(ix, stored) && e.data in stored
        && PlacedGood(ix, c, b, snapshot, e)
    ensures Visible(b, c, snapshot, e.path) == Expected(ix, e.path, e.data)
  {
    hide FreshItems, LanguageOf, ContentGood, ItemsOf, KeyOf, RoleOf;
    KeyHoldsEntry(ix, stored, c, e);
    var role := RoleOf(ix, e.path);
    FilterSame(ItemsOf(c, KeyOf(ix, c, e)),
        (i: Item) => RoleAllows(i.requiredRole, b.files[Placed(snapshot, e.path)].role),
               (i: Item) => RoleAllows(i.requiredRole, RoleOf(ix, e.path)));
  }

  lemma {:induction false} FilterSame<T>(s: seq<T>, p: T -> bool, q: T -> bool)
    requires forall x :: x in s ==> p(x) == q(x)
    ensures Filter(s, p) == Filter(s, q)
  {
    if s != [] {
      FilterSame(s[1..], p, q);
    }
  }

  ghost predicate ShowsFresh(ix: Indexer, c: Content, b: Branch, snapshot: string, entries: seq<Entry>) {
    && (forall e :: e in entries ==> Visible(b, c, snapshot, e.path) == Expected(ix, e.path, e.data))
    && (forall p: Placed :: p.snapshot == snapshot ==> (p in b.files <==> exists e :: e in entries && e.path == p.path))
  }

  lemma SnapshotShowsFresh(ix: Indexer, stored: set<string>, c: Content, b: Branch, snapshot: string,
        entries: seq<Entry>)
    requires ContentGood(ix, stored, c) && Separates(ix, stored) && SnapshotGood(ix, stored, c, b, snapshot, entries)
    ensures ShowsFresh(ix, c, b, snapshot, entries)
  {
    hide ContentGood, Visible, Expected, Separates, DistinctEntries, KeyOf, RoleOf;
    forall e | e in entries ensures Visible(b, c, snapshot, e.path) == Expected(ix, e.path, e.data) {
      EntryShows(ix, stored, c, b, snapshot, e);
    }
    forall p: Placed | p.snapshot == snapshot && exists e :: e in entries && e.path == p.path ensures p in b.files {
      var e :| e in entries && e.path == p.path;
      assert PlacedGood(ix, c, b, snapshot, e) && p == Placed(snapshot, e.path);
    }
  }

  /** After any run, a snapshot is ready exactly if a build of it was published, and
      it shows for every file of the last such build exactly what parsing that file
      again would show, and no other files. */
  lemma {:induction false} SnapshotsShowFreshParses(ix: Indexer, stored: set<string>, run: seq<Action>, product: nat,
        snapshot: string)
    requires Separates(ix, stored) && Legal(ix, stored, INITIAL, run)
    ensures var s := After(ix, stored, INITIAL, run);
            && (snapshot in BranchOf(s, product).ready <==> (product, snapshot) in s.shown)
            && (snapshot in BranchOf(s, product).ready ==>
                  ShowsFresh(ix, s.content, BranchOf(s, product), snapshot, s.shown[(product, snapshot)]))
  {
    ReachableIsGood(ix, stored, run);
    var s := After(ix, stored, INITIAL, run);
    assert ContentGood(ix, stored, s.content);
    assert BranchGood(ix, stored, s.content, BranchOf(s, product), product, s.shown);
    hide After, Legal, Good, ContentGood, Separates, ShowsFresh, SnapshotGood, TextGood, BranchOf;
    if snapshot in BranchOf(s, product).ready {
      SnapshotShowsFresh(ix, stored, s.content, BranchOf(s, product), snapshot, s.shown[(product, snapshot)]);
    }
  }

  /** Two runs that published the same entries show the same facts: the order of
      the builds, what was reused and what stopped half-way do not matter. */
  lemma {:induction false} RunsAgree(ix: Indexer, stored: set<string>, run: seq<Action>, run': seq<Action>,
        product: nat, snapshot: string, path: string)
    requires Separates(ix, stored) && Legal(ix, stored, INITIAL, run) && Legal(ix, stored, INITIAL, run')
    requires var s, s' := After(ix, stored, INITIAL, run), After(ix, stored, INITIAL, run');
             && snapshot in BranchOf(s, product).ready && snapshot in BranchOf(s', product).ready
             && (product, snapshot) in s.shown && (product, snapshot) in s'.shown
             && s.shown[(product, snapshot)] == s'.shown[(product, snapshot)]
    ensures var s, s' := After(ix, stored, INITIAL, run), After(ix, stored, INITIAL, run');
            Visible(BranchOf(s, product), s.content, snapshot, path)
                == Visible(BranchOf(s', product), s'.content, snapshot, path)
  {
    SnapshotsShowFreshParses(ix, stored, run, product, snapshot);
    SnapshotsShowFreshParses(ix, stored, run', product, snapshot);
    var s, s' := After(ix, stored, INITIAL, run), After(ix, stored, INITIAL, run');
    var entries := s.shown[(product, snapshot)];
    hide After, Legal, Separates, Expected, ItemsOf, BranchOf;
    var place := Placed(snapshot, path);
    if e :| e in entries && e.path == path {
      hide Visible;
    } else {
      assert place !in BranchOf(s, product).files && place !in BranchOf(s', product).files;
    }
  }

  /** What a query of one snapshot finds, for a condition on facts: the symbol, edge,
      XML, TOC and search queries differ in the condition only. */
  ghost predicate Hit(b: Branch, c: Content, snapshot: string, query: Item -> bool, path: string, item: Item) {
    query(item) && item in Visible(b, c, snapshot, path)
  }

  ghost predicate FreshHit(ix: Indexer, entries: seq<Entry>, query: Item -> bool, path: string, item: Item) {
    query(item) && exists e :: e in entries && e.path == path && item in Expected(ix, path, e.data)
  }

  /** Every query finds exactly what it would find in freshly parsed files. */
  lemma {:induction false} QueriesSeeFreshFacts(ix: Indexer, stored: set<string>, run: seq<Action>, product: nat,
        snapshot: string, query: Item -> bool, path: string, item: Item)
    requires Separates(ix, stored) && Legal(ix, stored, INITIAL, run)
    requires snapshot in BranchOf(After(ix, stored, INITIAL, run), product).ready
    ensures var s := After(ix, stored, INITIAL, run);
            && (product, snapshot) in s.shown
            && (Hit(BranchOf(s, product), s.content, snapshot, query, path, item)
                <==> FreshHit(ix, s.shown[(product, snapshot)], query, path, item))
  {
    SnapshotsShowFreshParses(ix, stored, run, product, snapshot);
    var s := After(ix, stored, INITIAL, run);
    var entries := s.shown[(product, snapshot)];
    hide After, Legal, Separates, Expected, ItemsOf, BranchOf;
    var b := BranchOf(s, product);
    if Placed(snapshot, path) in b.files {
      hide Visible;
      var e :| e in entries && e.path == path;
      if d :| d in entries && d.path == path && item in Expected(ix, path, d.data) {
        assert item in Visible(b, s.content, snapshot, path);
      }
    } else {
      assert Visible(b, s.content, snapshot, path) == [];
    }
  }

  // ----- publishing -----

  lemma NothingClashes(ix: Indexer, stored: set<string>, c: Content, b: Branch, added: set<nat>)
    requires TextGood(ix, stored, c, b) && added !! b.contents
    ensures !Clashes(c, added, b.fullText)
  {
    forall d | d in DocsOf(c, added) ensures d !in b.fullText {
      assert c.facts[d - 1].content in added;
      assert d !in DocsOf(c, b.contents);
    }
  }

  lemma {:induction false} FilesCanBePlaced(files: map<Placed, Member>, snapshot: string, batch: seq<FileFact>,
        ids: map<string, nat>, n: nat)
    requires n <= |batch| && DistinctFiles(batch)
    requires forall f :: f in batch ==> f.path in ids && ids[f.path] > 0
    ensures PlaceFiles(files, snapshot, batch, ids, n).Ok?
  {
    if n > 0 {
      FilesCanBePlaced(files, snapshot, batch, ids, n - 1);
      PlacedFiles(files, snapshot, batch, ids, n - 1);
      var placed := PlaceFiles(files, snapshot, batch, ids, n - 1).value;
      var f := batch[n - 1];
      assert f in batch;
      forall i | 0 <= i < n - 1 ensures batch[i].path != f.path {}
      assert Placed(snapshot, f.path) !in placed;
    }
  }

  lemma {:induction false} BuildFilesCanBePlaced(ix: Indexer, stored: set<string>, c: Content, b: Build,
        files: map<Placed, Member>)
    requires BuildGood(ix, stored, c, b) && b.merged.Some?
    ensures var batch := Collect(b.results).files;
            PlaceFiles(files, b.snapshot, batch, b.merged.value, |batch|).Ok?
  {
    var batch := Collect(b.results).files;
    MergedEntries(ix, stored, c, b);
    DistinctFilesOfBuild(ix, stored, c, b);
    hide PlaceFiles, BuildGood, Collect, DistinctFiles, DistinctEntries, KeyOf, RoleOf, LanguageOf;
    forall f | f in batch ensures f.path in b.merged.value && b.merged.value[f.path] > 0 {
      var i :| 0 <= i < |batch| && batch[i] == f;
      assert FileOf(ix, b.done[i], f) && b.done[i] in b.done && b.done[i] in b.entries;
    }
    FilesCanBePlaced(files, b.snapshot, batch, b.merged.value, |batch|);
  }

  /** The branch transaction of a build fails only for want of an object: no path
      is without its content or placed twice, and no document is indexed twice. */
  lemma {:induction false} PublishFailsOnlyForObjects(ix: Indexer, stored: set<string>, run: seq<Action>, build: nat,
        objects: map<string, string>)
    requires Legal(ix, stored, INITIAL, run)
    requires var s := After(ix, stored, INITIAL, run); build in s.builds && s.builds[build].merged.Some?
    ensures var s := After(ix, stored, INITIAL, run);
            var b := s.builds[build];
            var branch := BranchOf(s, b.product);
            var r := PublishBranch(branch, s.content, b.snapshot, Collect(b.results).files, b.merged.value, objects);
            && (r.Err? ==> r.error == MissingObject)
            && (r.Err? <==> ObjectsMissing(s.content, b.merged.value.Values - branch.contents - {0}, objects))
  {
    ReachableIsGood(ix, stored, run);
    var s := After(ix, stored, INITIAL, run);
    var b := s.builds[build];
    var branch := BranchOf(s, b.product);
    assert BuildGood(ix, stored, s.content, b);
    assert BranchGood(ix, stored, s.content, branch, b.product, s.shown);
    hide After, Legal, Good, BuildGood, SnapshotGood, TextGood, Collect, PlaceFiles, Clashes, ObjectsMissing, IndexText,
        BranchOf;
    BuildFilesCanBePlaced(ix, stored, s.content, b, branch.files);
    NothingClashes(ix, stored, s.content, branch, b.merged.value.Values - branch.contents - {0});
  }
}
