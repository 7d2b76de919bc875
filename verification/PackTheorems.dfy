/** What the object store promises over whole runs: any number of processes and
    stores, puts and publishes in any order, stops and crashes anywhere. */
module PackTheorems {
  import opened Prelude
  import opened PackFormat
  import opened PackRecords
  import opened PackSpec
  import opened PackMachine

  /** A run takes enabled steps only. */
  ghost predicate Legal(lib: Library, stored: set<Bytes>, s: Sys, run: seq<Action>)
    decreases |run|
  {
    run == [] || (Enabled(lib, stored, s, run[0]) && Legal(lib, stored, Step(lib, stored, s, run[0]), run[1..]))
  }

  ghost function After(lib: Library, stored: set<Bytes>, s: Sys, run: seq<Action>): Sys
    requires Legal(lib, stored, s, run)
    decreases |run|
  {
    if run == [] then s else After(lib, stored, Step(lib, stored, s, run[0]), run[1..])
  }

  lemma {:induction false} RunKeepsGood(lib: Library, stored: set<Bytes>, s: Sys, run: seq<Action>)
    requires Lawful(lib) && Good(lib, stored, s) && Legal(lib, stored, s, run)
    ensures Good(lib, stored, After(lib, stored, s, run))
    decreases |run|
  {
    hide Good, Step, Enabled;
    if run != [] {
      StepKeepsGood(lib, stored, s, run[0]);
      RunKeepsGood(lib, stored, Step(lib, stored, s, run[0]), run[1..]);
    }
  }

  lemma InitialIsGood(lib: Library, stored: set<Bytes>)
    ensures Good(lib, stored, INITIAL)
  {
  }

  // ----- crash safety -----

  lemma RowsAreReadable(lib: Library, stored: set<Bytes>, disk: Disk, key: Key)
    requires DiskGood(lib, stored, disk) && key in disk.index
    ensures exists data ::
              data in stored && Hash(lib, data) == key.hash && OpenRow(lib, disk, disk.index[key], key) == Ok(data)
  {
    var row := disk.index[key];
    assert RowGood(lib, stored, disk, key, row);
    var data :| data in stored && Holds(lib, disk.packs[row.pack], row.record, data);
    HeldIsRead(lib, disk.packs[row.pack], row.record, data);
  }

  /** At every moment of every run, whichever steps of a publish were taken before
      it stopped, every row of the index points at a complete record of a published
      pack, under a header that matches the row, and is read back as stored data;
      and the pack table gives the sizes of the files. */
  lemma {:induction false} IndexIsAlwaysReadable(lib: Library, stored: set<Bytes>, run: seq<Action>)
    requires Lawful(lib) && Legal(lib, stored, INITIAL, run)
    ensures var disk := After(lib, stored, INITIAL, run).disk;
            && (forall key :: key in disk.index ==>
                  && disk.index[key].pack in disk.packs
                  && disk.index[key].record.key == key
                  && Complete(disk.packs[disk.index[key].pack], disk.index[key].record)
                  && exists data :: data in stored && Hash(lib, data) == key.hash
                       && OpenRow(lib, disk, disk.index[key], key) == Ok(data))
            && forall id :: id in disk.packRows ==> id in disk.packs && disk.packRows[id] == |disk.packs[id]|
  {
    InitialIsGood(lib, stored);
    RunKeepsGood(lib, stored, INITIAL, run);
    var disk := After(lib, stored, INITIAL, run).disk;
    hide After, Legal, OpenRow;
    forall key | key in disk.index
      ensures disk.index[key].pack in disk.packs && disk.index[key].record.key == key
      ensures Complete(disk.packs[disk.index[key].pack], disk.index[key].record)
      ensures exists data :: data in stored && Hash(lib, data) == key.hash
                && OpenRow(lib, disk, disk.index[key], key) == Ok(data)
    {
      assert RowGood(lib, stored, disk, key, disk.index[key]);
      RowsAreReadable(lib, stored, disk, key);
    }
  }

  /** A publish that meets no fault always finishes: repacking never fails and the
      inserts never break a primary key. */
  lemma PublishNeverGetsStuck(lib: Library, stored: set<Bytes>, s: Sys)
    requires Good(lib, stored, s) && s.publishing.Some?
    ensures CanRepack(s) || CanRename(s) || CanCommit(s)
  {
    var p := s.publishing.value;
    var st := s.stores[p.store].state;
    StagedOf(lib, stored, s, p.store);
    var unique := Unique(s.disk, st.records);
    match p.stage {
      case Filtered(u) =>
        forall i | 0 <= i < |unique| ensures Complete(st.staging.value.bytes, unique[i]) {
          assert unique[i] in unique;
          assert HoldsStored(lib, stored, st.staging.value.bytes, unique[i]);
        }
        hide DiskGood, NamesGood, Complete;
        CompactionPreservesReads(lib, st.staging.value.bytes, unique);
      case Repacked(_, _) =>
      case Renamed(rows) =>
        var id := st.staging.value.id;
        hide DiskGood, Unique;
        RepackIsGood(lib, stored, s.disk, st, s.disk.packs[id], rows);
    }
  }

  // ----- published data comes back -----

  /** What a store has accepted, once it has published, is in the index. */
  lemma PublishedIsIndexed(lib: Library, stored: set<Bytes>, s: Sys, store: nat, key: Key)
    requires Good(lib, stored, s) && store in s.stores && s.stores[store].state.published
    requires key in s.stores[store].state.local
    ensures key in s.disk.index
  {
  }

  /** Opening by the hash of stored data gives that data back, and nothing else. */
  lemma HitIsExact(lib: Library, stored: set<Bytes>, s: Sys, p: nat, kind: Kind, data: Bytes)
    requires Lawful(lib) && Separates(lib, stored) && data in stored && Good(lib, stored, s) && p in s.caches
    ensures var key := Key(kind, Hash(lib, data));
            OpenByHash(lib, s.disk, s.caches[p], key) ==
              (if key in Visible(s.disk, s.caches[p]) then Some(Ok(data)) else None)
  {
    var key := Key(kind, Hash(lib, data));
    var visible := Visible(s.disk, s.caches[p]);
    if key in visible {
      assert CacheGood(s.disk, s.caches[p]);
      assert visible[key] == s.disk.index[key];
      hide OpenRow, DiskGood;
      RowsAreReadable(lib, stored, s.disk, key);
      var found :| found in stored && Hash(lib, found) == key.hash
          && OpenRow(lib, s.disk, s.disk.index[key], key) == Ok(found);
      HexRoundTrip(lib.sha256(data));
      HexRoundTrip(lib.sha256(found));
    }
  }

  /** The step of a put that succeeds is remembered by its store, under the hash it
      returns, until the store is dropped. */
  lemma PutIsRemembered(lib: Library, stored: set<Bytes>, s: Sys, a: Action)
    requires Lawful(lib) && Good(lib, stored, s) && Enabled(lib, stored, s, a) && a.PutData?
    requires var o := s.stores[a.store];
             Put(lib, o.state, s.disk, s.caches[o.process], a.kind, a.data, a.id, a.written).2.Ok?
    ensures Key(a.kind, Hash(lib, a.data)) in Step(lib, stored, s, a).stores[a.store].state.local
  {
    var o := s.stores[a.store];
    hide StoreGood, DiskGood, NamesGood;
    assert StoreGood(lib, stored, s.disk, s.caches[o.process], o.state);
    PutKeepsStore(lib, stored, s.disk, s.caches[o.process], o.state, a.kind, a.data, a.id, a.written);
  }

  lemma LocalOnlyGrows(lib: Library, stored: set<Bytes>, s: Sys, a: Action, store: nat)
    requires Enabled(lib, stored, s, a) && store in s.stores
    ensures var s' := Step(lib, stored, s, a);
            store in s'.stores ==>
              s.stores[store].state.local <= s'.stores[store].state.local
              && (s.stores[store].state.published ==> s'.stores[store].state.published)
  {
    hide RecordBytes, Repack, Rows, Unique, Insertable;
  }

  /** The round trip: after any run, data that a published store has accepted is
      opened by kind and hash as exactly the bytes put, in every process whose
      cache has its key or is not loaded yet, and is a miss in the others. */
  lemma {:induction false} PublishedDataComesBack(lib: Library, stored: set<Bytes>, run: seq<Action>, store: nat,
        p: nat, kind: Kind, data: Bytes)
    requires Lawful(lib) && Separates(lib, stored) && data in stored && Legal(lib, stored, INITIAL, run)
    requires var s := After(lib, stored, INITIAL, run);
             && p in s.caches && store in s.stores && s.stores[store].state.published
             && Key(kind, Hash(lib, data)) in s.stores[store].state.local
    ensures var s := After(lib, stored, INITIAL, run);
            var key := Key(kind, Hash(lib, data));
            var hit := s.caches[p].None? || key in s.caches[p].value;
            && key in s.disk.index
            && (OpenByHash(lib, s.disk, s.caches[p], key) == Some(Ok(data)) <==> hit)
            && (OpenByHash(lib, s.disk, s.caches[p], key) == None <==> !hit)
  {
    InitialIsGood(lib, stored);
    RunKeepsGood(lib, stored, INITIAL, run);
    var s := After(lib, stored, INITIAL, run);
    hide After, Legal, OpenByHash, Good;
    PublishedIsIndexed(lib, stored, s, store, Key(kind, Hash(lib, data)));
    HitIsExact(lib, stored, s, p, kind, data);
  }

  // ----- one process: the cache is the index -----

  predicate Solo(s: Sys) {
    forall p, q :: p in s.caches && q in s.caches ==> p == q
  }

  ghost predicate SoloRun(lib: Library, stored: set<Bytes>, s: Sys, run: seq<Action>)
    requires Legal(lib, stored, s, run)
    decreases |run|
  {
    Solo(s) && (run != [] ==> SoloRun(lib, stored, Step(lib, stored, s, run[0]), run[1..]))
  }

  ghost predicate Synced(s: Sys) {
    forall p :: p in s.caches && s.caches[p].Some? ==> s.caches[p].value == s.disk.index
  }

  /** Whoever has records to publish has looked into the index before. */
  lemma PublisherHasLoaded(lib: Library, stored: set<Bytes>, s: Sys)
    requires Good(lib, stored, s) && s.publishing.Some? && s.publishing.value.stage.Renamed?
    ensures s.stores[s.publishing.value.store].process in s.caches
    ensures s.caches[s.stores[s.publishing.value.store].process].Some?
  {
    var o := s.stores[s.publishing.value.store];
    assert StoreGood(lib, stored, s.disk, s.caches[o.process], o.state);
  }

  lemma SeededIsIndex(index: map<Key, Row>, rows: map<Key, Row>)
    requires forall key :: key in rows ==> key !in index
    ensures Seed(Some(index), rows) == Some(index + rows)
  {
    assert rows + index == index + rows;
  }

  lemma CommitKeepsSynced(lib: Library, stored: set<Bytes>, s: Sys)
    requires Good(lib, stored, s) && CanCommit(s) && Solo(s) && Synced(s)
    ensures Synced(Finish(s))
  {
    hide Good, Rows, Seed;
    var p := s.publishing.value;
    if p.stage.Renamed? {
      PublisherHasLoaded(lib, stored, s);
      var id, rows := s.stores[p.store].state.staging.value.id, p.stage.moved;
      RowsAreRecords(id, rows);
      SeededIsIndex(s.disk.index, Rows(id, rows));
    }
  }

  lemma PutLoadsIndex(lib: Library, st: StoreState, disk: Disk, cache: Cache, a: Action)
    requires a.PutData? && (st.isOpen ==> st.staging.Some?) && Fits(lib, a.data) && |lib.sha256(a.data)| == 32
    ensures var cache' := Put(lib, st, disk, cache, a.kind, a.data, a.id, a.written).1;
            cache' == cache || cache' == Some(Visible(disk, cache))
  {
    hide RecordBytes;
  }

  lemma StepKeepsSynced(lib: Library, stored: set<Bytes>, s: Sys, a: Action)
    requires Good(lib, stored, s) && Enabled(lib, stored, s, a) && Solo(s) && Synced(s)
    ensures Synced(Step(lib, stored, s, a))
  {
    hide Good, RecordBytes, Repack, Unique, Insertable, Fits, Put;
    if a.CommitPack? {
      CommitKeepsSynced(lib, stored, s);
    } else if a.PutData? {
      var o := s.stores[a.store];
      PutLoadsIndex(lib, o.state, s.disk, s.caches[o.process], a);
    }
  }

  lemma {:induction false} RunKeepsSynced(lib: Library, stored: set<Bytes>, s: Sys, run: seq<Action>)
    requires Lawful(lib) && Good(lib, stored, s) && Synced(s) && Legal(lib, stored, s, run)
        && SoloRun(lib, stored, s, run)
    ensures Synced(After(lib, stored, s, run))
    decreases |run|
  {
    if run != [] {
      hide Good, Step, Enabled, Solo, Synced;
      StepKeepsGood(lib, stored, s, run[0]);
      StepKeepsSynced(lib, stored, s, run[0]);
      RunKeepsSynced(lib, stored, Step(lib, stored, s, run[0]), run[1..]);
    }
  }

  /** With one process at a time, after any run its cache is not loaded or is the
      whole index, and so whatever a published store accepted comes back. */
  lemma {:induction false} OneProcessAlwaysHits(lib: Library, stored: set<Bytes>, run: seq<Action>, p: nat)
    requires Lawful(lib) && Separates(lib, stored) && Legal(lib, stored, INITIAL, run)
    requires SoloRun(lib, stored, INITIAL, run) && p in After(lib, stored, INITIAL, run).caches
    ensures var s := After(lib, stored, INITIAL, run);
            && (s.caches[p].None? || s.caches[p].value == s.disk.index)
            && forall store, kind, data :: store in s.stores && s.stores[store].state.published && data in stored
                 && Key(kind, Hash(lib, data)) in s.stores[store].state.local
                 ==> OpenByHash(lib, s.disk, s.caches[p], Key(kind, Hash(lib, data))) == Some(Ok(data))
  {
    InitialIsGood(lib, stored);
    RunKeepsSynced(lib, stored, INITIAL, run);
    var s := After(lib, stored, INITIAL, run);
    hide SoloRun, OpenByHash, Good;
    forall store, kind, data | store in s.stores && s.stores[store].state.published && data in stored
                 && Key(kind, Hash(lib, data)) in s.stores[store].state.local
      ensures OpenByHash(lib, s.disk, s.caches[p], Key(kind, Hash(lib, data))) == Some(Ok(data))
    {
      PublishedDataComesBack(lib, stored, run, store, p, kind, data);
    }
  }

  // ----- put, publish, open -----

  /** A store that is dropped stays away unless its number is used again. */
  lemma DroppedStaysDropped(lib: Library, stored: set<Bytes>, s: Sys, a: Action, store: nat)
    requires Enabled(lib, stored, s, a) && store !in s.stores && !(a.CreateStore? && a.store == store)
    ensures store !in Step(lib, stored, s, a).stores
  {
    hide RecordBytes, Repack, Rows, Unique, Insertable, Put;
  }

  lemma {:induction false} LocalSurvivesRun(lib: Library, stored: set<Bytes>, s: Sys, run: seq<Action>, store: nat,
        key: Key)
    requires Legal(lib, stored, s, run) && store in After(lib, stored, s, run).stores
    requires forall a :: a in run ==> !(a.CreateStore? && a.store == store)
    requires store in s.stores ==> key in s.stores[store].state.local
    ensures store in s.stores && key in After(lib, stored, s, run).stores[store].state.local
    decreases |run|
  {
    hide Step, Enabled;
    if run != [] {
      assert run[0] in run;
      if store in s.stores {
        LocalOnlyGrows(lib, stored, s, run[0], store);
      } else {
        DroppedStaysDropped(lib, stored, s, run[0], store);
      }
      LocalSurvivesRun(lib, stored, Step(lib, stored, s, run[0]), run[1..], store, key);
    }
  }

  /** Put, publish, open: data put successfully at any point of a run of one
      process at a time is opened by its kind and hash as exactly the bytes put,
      whenever its store has published, whatever happened in between. */
  lemma {:induction false} PutPublishOpen(lib: Library, stored: set<Bytes>, before: seq<Action>, put: Action,
        after: seq<Action>, p: nat)
    requires Lawful(lib) && Separates(lib, stored) && put.PutData?
    requires var run := before + [put] + after;
             Legal(lib, stored, INITIAL, run) && SoloRun(lib, stored, INITIAL, run)
                 && p in After(lib, stored, INITIAL, run).caches
    requires Legal(lib, stored, INITIAL, before)
    requires var s := After(lib, stored, INITIAL, before);
             && Enabled(lib, stored, s, put)
             && var o := s.stores[put.store];
                Put(lib, o.state, s.disk, s.caches[o.process], put.kind, put.data, put.id, put.written).2.Ok?
    requires forall a :: a in after ==> !(a.CreateStore? && a.store == put.store)
    requires var s := After(lib, stored, INITIAL, before + [put] + after);
             put.store in s.stores && s.stores[put.store].state.published
    ensures var s := After(lib, stored, INITIAL, before + [put] + after);
            OpenByHash(lib, s.disk, s.caches[p], Key(put.kind, Hash(lib, put.data))) == Some(Ok(put.data))
  {
    var run := before + [put] + after;
    var s1 := After(lib, stored, INITIAL, before);
    ConcatAssociative(before, [put], after);
    RunSplits(lib, stored, INITIAL, before, [put] + after);
    var s2 := Step(lib, stored, s1, put);
    assert ([put] + after)[1..] == after;
    assert After(lib, stored, s1, [put] + after) == After(lib, stored, s2, after);
    InitialIsGood(lib, stored);
    RunKeepsGood(lib, stored, INITIAL, before);
    PutIsRemembered(lib, stored, s1, put);
    LocalSurvivesRun(lib, stored, s2, after, put.store, Key(put.kind, Hash(lib, put.data)));
    hide SoloRun, OpenByHash, Good, Step, After, Legal;
    OneProcessAlwaysHits(lib, stored, run, p);
  }

  lemma {:induction false} RunSplits(lib: Library, stored: set<Bytes>, s: Sys, a: seq<Action>, b: seq<Action>)
    requires Legal(lib, stored, s, a + b) && Legal(lib, stored, s, a)
    ensures Legal(lib, stored, After(lib, stored, s, a), b)
    ensures After(lib, stored, s, a + b) == After(lib, stored, After(lib, stored, s, a), b)
    decreases |a|
  {
    if a == [] {
      assert a + b == b;
    } else {
      assert (a + b)[1..] == a[1..] + b;
      hide Step, Enabled;
      RunSplits(lib, stored, Step(lib, stored, s, a[0]), a[1..], b);
    }
  }

  // ----- the steps are the publish -----

  lemma {:induction false} RunOfOneMore(lib: Library, stored: set<Bytes>, s: Sys, a: Action, run: seq<Action>)
    requires Enabled(lib, stored, s, a) && Legal(lib, stored, Step(lib, stored, s, a), run)
    ensures Legal(lib, stored, s, [a] + run)
    ensures After(lib, stored, s, [a] + run) == After(lib, stored, Step(lib, stored, s, a), run)
  {
    hide Step, Enabled;
    assert ([a] + run)[1..] == run;
  }

  /** Some run leads from one state to the other. */
  ghost predicate Leads(lib: Library, stored: set<Bytes>, s: Sys, t: Sys) {
    exists run :: Legal(lib, stored, s, run) && After(lib, stored, s, run) == t
  }

  lemma LeadsNowhere(lib: Library, stored: set<Bytes>, s: Sys)
    ensures Leads(lib, stored, s, s)
  {
    assert Legal(lib, stored, s, []) && After(lib, stored, s, []) == s;
  }

  lemma LeadsOneMore(lib: Library, stored: set<Bytes>, s: Sys, a: Action, t: Sys)
    requires Enabled(lib, stored, s, a) && Leads(lib, stored, Step(lib, stored, s, a), t)
    ensures Leads(lib, stored, s, t)
  {
    hide Step, Enabled;
    var run :| Legal(lib, stored, Step(lib, stored, s, a), run)
        && After(lib, stored, Step(lib, stored, s, a), run) == t;
    RunOfOneMore(lib, stored, s, a, run);
  }

  /** The state after `Store.Publish` of one store, called without a fault. */
  ghost function Published(s: Sys, x: nat): Sys
    requires x in s.stores && s.stores[x].process in s.caches
    requires s.stores[x].state.isOpen ==> s.stores[x].state.staging.Some?
  {
    var o := s.stores[x];
    var (st, disk, cache, _) := Publish(o.state, s.disk, s.caches[o.process], NoFault);
    Update(s, x, st).(disk := disk, caches := s.caches[o.process := cache])
  }

  ghost predicate PublishOk(s: Sys, x: nat)
    requires x in s.stores && s.stores[x].process in s.caches
    requires s.stores[x].state.isOpen ==> s.stores[x].state.staging.Some?
  {
    Publish(s.stores[x].state, s.disk, s.caches[s.stores[x].process], NoFault).3
  }

  lemma AfterBegin(lib: Library, stored: set<Bytes>, s: Sys, x: nat)
    requires Good(lib, stored, s) && CanBegin(s, x)
    ensures var s1 := BeginStep(s, x);
            && Good(lib, stored, s1)
            && if Unique(s.disk, s.stores[x].state.records) == [] then CanCommit(s1) else CanRepack(s1)
  {
    BeginKeepsGood(lib, stored, s, x);
    PublishNeverGetsStuck(lib, stored, BeginStep(s, x));
    hide Good, Unique, Repack, Insertable;
  }

  lemma AfterRepack(lib: Library, stored: set<Bytes>, s: Sys)
    requires Good(lib, stored, s) && CanRepack(s)
    ensures var s1 := RepackStep(s);
            Good(lib, stored, s1) && CanRename(s1)
  {
    RepackKeepsGood(lib, stored, s);
    hide Good;
  }

  lemma AfterRename(lib: Library, stored: set<Bytes>, s: Sys)
    requires Good(lib, stored, s) && CanRename(s)
    ensures CanCommit(RenameStep(s))
  {
    RenameKeepsGood(lib, stored, s);
    PublishNeverGetsStuck(lib, stored, RenameStep(s));
    hide Good, Unique, Repack, Insertable;
  }

  /** The steps of a publish that meets no fault, taken one after the other, are
      `Store.Publish`: same disk, same cache, same store. */
  lemma StepsArePublish(lib: Library, stored: set<Bytes>, s: Sys, x: nat)
    requires Good(lib, stored, s) && CanBegin(s, x)
    ensures s.stores[x].process in s.caches && s.stores[x].state.staging.Some?
    ensures PublishOk(s, x) && Leads(lib, stored, s, Published(s, x))
  {
    hide Good, Leads, CanCommit, CanRepack, BeginStep, Finish, Published, PublishOk, RepackStep, RenameStep, CanRename;
    BeginFacts(lib, stored, s, x);
    AfterBegin(lib, stored, s, x);
    if Unique(s.disk, s.stores[x].state.records) == [] {
      EmptyStepsArePublish(lib, stored, s, x);
      hide *;
      LeadsToFinish(lib, stored, BeginStep(s, x));
      LeadsFromBegin(lib, stored, s, x, Finish(BeginStep(s, x)));
    } else {
      FourStepsLead(lib, stored, s, x);
      hide *;
      FullStepsArePublish(lib, stored, s, x);
    }
  }

  lemma LeadsFromBegin(lib: Library, stored: set<Bytes>, s: Sys, x: nat, t: Sys)
    requires CanBegin(s, x) && Leads(lib, stored, BeginStep(s, x), t)
    ensures Leads(lib, stored, s, t)
  {
    hide Leads;
    LeadsOneMore(lib, stored, s, BeginPublish(x), t);
  }

  lemma LeadsFromRepack(lib: Library, stored: set<Bytes>, s: Sys, t: Sys)
    requires CanRepack(s) && Leads(lib, stored, RepackStep(s), t)
    ensures Leads(lib, stored, s, t)
  {
    hide Leads;
    LeadsOneMore(lib, stored, s, RepackStaging, t);
  }

  lemma LeadsFromRename(lib: Library, stored: set<Bytes>, s: Sys, t: Sys)
    requires CanRename(s) && Leads(lib, stored, RenameStep(s), t)
    ensures Leads(lib, stored, s, t)
  {
    hide Leads;
    LeadsOneMore(lib, stored, s, RenamePack, t);
  }

  lemma LeadsToFinish(lib: Library, stored: set<Bytes>, s: Sys)
    requires CanCommit(s)
    ensures Leads(lib, stored, s, Finish(s))
  {
    hide Leads;
    LeadsNowhere(lib, stored, Finish(s));
    LeadsOneMore(lib, stored, s, CommitPack, Finish(s));
  }

  lemma FourStepsLead(lib: Library, stored: set<Bytes>, s: Sys, x: nat)
    requires Good(lib, stored, s) && CanBegin(s, x)
    requires Unique(s.disk, s.stores[x].state.records) != []
    ensures var s1 := BeginStep(s, x);
            && CanRepack(s1)
            && var s2 := RepackStep(s1);
               && CanRename(s2)
               && var s3 := RenameStep(s2);
                  CanCommit(s3) && Leads(lib, stored, s, Finish(s3))
  {
    AfterBegin(lib, stored, s, x);
    hide *;
    var s1 := BeginStep(s, x);
    AfterRepack(lib, stored, s1);
    var s2 := RepackStep(s1);
    AfterRename(lib, stored, s2);
    var s3 := RenameStep(s2);
    LeadsToFinish(lib, stored, s3);
    LeadsFromRename(lib, stored, s2, Finish(s3));
    LeadsFromRepack(lib, stored, s1, Finish(s3));
    LeadsFromBegin(lib, stored, s, x, Finish(s3));
  }

  lemma BeginFacts(lib: Library, stored: set<Bytes>, s: Sys, x: nat)
    requires Good(lib, stored, s) && CanBegin(s, x)
    ensures s.stores[x].process in s.caches && s.stores[x].state.staging.Some?
  {
    assert StoreGood(lib, stored, s.disk, s.caches[s.stores[x].process], s.stores[x].state);
  }

  lemma EmptyStepsArePublish(lib: Library, stored: set<Bytes>, s: Sys, x: nat)
    requires CanBegin(s, x) && s.stores[x].state.staging.Some? && s.stores[x].process in s.caches
    requires Unique(s.disk, s.stores[x].state.records) == []
    requires CanCommit(BeginStep(s, x))
    ensures PublishOk(s, x) && Finish(BeginStep(s, x)) == Published(s, x)
  {
    hide Unique, Repack, Rows, Insertable;
  }

  lemma FullStepsArePublish(lib: Library, stored: set<Bytes>, s: Sys, x: nat)
    requires CanBegin(s, x) && s.stores[x].state.staging.Some? && s.stores[x].process in s.caches
    requires Unique(s.disk, s.stores[x].state.records) != []
    requires var s1 := BeginStep(s, x);
             && CanRepack(s1)
             && CanCommit(Step(lib, stored, RepackStep(s1), RenamePack))
    ensures var s1 := BeginStep(s, x);
            var s3 := Step(lib, stored, RepackStep(s1), RenamePack);
            PublishOk(s, x) && Finish(s3) == Published(s, x)
  {
    hide Unique, Repack, Rows, Insertable;
    var s3 := RenameStep(RepackStep(BeginStep(s, x)));
    assert s3.stores == s.stores[x := Owned(s.stores[x].process, s.stores[x].state.(isOpen := false))];
  }

  // ----- two processes: a miss after a successful publish -----

  /** The same data put in a store of each of two processes, before either publishes. */
  ghost function BothStaged(lib: Library, data: Bytes): Sys
    requires Fits(lib, data) && |lib.sha256(data)| == 32
  {
    var bytes := MAGIC + RecordBytes(lib, Source, data);
    var r := NewRecord(lib, Source, data, PACK_HEADER_SIZE);
    var st := StoreState(None, true, [r], {r.key}, false);
    Sys(EMPTY_DISK, map[0 := Some(map[]), 1 := Some(map[])],
        map[0 := Owned(0, st.(staging := Some(Staging("a", bytes)))),
            1 := Owned(1, st.(staging := Some(Staging("b", bytes))))],
        None, {"a", "b"})
  }

  lemma PutFirst(lib: Library, data: Bytes, st: StoreState, cache: Cache, id: string)
    requires Fits(lib, data) && |lib.sha256(data)| == 32 && st == NEW_STORE && (cache == None || cache == Some(map[]))
    ensures var r := NewRecord(lib, Source, data, PACK_HEADER_SIZE);
            var bytes := MAGIC + RecordBytes(lib, Source, data);
            Put(lib, st, EMPTY_DISK, cache, Source, data, id, None)
              == (StoreState(Some(Staging(id, bytes)), true, [r], {r.key}, false), Some(map[]),
                  Ok(Stored(Hash(lib, data), false)))
  {
    hide RecordBytes, Fits;
    var r := NewRecord(lib, Source, data, PACK_HEADER_SIZE);
    assert st.records + [r] == [r];
    assert st.local + {r.key} == {r.key};
    assert Visible(EMPTY_DISK, cache) == map[];
  }

  /** Two processes with a fresh store each. */
  ghost function TwoStores(): Sys {
    Sys(EMPTY_DISK, map[0 := None, 1 := None], map[0 := Owned(0, NEW_STORE), 1 := Owned(1, NEW_STORE)], None, {})
  }

  lemma TwoCanStart(lib: Library, stored: set<Bytes>)
    ensures Leads(lib, stored, INITIAL, TwoStores())
  {
    hide Leads;
    var a0 := INITIAL.(caches := map[0 := None]);
    var a1 := INITIAL.(caches := map[0 := None, 1 := None]);
    var a2 := a1.(stores := map[0 := Owned(0, NEW_STORE)]);
    LeadsNowhere(lib, stored, TwoStores());
    LeadsOneMore(lib, stored, a2, CreateStore(1, 1), TwoStores());
    LeadsOneMore(lib, stored, a1, CreateStore(0, 0), TwoStores());
    LeadsOneMore(lib, stored, a0, StartProcess(1), TwoStores());
    LeadsOneMore(lib, stored, INITIAL, StartProcess(0), TwoStores());
  }

  lemma BothCanStage(lib: Library, data: Bytes)
    requires Lawful(lib) && Fits(lib, data)
    ensures Leads(lib, {data}, INITIAL, BothStaged(lib, data))
  {
    var put0, put1 := PutData(0, Source, data, "a", None), PutData(1, Source, data, "b", None);
    var t, u := TwoStores(), BothStaged(lib, data);
    var half := Sys(EMPTY_DISK, map[0 := Some(map[]), 1 := None], map[0 := u.stores[0], 1 := t.stores[1]], None, {"a"});
    hide Put, Leads, Fits, RecordBytes;
    PutFirst(lib, data, NEW_STORE, None, "a");
    assert Step(lib, {data}, t, put0) == half;
    PutFirst(lib, data, NEW_STORE, None, "b");
    assert Step(lib, {data}, half, put1) == u;
    LeadsNowhere(lib, {data}, u);
    LeadsOneMore(lib, {data}, half, put1, u);
    LeadsOneMore(lib, {data}, t, put0, u);
    TwoCanStart(lib, {data});
    LeadsTransitive(lib, {data}, INITIAL, t, u);
  }

  lemma LeadsTransitive(lib: Library, stored: set<Bytes>, s: Sys, t: Sys, u: Sys)
    requires Leads(lib, stored, s, t) && Leads(lib, stored, t, u)
    ensures Leads(lib, stored, s, u)
  {
    var a :| Legal(lib, stored, s, a) && After(lib, stored, s, a) == t;
    var b :| Legal(lib, stored, t, b) && After(lib, stored, t, b) == u;
    RunsJoin(lib, stored, s, a, b);
  }

  lemma {:induction false} RunsJoin(lib: Library, stored: set<Bytes>, s: Sys, a: seq<Action>, b: seq<Action>)
    requires Legal(lib, stored, s, a) && Legal(lib, stored, After(lib, stored, s, a), b)
    ensures Legal(lib, stored, s, a + b)
    ensures After(lib, stored, s, a + b) == After(lib, stored, After(lib, stored, s, a), b)
    decreases |a|
  {
    hide Step, Enabled;
    if a == [] {
      assert a + b == b;
    } else {
      assert (a + b)[1..] == a[1..] + b;
      RunsJoin(lib, stored, Step(lib, stored, s, a[0]), a[1..], b);
    }
  }

  /** With two processes the round trip can miss.  Both put the same data and the
      first publishes it; the publish of the second succeeds by dropping its copy,
      but its cache was loaded before and does not learn of the row. */
  lemma SecondProcessMisses(lib: Library, data: Bytes)
    requires Lawful(lib) && Fits(lib, data)
    ensures exists s :: Leads(lib, {data}, INITIAL, s)
              && 1 in s.stores && s.stores[1].process == 1 && s.stores[1].state.published && 1 in s.caches
              && Key(Source, Hash(lib, data)) in s.stores[1].state.local
              && Key(Source, Hash(lib, data)) in s.disk.index
              && OpenByHash(lib, s.disk, s.caches[1], Key(Source, Hash(lib, data))) == None
  {
    hide Leads, Good;
    var D := {data};
    var b0 := BothStaged(lib, data);
    BothCanStage(lib, data);
    LeadsGood(lib, D, b0);
    StepsArePublish(lib, D, b0, 0);
    FirstPublishes(lib, data);
    hide BothStaged, Published, Fits, PublishOk;
    var b1 := Published(b0, 0);
    LeadsTransitive(lib, D, INITIAL, b0, b1);
    LeadsGood(lib, D, b1);
    StepsArePublish(lib, D, b1, 1);
    LeadsTransitive(lib, D, INITIAL, b1, Published(b1, 1));
    SecondDropsItsCopy(lib, data, b1);
  }

  lemma FirstPublishes(lib: Library, data: Bytes)
    requires Lawful(lib) && Fits(lib, data)
    ensures var b0, b1 := BothStaged(lib, data), Published(BothStaged(lib, data), 0);
            var key := Key(Source, Hash(lib, data));
            && b1.disk.index.Keys == {key} && b1.caches == map[0 := b1.caches[0], 1 := Some(map[])]
            && b1.stores.Keys == {0, 1} && b1.stores[1] == b0.stores[1] && b1.publishing == None
            && b1.stores[1].process == 1 && b1.stores[1].state.isOpen && !b1.stores[1].state.published
  {
    hide RecordBytes, Fits;
    var b0 := BothStaged(lib, data);
    var records := b0.stores[0].state.records;
    assert records[..0] == [];
    assert Unique(EMPTY_DISK, records) == records;
    assert Rows("a", records) == map[records[0].key := Row("a", records[0])];
    assert forall r :: r in records ==> r == records[0];
  }

  lemma SecondDropsItsCopy(lib: Library, data: Bytes, b1: Sys)
    requires Lawful(lib) && Fits(lib, data)
    requires var key := Key(Source, Hash(lib, data));
             && b1.disk.index.Keys == {key} && 1 in b1.caches && b1.caches[1] == Some(map[])
             && 1 in b1.stores && b1.stores[1] == BothStaged(lib, data).stores[1]
    ensures var b2, key := Published(b1, 1), Key(Source, Hash(lib, data));
            && b2.stores[1].process == 1 && b2.stores[1].state.published && key in b2.stores[1].state.local
            && b2.disk == b1.disk && b2.caches[1] == Some(map[])
  {
    hide RecordBytes, Fits;
    var records := b1.stores[1].state.records;
    assert records[..0] == [];
    assert Unique(b1.disk, records) == [];
  }

  lemma LeadsGood(lib: Library, stored: set<Bytes>, t: Sys)
    requires Lawful(lib) && Leads(lib, stored, INITIAL, t)
    ensures Good(lib, stored, t)
  {
    InitialIsGood(lib, stored);
    var run :| Legal(lib, stored, INITIAL, run) && After(lib, stored, INITIAL, run) == t;
    RunKeepsGood(lib, stored, INITIAL, run);
  }
}
