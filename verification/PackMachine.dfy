/** Several processes, each with several stores, over one packs directory.  A
    publish is taken step by step and may stop after any of them; a process may
    crash at any moment. */
module PackMachine {
  import opened Prelude
  import opened PackFormat
  import opened PackRecords
  import opened PackSpec

  /** How far the publish that holds the index transaction has come. */
  datatype Stage =
    | Filtered(unique: seq<Record>)
    | Repacked(bytes: Bytes, rows: seq<Record>)
    | Renamed(moved: seq<Record>)

  datatype Publishing = Publishing(store: nat, stage: Stage)

  datatype Owned = Owned(process: nat, state: StoreState)

  /** `names` are the staging names handed out so far. */
  datatype Sys = Sys(
    disk: Disk, caches: map<nat, Cache>, stores: map<nat, Owned>, publishing: Option<Publishing>, names: set<string>)

  const INITIAL := Sys(EMPTY_DISK, map[], map[], None, {})

  datatype Action =
    | StartProcess(process: nat)
    | CreateStore(store: nat, process: nat)
    | PutData(store: nat, kind: Kind, data: Bytes, id: string, written: Option<nat>)
    | LookUp(process: nat, key: Key)
    | PublishUnused(store: nat)
    | BeginPublish(store: nat)
    | RepackStaging
    | RenamePack
    | CommitPack
    | FailPublish
    | AbortStore(store: nat)
    | Crash(process: nat)

  predicate Idle(s: Sys, store: nat) {
    store in s.stores && (s.publishing.None? || s.publishing.value.store != store)
  }

  /** Only known kinds are put, all data comes from `stored`, staging names are
      fresh, and one publish at a time holds the index. */
  predicate Enabled(lib: Library, stored: set<Bytes>, s: Sys, a: Action) {
    match a
    case StartProcess(p) => p !in s.caches
    case CreateStore(store, p) => store !in s.stores && p in s.caches
    case PutData(store, kind, data, id, _) =>
      Idle(s, store) && s.stores[store].process in s.caches
      && (s.stores[store].state.isOpen ==> s.stores[store].state.staging.Some?)
      && Known(kind) && data in stored && Fits(lib, data) && id !in s.names && |lib.sha256(data)| == 32
    case LookUp(p, _) => p in s.caches
    case PublishUnused(store) =>
      Idle(s, store) && (s.stores[store].state.published || !s.stores[store].state.isOpen)
    case BeginPublish(store) => CanBegin(s, store)
    case RepackStaging => CanRepack(s)
    case RenamePack => CanRename(s)
    case CommitPack => CanCommit(s)
    case FailPublish => InStage(s)
    case AbortStore(store) => Idle(s, store)
    case Crash(p) => p in s.caches
  }

  predicate CanBegin(s: Sys, store: nat) {
    s.publishing.None? && store in s.stores && s.stores[store].state.isOpen && !s.stores[store].state.published
  }

  predicate CanRename(s: Sys) {
    InStage(s) && s.publishing.value.stage.Repacked?
  }

  predicate CanRepack(s: Sys) {
    && InStage(s) && s.publishing.value.stage.Filtered? && s.publishing.value.stage.unique != []
    && var st := s.stores[s.publishing.value.store].state;
       Repack(st.staging.value.bytes, st.records, s.publishing.value.stage.unique).Ok?
  }

  predicate CanCommit(s: Sys) {
    && InStage(s) && s.stores[s.publishing.value.store].process in s.caches
    && match s.publishing.value.stage
       case Filtered(unique) => unique == []
       case Repacked(_, _) => false
       case Renamed(moved) =>
         var id := s.stores[s.publishing.value.store].state.staging.value.id;
         id in s.disk.packs && Insertable(s.disk, id, moved)
  }

  predicate InStage(s: Sys) {
    s.publishing.Some? && s.publishing.value.store in s.stores
    && s.stores[s.publishing.value.store].state.staging.Some?
  }

  function Update(s: Sys, store: nat, st: StoreState): Sys
    requires store in s.stores
  {
    s.(stores := s.stores[store := s.stores[store].(state := st)])
  }

  /** The staging file is closed and its records are compared with the index. */
  function BeginStep(s: Sys, store: nat): Sys
    requires CanBegin(s, store)
  {
    var st := s.stores[store].state;
    Update(s, store, st.(isOpen := false)).(publishing := Some(Publishing(store, Filtered(Unique(s.disk, st.records)))))
  }

  function RepackStep(s: Sys): Sys
    requires CanRepack(s)
  {
    var p := s.publishing.value;
    var st := s.stores[p.store].state;
    var (bytes, rows) := Repack(st.staging.value.bytes, st.records, p.stage.unique).value;
    s.(publishing := Some(p.(stage := Repacked(bytes, rows))))
  }

  function RenameStep(s: Sys): Sys
    requires CanRename(s)
  {
    var p := s.publishing.value;
    var id := s.stores[p.store].state.staging.value.id;
    s.(disk := Rename(s.disk, id, p.stage.bytes), publishing := Some(p.(stage := Renamed(p.stage.rows))))
  }

  /** The commit makes the rows visible and the publisher caches them; with
      nothing left to publish the staging file is only removed. */
  function Finish(s: Sys): Sys
    requires CanCommit(s)
  {
    var p := s.publishing.value;
    var o := s.stores[p.store];
    var finished := Update(s, p.store, o.state.(staging := None, published := true)).(publishing := None);
    if p.stage.Filtered? then finished
    else
      var id, rows := o.state.staging.value.id, p.stage.moved;
      finished.(disk := Commit(s.disk, id, rows),
                caches := s.caches[o.process := Seed(s.caches[o.process], Rows(id, rows))])
  }

  function Step(lib: Library, stored: set<Bytes>, s: Sys, a: Action): Sys
    requires Enabled(lib, stored, s, a)
  {
    match a
    case StartProcess(p) => s.(caches := s.caches[p := None])
    case CreateStore(store, p) => s.(stores := s.stores[store := Owned(p, NEW_STORE)])
    case PutData(store, kind, data, id, written) =>
      var o := s.stores[store];
      var (st, cache, _) := Put(lib, o.state, s.disk, s.caches[o.process], kind, data, id, written);
      Update(s, store, st).(caches := s.caches[o.process := cache],
                            names := s.names + {id})
    case LookUp(p, _) => s.(caches := s.caches[p := Some(Visible(s.disk, s.caches[p]))])
    case PublishUnused(store) => Update(s, store, s.stores[store].state.(published := true))
    case BeginPublish(store) => BeginStep(s, store)
    case RepackStaging => RepackStep(s)
    case RenamePack => RenameStep(s)
    case CommitPack => Finish(s)
    case FailPublish => s.(stores := s.stores - {s.publishing.value.store}, publishing := None)
    case AbortStore(store) => if s.stores[store].state.published then s else s.(stores := s.stores - {store})
    case Crash(p) =>
      s.(caches := s.caches - {p},
         stores := map x | x in s.stores && s.stores[x].process != p :: s.stores[x],
         publishing := if s.publishing.Some? && s.publishing.value.store in s.stores
                          && s.stores[s.publishing.value.store].process == p then None else s.publishing)
  }

  // ----- invariants -----

  /** The pack holds, in this record, some of the stored data. */
  ghost predicate HoldsStored(lib: Library, stored: set<Bytes>, pack: Bytes, r: Record) {
    exists data :: data in stored && Holds(lib, pack, r, data)
  }

  ghost predicate RowGood(lib: Library, stored: set<Bytes>, disk: Disk, key: Key, row: Row) {
    && row.record.key == key && row.pack in disk.packs && row.pack in disk.packRows
    && WellHeaded(disk.packs[row.pack]) && HoldsStored(lib, stored, disk.packs[row.pack], row.record)
  }

  /** Every index row points at a complete record, under a matching header, in a
      published pack; and the pack rows give the sizes of the pack files. */
  ghost predicate DiskGood(lib: Library, stored: set<Bytes>, disk: Disk) {
    && (forall key :: key in disk.index ==> RowGood(lib, stored, disk, key, disk.index[key]))
    && (forall id :: id in disk.packRows ==> id in disk.packs && disk.packRows[id] == |disk.packs[id]|)
  }

  /** What is cached is in the index. */
  ghost predicate CacheGood(disk: Disk, cache: Cache) {
    cache.Some? ==> forall key :: key in cache.value ==> key in disk.index && cache.value[key] == disk.index[key]
  }

  ghost predicate StagedGood(lib: Library, stored: set<Bytes>, bytes: Bytes, records: seq<Record>) {
    && WellHeaded(bytes) && DistinctKeys(records)
    && forall r :: r in records ==> HoldsStored(lib, stored, bytes, r)
  }

  /** Every key a store has accepted is staged by it or already in the index; once
      it has published, all of them are in the index. */
  ghost predicate StoreGood(lib: Library, stored: set<Bytes>, disk: Disk, cache: Cache, st: StoreState) {
    && (forall key :: key in st.local ==> key in disk.index || (!st.published && HasKey(st.records, key)))
    && (forall r :: r in st.records ==> r.key in st.local)
    && (st.isOpen ==> st.staging.Some?)
    && (!st.published && st.records != [] ==> st.staging.Some? && cache.Some?)
    && (st.staging.Some? ==> StagedGood(lib, stored, st.staging.value.bytes, st.records))
    && (st.published ==> st.staging.None? && !st.isOpen)
  }

  ghost predicate StageGood(disk: Disk, st: StoreState, stage: Stage) {
    && st.staging.Some? && !st.published && !st.isOpen
    && var staging := st.staging.value;
       var unique := Unique(disk, st.records);
       match stage
       case Filtered(u) => u == unique
       case Repacked(bytes, rows) => unique != [] && Repack(staging.bytes, st.records, unique) == Ok((bytes, rows))
       case Renamed(rows) =>
         && unique != [] && staging.id in disk.packs
         && Repack(staging.bytes, st.records, unique) == Ok((disk.packs[staging.id], rows))
  }

  /** Staging names are fresh: no pack has one until its own publish renames it. */
  ghost predicate NamesGood(s: Sys) {
    && s.disk.packs.Keys <= s.names
    && (forall x :: x in s.stores && s.stores[x].state.staging.Some? ==>
          var id := s.stores[x].state.staging.value.id;
          && id in s.names && id !in s.disk.packRows
          && (s.publishing == None || s.publishing.value.store != x || !s.publishing.value.stage.Renamed?
              ==> id !in s.disk.packs))
    && (forall x, y ::
          && x in s.stores && y in s.stores && x != y
          && s.stores[x].state.staging.Some? && s.stores[y].state.staging.Some? ==>
            s.stores[x].state.staging.value.id != s.stores[y].state.staging.value.id)
  }

  ghost predicate StoresGood(lib: Library, stored: set<Bytes>, s: Sys) {
    forall x :: x in s.stores ==>
      && s.stores[x].process in s.caches
      && StoreGood(lib, stored, s.disk, s.caches[s.stores[x].process], s.stores[x].state)
  }

  ghost predicate Good(lib: Library, stored: set<Bytes>, s: Sys) {
    && DiskGood(lib, stored, s.disk)
    && (forall p :: p in s.caches ==> CacheGood(s.disk, s.caches[p]))
    && StoresGood(lib, stored, s)
    && (s.publishing.Some? ==>
          s.publishing.value.store in s.stores
          && StageGood(s.disk, s.stores[s.publishing.value.store].state, s.publishing.value.stage))
    && NamesGood(s)
    && forall x :: Idle(s, x) && s.stores[x].state.staging.Some? ==> s.stores[x].state.isOpen
  }

  // ----- the disk -----

  /** Renaming a pack into place disturbs no row, for its name is fresh. */
  lemma RenameKeepsDisk(lib: Library, stored: set<Bytes>, disk: Disk, id: string, bytes: Bytes)
    requires DiskGood(lib, stored, disk) && id !in disk.packRows
    ensures DiskGood(lib, stored, Rename(disk, id, bytes))
  {
    var disk' := Rename(disk, id, bytes);
    forall key | key in disk'.index ensures RowGood(lib, stored, disk', key, disk'.index[key]) {
      assert RowGood(lib, stored, disk, key, disk.index[key]);
    }
  }

  /** A row stays good when another pack is committed. */
  lemma {:induction false} OldRowKept(lib: Library, stored: set<Bytes>, disk: Disk, id: string, rows: seq<Record>,
        key: Key)
    requires key in disk.index && RowGood(lib, stored, disk, key, disk.index[key]) && id in disk.packs
        && id !in disk.packRows
    requires key !in Rows(id, rows)
    ensures key in Commit(disk, id, rows).index && Commit(disk, id, rows).index[key] == disk.index[key]
    ensures RowGood(lib, stored, Commit(disk, id, rows), key, disk.index[key])
  {
    hide Rows, WellHeaded, HoldsStored;
  }

  lemma {:induction false} NewRowGood(lib: Library, stored: set<Bytes>, disk: Disk, id: string, rows: seq<Record>,
        key: Key)
    requires id in disk.packs && StagedGood(lib, stored, disk.packs[id], rows) && key in Rows(id, rows)
    ensures key in Commit(disk, id, rows).index
    ensures RowGood(lib, stored, Commit(disk, id, rows), key, Commit(disk, id, rows).index[key])
  {
    RowsAreRecords(id, rows);
    hide Rows, WellHeaded, HoldsStored;
  }

  lemma {:induction false} CommitKeepsDisk(lib: Library, stored: set<Bytes>, disk: Disk, id: string, rows: seq<Record>)
    requires DiskGood(lib, stored, disk) && id in disk.packs && Insertable(disk, id, rows)
    requires StagedGood(lib, stored, disk.packs[id], rows)
    ensures DiskGood(lib, stored, Commit(disk, id, rows))
    ensures forall key :: key in disk.index ==>
          key in Commit(disk, id, rows).index && Commit(disk, id, rows).index[key] == disk.index[key]
    ensures forall key :: key in Rows(id, rows) ==> key !in disk.index
  {
    hide Rows, RowGood, StagedGood;
    var disk' := Commit(disk, id, rows);
    RowsAreRecords(id, rows);
    forall key | key in disk.index
      ensures key in disk'.index && disk'.index[key] == disk.index[key]
          && RowGood(lib, stored, disk', key, disk'.index[key])
    {
      OldRowKept(lib, stored, disk, id, rows, key);
    }
    forall key | key in disk'.index ensures RowGood(lib, stored, disk', key, disk'.index[key]) {
      if key !in disk.index {
        NewRowGood(lib, stored, disk, id, rows, key);
      }
    }
  }

  /** What is repacked holds what was staged, whether it was compacted or not. */
  lemma {:induction false} RepackIsGood(lib: Library, stored: set<Bytes>, disk: Disk, st: StoreState, bytes: Bytes,
        rows: seq<Record>)
    requires st.staging.Some? && StagedGood(lib, stored, st.staging.value.bytes, st.records)
    requires Repack(st.staging.value.bytes, st.records, Unique(disk, st.records)) == Ok((bytes, rows))
    ensures StagedGood(lib, stored, bytes, rows)
    ensures forall r :: r in rows ==> r.key !in disk.index
    ensures forall r :: r in st.records ==> r.key in disk.index || HasKey(rows, r.key)
  {
    var unique := Unique(disk, st.records);
    UniqueKeepsDistinct(disk, st.records);
    if |unique| != |st.records| {
      hide Unique, Holds;
      CompactedIsGood(lib, stored, st.staging.value.bytes, unique, bytes, rows);
      SameKeys(unique, rows);
    }
  }

  lemma CompactedIsGood(lib: Library, stored: set<Bytes>, staging: Bytes, unique: seq<Record>, bytes: Bytes,
        rows: seq<Record>)
    requires DistinctKeys(unique) && forall r :: r in unique ==> HoldsStored(lib, stored, staging, r)
    requires Compact(staging, unique) == Ok((bytes, rows))
    ensures StagedGood(lib, stored, bytes, rows)
    ensures |rows| == |unique| && forall i :: 0 <= i < |unique| ==> rows[i].key == unique[i].key
  {
    forall i | 0 <= i < |unique| ensures Complete(staging, unique[i]) {
      assert HoldsStored(lib, stored, staging, unique[i]);
    }
    CompactionPreservesReads(lib, staging, unique);
    hide Compact, Complete;
    MovedStaged(lib, stored, staging, unique, bytes, rows);
  }

  lemma SameKeys(unique: seq<Record>, rows: seq<Record>)
    requires |rows| == |unique| && forall i :: 0 <= i < |unique| ==> rows[i].key == unique[i].key
    ensures forall r :: r in rows ==> HasKey(unique, r.key)
    ensures forall r :: r in unique ==> HasKey(rows, r.key)
  {
    forall r | r in rows ensures HasKey(unique, r.key) {
      var i :| 0 <= i < |rows| && rows[i] == r;
      assert unique[i] in unique && unique[i].key == r.key;
    }
    forall r | r in unique ensures HasKey(rows, r.key) {
      var i :| 0 <= i < |unique| && unique[i] == r;
      assert rows[i] in rows && rows[i].key == r.key;
    }
  }

  lemma {:induction false} UniqueKeepsDistinct(disk: Disk, records: seq<Record>)
    requires DistinctKeys(records)
    ensures DistinctKeys(Unique(disk, records))
  {
    if records != [] {
      var init, last := records[..|records| - 1], records[|records| - 1];
      UniqueKeepsDistinct(disk, init);
      forall r | r in init ensures r.key != last.key {
        var i :| 0 <= i < |init| && init[i] == r;
        assert records[i] == r;
      }
    }
  }

  lemma MovedStaged(lib: Library, stored: set<Bytes>, input: Bytes, records: seq<Record>, output: Bytes,
        updated: seq<Record>)
    requires DistinctKeys(records) && SameReads(lib, input, records, output, updated) && WellHeaded(output)
    requires forall r :: r in records ==> HoldsStored(lib, stored, input, r)
    ensures StagedGood(lib, stored, output, updated)
  {
    hide Holds;
    forall r | r in updated ensures HoldsStored(lib, stored, output, r) {
      var i :| 0 <= i < |updated| && updated[i] == r;
      assert records[i] in records;
      var data :| data in stored && Holds(lib, input, records[i], data);
      assert Holds(lib, output, updated[i], data);
    }
  }

  // ----- the stores -----

  lemma StoredAfterAppend(lib: Library, stored: set<Bytes>, bytes: Bytes, more: Bytes, records: seq<Record>)
    requires StagedGood(lib, stored, bytes, records)
    ensures StagedGood(lib, stored, bytes + more, records)
  {
    forall r | r in records ensures HoldsStored(lib, stored, bytes + more, r) {
      var data :| data in stored && Holds(lib, bytes, r, data);
      HoldsAfterAppend(lib, bytes, more, r, data);
    }
  }

  lemma StagedOneMore(lib: Library, stored: set<Bytes>, bytes: Bytes, records: seq<Record>, kind: Kind, data: Bytes)
    requires Lawful(lib) && StagedGood(lib, stored, bytes, records)
    requires Known(kind) && data in stored && Fits(lib, data) && !HasKey(records, Key(kind, Hash(lib, data)))
    ensures StagedGood(lib, stored, bytes + RecordBytes(lib, kind, data),
        records + [NewRecord(lib, kind, data, |bytes|)])
  {
    var r := NewRecord(lib, kind, data, |bytes|);
    StoredAfterAppend(lib, stored, bytes, RecordBytes(lib, kind, data), records);
    AppendedHolds(lib, bytes, kind, data);
    assert HoldsStored(lib, stored, bytes + RecordBytes(lib, kind, data), r);
  }

  /** A put keeps a store good, and a put that succeeds is remembered. */
  lemma PutKeepsStore(lib: Library, stored: set<Bytes>, disk: Disk, cache: Cache, st: StoreState, kind: Kind,
        data: Bytes, id: string, written: Option<nat>)
    requires Lawful(lib) && CacheGood(disk, cache) && StoreGood(lib, stored, disk, cache, st)
    requires st.staging.Some? ==> st.isOpen
    requires Known(kind) && data in stored && Fits(lib, data)
    ensures var (st', cache', r) := Put(lib, st, disk, cache, kind, data, id, written);
            && StoreGood(lib, stored, disk, cache', st') && CacheGood(disk, cache')
            && (cache' == cache || cache' == Some(Visible(disk, cache)))
            && (st'.staging.Some? ==> st'.isOpen)
            && (st'.staging.Some? ==> st'.staging.value.id == if st.isOpen then st.staging.value.id else id)
            && (r.Ok? ==> r.value.hash == Hash(lib, data) && Key(kind, Hash(lib, data)) in st'.local)
  {
    hide Holds, Unique;
    var key := Key(kind, Hash(lib, data));
    var visible := Visible(disk, cache);
    if !st.published && key !in st.local && key !in visible {
      assert !HasKey(st.records, key);
      var before := OpenStaging(st, id);
      var bytes := before.staging.value.bytes;
      StagingIsGood(lib, stored, disk, cache, st, id);
      StagedOneMore(lib, stored, bytes, st.records, kind, data);
      var record := RecordBytes(lib, kind, data);
      var reached := if written.Some? && written.value < |record| then written.value else 0;
      StoredAfterAppend(lib, stored, bytes, record[..reached], st.records);
      var (st', cache', r) := Put(lib, st, disk, cache, kind, data, id, written);
      if r.Ok? {
        assert st'.records[|st.records|].key == key;
        forall k | k in st'.local ensures k in disk.index || HasKey(st'.records, k) {
          if k == key {
            assert st'.records[|st.records|] in st'.records;
          } else if k !in disk.index {
            var rec :| rec in st.records && rec.key == k;
            assert rec in st'.records;
          }
        }
      }
    }
  }

  lemma StagingIsGood(lib: Library, stored: set<Bytes>, disk: Disk, cache: Cache, st: StoreState, id: string)
    requires StoreGood(lib, stored, disk, cache, st) && !st.published
    requires st.staging.Some? ==> st.isOpen
    ensures StagedGood(lib, stored, OpenStaging(st, id).staging.value.bytes, st.records)
  {
    assert MAGIC[..PACK_HEADER_SIZE] == MAGIC;
  }

  // ----- every step keeps the invariants -----

  /** A store does not mind a larger index or a cache that has been loaded. */
  lemma StoreFrame(lib: Library, stored: set<Bytes>, disk: Disk, cache: Cache, disk': Disk, cache': Cache,
        st: StoreState)
    requires StoreGood(lib, stored, disk, cache, st)
    requires disk.index.Keys <= disk'.index.Keys && (cache.Some? ==> cache'.Some?)
    ensures StoreGood(lib, stored, disk', cache', st)
  {
  }

  lemma PutKeepsNames(s: Sys, s': Sys, store: nat, id: string)
    requires NamesGood(s) && Idle(s, store) && id !in s.names && s.disk.packRows.Keys <= s.disk.packs.Keys
    requires store in s'.stores && s'.stores == s.stores[store := s'.stores[store]]
    requires s'.disk == s.disk && s'.publishing == s.publishing && s'.names == s.names + {id}
    requires var st, st' := s.stores[store].state, s'.stores[store].state;
             st'.staging.Some? ==>
               st'.staging.value.id == id || (st.staging.Some? && st'.staging.value.id == st.staging.value.id)
    ensures NamesGood(s')
  {
  }

  lemma CacheKeepsStores(lib: Library, stored: set<Bytes>, s: Sys, s': Sys, store: nat, cache: Cache)
    requires StoresGood(lib, stored, s) && store in s.stores && store in s'.stores && s'.disk == s.disk
    requires s'.stores == s.stores[store := s'.stores[store]] && s'.stores[store].process == s.stores[store].process
    requires s'.caches == s.caches[s.stores[store].process := cache]
    requires s.caches[s.stores[store].process].Some? ==> cache.Some?
    requires StoreGood(lib, stored, s'.disk, cache, s'.stores[store].state)
    ensures StoresGood(lib, stored, s')
  {
    hide StoreGood;
    forall x | x in s'.stores
      ensures s'.stores[x].process in s'.caches
      ensures StoreGood(lib, stored, s'.disk, s'.caches[s'.stores[x].process], s'.stores[x].state)
    {
      if x != store {
        StoreFrame(lib, stored, s.disk, s.caches[s.stores[x].process], s'.disk, s'.caches[s.stores[x].process],
            s.stores[x].state);
      }
    }
  }

  lemma PutKeepsGood(lib: Library, stored: set<Bytes>, s: Sys, a: Action)
    requires Lawful(lib) && Good(lib, stored, s) && Enabled(lib, stored, s, a) && a.PutData?
    ensures Good(lib, stored, Step(lib, stored, s, a))
  {
    var o := s.stores[a.store];
    PutFacts(lib, stored, s, a);
    hide StoreGood, StageGood, Put, DiskGood, Fits, NamesGood, StoresGood;
    var s' := Step(lib, stored, s, a);
    PutKeepsNames(s, s', a.store, a.id);
    CacheKeepsStores(lib, stored, s, s', a.store, s'.caches[o.process]);
  }

  lemma PutFacts(lib: Library, stored: set<Bytes>, s: Sys, a: Action)
    requires Lawful(lib) && Good(lib, stored, s) && Enabled(lib, stored, s, a) && a.PutData?
    ensures s.disk.packRows.Keys <= s.disk.packs.Keys
    ensures var o := s.stores[a.store];
            var cache := s.caches[o.process];
            var (st', cache', _) := Put(lib, o.state, s.disk, cache, a.kind, a.data, a.id, a.written);
            && StoreGood(lib, stored, s.disk, cache', st') && CacheGood(s.disk, cache')
            && (cache.Some? ==> cache'.Some?)
            && (st'.staging.Some? ==> st'.isOpen)
            && (st'.staging.Some? && st'.staging.value.id != a.id ==>
                  o.state.staging.Some? && st'.staging.value.id == o.state.staging.value.id)
  {
    assert s.disk.packRows.Keys <= s.disk.packs.Keys;
    var o := s.stores[a.store];
    assert StoreGood(lib, stored, s.disk, s.caches[o.process], o.state);
    assert o.state.isOpen ==> o.state.staging.Some?;
    hide Put, DiskGood, Fits, NamesGood, StoreGood;
    PutKeepsStore(lib, stored, s.disk, s.caches[o.process], o.state, a.kind, a.data, a.id, a.written);
  }

  lemma LookUpKeepsGood(lib: Library, stored: set<Bytes>, s: Sys, p: nat)
    requires Good(lib, stored, s) && p in s.caches
    ensures Good(lib, stored, Step(lib, stored, s, LookUp(p, Key(Source, ""))))
  {
    hide StoreGood, StageGood, DiskGood;
    var s' := s.(caches := s.caches[p := Some(Visible(s.disk, s.caches[p]))]);
    forall x | x in s'.stores
      ensures s'.stores[x].process in s'.caches
      ensures StoreGood(lib, stored, s'.disk, s'.caches[s'.stores[x].process], s'.stores[x].state)
    {
      StoreFrame(lib, stored, s.disk, s.caches[s.stores[x].process], s'.disk, s'.caches[s.stores[x].process],
          s.stores[x].state);
    }
  }

  lemma UnusedKeepsStore(lib: Library, stored: set<Bytes>, disk: Disk, cache: Cache, st: StoreState)
    requires StoreGood(lib, stored, disk, cache, st) && (st.published || !st.isOpen) && (st.staging.Some? ==> st.isOpen)
    ensures StoreGood(lib, stored, disk, cache, st.(published := true))
  {
  }

  lemma BeginKeepsGood(lib: Library, stored: set<Bytes>, s: Sys, store: nat)
    requires Good(lib, stored, s) && CanBegin(s, store)
    ensures Good(lib, stored, BeginStep(s, store))
  {
    hide DiskGood, StagedGood;
  }

  lemma RepackKeepsGood(lib: Library, stored: set<Bytes>, s: Sys)
    requires Good(lib, stored, s) && CanRepack(s)
    ensures Good(lib, stored, RepackStep(s))
  {
    hide DiskGood, StoreGood;
    var p := s.publishing.value;
    var st := s.stores[p.store].state;
    var s' := RepackStep(s);
    assert StageGood(s.disk, st, s'.publishing.value.stage);
    assert NamesGood(s');
  }

  lemma RenameKeepsGood(lib: Library, stored: set<Bytes>, s: Sys)
    requires Good(lib, stored, s) && CanRename(s)
    ensures Good(lib, stored, RenameStep(s))
  {
    hide DiskGood, StoreGood, Repack;
    var p := s.publishing.value;
    var id := s.stores[p.store].state.staging.value.id;
    var disk' := Rename(s.disk, id, p.stage.bytes);
    RenameKeepsDisk(lib, stored, s.disk, id, p.stage.bytes);
    SameUnique(s.disk, disk', s.stores[p.store].state.records);
    forall x | x in s.stores ensures StoreGood(lib, stored, disk', s.caches[s.stores[x].process], s.stores[x].state) {
      var cache := s.caches[s.stores[x].process];
      StoreFrame(lib, stored, s.disk, cache, disk', cache, s.stores[x].state);
    }
  }

  lemma {:induction false} SameUnique(disk: Disk, disk': Disk, records: seq<Record>)
    requires disk.index == disk'.index
    ensures Unique(disk, records) == Unique(disk', records)
  {
    if records != [] {
      SameUnique(disk, disk', records[..|records| - 1]);
    }
  }

  lemma {:induction false} CommitKeepsStore(lib: Library, stored: set<Bytes>, disk: Disk, cache: Cache, st: StoreState,
        id: string, rows: seq<Record>)
    requires StoreGood(lib, stored, disk, cache, st) && id in disk.packs && !st.published
    requires forall r :: r in st.records ==> r.key in disk.index || HasKey(rows, r.key)
    ensures StoreGood(lib, stored, Commit(disk, id, rows), Seed(cache, Rows(id, rows)),
                      st.(isOpen := false, staging := None, published := true))
  {
    hide Rows;
    RowsAreRecords(id, rows);
  }

  lemma {:induction false} SeedKeepsCache(disk: Disk, cache: Cache, id: string, rows: seq<Record>)
    requires CacheGood(disk, cache) && id in disk.packs
    requires forall key :: key in Rows(id, rows) ==> key !in disk.index
    ensures CacheGood(Commit(disk, id, rows), Seed(cache, Rows(id, rows)))
    ensures CacheGood(Commit(disk, id, rows), cache)
  {
    hide Rows;
  }

  /** What the commit of a publish does to the disk, the caches and its own store. */
  lemma CommitFacts(lib: Library, stored: set<Bytes>, s: Sys)
    requires Good(lib, stored, s) && CanCommit(s) && s.publishing.value.stage.Renamed?
    ensures var s' := Finish(s);
            var store := s.publishing.value.store;
            && DiskGood(lib, stored, s'.disk) && s.disk.index.Keys <= s'.disk.index.Keys
            && (forall q :: q in s'.caches ==> CacheGood(s'.disk, s'.caches[q]))
            && store in s'.stores && s'.stores[store].process in s'.caches
            && StoreGood(lib, stored, s'.disk, s'.caches[s'.stores[store].process], s'.stores[store].state)
  {
    hide DiskGood, StoreGood, Repack, StagedGood, CacheGood, Insertable, Rows, NamesGood;
    var p := s.publishing.value;
    var o := s.stores[p.store];
    var st, id, rows := o.state, o.state.staging.value.id, p.stage.moved;
    assert StagedGood(lib, stored, st.staging.value.bytes, st.records) by { StagedOf(lib, stored, s, p.store); }
    RepackIsGood(lib, stored, s.disk, st, s.disk.packs[id], rows);
    CommitKeepsDisk(lib, stored, s.disk, id, rows);
    CommitKeepsStore(lib, stored, s.disk, s.caches[o.process], st, id, rows);
    var s' := Finish(s);
    forall q | q in s'.caches ensures CacheGood(s'.disk, s'.caches[q]) {
      SeedKeepsCache(s.disk, s.caches[q], id, rows);
    }
  }

  /** A commit leaves the other stores alone, and caches that exist go on existing. */
  lemma FinishTouches(s: Sys)
    requires CanCommit(s)
    ensures var s' := Finish(s);
            && s'.stores.Keys == s.stores.Keys && s.caches.Keys <= s'.caches.Keys
            && (forall x :: x in s.stores && x != s.publishing.value.store ==> s'.stores[x] == s.stores[x])
            && forall q :: q in s.caches && s.caches[q].Some? ==> s'.caches[q].Some?
  {
    hide Insertable, Rows, Unique;
  }

  lemma CommitKeepsStores(lib: Library, stored: set<Bytes>, s: Sys)
    requires Good(lib, stored, s) && CanCommit(s) && s.publishing.value.stage.Renamed?
    ensures StoresGood(lib, stored, Finish(s))
  {
    CommitFacts(lib, stored, s);
    FinishTouches(s);
    assert StoresGood(lib, stored, s);
    var s', store := Finish(s), s.publishing.value.store;
    hide Good, StoreGood, Finish, CanCommit;
    forall x | x in s'.stores
      ensures s'.stores[x].process in s'.caches
      ensures StoreGood(lib, stored, s'.disk, s'.caches[s'.stores[x].process], s'.stores[x].state)
    {
      if x != store {
        StoreFrame(lib, stored, s.disk, s.caches[s.stores[x].process], s'.disk, s'.caches[s.stores[x].process],
            s.stores[x].state);
      }
    }
  }

  lemma CommitKeepsNames(s: Sys)
    requires NamesGood(s) && CanCommit(s) && s.publishing.value.stage.Renamed?
    requires forall x :: Idle(s, x) && s.stores[x].state.staging.Some? ==> s.stores[x].state.isOpen
    ensures NamesGood(Finish(s))
    ensures forall x :: Idle(Finish(s), x) && Finish(s).stores[x].state.staging.Some? ==>
          Finish(s).stores[x].state.isOpen
  {
    hide Insertable, Rows, Unique;
  }

  lemma CommitKeepsGood(lib: Library, stored: set<Bytes>, s: Sys)
    requires Good(lib, stored, s) && CanCommit(s) && s.publishing.value.stage.Renamed?
    ensures Good(lib, stored, Finish(s))
  {
    hide DiskGood, StoresGood, CacheGood, StageGood, NamesGood, Insertable, Rows, Unique;
    CommitFacts(lib, stored, s);
    CommitKeepsStores(lib, stored, s);
    CommitKeepsNames(s);
  }

  lemma StagedOf(lib: Library, stored: set<Bytes>, s: Sys, x: nat)
    requires StoresGood(lib, stored, s) && x in s.stores && s.stores[x].state.staging.Some?
    ensures StagedGood(lib, stored, s.stores[x].state.staging.value.bytes, s.stores[x].state.records)
  {
  }

  lemma EmptyPublishKeepsGood(lib: Library, stored: set<Bytes>, s: Sys)
    requires Good(lib, stored, s) && CanCommit(s) && s.publishing.value.stage.Filtered?
    ensures Good(lib, stored, Finish(s))
  {
    hide DiskGood, StagedGood, Unique;
    var p := s.publishing.value;
    var st := s.stores[p.store].state;
    NothingUnique(s.disk, st.records);
  }

  lemma {:induction false} NothingUnique(disk: Disk, records: seq<Record>)
    requires Unique(disk, records) == []
    ensures forall r :: r in records ==> r.key in disk.index
  {
  }

  lemma RemovalKeepsGood(lib: Library, stored: set<Bytes>, s: Sys, s': Sys)
    requires Good(lib, stored, s) && s'.disk == s.disk && s'.names == s.names
    requires forall x :: x in s'.stores ==>
          x in s.stores && s'.stores[x] == s.stores[x] && s'.stores[x].process in s'.caches
    requires forall q :: q in s'.caches ==> q in s.caches && s'.caches[q] == s.caches[q]
    requires s'.publishing == s.publishing || s'.publishing == None
    requires s'.publishing.Some? ==> s'.publishing.value.store in s'.stores
    requires s.publishing.Some? && s.publishing.value.store in s'.stores ==> s'.publishing == s.publishing
    ensures Good(lib, stored, s')
  {
    hide DiskGood, StoreGood, StageGood, CacheGood;
  }

  lemma StartKeepsGood(lib: Library, stored: set<Bytes>, s: Sys, p: nat)
    requires Good(lib, stored, s) && p !in s.caches
    ensures Good(lib, stored, s.(caches := s.caches[p := None]))
  {
    hide DiskGood, StoreGood, StageGood, NamesGood;
    var s' := s.(caches := s.caches[p := None]);
    assert NamesGood(s') by { SameNames(s, s'); }
  }

  lemma SameNames(s: Sys, s': Sys)
    requires NamesGood(s) && s'.(caches := s.caches) == s
    ensures NamesGood(s')
  {
  }

  lemma NewStoreIsGood(lib: Library, stored: set<Bytes>, disk: Disk, cache: Cache)
    ensures StoreGood(lib, stored, disk, cache, NEW_STORE)
  {
  }

  lemma CreateKeepsGood(lib: Library, stored: set<Bytes>, s: Sys, store: nat, p: nat)
    requires Good(lib, stored, s) && store !in s.stores && p in s.caches
    ensures Good(lib, stored, s.(stores := s.stores[store := Owned(p, NEW_STORE)]))
  {
    hide DiskGood, StoreGood, StageGood;
    NewStoreIsGood(lib, stored, s.disk, s.caches[p]);
  }

  lemma UnusedKeepsGood(lib: Library, stored: set<Bytes>, s: Sys, store: nat)
    requires Good(lib, stored, s) && Enabled(lib, stored, s, PublishUnused(store))
    ensures Good(lib, stored, Step(lib, stored, s, PublishUnused(store)))
  {
    hide DiskGood, StoreGood, StageGood;
    var o := s.stores[store];
    UnusedKeepsStore(lib, stored, s.disk, s.caches[o.process], o.state);
  }

  lemma StepKeepsGood(lib: Library, stored: set<Bytes>, s: Sys, a: Action)
    requires Lawful(lib) && Good(lib, stored, s) && Enabled(lib, stored, s, a)
    ensures Good(lib, stored, Step(lib, stored, s, a))
  {
    hide Good;
    match a {
      case StartProcess(p) => StartKeepsGood(lib, stored, s, p);
      case CreateStore(store, p) => CreateKeepsGood(lib, stored, s, store, p);
      case PutData(_, _, _, _, _) => PutKeepsGood(lib, stored, s, a);
      case LookUp(p, _) => LookUpKeepsGood(lib, stored, s, p);
      case PublishUnused(store) => UnusedKeepsGood(lib, stored, s, store);
      case BeginPublish(store) => BeginKeepsGood(lib, stored, s, store);
      case RepackStaging => RepackKeepsGood(lib, stored, s);
      case RenamePack => RenameKeepsGood(lib, stored, s);
      case CommitPack =>
        if s.publishing.value.stage.Renamed? {
          CommitKeepsGood(lib, stored, s);
        } else {
          EmptyPublishKeepsGood(lib, stored, s);
        }
      case FailPublish => StopKeepsGood(lib, stored, s, a);
      case AbortStore(_) => StopKeepsGood(lib, stored, s, a);
      case Crash(_) => StopKeepsGood(lib, stored, s, a);
    }
  }

  lemma StopKeepsGood(lib: Library, stored: set<Bytes>, s: Sys, a: Action)
    requires Good(lib, stored, s) && Enabled(lib, stored, s, a)
    requires a.FailPublish? || a.AbortStore? || a.Crash?
    ensures Good(lib, stored, Step(lib, stored, s, a))
  {
    hide DiskGood, StoreGood, StageGood, CacheGood, NamesGood;
    RemovalKeepsGood(lib, stored, s, Step(lib, stored, s, a));
  }
}
