/** The object store (internal/objectstore/store.go) as functions on values: the
    staging pack of one build, the published packs with their index, and the
    location cache of a process. */
module PackSpec {
  import opened Prelude
  import opened PackFormat
  import opened PackRecords

  /** A row of the index: the pack that holds the record, and the record. */
  datatype Row = Row(pack: string, record: Record)

  /** What survives a crash: the pack files, and the two tables of the index. */
  datatype Disk = Disk(packs: map<string, Bytes>, packRows: map<string, nat>, index: map<Key, Row>)

  const EMPTY_DISK := Disk(map[], map[], map[])

  /** `catalogCache` of one process: not loaded, or a copy of the index. */
  type Cache = Option<map<Key, Row>>

  datatype Staging = Staging(id: string, bytes: Bytes)

  /** `isOpen` is `s.file != nil`. */
  datatype StoreState = StoreState(
    staging: Option<Staging>, isOpen: bool, records: seq<Record>, local: set<Key>, published: bool)

  const NEW_STORE := StoreState(None, false, [], {}, false)

  // ----- lookup and open -----

  /** The rows a process sees: its cache once loaded, and the index before that. */
  function Visible(disk: Disk, cache: Cache): map<Key, Row> {
    if cache.Some? then cache.value else disk.index
  }

  function Found(rows: map<Key, Row>, key: Key): Option<Row> {
    if key in rows then Some(rows[key]) else None
  }

  function OpenRow(lib: Library, disk: Disk, row: Row, key: Key): Result<Bytes, ReadError> {
    if row.pack !in disk.packs then Err(NoPack) else OpenRecord(lib, disk.packs[row.pack], row.record, key)
  }

  /** Reading by hash through the packs; None is a miss, where the source turns to
      the legacy single-object files. */
  function OpenByHash(lib: Library, disk: Disk, cache: Cache, key: Key): Option<Result<Bytes, ReadError>> {
    match Found(Visible(disk, cache), key)
    case None => None
    case Some(row) => Some(OpenRow(lib, disk, row, key))
  }

  // ----- put -----

  datatype PutError = AlreadyPublished | WriteFailed

  datatype Stored = Stored(hash: string, reused: bool)

  function OpenStaging(st: StoreState, id: string): StoreState {
    if st.isOpen then st else st.(staging := Some(Staging(id, MAGIC)), isOpen := true)
  }

  /** `put`: `id` names the staging file if one has to be created, and `written`
      says how many bytes of the record reach it when the write fails. */
  function Put(lib: Library, st: StoreState, disk: Disk, cache: Cache, kind: Kind, data: Bytes, id: string,
        written: Option<nat>): (r: (StoreState, Cache, Result<Stored, PutError>))
    requires (st.isOpen ==> st.staging.Some?) && Fits(lib, data) && |lib.sha256(data)| == 32
  {
    var hash := Hash(lib, data);
    var key := Key(kind, hash);
    if st.published then (st, cache, Err(AlreadyPublished))
    else if key in st.local then (st, cache, Ok(Stored(hash, true)))
    else if key in Visible(disk, cache) then
      (st.(local := st.local + {key}), Some(Visible(disk, cache)), Ok(Stored(hash, true)))
    else
      var st' := OpenStaging(st, id);
      var staging := st'.staging.value;
      var bytes := RecordBytes(lib, kind, data);
      if written.Some? && written.value < |bytes| then
        (st'.(staging := Some(staging.(bytes := staging.bytes + bytes[..written.value]))),
         Some(Visible(disk, cache)), Err(WriteFailed))
      else
        (st'.(staging := Some(staging.(bytes := staging.bytes + bytes)),
              records := st'.records + [NewRecord(lib, kind, data, |staging.bytes|)],
              local := st'.local + {key}),
         Some(Visible(disk, cache)), Ok(Stored(hash, false)))
  }

  /** What a put answers: `reused` if and only if the object was put through this store
      before or is indexed as far as the process sees; then nothing is staged, and
      otherwise one record more.  An object whose record cannot be written is not kept. */
  lemma PutAnswers(lib: Library, st: StoreState, disk: Disk, cache: Cache, kind: Kind, data: Bytes, id: string,
        written: Option<nat>)
    requires (st.isOpen ==> st.staging.Some?) && Fits(lib, data) && |lib.sha256(data)| == 32
    ensures var (after, seen, answer) := Put(lib, st, disk, cache, kind, data, id, written);
            var key := Key(kind, Hash(lib, data));
            var known := key in st.local || key in Visible(disk, cache);
            && (answer == Err(AlreadyPublished) <==> st.published)
            && (answer == Err(WriteFailed) <==>
                  !st.published && !known && written.Some? && written.value < |RecordBytes(lib, kind, data)|)
            && (answer.Ok? ==> answer.value == Stored(Hash(lib, data), known) && after.local == st.local + {key})
            && (answer.Ok? && known ==> after.records == st.records && after.staging == st.staging)
            && (answer.Ok? && !known ==>
                  && |after.records| == |st.records| + 1 && after.records[..|st.records|] == st.records
                  && after.records[|st.records|].key == key && after.staging.Some?
                  && RecordBytes(lib, kind, data) <= after.staging.value.bytes[after.records[|st.records|].offset..])
            && (answer.Err? ==> after.local == st.local && after.records == st.records)
            && Visible(disk, seen) == Visible(disk, cache)
  {
  }

  // ----- publish -----

  /** The staged records whose key the index does not have yet. */
  function Unique(disk: Disk, records: seq<Record>): (r: seq<Record>)
    ensures |r| <= |records|
    ensures forall x | x in r :: x in records && x.key !in disk.index
    ensures forall x | x in records :: x.key in disk.index || x in r
  {
    if records == [] then []
    else
      Unique(disk, records[..|records| - 1])
      + (if records[|records| - 1].key in disk.index then [] else [records[|records| - 1]])
  }

  /** The pack that is published: the staging file itself, or a compacted copy
      when another build has published some of its records first. */
  function Repack(staging: Bytes, records: seq<Record>,
        unique: seq<Record>): Result<(Bytes, seq<Record>), CompactError> {
    if |unique| == |records| then Ok((staging, unique)) else Compact(staging, unique)
  }

  function Rows(pack: string, records: seq<Record>): map<Key, Row> {
    if records == [] then map[]
    else
      var last := records[|records| - 1];
      Rows(pack, records[..|records| - 1])[last.key := Row(pack, last)]
  }

  lemma {:induction false} RowsStep(pack: string, records: seq<Record>, n: nat)
    requires n < |records|
    ensures Rows(pack, records[..n + 1]) == Rows(pack, records[..n])[records[n].key := Row(pack, records[n])]
  {
    assert records[..n + 1][..n] == records[..n];
  }

  /** The rows have the keys of the records, and each row is one of them. */
  lemma {:induction false} RowsAreRecords(pack: string, records: seq<Record>)
    ensures forall k :: k in Rows(pack, records) <==> HasKey(records, k)
    ensures forall k :: k in Rows(pack, records) ==>
              Rows(pack, records)[k].record in records && Rows(pack, records)[k].record.key == k
              && Rows(pack, records)[k].pack == pack
  {
    if records != [] {
      var init, last := records[..|records| - 1], records[|records| - 1];
      RowsAreRecords(pack, init);
      assert records == init + [last];
    }
  }

  predicate HasKey(records: seq<Record>, k: Key) {
    exists r :: r in records && r.key == k
  }

  predicate DistinctKeys(records: seq<Record>) {
    forall i, j :: 0 <= i < j < |records| ==> records[i].key != records[j].key
  }

  function Rename(disk: Disk, id: string, bytes: Bytes): Disk {
    disk.(packs := disk.packs[id := bytes])
  }

  /** Whether the inserts keep the primary keys of both tables. */
  predicate Insertable(disk: Disk, id: string, records: seq<Record>) {
    && id !in disk.packRows && DistinctKeys(records)
    && forall r :: r in records ==> r.key !in disk.index
  }

  function Commit(disk: Disk, id: string, records: seq<Record>): Disk
    requires id in disk.packs
  {
    disk.(packRows := disk.packRows[id := |disk.packs[id]|], index := disk.index + Rows(id, records))
  }

  /** The rows the publisher adds to its own cache; a row already there stays. */
  function Seed(cache: Cache, rows: map<Key, Row>): Cache {
    Some(rows + if cache.Some? then cache.value else map[])
  }

  datatype Fault = NoFault | FailsBeforeRename | FailsBeforeCommit

  /** `publishIndex`, with the place where it fails. */
  function PublishIndex(disk: Disk, cache: Cache, staging: Staging, records: seq<Record>,
        fault: Fault): (Disk, Cache, bool) {
    var unique := Unique(disk, records);
    if unique == [] then (disk, cache, true)
    else
      match Repack(staging.bytes, records, unique)
      case Err(_) => (disk, cache, false)
      case Ok((bytes, kept)) =>
        if fault == FailsBeforeRename then (disk, cache, false)
        else
          var renamed := Rename(disk, staging.id, bytes);
          if fault == FailsBeforeCommit || !Insertable(renamed, staging.id, kept) then (renamed, cache, false)
          else (Commit(renamed, staging.id, kept), Seed(cache, Rows(staging.id, kept)), true)
  }

  /** `Store.Publish`. */
  function Publish(st: StoreState, disk: Disk, cache: Cache, fault: Fault): (StoreState, Disk, Cache, bool)
    requires st.isOpen ==> st.staging.Some?
  {
    if st.published then (st, disk, cache, true)
    else if !st.isOpen then (st.(published := true), disk, cache, true)
    else
      var (disk', cache', ok) := PublishIndex(disk, cache, st.staging.value, st.records, fault);
      if ok then (st.(isOpen := false, staging := None, published := true), disk', cache', true)
      else (st.(isOpen := false), disk', cache', false)
  }

  /** `Store.Abort`: the staging file goes, the records and the local keys stay. */
  function Abort(st: StoreState): StoreState {
    st.(isOpen := false, staging := None)
  }

  /** A second `Publish` after a failed one reports success although none of the
      staged records is in the index. */
  lemma {:induction false} PublishAfterFailureLosesRecords(st: StoreState, disk: Disk, cache: Cache)
    requires st.isOpen && st.staging.Some? && !st.published
    requires Unique(disk, st.records) == st.records && st.records != []
    ensures var (st1, disk1, cache1, ok1) := Publish(st, disk, cache, FailsBeforeRename);
            var (_, disk2, _, ok2) := Publish(st1, disk1, cache1, NoFault);
            !ok1 && ok2 && disk2 == disk && forall r :: r in st.records ==> r.key !in disk2.index
  {
    forall r | r in st.records ensures r.key !in disk.index {
      assert r in Unique(disk, st.records);
    }
  }

  /** A `Publish` after an `Abort` reports success, and the index has of the aborted
      records those it had before. */
  lemma AbortLosesRecords(st: StoreState, disk: Disk, cache: Cache, fault: Fault)
    requires !st.published
    ensures var (st', disk', cache', ok) := Publish(Abort(st), disk, cache, fault);
            && ok && st'.published && st'.records == st.records && cache' == cache
            && disk'.packs == disk.packs && forall r :: r in st.records ==>
                  (r.key in disk'.index <==> r.key in disk.index)
  {
  }

  /** Data that was put before an `Abort` and is put again after it is reported as
      stored, the publish succeeds, and reading it back hits only if it could be read
      before. */
  lemma PutAfterAbortIsLost(lib: Library, st: StoreState, disk: Disk, cache: Cache, kind: Kind, data: Bytes, id: string,
        written: Option<nat>, fault: Fault)
    requires Fits(lib, data) && |lib.sha256(data)| == 32 && !st.published && Key(kind, Hash(lib, data)) in st.local
    ensures var key := Key(kind, Hash(lib, data));
            var (st1, cache1, stored) := Put(lib, Abort(st), disk, cache, kind, data, id, written);
            var (_, disk2, cache2, ok) := Publish(st1, disk, cache1, fault);
            && stored == Ok(Stored(key.hash, true)) && ok
            && (OpenByHash(lib, disk2, cache2, key).Some? <==> key in Visible(disk, cache))
  {
    hide Hash, Fits, OpenRow;
  }

  lemma {:induction false} CompactKeepsKeys(input: Bytes, records: seq<Record>, n: nat)
    requires n <= |records| && CompactPrefix(input, records, n).Ok?
    ensures forall i :: 0 <= i < n ==> CompactPrefix(input, records, n).value.1[i].key == records[i].key
  {
    hide CopyRecord;
    if n > 0 {
      CompactKeepsKeys(input, records, n - 1);
    }
  }

  lemma RepackKeepsKeys(staging: Bytes, records: seq<Record>, unique: seq<Record>, r: Record)
    requires Repack(staging, records, unique).Ok? && r in unique
    ensures HasKey(Repack(staging, records, unique).value.1, r.key)
  {
    var i :| 0 <= i < |unique| && unique[i] == r;
    var kept := Repack(staging, records, unique).value.1;
    if |unique| != |records| {
      CompactKeepsKeys(staging, unique, |unique|);
    }
    hide Repack;
    assert kept[i] in kept && kept[i].key == r.key;
  }

  predicate AllIndexed(disk: Disk, records: seq<Record>) {
    forall r :: r in records ==> r.key in disk.index
  }

  lemma IndexedByPublish(disk: Disk, cache: Cache, staging: Staging, records: seq<Record>, fault: Fault)
    requires PublishIndex(disk, cache, staging, records, fault).2
    ensures AllIndexed(PublishIndex(disk, cache, staging, records, fault).0, records)
  {
    var unique := Unique(disk, records);
    forall r | r in records ensures r.key in PublishIndex(disk, cache, staging, records, fault).0.index {
      if r.key !in disk.index {
        assert r in unique;
        RepackKeepsKeys(staging.bytes, records, unique, r);
        RowsAreRecords(staging.id, Repack(staging.bytes, records, unique).value.1);
        hide Rows, Repack, Unique, Insertable;
      }
    }
  }

  /** A publish that reports success has its records in the index if and only if its
      staging file was still open, or they were there before. */
  lemma PublishKeepsItsWord(st: StoreState, disk: Disk, cache: Cache, fault: Fault)
    requires (st.isOpen ==> st.staging.Some?) && !st.published && Publish(st, disk, cache, fault).3
    ensures AllIndexed(Publish(st, disk, cache, fault).1, st.records) <==> st.isOpen || AllIndexed(disk, st.records)
  {
    hide PublishIndex, AllIndexed;
    if st.isOpen {
      IndexedByPublish(disk, cache, st.staging.value, st.records, fault);
    }
  }
}
