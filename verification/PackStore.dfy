/** The objects of internal/objectstore/store.go: the catalogue of a process, and
    the store of one build.  Every method is proved to compute the function of
    `PackSpec` with its name. */
module PackStore {
  import opened Prelude
  import opened PackFormat
  import opened PackRecords
  import opened PackSpec

  /** The packs directory, its index, and this process's location cache. */
  class Catalog {
    const lib: Library
    var packs: map<string, Bytes>
    var packRows: map<string, nat>
    var index: map<Key, Row>
    var cache: Cache

    constructor (lib: Library)
      ensures this.lib == lib && State() == EMPTY_DISK && cache == None
    {
      this.lib := lib;
      packs, packRows, index, cache := map[], map[], map[], None;
    }

    ghost function State(): Disk
      reads this
    {
      Disk(packs, packRows, index)
    }

    /** The cache is filled from the index by the first lookup and not read again. */
    method LookupRecord(key: Key) returns (row: Option<Row>)
      modifies this`cache
      ensures row == Found(Visible(State(), old(cache)), key)
      ensures cache == Some(Visible(State(), old(cache)))
    {
      if cache.None? {
        cache := Some(index);
      }
      row := if key in cache.value then Some(cache.value[key]) else None;
    }

    method Open(key: Key) returns (r: Option<Result<Bytes, ReadError>>)
      modifies this`cache
      ensures r == OpenByHash(lib, State(), old(cache), key)
      ensures cache == Some(Visible(State(), old(cache)))
    {
      var row := LookupRecord(key);
      if row.None? {
        return None;
      }
      if row.value.pack !in packs {
        return Some(Err(NoPack));
      }
      r := Some(OpenRecord(lib, packs[row.value.pack], row.value.record, key));
    }

    method SelectUnique(records: seq<Record>) returns (unique: seq<Record>)
      ensures unique == Unique(State(), records)
    {
      unique := [];
      var i := 0;
      while i < |records|
        invariant 0 <= i <= |records|
        invariant unique == Unique(State(), records[..i])
      {
        assert records[..i + 1][..i] == records[..i];
        if records[i].key !in index {
          unique := unique + [records[i]];
        }
        i := i + 1;
      }
      assert records[..i] == records;
    }

    /** The inserts of one transaction: both tables change, or neither does. */
    method InsertRows(id: string, records: seq<Record>) returns (ok: bool)
      requires id in packs
      modifies this`packRows, this`index
      ensures ok == Insertable(old(State()), id, records)
      ensures State() == if ok then Commit(old(State()), id, records) else old(State())
    {
      hide Rows;
      var rows := index;
      if id in packRows {
        return false;
      }
      var i := 0;
      assert Rows(id, records[..0]) == map[] by { NoRows(id, records); }
      while i < |records|
        invariant 0 <= i <= |records|
        invariant State() == old(State()) && rows == index + Rows(id, records[..i])
        invariant Insertable(State(), id, records[..i])
      {
        RowsAreRecords(id, records[..i]);
        RowsStep(id, records, i);
        if records[i].key in rows {
          NotInsertable(State(), id, records, i);
          return false;
        }
        InsertableStep(State(), id, records, i);
        rows := rows[records[i].key := Row(id, records[i])];
        i := i + 1;
      }
      assert records[..i] == records;
      packRows := packRows[id := |packs[id]|];
      index := rows;
      ok := true;
    }

    /** After the commit the new rows are added to the cache, which is created if
        it was never loaded. */
    method SeedCache(id: string, records: seq<Record>)
      requires DistinctKeys(records)
      modifies this`cache
      ensures cache == Seed(old(cache), Rows(id, records))
    {
      hide Rows, DistinctKeys;
      var cached := if cache.Some? then cache.value else map[];
      ghost var before := cached;
      var i := 0;
      assert Rows(id, records[..0]) == map[] by { NoRows(id, records); }
      while i < |records|
        invariant 0 <= i <= |records|
        invariant cached == Rows(id, records[..i]) + before
      {
        SeedStep(id, records, i, before);
        if records[i].key !in cached {
          cached := cached[records[i].key := Row(id, records[i])];
        }
        i := i + 1;
      }
      assert records[..i] == records;
      cache := Some(cached);
    }

    method PublishRecords(staging: Staging, records: seq<Record>, fault: Fault) returns (ok: bool)
      modifies this
      ensures (State(), cache, ok) == PublishIndex(old(State()), old(cache), staging, records, fault)
    {
      hide Rows, Compact, Unique;
      var unique := SelectUnique(records);
      if |unique| == 0 {
        return true;
      }
      var bytes := staging.bytes;
      if |unique| != |records| {
        var compacted := CompactPack(staging.bytes, unique);
        if compacted.Err? {
          return false;
        }
        bytes, unique := compacted.value.0, compacted.value.1;
      }
      if fault == FailsBeforeRename {
        return false;
      }
      packs := packs[staging.id := bytes];
      if fault == FailsBeforeCommit {
        return false;
      }
      ok := InsertRows(staging.id, unique);
      if ok {
        SeedCache(staging.id, unique);
      }
    }
  }

  lemma {:induction false} SeedStep(id: string, records: seq<Record>, i: nat, before: map<Key, Row>)
    requires DistinctKeys(records) && i < |records|
    ensures var cached := Rows(id, records[..i]) + before;
            Rows(id, records[..i + 1]) + before
              == if records[i].key in cached then cached else cached[records[i].key := Row(id, records[i])]
  {
    hide Rows;
    RowsAreRecords(id, records[..i]);
    RowsStep(id, records, i);
    KeyIsNew(records, i);
  }

  lemma {:induction false} NoRows(id: string, records: seq<Record>)
    ensures Rows(id, records[..0]) == map[]
  {
  }

  lemma KeyIsNew(records: seq<Record>, i: nat)
    requires DistinctKeys(records) && i < |records|
    ensures !HasKey(records[..i], records[i].key)
  {
  }

  lemma NotInsertable(disk: Disk, id: string, records: seq<Record>, i: nat)
    requires i < |records| && (records[i].key in disk.index || HasKey(records[..i], records[i].key))
    ensures !Insertable(disk, id, records)
  {
    if records[i].key !in disk.index {
      var j :| 0 <= j < i && records[..i][j].key == records[i].key;
      assert records[j].key == records[i].key;
    }
  }

  lemma InsertableStep(disk: Disk, id: string, records: seq<Record>, i: nat)
    requires i < |records| && Insertable(disk, id, records[..i])
    requires records[i].key !in disk.index && !HasKey(records[..i], records[i].key)
    ensures Insertable(disk, id, records[..i + 1])
  {
    var next := records[..i + 1];
    forall a, b | 0 <= a < b < |next| ensures next[a].key != next[b].key {
      assert next[a] == records[a] && next[b] == records[b];
      if b < i {
        assert records[..i][a].key != records[..i][b].key;
      } else {
        assert records[..i][a] in records[..i];
      }
    }
    forall r | r in next ensures r.key !in disk.index {
      var a :| 0 <= a < |next| && next[a] == r;
      if a < i {
        assert records[..i][a] in records[..i];
      }
    }
  }

  /** One build's new objects, in one staging pack. */
  class Store {
    const catalog: Catalog
    var staging: Option<Staging>
    var isOpen: bool
    var records: seq<Record>
    var local: set<Key>
    var published: bool

    constructor (catalog: Catalog)
      ensures this.catalog == catalog && State() == NEW_STORE
    {
      this.catalog := catalog;
      staging, isOpen, records, local, published := None, false, [], {}, false;
    }

    ghost function State(): StoreState
      reads this
    {
      StoreState(staging, isOpen, records, local, published)
    }

    ghost predicate Valid()
      reads this
    {
      isOpen ==> staging.Some?
    }

    method OpenStagingFile(id: string)
      requires Valid()
      modifies this`staging, this`isOpen
      ensures Valid() && isOpen && State() == OpenStaging(old(State()), id)
    {
      if isOpen {
        return;
      }
      staging := Some(Staging(id, MAGIC));
      isOpen := true;
    }

    method PutObject(kind: Kind, data: Bytes, id: string, written: Option<nat>) returns (r: Result<Stored, PutError>)
      requires Valid() && Fits(catalog.lib, data) && |catalog.lib.sha256(data)| == 32
      modifies this, catalog`cache
      ensures Valid()
      ensures (State(), catalog.cache, r)
           == Put(catalog.lib, old(State()), catalog.State(), old(catalog.cache), kind, data, id, written)
    {
      var lib := catalog.lib;
      var hash := Hash(lib, data);
      var key := Key(kind, hash);
      if published {
        return Err(AlreadyPublished);
      }
      if key in local {
        return Ok(Stored(hash, true));
      }
      var row := catalog.LookupRecord(key);
      if row.Some? {
        local := local + {key};
        return Ok(Stored(hash, true));
      }
      OpenStagingFile(id);
      var offset := |staging.value.bytes|;
      var bytes := RecordBytes(lib, kind, data);
      if written.Some? && written.value < |bytes| {
        staging := Some(staging.value.(bytes := staging.value.bytes + bytes[..written.value]));
        return Err(WriteFailed);
      }
      staging := Some(staging.value.(bytes := staging.value.bytes + bytes));
      records := records + [NewRecord(lib, kind, data, offset)];
      local := local + {key};
      r := Ok(Stored(hash, false));
    }

    method PublishPack(fault: Fault) returns (ok: bool)
      requires Valid()
      modifies this, catalog
      ensures Valid()
      ensures (State(), catalog.State(), catalog.cache, ok)
           == Publish(old(State()), old(catalog.State()), old(catalog.cache), fault)
    {
      if published {
        return true;
      }
      if !isOpen {
        published := true;
        return true;
      }
      isOpen := false;
      ok := catalog.PublishRecords(staging.value, records, fault);
      if ok {
        staging := None;
        published := true;
      }
    }

    method AbortPack()
      requires Valid()
      modifies this
      ensures Valid() && State() == Abort(old(State()))
    {
      isOpen := false;
      staging := None;
    }
  }
}
