/** Records inside a pack: writing one, reading one back with every check the
    reader makes, and compaction, which copies a choice of records to a new pack. */
module PackRecords {
  import opened Prelude
  import opened PackFormat

  /** SHA-256 and gzip, as far as the store relies on them. */
  datatype Library = Library(sha256: Bytes -> Bytes, gzip: Bytes -> Bytes, gunzip: Bytes -> Option<Bytes>)

  ghost predicate Lawful(lib: Library) {
    && (forall data :: |lib.sha256(data)| == 32)
    && (forall data :: lib.gunzip(lib.gzip(data)) == Some(data))
  }

  /** The hash tells apart the data that is ever stored. */
  ghost predicate Separates(lib: Library, stored: set<Bytes>) {
    forall a, b :: a in stored && b in stored && lib.sha256(a) == lib.sha256(b) ==> a == b
  }

  function Hash(lib: Library, data: Bytes): string {
    HexEncode(lib.sha256(data))
  }

  /** Lengths of buffers in memory fit an int64. */
  predicate Fits(lib: Library, data: Bytes) {
    |data| < TWO_63 && |lib.gzip(data)| < TWO_63
  }

  datatype Key = Key(kind: Kind, hash: string)

  /** A record of a pack: `pendingRecord` while it is staged, a row of the index
      once it is published. */
  datatype Record = Record(key: Key, offset: nat, compressed: int64, original: int64, codec: byte)

  function HeaderOf(r: Record): Header {
    Header(r.key.kind, r.codec, r.key.hash, r.original, r.compressed)
  }

  function End(r: Record): int {
    r.offset + RECORD_HEADER_SIZE + r.compressed
  }

  /** The record lies inside the pack, behind the magic, under a header that says
      what the record says. */
  predicate Complete(pack: Bytes, r: Record) {
    && PACK_HEADER_SIZE <= r.offset && 0 <= r.compressed && 0 <= r.original
    && End(r) <= |pack|
    && DecodeHeader(pack[r.offset..r.offset + RECORD_HEADER_SIZE]) == Ok(HeaderOf(r))
  }

  function Payload(pack: Bytes, r: Record): Bytes
    requires Complete(pack, r)
  {
    pack[r.offset + RECORD_HEADER_SIZE..End(r)]
  }

  predicate WellHeaded(pack: Bytes) {
    |pack| >= PACK_HEADER_SIZE && pack[..PACK_HEADER_SIZE] == MAGIC
  }

  // ----- reading -----

  datatype ReadError =
    | NoPack | BadMagic | ShortHeader | BadHeader | BadLength | MetadataMismatch
    | ShortPayload | BadGzip | UnsupportedCodec | HashMismatch

  function Unpack(lib: Library, codec: byte, payload: Bytes): Result<Bytes, ReadError> {
    if codec == CODEC_GZIP then
      match lib.gunzip(payload)
      case None => Err(BadGzip)
      case Some(data) => Ok(data)
    else if codec == CODEC_RAW then Ok(payload)
    else Err(UnsupportedCodec)
  }

  /** `openPackRecord`: every check on the way to the bytes. */
  function OpenRecord(lib: Library, pack: Bytes, r: Record, expected: Key): Result<Bytes, ReadError> {
    if !WellHeaded(pack) || r.offset < PACK_HEADER_SIZE then Err(BadMagic)
    else if r.offset + RECORD_HEADER_SIZE > |pack| then Err(ShortHeader)
    else
      match DecodeHeader(pack[r.offset..r.offset + RECORD_HEADER_SIZE])
      case Err(_) => Err(BadHeader)
      case Ok(h) =>
        if h.original < 0 || h.compressed < 0 then Err(BadLength)
        else if h.kind != expected.kind || h.hash != expected.hash || h.original != r.original
                || h.compressed != r.compressed || h.codec != r.codec then Err(MetadataMismatch)
        else if r.offset + RECORD_HEADER_SIZE + h.compressed > |pack| then Err(ShortPayload)
        else
          var start := r.offset + RECORD_HEADER_SIZE;
          match Unpack(lib, h.codec, pack[start..start + h.compressed])
          case Err(e) => Err(e)
          case Ok(data) =>
            if |data| != h.original || Hash(lib, data) != expected.hash then Err(HashMismatch) else Ok(data)
  }

  /** Whatever is read has the hash and the length that were asked for. */
  lemma ReadIsChecked(lib: Library, pack: Bytes, r: Record, expected: Key)
    requires OpenRecord(lib, pack, r, expected).Ok?
    ensures var data := OpenRecord(lib, pack, r, expected).value;
            && Hash(lib, data) == expected.hash && |data| == r.original
            && Complete(pack, r.(key := expected))
  {
    var h := DecodeHeader(pack[r.offset..r.offset + RECORD_HEADER_SIZE]).value;
    assert h == HeaderOf(r.(key := expected));
  }

  // ----- writing -----

  /** The codec and payload that `put` chooses: assets are stored as they are. */
  function Packed(lib: Library, kind: Kind, data: Bytes): (byte, Bytes) {
    if kind == Asset then (CODEC_RAW, data) else (CODEC_GZIP, lib.gzip(data))
  }

  function NewRecord(lib: Library, kind: Kind, data: Bytes, offset: nat): Record
    requires Fits(lib, data)
  {
    var (codec, payload) := Packed(lib, kind, data);
    Record(Key(kind, Hash(lib, data)), offset, |payload|, |data|, codec)
  }

  /** The bytes of a record: its header, then its payload. */
  function RecordBytes(lib: Library, kind: Kind, data: Bytes): (r: Bytes)
    requires Fits(lib, data) && |lib.sha256(data)| == 32
  {
    HexRoundTrip(lib.sha256(data));
    EncodeHeader(HeaderOf(NewRecord(lib, kind, data, 0))).value + Packed(lib, kind, data).1
  }

  /** What a record consists of: an asset is stored as it is and any other object
      compressed, behind a header with the code of the kind, the codec, both lengths
      and the hash. */
  lemma RecordLayout(lib: Library, kind: Kind, data: Bytes)
    requires Fits(lib, data) && |lib.sha256(data)| == 32
    ensures var record, payload := RecordBytes(lib, kind, data), if kind.Asset? then data else lib.gzip(data);
            && |record| == 52 + |payload| && record[52..] == payload
            && record[0] == (match kind case Source => 1 case Asset => 2 case Ast => 3 case Other(_) => 0)
            && record[1] == (if kind.Asset? then 0 else 1)
            && Number(record[4..12]) == |data| && Number(record[12..20]) == |payload|
            && record[20..52] == lib.sha256(data)
  {
    var digest := lib.sha256(data);
    HexRoundTrip(digest);
    var h := HeaderOf(NewRecord(lib, kind, data, 0));
    var header := EncodeHeader(h).value;
    HeaderLayout(h);
    var record := RecordBytes(lib, kind, data);
    assert record[4..12] == header[4..12] && record[12..20] == header[12..20] && record[20..52] == digest;
  }

  /** `r` is a complete record of the pack that holds `data`. */
  predicate Holds(lib: Library, pack: Bytes, r: Record, data: Bytes) {
    && Complete(pack, r) && r.key.hash == Hash(lib, data) && r.original == |data|
    && Unpack(lib, r.codec, Payload(pack, r)) == Ok(data)
  }

  /** Appending a record to a pack makes it readable there. */
  lemma AppendedHolds(lib: Library, pack: Bytes, kind: Kind, data: Bytes)
    requires Lawful(lib) && Fits(lib, data) && Known(kind) && WellHeaded(pack)
    ensures Holds(lib, pack + RecordBytes(lib, kind, data), NewRecord(lib, kind, data, |pack|), data)
  {
    var r := NewRecord(lib, kind, data, |pack|);
    var digest := lib.sha256(data);
    var header := EncodeHeader(HeaderOf(NewRecord(lib, kind, data, 0)));
    assert HeaderOf(NewRecord(lib, kind, data, 0)) == HeaderOf(r);
    DecodeInvertsEncode(HeaderOf(r), digest);
    var pack' := pack + RecordBytes(lib, kind, data);
    assert pack'[r.offset..r.offset + RECORD_HEADER_SIZE] == header.value;
    assert pack'[r.offset + RECORD_HEADER_SIZE..End(r)] == Packed(lib, kind, data).1;
  }

  lemma HoldsAfterAppend(lib: Library, pack: Bytes, more: Bytes, r: Record, data: Bytes)
    requires Holds(lib, pack, r, data)
    ensures Holds(lib, pack + more, r, data)
  {
    assert (pack + more)[r.offset..r.offset + RECORD_HEADER_SIZE] == pack[r.offset..r.offset + RECORD_HEADER_SIZE];
    assert (pack + more)[r.offset + RECORD_HEADER_SIZE..End(r)] == pack[r.offset + RECORD_HEADER_SIZE..End(r)];
  }

  /** A record that holds `data` is read back as `data`. */
  lemma HeldIsRead(lib: Library, pack: Bytes, r: Record, data: Bytes)
    requires WellHeaded(pack) && Holds(lib, pack, r, data)
    ensures OpenRecord(lib, pack, r, r.key) == Ok(data)
  {
    var start := r.offset + RECORD_HEADER_SIZE;
    assert pack[start..start + r.compressed] == Payload(pack, r);
  }

  // ----- compaction -----

  /** The bytes of a record, header and payload. */
  function Extent(pack: Bytes, r: Record): (e: Bytes)
    requires Complete(pack, r)
    ensures |e| == RECORD_HEADER_SIZE + r.compressed
  {
    pack[r.offset..End(r)]
  }

  datatype CompactError = ReadFailed

  /** A copy of one record at the end of the output, or an error when the input
      ends before the record does. */
  function CopyRecord(input: Bytes, r: Record): Result<Bytes, CompactError> {
    if r.offset + RECORD_HEADER_SIZE > |input| || r.compressed < 0 || End(r) > |input| then Err(ReadFailed)
    else Ok(input[r.offset..End(r)])
  }

  /** The first `n` records, copied behind a fresh magic. */
  function CompactPrefix(input: Bytes, records: seq<Record>, n: nat): (r: Result<(Bytes, seq<Record>), CompactError>)
    requires n <= |records|
    ensures r.Ok? ==> |r.value.1| == n
  {
    if n == 0 then Ok((MAGIC, []))
    else
      match CompactPrefix(input, records, n - 1)
      case Err(e) => Err(e)
      case Ok((output, updated)) =>
        match CopyRecord(input, records[n - 1])
        case Err(e) => Err(e)
        case Ok(copy) => Ok((output + copy, updated + [records[n - 1].(offset := |output|)]))
  }

  function Compact(input: Bytes, records: seq<Record>): Result<(Bytes, seq<Record>), CompactError> {
    CompactPrefix(input, records, |records|)
  }

  /** `compactPack`: a seek, a header and a payload for every record kept. */
  method CompactPack(input: Bytes, records: seq<Record>) returns (r: Result<(Bytes, seq<Record>), CompactError>)
    ensures r == Compact(input, records)
  {
    var output := MAGIC;
    var updated := [];
    var i := 0;
    while i < |records|
      invariant 0 <= i <= |records|
      invariant CompactPrefix(input, records, i) == Ok((output, updated))
    {
      var record := records[i];
      var newOffset := |output|;
      if record.offset + RECORD_HEADER_SIZE > |input| {
        CompactFails(input, records, i);
        return Err(ReadFailed);
      }
      var start := record.offset + RECORD_HEADER_SIZE;
      var header := input[record.offset..start];
      if record.compressed < 0 || start + record.compressed > |input| {
        CompactFails(input, records, i);
        return Err(ReadFailed);
      }
      var payload := input[start..start + record.compressed];
      assert header + payload == input[record.offset..End(record)];
      assert output + header + payload == output + (header + payload);
      output := output + header + payload;
      updated := updated + [record.(offset := newOffset)];
      i := i + 1;
    }
    r := Ok((output, updated));
  }

  lemma {:induction false} CompactFails(input: Bytes, records: seq<Record>, i: nat)
    requires i < |records| && CompactPrefix(input, records, i).Ok? && CopyRecord(input, records[i]).Err?
    ensures Compact(input, records) == Err(ReadFailed)
  {
    assert CompactPrefix(input, records, i + 1) == Err(ReadFailed);
    FailurePersists(input, records, i + 1, |records|);
  }

  lemma {:induction false} FailurePersists(input: Bytes, records: seq<Record>, n: nat, m: nat)
    requires n <= m <= |records| && CompactPrefix(input, records, n) == Err(ReadFailed)
    ensures CompactPrefix(input, records, m) == Err(ReadFailed)
  {
    if n < m {
      FailurePersists(input, records, n, m - 1);
    }
  }

  /** The record is complete in both packs, with the same bytes. */
  predicate Moved(input: Bytes, r: Record, output: Bytes, u: Record) {
    && u == r.(offset := u.offset) && Complete(input, r) && Complete(output, u)
    && Extent(output, u) == Extent(input, r)
  }

  /** Records one behind the other, from behind the magic up to `size`. */
  predicate Consecutive(updated: seq<Record>, size: int) {
    && (updated != [] ==> updated[0].offset == PACK_HEADER_SIZE)
    && (forall i :: 0 < i < |updated| ==> updated[i].offset == End(updated[i - 1]))
    && size == if updated == [] then PACK_HEADER_SIZE else End(updated[|updated| - 1])
  }

  /** Each kept record is found complete at its new offset with the same bytes,
      and the new extents tile the pack behind the magic in the order kept. */
  predicate Tiles(input: Bytes, records: seq<Record>, output: Bytes, updated: seq<Record>) {
    && WellHeaded(output) && |updated| == |records|
    && (forall i :: 0 <= i < |records| ==> Moved(input, records[i], output, updated[i]))
    && Consecutive(updated, |output|)
  }

  /** The same bytes at another place are the same record there. */
  lemma MovedRecord(input: Bytes, r: Record, output: Bytes, offset: nat)
    requires Complete(input, r) && PACK_HEADER_SIZE <= offset && offset + RECORD_HEADER_SIZE + r.compressed <= |output|
    requires output[offset..offset + RECORD_HEADER_SIZE + r.compressed] == Extent(input, r)
    ensures var r' := r.(offset := offset);
            Complete(output, r') && Extent(output, r') == Extent(input, r) && Payload(output, r') == Payload(input, r)
  {
    hide DecodeHeader;
    var e := Extent(input, r);
    assert output[offset..offset + RECORD_HEADER_SIZE] == e[..RECORD_HEADER_SIZE]
        == input[r.offset..r.offset + RECORD_HEADER_SIZE];
    assert output[offset + RECORD_HEADER_SIZE..offset + RECORD_HEADER_SIZE + r.compressed] == e[RECORD_HEADER_SIZE..]
        == input[r.offset + RECORD_HEADER_SIZE..End(r)];
  }

  lemma ConsecutiveOne(updated: seq<Record>, size: nat, r: Record)
    requires Consecutive(updated, size)
    ensures Consecutive(updated + [r.(offset := size)], size + RECORD_HEADER_SIZE + r.compressed)
  {
    var all := updated + [r.(offset := size)];
    forall i | 0 < i < |all| ensures all[i].offset == End(all[i - 1]) {
      if i < |updated| {
        assert all[i] == updated[i] && all[i - 1] == updated[i - 1];
      }
    }
  }

  /** A record appended at the end of a pack has moved there. */
  lemma MovedToEnd(input: Bytes, output: Bytes, r: Record)
    requires WellHeaded(output) && Complete(input, r)
    ensures Moved(input, r, output + Extent(input, r), r.(offset := |output|))
    ensures WellHeaded(output + Extent(input, r))
  {
    hide Complete, DecodeHeader;
    var output' := output + Extent(input, r);
    assert |Extent(input, r)| == RECORD_HEADER_SIZE + r.compressed by { ExtentSize(input, r); }
    assert output'[..PACK_HEADER_SIZE] == output[..PACK_HEADER_SIZE];
    assert output'[|output|..|output| + RECORD_HEADER_SIZE + r.compressed] == Extent(input, r);
    MovedRecord(input, r, output', |output|);
  }

  lemma ExtentSize(input: Bytes, r: Record)
    requires Complete(input, r)
    ensures |Extent(input, r)| == RECORD_HEADER_SIZE + r.compressed
  {
    hide DecodeHeader;
  }

  lemma TileOne(input: Bytes, records: seq<Record>, output: Bytes, updated: seq<Record>, r: Record)
    requires Tiles(input, records, output, updated) && Complete(input, r)
    ensures Tiles(input, records + [r], output + Extent(input, r), updated + [r.(offset := |output|)])
  {
    hide Complete, DecodeHeader, Moved, Consecutive, WellHeaded, Extent;
    var output' := output + Extent(input, r);
    MovedToEnd(input, output, r);
    ExtentSize(input, r);
    ConsecutiveOne(updated, |output|, r);
    forall i | 0 <= i < |records| ensures Moved(input, records[i], output', updated[i]) {
      StillMoved(input, records[i], output, updated[i], Extent(input, r));
    }
  }

  lemma StillMoved(input: Bytes, r: Record, output: Bytes, u: Record, more: Bytes)
    requires Moved(input, r, output, u)
    ensures Moved(input, r, output + more, u)
  {
    hide Complete, DecodeHeader;
    KeptRecord(output, more, u);
  }

  lemma KeptRecord(output: Bytes, more: Bytes, u: Record)
    requires Complete(output, u)
    ensures Complete(output + more, u) && Extent(output + more, u) == Extent(output, u)
  {
    assert (output + more)[u.offset..u.offset + RECORD_HEADER_SIZE + u.compressed] == Extent(output, u);
    MovedRecord(output, u, output + more, u.offset);
  }

  lemma {:induction false} CompactTiles(input: Bytes, records: seq<Record>, n: nat)
    requires n <= |records| && forall i :: 0 <= i < |records| ==> Complete(input, records[i])
    ensures CompactPrefix(input, records, n).Ok?
    ensures var (output, updated) := CompactPrefix(input, records, n).value;
            Tiles(input, records[..n], output, updated)
  {
    hide DecodeHeader;
    if n == 0 {
      assert MAGIC[..PACK_HEADER_SIZE] == MAGIC;
    } else {
      CompactTiles(input, records, n - 1);
      var (output, updated) := CompactPrefix(input, records, n - 1).value;
      CopyIsExtent(input, records[n - 1]);
      hide Tiles, Complete;
      TileOne(input, records[..n - 1], output, updated, records[n - 1]);
      assert records[..n - 1] + [records[n - 1]] == records[..n];
    }
  }

  lemma CopyIsExtent(input: Bytes, r: Record)
    requires Complete(input, r)
    ensures CopyRecord(input, r) == Ok(Extent(input, r))
  {
  }

  /** Tiled extents do not overlap. */
  lemma {:induction false} TilesAreDisjoint(input: Bytes, records: seq<Record>, output: Bytes, updated: seq<Record>,
        i: nat, j: nat)
    requires Tiles(input, records, output, updated) && i < j < |updated|
    ensures End(updated[i]) <= updated[j].offset
  {
    if i + 1 < j {
      TilesAreDisjoint(input, records, output, updated, i, j - 1);
    }
  }

  predicate Disjoint(records: seq<Record>) {
    forall i, j :: 0 <= i < j < |records| ==> End(records[i]) <= records[j].offset
  }

  /** The records are the same but for their place, and hold and read what they did. */
  ghost predicate SameReads(lib: Library, input: Bytes, records: seq<Record>, output: Bytes, updated: seq<Record>) {
    && |updated| == |records|
    && (forall i :: 0 <= i < |records| ==> updated[i] == records[i].(offset := updated[i].offset))
    && (forall i, data :: 0 <= i < |records| && Holds(lib, input, records[i], data) ==>
          Holds(lib, output, updated[i], data))
    && (forall i, data :: 0 <= i < |records| && Holds(lib, input, records[i], data) ==>
          OpenRecord(lib, output, updated[i], records[i].key) == Ok(data))
  }

  /** Compaction preserves reads: for any choice of complete records of a pack,
      gaps between them or not, the copy succeeds, every kept record holds what it
      held, and no two new extents overlap. */
  lemma CompactionPreservesReads(lib: Library, input: Bytes, records: seq<Record>)
    requires forall i :: 0 <= i < |records| ==> Complete(input, records[i])
    ensures Compact(input, records).Ok?
    ensures var (output, updated) := Compact(input, records).value;
            WellHeaded(output) && SameReads(lib, input, records, output, updated) && Disjoint(updated)
  {
    CompactTiles(input, records, |records|);
    assert records[..|records|] == records;
    var (output, updated) := Compact(input, records).value;
    TilesKeepReads(lib, input, records, output, updated);
    hide Compact, Complete;
    forall i, j | 0 <= i < j < |records| ensures End(updated[i]) <= updated[j].offset {
      TilesAreDisjoint(input, records, output, updated, i, j);
    }
  }

  lemma TilesKeepReads(lib: Library, input: Bytes, records: seq<Record>, output: Bytes, updated: seq<Record>)
    requires Tiles(input, records, output, updated)
    ensures SameReads(lib, input, records, output, updated)
  {
    hide OpenRecord, DecodeHeader;
    forall i, data | 0 <= i < |records| && Holds(lib, input, records[i], data)
      ensures Holds(lib, output, updated[i], data) && OpenRecord(lib, output, updated[i], records[i].key) == Ok(data)
    {
      MovedHolds(lib, input, records[i], output, updated[i], data);
    }
  }

  lemma MovedHolds(lib: Library, input: Bytes, r: Record, output: Bytes, u: Record, data: Bytes)
    requires Holds(lib, input, r, data) && WellHeaded(output) && u == r.(offset := u.offset) && Complete(output, u)
    requires Extent(output, u) == Extent(input, r)
    ensures Holds(lib, output, u, data) && OpenRecord(lib, output, u, r.key) == Ok(data)
  {
    MovedRecord(input, r, output, u.offset);
    HeldIsRead(lib, output, u, data);
  }
}
