/** The byte format of an object pack (internal/objectstore/store.go): an eight-byte
    magic, then records of a 52-byte header and a payload. */
module PackFormat {
  import opened Prelude

  type byte = x: int | 0 <= x < 256
  type Bytes = seq<byte>

  const TWO_63: int := 0x8000_0000_0000_0000
  const TWO_64: int := 0x1_0000_0000_0000_0000

  type int64 = x: int | -TWO_63 <= x < TWO_63

  const PACK_HEADER_SIZE := 8
  const RECORD_HEADER_SIZE := 52
  const CODEC_RAW: byte := 0
  const CODEC_GZIP: byte := 1

  /** "WOWPACK1" */
  const MAGIC: Bytes := [87, 79, 87, 80, 65, 67, 75, 49]

  datatype Kind = Source | Asset | Ast | Other(name: string)

  predicate Known(kind: Kind) {
    !kind.Other?
  }

  function KindCode(kind: Kind): byte {
    match kind
    case Source => 1
    case Asset => 2
    case Ast => 3
    case Other(_) => 0
  }

  function CodeKind(code: byte): Option<Kind> {
    match code
    case 1 => Some(Source)
    case 2 => Some(Asset)
    case 3 => Some(Ast)
    case _ => None
  }

  // ----- fixed-width integers -----

  function Power256(width: nat): nat {
    if width == 0 then 1 else 256 * Power256(width - 1)
  }

  function BigEndian(n: nat, width: nat): (r: Bytes)
    ensures |r| == width
  {
    if width == 0 then [] else BigEndian(n / 256, width - 1) + [n % 256]
  }

  function FromBigEndian(bytes: Bytes): (r: nat)
    ensures r < Power256(|bytes|)
  {
    if bytes == [] then 0 else FromBigEndian(bytes[..|bytes| - 1]) * 256 + bytes[|bytes| - 1]
  }

  lemma {:induction false} BigEndianRoundTrip(n: nat, width: nat)
    requires n < Power256(width)
    ensures FromBigEndian(BigEndian(n, width)) == n
  {
    if width > 0 {
      var high := BigEndian(n / 256, width - 1);
      BigEndianRoundTrip(n / 256, width - 1);
      assert (high + [n % 256])[..width - 1] == high;
    }
  }

  lemma {:induction false} FromBigEndianRoundTrip(bytes: Bytes)
    ensures BigEndian(FromBigEndian(bytes), |bytes|) == bytes
  {
    if bytes != [] {
      FromBigEndianRoundTrip(bytes[..|bytes| - 1]);
    }
  }

  lemma Power256Of8()
    ensures Power256(8) == TWO_64
  {
    assert Power256(4) == 0x1_0000_0000;
    assert Power256(6) == 0x1_0000_0000_0000;
  }

  /** Go's conversions between int64 and uint64. */
  function ToUint64(v: int64): (r: nat)
    ensures r < TWO_64
  {
    if v < 0 then v + TWO_64 else v
  }

  function ToInt64(n: nat): int64
    requires n < TWO_64
  {
    if n < TWO_63 then n else n - TWO_64
  }

  function PutUint64(v: int64): (r: Bytes)
    ensures |r| == 8
  {
    BigEndian(ToUint64(v), 8)
  }

  function GetInt64(bytes: Bytes): int64
    requires |bytes| == 8
  {
    Power256Of8();
    ToInt64(FromBigEndian(bytes))
  }

  lemma Int64RoundTrip(v: int64)
    ensures GetInt64(PutUint64(v)) == v
  {
    Power256Of8();
    BigEndianRoundTrip(ToUint64(v), 8);
  }

  lemma Uint64RoundTrip(bytes: Bytes)
    requires |bytes| == 8
    ensures PutUint64(GetInt64(bytes)) == bytes
  {
    Power256Of8();
    FromBigEndianRoundTrip(bytes);
  }

  // ----- hexadecimal -----

  function HexDigit(v: int): char
    requires 0 <= v < 16
  {
    if v < 10 then (v + '0' as int) as char else (v - 10 + 'a' as int) as char
  }

  function HexValue(c: char): Option<int> {
    if '0' <= c <= '9' then Some(c as int - '0' as int)
    else if 'a' <= c <= 'f' then Some(c as int - 'a' as int + 10)
    else if 'A' <= c <= 'F' then Some(c as int - 'A' as int + 10)
    else None
  }

  function HexEncode(bytes: Bytes): (r: string)
    ensures |r| == 2 * |bytes|
  {
    if bytes == [] then ""
    else [HexDigit(bytes[0] / 16), HexDigit(bytes[0] % 16)] + HexEncode(bytes[1..])
  }

  function HexDecode(s: string): (r: Option<Bytes>)
    ensures r.Some? ==> 2 * |r.value| == |s|
  {
    if s == "" then Some([])
    else if |s| == 1 then None
    else
      var high, low, rest := HexValue(s[0]), HexValue(s[1]), HexDecode(s[2..]);
      if high.Some? && low.Some? && rest.Some? && 0 <= 16 * high.value + low.value < 256
      then Some([16 * high.value + low.value] + rest.value)
      else None
  }

  lemma HexDigitRoundTrip(v: int)
    requires 0 <= v < 16
    ensures HexValue(HexDigit(v)) == Some(v)
  {
  }

  lemma {:induction false} HexRoundTrip(bytes: Bytes)
    ensures HexDecode(HexEncode(bytes)) == Some(bytes)
  {
    if bytes != [] {
      var b, text := bytes[0], HexEncode(bytes);
      HexRoundTrip(bytes[1..]);
      assert text[2..] == HexEncode(bytes[1..]);
      assert text[0] == HexDigit(b / 16) && text[1] == HexDigit(b % 16);
      HexDigitRoundTrip(b / 16);
      HexDigitRoundTrip(b % 16);
      assert HexDecode(text).value == [16 * (b / 16) + b % 16] + bytes[1..];
      assert [b] + bytes[1..] == bytes;
    }
  }

  // ----- record headers -----

  datatype HeaderError = InvalidHash | InvalidSize | InvalidKind

  datatype Header = Header(kind: Kind, codec: byte, hash: string, original: int64, compressed: int64)

  function EncodeHeader(h: Header): (r: Result<Bytes, HeaderError>)
    ensures r.Ok? ==> |r.value| == RECORD_HEADER_SIZE
  {
    var digest := HexDecode(h.hash);
    if digest.None? || |digest.value| != 32 then Err(InvalidHash)
    else Ok([KindCode(h.kind), h.codec, 0, 0] + PutUint64(h.original) + PutUint64(h.compressed) + digest.value)
  }

  function DecodeHeader(bytes: Bytes): (r: Result<Header, HeaderError>) {
    if |bytes| != RECORD_HEADER_SIZE then Err(InvalidSize)
    else
      var kind := CodeKind(bytes[0]);
      if kind.None? then Err(InvalidKind)
      else Ok(Header(kind.value, bytes[1], HexEncode(bytes[20..52]), GetInt64(bytes[4..12]), GetInt64(bytes[12..20])))
  }

  /** Decoding inverts encoding exactly for the three known kinds, whatever the
      codec and the lengths. */
  lemma {:induction false} DecodeInvertsEncode(h: Header, digest: Bytes)
    requires |digest| == 32 && h.hash == HexEncode(digest)
    ensures EncodeHeader(h).Ok?
    ensures DecodeHeader(EncodeHeader(h).value) == Ok(h) <==> Known(h.kind)
  {
    HexRoundTrip(digest);
    var bytes := EncodeHeader(h).value;
    assert bytes[4..12] == PutUint64(h.original);
    assert bytes[12..20] == PutUint64(h.compressed);
    assert bytes[20..52] == digest;
    Int64RoundTrip(h.original);
    Int64RoundTrip(h.compressed);
  }

  /** Encoding inverts decoding for every header whose two spare bytes are zero. */
  lemma EncodeInvertsDecode(bytes: Bytes)
    requires DecodeHeader(bytes).Ok?
    ensures EncodeHeader(DecodeHeader(bytes).value) == Ok(bytes) <==> bytes[2] == 0 && bytes[3] == 0
  {
    HexRoundTrip(bytes[20..52]);
    Uint64RoundTrip(bytes[4..12]);
    Uint64RoundTrip(bytes[12..20]);
    var h := DecodeHeader(bytes).value;
    assert KindCode(h.kind) == bytes[0];
    var again := [KindCode(h.kind), h.codec, 0, 0] + bytes[4..12] + bytes[12..20] + bytes[20..52];
    assert EncodeHeader(h) == Ok(again);
    assert again[2] == 0 && again[3] == 0;
    if bytes[2] == 0 && bytes[3] == 0 {
      assert again == bytes;
    }
  }

  // ----- byte by byte -----

  const HEX_DIGITS := "0123456789abcdef"

  /** Two characters stand for one byte, in either letter case. */
  predicate StandsFor(high: char, low: char, b: byte) {
    HexValue(high) == Some(b / 16) && HexValue(low) == Some(b % 16)
  }

  lemma HexDigitIsIndexed(v: int)
    requires 0 <= v < 16
    ensures HexDigit(v) == HEX_DIGITS[v]
  {
  }

  /** A hash is written with lower-case digits, the high half of each byte first. */
  lemma {:induction false} HexTextOf(bytes: Bytes, i: nat)
    requires i < |bytes|
    ensures HexEncode(bytes)[2 * i] == HEX_DIGITS[bytes[i] / 16]
    ensures HexEncode(bytes)[2 * i + 1] == HEX_DIGITS[bytes[i] % 16]
  {
    if i == 0 {
      HexDigitIsIndexed(bytes[0] / 16);
      HexDigitIsIndexed(bytes[0] % 16);
    } else {
      HexTextOf(bytes[1..], i - 1);
    }
  }

  lemma {:induction false} HexBytesOf(s: string, i: nat)
    requires HexDecode(s).Some? && i < |HexDecode(s).value|
    ensures StandsFor(s[2 * i], s[2 * i + 1], HexDecode(s).value[i])
  {
    var high, low := HexValue(s[0]).value, HexValue(s[1]).value;
    assert HexDecode(s).value == [16 * high + low] + HexDecode(s[2..]).value;
    if i > 0 {
      HexBytesOf(s[2..], i - 1);
    }
  }

  /** The number in eight bytes, the highest first. */
  function Number(bytes: Bytes): int
    requires |bytes| == 8
  {
    var at := (i: int) requires 0 <= i < 8 => bytes[i] as int;
    at(0) * 0x100_0000_0000_0000 + at(1) * 0x1_0000_0000_0000 + at(2) * 0x100_0000_0000 + at(3) * 0x1_0000_0000
    + at(4) * 0x100_0000 + at(5) * 0x1_0000 + at(6) * 0x100 + at(7)
  }

  lemma {:induction false} PrefixNumber(bytes: Bytes, k: nat)
    requires k < |bytes|
    ensures FromBigEndian(bytes[..k + 1]) == 256 * FromBigEndian(bytes[..k]) + bytes[k]
  {
    assert bytes[..k + 1][..k] == bytes[..k];
  }

  lemma {:induction false} NumberIsBigEndian(bytes: Bytes)
    requires |bytes| == 8
    ensures FromBigEndian(bytes) == Number(bytes)
  {
    hide FromBigEndian;
    NoNumber();
    assert bytes[..0] == [] && bytes[..8] == bytes;
    PrefixNumber(bytes, 0);
    PrefixNumber(bytes, 1);
    PrefixNumber(bytes, 2);
    PrefixNumber(bytes, 3);
    PrefixNumber(bytes, 4);
    PrefixNumber(bytes, 5);
    PrefixNumber(bytes, 6);
    PrefixNumber(bytes, 7);
  }

  lemma {:induction false} NoNumber()
    ensures FromBigEndian([]) == 0
  {
  }

  /** Where each field of a record header stands: the code of the kind, the codec, two
      spare zeros, the two lengths in two's complement, and the hash in binary. */
  lemma {:induction false} HeaderLayout(h: Header)
    requires EncodeHeader(h).Ok?
    ensures var bytes := EncodeHeader(h).value;
            && bytes[0] == (match h.kind case Source => 1 case Asset => 2 case Ast => 3 case Other(_) => 0)
            && bytes[1] == h.codec && bytes[2] == bytes[3] == 0
            && Number(bytes[4..12]) == h.original + (if h.original < 0 then TWO_64 else 0)
            && Number(bytes[12..20]) == h.compressed + (if h.compressed < 0 then TWO_64 else 0)
            && |h.hash| == 64
            && forall i :: 0 <= i < 32 ==> StandsFor(h.hash[2 * i], h.hash[2 * i + 1], bytes[20 + i])
  {
    var bytes := EncodeHeader(h).value;
    assert bytes[4..12] == PutUint64(h.original) && bytes[12..20] == PutUint64(h.compressed);
    Power256Of8();
    BigEndianRoundTrip(ToUint64(h.original), 8);
    BigEndianRoundTrip(ToUint64(h.compressed), 8);
    NumberIsBigEndian(bytes[4..12]);
    NumberIsBigEndian(bytes[12..20]);
    forall i | 0 <= i < 32 ensures StandsFor(h.hash[2 * i], h.hash[2 * i + 1], bytes[20 + i]) {
      HexBytesOf(h.hash, i);
    }
  }
}
