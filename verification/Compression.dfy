/** The framing of compressed blocks: two header formats, their detection, and the three codecs behind them as
    parameters. */
module Compression {

  import opened Arithmetic
  import opened ByteStrings
  import opened Wrappers

  type Bytes = seq<Byte>

  datatype Config = Config(enabled: bool, algorithm: string, level: int, minSize: int)

  datatype EncoderLevel = SpeedFastest | SpeedDefault | SpeedBetterCompression | SpeedBestCompression

  /** The three compression libraries; None stands for the error they return. */
  datatype Codecs = Codecs(
    snappyEncode: Bytes -> Bytes,
    snappyDecode: Bytes -> Option<Bytes>,
    brotliEncode: Bytes -> Option<Bytes>,
    brotliDecode: Bytes -> Option<Bytes>,
    zstdEncode: (EncoderLevel, Bytes) -> Option<Bytes>,
    zstdDecode: Bytes -> Option<Bytes>)

  datatype Failure =
    | UnsupportedAlgorithm | EncoderFailed | InvalidMagic | InvalidSize | NoPayload
    | DecoderFailed | UnsupportedType | SizeMismatch

  /** How a block is dispatched. */
  datatype Format = V1 | V2 | Unknown

  /** What an encoder made of the data, with the byte that names the encoder. */
  datatype Encoded = Encoded(code: Byte, payload: Bytes)

  const MAGIC: Bytes := [0x46, 0x54, 0x52, 0x53]
  const MAGIC_V2: Bytes := [0x46, 0x54, 0x52, 0x53, 0x02]
  const MIN_COMPRESSED_SIZE := 14
  const MAX_SIZE := 100 * 1024 * 1024 * 1024

  const SIZE_BYTES: nat := 8

  const TWO_TO_56 := 0x100_0000_0000_0000
  const TWO_TO_64 := 0x1_0000_0000_0000_0000

  const NONE: Byte := 0x00
  const SNAPPY: Byte := 0x01
  const BROTLI: Byte := 0x02
  const ZSTD: Byte := 0x03

  // ---------- Little-endian integers ----------

  function Power256(n: nat): (r: nat)
    ensures r > 0
  {
    if n == 0 then 1 else 256 * Power256(n - 1)
  }

  /** The n low bytes of v, lowest first. */
  function PutLittleEndian(v: nat, n: nat): (b: Bytes)
    ensures |b| == n
    decreases n
  {
    if n == 0 then [] else [v % 256] + PutLittleEndian(v / 256, n - 1)
  }

  /** The value of the n bytes at an offset. */
  function GetLittleEndian(b: Bytes, from: nat, n: nat): nat
    requires from + n <= |b|
    decreases n
  {
    if n == 0 then 0 else b[from] + 256 * GetLittleEndian(b, from + 1, n - 1)
  }

  lemma QuotientBelow(v: nat, m: nat)
    requires m > 0
    ensures v % (256 * m) == v % 256 + 256 * ((v / 256) % m)
    ensures v / (256 * m) == v / 256 / m
  {
    var q, r := v / 256, v % 256;
    var high, low := q / m, q % m;
    assert v == 256 * (high * m + low) + r;
    assert v == (256 * m) * high + (256 * low + r);
    RemainderUnique(v, 256 * m, high, 256 * low + r);
  }

  /** Reading n bytes back gives the value modulo 256^n: the header loses nothing of any length below 2^64. */
  lemma {:induction false} ReadBack(b: Bytes, from: nat, v: nat, n: nat)
    requires from + n <= |b| && b[from..from + n] == PutLittleEndian(v, n)
    ensures GetLittleEndian(b, from, n) == v % Power256(n)
    decreases n
  {
    if n > 0 {
      assert b[from] == b[from..from + n][0] == v % 256;
      assert b[from + 1..from + n] == b[from..from + n][1..] == PutLittleEndian(v / 256, n - 1);
      ReadBack(b, from + 1, v / 256, n - 1);
      QuotientBelow(v, Power256(n - 1));
    }
  }

  /** Reading one more byte at the high end. */
  lemma {:induction false} ReadOneMore(b: Bytes, from: nat, n: nat)
    requires from + n < |b|
    ensures GetLittleEndian(b, from, n + 1) == GetLittleEndian(b, from, n) + Power256(n) * b[from + n]
    decreases n
  {
    if n > 0 {
      ReadOneMore(b, from + 1, n - 1);
    }
  }

  /** Byte i of a field is the digit of weight 256^i: the lowest comes first. */
  lemma {:induction false} FieldByte(v: nat, n: nat, i: nat)
    requires i < n
    ensures PutLittleEndian(v, n)[i] == v / Power256(i) % 256
    decreases n
  {
    if i > 0 {
      FieldByte(v / 256, n - 1, i - 1);
      QuotientBelow(v, Power256(i - 1));
    }
  }

  // ---------- Encoding ----------

  /** The encoder speed that a configured level from 1 to 9 selects. */
  function SpeedOf(level: int): EncoderLevel {
    if level <= 1 then SpeedFastest
    else if level <= 3 then SpeedDefault
    else if level <= 6 then SpeedBetterCompression
    else SpeedBestCompression
  }

  function Encode(cs: Codecs, config: Config, data: Bytes): Result<Encoded, Failure> {
    if config.algorithm == "snappy" then Ok(Encoded(SNAPPY, cs.snappyEncode(data)))
    else if config.algorithm == "brotli" then
      match cs.brotliEncode(data)
      case None => Err(EncoderFailed)
      case Some(payload) => Ok(Encoded(BROTLI, payload))
    else if config.algorithm == "zstd" then
      match cs.zstdEncode(SpeedOf(config.level), data)
      case None => Err(EncoderFailed)
      case Some(payload) => Ok(Encoded(ZSTD, payload))
    else Err(UnsupportedAlgorithm)
  }

  /** The data is too small to try, or compression is off. */
  predicate Skipped(config: Config, data: Bytes) {
    !config.enabled || |data| < config.minSize
  }

  /** The data leaves as a block with a header, not as it came. */
  predicate Packed(cs: Codecs, config: Config, data: Bytes) {
    !Skipped(config, data) && Encode(cs, config, data).Ok? && |Encode(cs, config, data).value.payload| < |data|
  }

  /** A block in the format that is written today. */
  function BlockV2(code: Byte, size: nat, payload: Bytes): Bytes {
    MAGIC_V2 + [code] + PutLittleEndian(size, SIZE_BYTES) + payload
  }

  /** A block in the format of older versions, which is still read. */
  function BlockV1(code: Byte, size: nat, payload: Bytes): Bytes {
    MAGIC + [code] + PutLittleEndian(size, SIZE_BYTES) + payload
  }

  function CompressSpec(cs: Codecs, config: Config, data: Bytes): Result<Bytes, Failure> {
    if Skipped(config, data) then Ok(data)
    else
      match Encode(cs, config, data)
      case Err(e) => Err(e)
      case Ok(e) => if |e.payload| >= |data| then Ok(data) else Ok(BlockV2(e.code, |data|, e.payload))
  }

  /** The header is filled in place, field by field, and the payload appended to it. */
  method Compress(cs: Codecs, config: Config, data: Bytes) returns (r: Result<Bytes, Failure>)
    ensures r == CompressSpec(cs, config, data)
  {
    if !config.enabled {
      return Ok(data);
    }
    if |data| < config.minSize {
      return Ok(data);
    }
    var encoded := Encode(cs, config, data);
    if encoded.Err? {
      return Err(encoded.error);
    }
    if |encoded.value.payload| >= |data| {
      return Ok(data);
    }
    var header := new Byte[5 + 1 + 8](_ => 0);
    forall i | 0 <= i < 5 {
      header[i] := MAGIC_V2[i];
    }
    header[5] := encoded.value.code;
    forall i | 0 <= i < SIZE_BYTES {
      header[6 + i] := PutLittleEndian(|data|, SIZE_BYTES)[i];
    }
    assert header[..] == MAGIC_V2 + [encoded.value.code] + PutLittleEndian(|data|, SIZE_BYTES);
    return Ok(header[..] + encoded.value.payload);
  }

  // ---------- Decoding ----------

  predicate HasV2Header(data: Bytes) {
    |data| >= MIN_COMPRESSED_SIZE && data[..5] == MAGIC_V2
  }

  predicate HasV1Header(data: Bytes) {
    |data| >= 4 + 1 + 8 && data[..4] == MAGIC
  }

  /** What the decoder named by a type byte makes of a payload; None is its error. */
  function Decoded(cs: Codecs, code: Byte, payload: Bytes): Option<Bytes>
    requires SNAPPY <= code <= ZSTD
  {
    if code == SNAPPY then cs.snappyDecode(payload)
    else if code == BROTLI then cs.brotliDecode(payload)
    else cs.zstdDecode(payload)
  }

  function DoDecompress(cs: Codecs, code: Byte, payload: Bytes, size: nat): Result<Bytes, Failure> {
    if code == NONE then Ok(payload)
    else if code > ZSTD then Err(UnsupportedType)
    else
      match Decoded(cs, code, payload)
      case None => Err(DecoderFailed)
      case Some(x) => if |x| != size then Err(SizeMismatch) else Ok(x)
  }

  function DecompressV1(cs: Codecs, data: Bytes): Result<Bytes, Failure>
    requires |data| >= 13
  {
    var size := GetLittleEndian(data, 5, SIZE_BYTES);
    if size == 0 then Err(InvalidSize) else DoDecompress(cs, data[4], data[13..], size)
  }

  function DecompressV2(cs: Codecs, data: Bytes): Result<Bytes, Failure>
    requires |data| >= MIN_COMPRESSED_SIZE
  {
    var size := GetLittleEndian(data, 6, SIZE_BYTES);
    if size == 0 || size > MAX_SIZE then Err(InvalidSize)
    else if data[14..] == [] then Err(NoPayload)
    else DoDecompress(cs, data[5], data[14..], size)
  }

  function FormatOf(data: Bytes): (f: Format)
    ensures f.V1? ==> |data| >= 13
    ensures f.V2? ==> |data| >= MIN_COMPRESSED_SIZE
  {
    if HasV2Header(data) then V2 else if HasV1Header(data) then V1 else Unknown
  }

  function Decompress(cs: Codecs, data: Bytes): Result<Bytes, Failure> {
    match FormatOf(data)
    case V2 => DecompressV2(cs, data)
    case V1 => DecompressV1(cs, data)
    case Unknown => Err(InvalidMagic)
  }

  predicate IsCompressed(data: Bytes) {
    if HasV2Header(data) then true
    else HasV1Header(data) && data[4] <= ZSTD
  }

  /** Data is decoded exactly when it counts as compressed, and passed through otherwise. */
  function DecompressAuto(cs: Codecs, data: Bytes): (r: Result<Bytes, Failure>)
    ensures r == if IsCompressed(data) then Decompress(cs, data) else Ok(data)
  {
    if HasV2Header(data) then Decompress(cs, data)
    else if HasV1Header(data) then
      if data[4] <= ZSTD then Decompress(cs, data) else Ok(data)
    else Ok(data)
  }

  function GetCompressionType(data: Bytes): Byte {
    if HasV2Header(data) then data[5]
    else if !IsCompressed(data) || |data| < 5 then NONE
    else data[4]
  }

  /** Where the payload of a block begins. */
  function HeaderSize(data: Bytes): (n: nat)
    requires IsCompressed(data)
    ensures 0 < n <= |data|
  {
    if HasV2Header(data) then 14 else 13
  }

  /** The size of the original data as a block's header gives it. */
  function SizeField(data: Bytes): nat
    requires IsCompressed(data)
  {
    GetLittleEndian(data, if HasV2Header(data) then 6 else 5, SIZE_BYTES)
  }

  // ---------- What counts, in bytes and numbers ----------

  /** What data of at least the minimal size becomes when compression is on and this is what its encoder made of it:
      the block "FTRS", 2, the code, the size in eight bytes, and the payload, if the payload is smaller than the data;
      otherwise the data. */
  function PackedAs(code: Byte, encoded: Option<Bytes>, data: Bytes): Result<Bytes, Failure> {
    match encoded
    case None => Err(EncoderFailed)
    case Some(payload) =>
      if |payload| < |data|
      then Ok([0x46, 0x54, 0x52, 0x53, 0x02, code] + PutLittleEndian(|data|, SIZE_BYTES) + payload)
      else Ok(data)
  }

  /** What compression does in each case. */
  lemma CompressByCases(cs: Codecs, config: Config, data: Bytes)
    ensures var r := CompressSpec(cs, config, data);
      && (!config.enabled || |data| < config.minSize ==> r == Ok(data))
      && (config.enabled && |data| >= config.minSize ==>
            && (config.algorithm == "snappy" ==> r == PackedAs(0x01, Some(cs.snappyEncode(data)), data))
            && (config.algorithm == "brotli" ==> r == PackedAs(0x02, cs.brotliEncode(data), data))
            && (config.algorithm == "zstd" ==>
                  && (config.level <= 1 ==> r == PackedAs(0x03, cs.zstdEncode(SpeedFastest, data), data))
                  && (2 <= config.level <= 3 ==> r == PackedAs(0x03, cs.zstdEncode(SpeedDefault, data), data))
                  && (4 <= config.level <= 6 ==> r == PackedAs(0x03, cs.zstdEncode(SpeedBetterCompression, data), data))
                  && (config.level >= 7 ==> r == PackedAs(0x03, cs.zstdEncode(SpeedBestCompression, data), data)))
            && (config.algorithm !in {"snappy", "brotli", "zstd"} ==> r == Err(UnsupportedAlgorithm)))
  {
    Names();
    if !Skipped(config, data) {
      var e := Encode(cs, config, data);
      if e.Ok? {
        SameBlock(e.value.code, |data|, e.value.payload);
      }
    }
  }

  lemma Names()
    ensures "snappy" != "brotli" && "brotli" != "zstd" && "snappy" != "zstd"
  {
    assert "snappy"[0] != "brotli"[0] && "brotli"[0] != "zstd"[0] && "snappy"[0] != "zstd"[0];
  }

  lemma SameBlock(code: Byte, size: nat, payload: Bytes)
    ensures BlockV2(code, size, payload) == [0x46, 0x54, 0x52, 0x53, 0x02, code] + PutLittleEndian(size, SIZE_BYTES) + payload
  {
    assert MAGIC_V2 + [code] == [0x46, 0x54, 0x52, 0x53, 0x02, code];
  }

  /** Data counts as compressed if it has the five magic bytes of V2 and the length of its header at least, or the four
      of V1, the length of that header at least, and a type byte of at most 3. The type it reports is the byte behind
      the magic ones, or none. */
  lemma CountsAsCompressed(data: Bytes)
    ensures IsCompressed(data)
            <==> || (|data| >= 14 && data[..5] == [0x46, 0x54, 0x52, 0x53, 0x02])
                 || (|data| >= 13 && data[..4] == [0x46, 0x54, 0x52, 0x53] && data[4] <= 3)
    ensures GetCompressionType(data)
            == if |data| >= 14 && data[..5] == [0x46, 0x54, 0x52, 0x53, 0x02] then data[5]
               else if |data| >= 13 && data[..4] == [0x46, 0x54, 0x52, 0x53] && data[4] <= 3 then data[4]
               else 0
  {
  }

  // ---------- Laws ----------

  /** Decoding undoes encoding, and something never encodes to nothing. */
  ghost predicate Faithful(cs: Codecs) {
    && (forall x :: cs.snappyDecode(cs.snappyEncode(x)) == Some(x) && (x != [] ==> cs.snappyEncode(x) != []))
    && (forall x :: cs.brotliEncode(x).Some? ==>
          cs.brotliDecode(cs.brotliEncode(x).value) == Some(x) && (x != [] ==> cs.brotliEncode(x).value != []))
    && (forall l, x :: cs.zstdEncode(l, x).Some? ==>
          cs.zstdDecode(cs.zstdEncode(l, x).value) == Some(x) && (x != [] ==> cs.zstdEncode(l, x).value != []))
  }

  lemma EncodeFaithful(cs: Codecs, config: Config, data: Bytes)
    requires Faithful(cs) && Encode(cs, config, data).Ok?
    ensures data != [] ==> Encode(cs, config, data).value.payload != []
    ensures DecodesTo(cs, Encode(cs, config, data).value, data)
  {
  }

  lemma Power256Of8()
    ensures Power256(SIZE_BYTES) == TWO_TO_64 && Power256(SIZE_BYTES - 1) == TWO_TO_56
  {
    assert Power256(2) == 256 * 256;
    assert Power256(4) == 256 * 256 * Power256(2);
    assert Power256(6) == 256 * 256 * Power256(4);
  }

  /** What a size field gives back: the size itself if it is below 2^64, otherwise something smaller. */
  predicate Fits(field: nat, size: nat) {
    if size < TWO_TO_64 then field == size else field < TWO_TO_64
  }

  lemma ModuloFits(field: nat, size: nat)
    requires field == size % TWO_TO_64
    ensures Fits(field, size)
  {
  }

  lemma FieldFits(b: Bytes, from: nat, size: nat)
    requires from + SIZE_BYTES <= |b| && b[from..from + SIZE_BYTES] == PutLittleEndian(size, SIZE_BYTES)
    ensures Fits(GetLittleEndian(b, from, SIZE_BYTES), size)
  {
    ReadBack(b, from, size, SIZE_BYTES);
    Power256Of8();
    ModuloFits(GetLittleEndian(b, from, SIZE_BYTES), size);
  }

  /** The fields of a V2 block. */
  lemma BlockV2Fields(code: Byte, size: nat, payload: Bytes)
    ensures var b := BlockV2(code, size, payload);
            && |b| == 14 + |payload| && HasV2Header(b) && b[5] == code && b[14..] == payload
            && Fits(GetLittleEndian(b, 6, SIZE_BYTES), size)
  {
    var b := BlockV2(code, size, payload);
    assert b == (MAGIC_V2 + [code] + PutLittleEndian(size, SIZE_BYTES)) + payload;
    assert b[..5] == MAGIC_V2;
    assert b[6..6 + SIZE_BYTES] == PutLittleEndian(size, SIZE_BYTES);
    FieldFits(b, 6, size);
  }

  /** The payload is decoded to the data if the header gives its size, and refused otherwise. */
  ghost predicate DecodesTo(cs: Codecs, e: Encoded, data: Bytes) {
    forall size: nat ::
      DoDecompress(cs, e.code, e.payload, size) == if |data| == size then Ok(data) else Err(SizeMismatch)
  }

  lemma BlockComesBack(cs: Codecs, e: Encoded, data: Bytes)
    requires data != [] && e.payload != [] && DecodesTo(cs, e, data)
    ensures var r := DecompressAuto(cs, BlockV2(e.code, |data|, e.payload));
      (r == Ok(data) <==> |data| <= MAX_SIZE) && (|data| > MAX_SIZE ==> r.Err?)
  {
    BlockV2Fields(e.code, |data|, e.payload);
  }

  /** What was packed comes back whole exactly when it is at most 100 GiB; beyond that it cannot be read. */
  lemma PackedComesBack(cs: Codecs, config: Config, data: Bytes)
    requires Faithful(cs) && Packed(cs, config, data)
    ensures var r := CompressSpec(cs, config, data);
            r.Ok? && (DecompressAuto(cs, r.value) == Ok(data) <==> |data| <= 107374182400)
    ensures |data| > 107374182400 ==> DecompressAuto(cs, CompressSpec(cs, config, data).value).Err?
  {
    var e := Encode(cs, config, data).value;
    EncodeFaithful(cs, config, data);
    BlockComesBack(cs, e, data);
  }

  /** Data that is not itself a block survives any configuration: what Compress returns without an error,
      DecompressAuto turns back into the data, up to 100 GiB. */
  lemma RoundTrip(cs: Codecs, config: Config, data: Bytes)
    requires Faithful(cs) && !IsCompressed(data) && |data| <= 107374182400
    ensures var r := CompressSpec(cs, config, data);
            r.Ok? ==> DecompressAuto(cs, r.value) == Ok(data)
  {
    if Packed(cs, config, data) {
      PackedComesBack(cs, config, data);
    }
  }

  /** The header names a decoder and gives the size of the block itself, within what is accepted. */
  predicate NamesOwnSize(data: Bytes)
    requires IsCompressed(data)
  {
    && SNAPPY <= GetCompressionType(data) <= ZSTD
    && SizeField(data) == |data|
    && (HasV2Header(data) ==> MIN_COMPRESSED_SIZE < |data| <= MAX_SIZE)
  }

  /** Whatever the codecs do, a block whose header does not give the size of the block itself does not decode to
      itself; any other does exactly if its decoder reproduces it from its payload. */
  lemma DecodesToItself(cs: Codecs, data: Bytes)
    requires IsCompressed(data)
    ensures !NamesOwnSize(data) ==> Decompress(cs, data) != Ok(data)
    ensures NamesOwnSize(data) ==>
              (Decompress(cs, data) == Ok(data)
               <==> Decoded(cs, GetCompressionType(data), data[HeaderSize(data)..]) == Some(data))
  {
    assert |data[HeaderSize(data)..]| < |data|;
  }

  /** The round trip for all inputs and all codecs that undo their encoding. Packed data comes back exactly up to
      100 GiB. Data left as it came comes back if it is not a block; if it is one, it does not come back unless its
      header gives the size of the block itself, and then exactly if the decoder reproduces the block. */
  lemma RoundTripExactly(cs: Codecs, config: Config, data: Bytes)
    requires Faithful(cs) && CompressSpec(cs, config, data).Ok?
    ensures var back := DecompressAuto(cs, CompressSpec(cs, config, data).value) == Ok(data);
      if Packed(cs, config, data) then back <==> |data| <= 107374182400
      else if !IsCompressed(data) then back
      else if !NamesOwnSize(data) then !back
      else back <==> Decoded(cs, GetCompressionType(data), data[HeaderSize(data)..]) == Some(data)
  {
    if Packed(cs, config, data) {
      PackedComesBack(cs, config, data);
    } else if IsCompressed(data) {
      DecodesToItself(cs, data);
    }
  }

  /** A block that its snappy payload decodes to survives although it looks like a block: both sides of the last
      case can happen. */
  lemma SelfBlockSurvives(cs: Codecs, config: Config, payload: Bytes)
    requires payload != [] && 14 + |payload| <= MAX_SIZE && !config.enabled
    requires cs.snappyDecode(payload) == Some(BlockV2(SNAPPY, 14 + |payload|, payload))
    ensures var data := BlockV2(SNAPPY, 14 + |payload|, payload);
      CompressSpec(cs, config, data) == Ok(data) && IsCompressed(data) && DecompressAuto(cs, data) == Ok(data)
  {
    BlockV2Fields(SNAPPY, 14 + |payload|, payload);
  }

  function PrefixEncode(x: Bytes): Bytes {
    [0] + x
  }

  function PrefixDecode(y: Bytes): Option<Bytes> {
    if y == [7] then Some(BlockV2(SNAPPY, 15, [7]))
    else if y == [] then None
    else Some(y[1..])
  }

  lemma PrefixFaithful(x: Bytes)
    ensures PrefixDecode(PrefixEncode(x)) == Some(x) && PrefixEncode(x) != []
  {
    assert PrefixEncode(x)[0] == 0;
  }

  /** Codecs that undo their encoding and have such a payload. */
  lemma SelfBlockExists() returns (cs: Codecs, payload: Bytes)
    ensures Faithful(cs) && payload != [] && 14 + |payload| <= MAX_SIZE
    ensures cs.snappyDecode(payload) == Some(BlockV2(SNAPPY, 14 + |payload|, payload))
  {
    payload := [7];
    cs := Codecs(PrefixEncode, PrefixDecode, x => Some(PrefixEncode(x)), PrefixDecode,
                 (l, x) => Some(PrefixEncode(x)), PrefixDecode);
    forall x: Bytes
      ensures PrefixDecode(PrefixEncode(x)) == Some(x) && PrefixEncode(x) != []
    {
      PrefixFaithful(x);
    }
  }

  /** A document that the round trip loses, whatever the codecs do: compression is off and the data carries a
      header of its own. */
  lemma RoundTripCounterexample(cs: Codecs)
    ensures var data := BlockV1(NONE, 1, [7]);
            CompressSpec(cs, Config(false, "snappy", 1, 0), data) == Ok(data) && DecompressAuto(cs, data) == Ok([7])
  {
    BlockV1Fields(NONE, 1, [7]);
  }

  /** Compression makes the data at most 13 bytes longer, and only when the payload saves less than the header. */
  lemma OutputSize(cs: Codecs, config: Config, data: Bytes)
    ensures var r := CompressSpec(cs, config, data);
            && (r.Ok? ==> |r.value| <= |data| + 13)
            && (r.Ok? && |r.value| > |data| <==>
                  Packed(cs, config, data) && |Encode(cs, config, data).value.payload| + 14 > |data|)
  {
    if Packed(cs, config, data) {
      var e := Encode(cs, config, data).value;
      BlockV2Fields(e.code, |data|, e.payload);
    }
  }

  /** Packed data counts as compressed and reports the algorithm that packed it; data left as it came counts and
      reports as it did before. */
  lemma ReportedType(cs: Codecs, config: Config, data: Bytes)
    requires CompressSpec(cs, config, data).Ok?
    ensures var r := CompressSpec(cs, config, data).value;
      && (IsCompressed(r) <==> Packed(cs, config, data) || IsCompressed(data))
      && GetCompressionType(r) == (if !Packed(cs, config, data) then GetCompressionType(data)
                                   else if config.algorithm == "snappy" then SNAPPY
                                   else if config.algorithm == "brotli" then BROTLI
                                   else ZSTD)
  {
    if Packed(cs, config, data) {
      var e := Encode(cs, config, data).value;
      BlockV2Fields(e.code, |data|, e.payload);
    }
  }

  // ---------- Blocks written by older versions ----------

  lemma BlockV1Fields(code: Byte, size: nat, payload: Bytes)
    ensures var b := BlockV1(code, size, payload);
            && |b| == 13 + |payload| && HasV1Header(b) && b[4] == code && b[13..] == payload
            && b[5] == size % 256 && Fits(GetLittleEndian(b, 5, SIZE_BYTES), size)
            && (HasV2Header(b) <==> code == 0x02 && payload != [])
  {
    var b := BlockV1(code, size, payload);
    assert b == (MAGIC + [code] + PutLittleEndian(size, SIZE_BYTES)) + payload;
    assert b[..4] == MAGIC;
    assert b[..5] == MAGIC + [code];
    assert (MAGIC + [code])[4] == code && MAGIC_V2[4] == 0x02;
    assert code == 0x02 ==> MAGIC + [code] == MAGIC_V2;
    assert b[5..5 + SIZE_BYTES] == PutLittleEndian(size, SIZE_BYTES);
    assert b[5] == b[5..5 + SIZE_BYTES][0];
    FieldFits(b, 5, size);
  }

  /** A V1 block with a payload reaches the V1 decoder exactly when its type byte is not 0x02, which is also the
      version byte of V2: V1 blocks made by brotli are taken for V2. */
  lemma V1Dispatch(code: Byte, size: nat, payload: Bytes)
    requires payload != []
    ensures FormatOf(BlockV1(code, size, payload)) == (if code == BROTLI then V2 else V1)
  {
    BlockV1Fields(code, size, payload);
  }

  /** V1 blocks made by snappy or zstd decode to the data, unless it is empty. */
  lemma V1OthersComeBack(cs: Codecs, config: Config, data: Bytes)
    requires Faithful(cs) && Encode(cs, config, data).Ok? && |data| < TWO_TO_64
    requires Encode(cs, config, data).value.code != BROTLI
    ensures var e := Encode(cs, config, data).value;
      DecompressAuto(cs, BlockV1(e.code, |data|, e.payload)) == if data == [] then Err(InvalidSize) else Ok(data)
  {
    var e := Encode(cs, config, data).value;
    BlockV1Fields(e.code, |data|, e.payload);
    EncodeFaithful(cs, config, data);
  }

  /** The fields as a reader sees them that starts one byte late and takes in the first byte of the payload. */
  lemma ShiftedFields(size: nat, payload: Bytes)
    requires payload != [] && size < TWO_TO_64
    ensures var b := BlockV1(BROTLI, size, payload);
            && |b| == 13 + |payload| && HasV2Header(b) && b[5] == size % 256 && b[14..] == payload[1..]
            && GetLittleEndian(b, 6, SIZE_BYTES) == size / 256 + TWO_TO_56 * payload[0]
  {
    var b := BlockV1(BROTLI, size, payload);
    BlockV1Fields(BROTLI, size, payload);
    assert b[13] == b[13..][0];
    assert b[14..] == b[13..][1..];
    ReadOneMore(b, 6, SIZE_BYTES - 1);
    Power256Of8();
  }

  /** A V1 block made by brotli is read one byte off: the type is the low byte of the size, and the top byte of
      the size is the first byte of the payload. */
  lemma V1BrotliMisread(cs: Codecs, size: nat, payload: Bytes)
    requires payload != [] && size < TWO_TO_64
    ensures var misread := size / 256 + TWO_TO_56 * payload[0];
            Decompress(cs, BlockV1(BROTLI, size, payload))
            == if misread == 0 || misread > MAX_SIZE then Err(InvalidSize)
               else if |payload| == 1 then Err(NoPayload)
               else DoDecompress(cs, size % 256, payload[1..], misread)
  {
    ShiftedFields(size, payload);
    assert |payload| == 1 <==> payload[1..] == [];
  }

  /** What a payload must be like to be decoded one byte off: it begins with a zero byte and goes on, the size is at
      least 256 with a low byte that happens to be a type code, and that type's decoder turns the rest of the payload
      into a 256th of the size. */
  predicate ReadableShifted(cs: Codecs, size: nat, payload: Bytes) {
    && |payload| >= 2 && payload[0] == 0 && 0 < size / 256 <= MAX_SIZE && size % 256 <= ZSTD
    && (size % 256 == NONE
        || (var decoded := Decoded(cs, size % 256, payload[1..]);
            decoded.Some? && |decoded.value| == size / 256))
  }

  lemma MisreadReadable(cs: Codecs, size: nat, payload: Bytes)
    requires payload != []
    ensures var misread := size / 256 + TWO_TO_56 * payload[0];
      (!(misread == 0 || misread > MAX_SIZE) && |payload| > 1
       && DoDecompress(cs, size % 256, payload[1..], misread).Ok?)
      <==> ReadableShifted(cs, size, payload)
  {
    assert payload[0] >= 1 ==> TWO_TO_56 * payload[0] >= TWO_TO_56;
  }

  /** So hardly any V1 block made by brotli decodes to anything at all. */
  lemma V1BrotliReadable(cs: Codecs, size: nat, payload: Bytes)
    requires payload != [] && size < TWO_TO_64
    ensures Decompress(cs, BlockV1(BROTLI, size, payload)).Ok? <==> ReadableShifted(cs, size, payload)
  {
    V1BrotliMisread(cs, size, payload);
    MisreadReadable(cs, size, payload);
  }

  /** A V1 block made by brotli is given back as its data only if brotli stored the data verbatim behind one zero
      byte and the low byte of its size is zero. */
  lemma V1BrotliComesBack(cs: Codecs, data: Bytes, payload: Bytes)
    requires |data| < TWO_TO_64 && (data != [] ==> payload != [])
    ensures DecompressAuto(cs, BlockV1(BROTLI, |data|, payload)) == Ok(data)
            <==> data != [] && StoredVerbatim(data, payload)
  {
    if payload == [] {
      BlockV1Fields(BROTLI, |data|, payload);
      } else {
      ShiftedFields(|data|, payload);
      V1BrotliMisread(cs, |data|, payload);
      MisreadOutcome(cs, data, payload);
    }
  }

  /** What is read one byte off is the data only in that case: a type other than none would have to give data of a
      256th of its size. */
  lemma MisreadOutcome(cs: Codecs, data: Bytes, payload: Bytes)
    requires payload != []
    ensures var misread := |data| / 256 + TWO_TO_56 * payload[0];
      (!(misread == 0 || misread > MAX_SIZE) && |payload| > 1
       && DoDecompress(cs, |data| % 256, payload[1..], misread) == Ok(data))
      <==> data != [] && StoredVerbatim(data, payload)
  {
    assert payload == [payload[0]] + payload[1..];
    assert StoredVerbatim(data, payload) ==> payload[1..] == data;
  }

  predicate StoredVerbatim(data: Bytes, payload: Bytes) {
    payload == [0] + data && |data| % 256 == 0 && |data| / 256 <= MAX_SIZE
  }

  /** Exactly when a V1 block is given back as its data: the data is not empty, and the block was not made by brotli
      (or stored verbatim in the one form that survives). When the payload is no longer than the data, as
      compression promises, that is exactly when the block was not made by brotli. */
  lemma V1ComesBackExactly(cs: Codecs, config: Config, data: Bytes)
    requires Faithful(cs) && Encode(cs, config, data).Ok? && |data| < TWO_TO_64
    ensures var e := Encode(cs, config, data).value;
      var back := DecompressAuto(cs, BlockV1(e.code, |data|, e.payload)) == Ok(data);
      && (back <==> data != [] && (e.code != BROTLI || StoredVerbatim(data, e.payload)))
      && (data != [] && |e.payload| <= |data| ==> (back <==> e.code != BROTLI))
  {
    var e := Encode(cs, config, data).value;
    EncodeFaithful(cs, config, data);
    if e.code == BROTLI {
      V1BrotliComesBack(cs, data, e.payload);
    } else {
      V1OthersComeBack(cs, config, data);
    }
  }

  /** A V1 block of five bytes compressed by brotli to a payload that begins with 7 is refused, whatever the codecs. */
  lemma V1BrotliCounterexample(cs: Codecs)
    ensures Decompress(cs, BlockV1(BROTLI, 5, [7])) == Err(InvalidSize)
  {
    V1BrotliMisread(cs, 5, [7]);
  }
}
