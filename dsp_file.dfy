/** The DSP file (lib/mcg/signal_analysis/dsp_file.rb): a container prefix
    ("DSPl", version 2.2), a body header (timestamp, operation count), then
    one record per operation: a 340-byte prefix and the data as signed
    16-bit elements. Files without the magic are read as the legacy
    fixed-size K52 layout (with or without a 256-byte P56 preamble), which
    fills the twelve standard operations of the leads V5 and II. */
module DspFile {
  import opened Results
  import opened Bytes
  import opened Float32
  import opened Stream
  import opened Header
  import opened IntArrays
  import opened Lex
  import opened Dsp
  import opened DspOps

  const OP_SIZE: nat := 340
  const MAGIC: string := "DSPl"
  const VERSION: Bytes := TWO_POINT_TWO
  const P56_SIZE: nat := 5652
  const P56_ALT_SIZE: nat := 5689
  const P56_DATA_OFFSET: nat := 256
  const K52_SIZE: nat := 5290

  /** The word a file written as version 2.1 stores (2.1f). */
  const TWO_POINT_ONE_F: Bytes := [102, 102, 6, 64]

  // ---------------------------------------------------------------------
  // One operation
  // ---------------------------------------------------------------------

  /** The 340-byte record prefix ("a64Ia32a8a64a32a64a64II"): source,
      source-type index, name, symbol, label, domain, axis labels, element
      count and element size. */
  function OpPrefix(op: OpImage, k: int, count: int, elemSize: int): (r: Bytes)
    ensures |r| == OP_SIZE
    ensures r[..64] == PadA(op.source, 64) && r[64..68] == LeBytes(k, 4)
    ensures r[68..100] == PadA(op.name, 32) && r[100..108] == PadA(op.sym, 8)
    ensures r[108..172] == PadA(op.labelText, 64) && r[172..204] == PadA(op.domain, 32)
    ensures r[204..268] == PadA(op.xAxis, 64) && r[268..332] == PadA(op.yAxis, 64)
    ensures r[332..336] == LeBytes(count, 4) && r[336..340] == LeBytes(elemSize, 4)
  {
    OpPrefixLayout(op, k, count, elemSize);
    PadA(op.source, 64) + LeBytes(k, 4) + PadA(op.name, 32) + PadA(op.sym, 8)
    + (PadA(op.labelText, 64) + PadA(op.domain, 32) + PadA(op.xAxis, 64) + PadA(op.yAxis, 64))
    + (LeBytes(count, 4) + LeBytes(elemSize, 4))
  }

  /** Where each field of the record prefix lies. */
  lemma OpPrefixLayout(op: OpImage, k: int, count: int, elemSize: int)
    ensures var r := PadA(op.source, 64) + LeBytes(k, 4) + PadA(op.name, 32) + PadA(op.sym, 8)
      + (PadA(op.labelText, 64) + PadA(op.domain, 32) + PadA(op.xAxis, 64) + PadA(op.yAxis, 64))
      + (LeBytes(count, 4) + LeBytes(elemSize, 4));
      && |r| == OP_SIZE
      && r[..64] == PadA(op.source, 64) && r[64..68] == LeBytes(k, 4)
      && r[68..100] == PadA(op.name, 32) && r[100..108] == PadA(op.sym, 8)
      && r[108..172] == PadA(op.labelText, 64) && r[172..204] == PadA(op.domain, 32)
      && r[204..268] == PadA(op.xAxis, 64) && r[268..332] == PadA(op.yAxis, 64)
      && r[332..336] == LeBytes(count, 4) && r[336..340] == LeBytes(elemSize, 4)
  {
    var head := PadA(op.source, 64) + LeBytes(k, 4) + PadA(op.name, 32) + PadA(op.sym, 8);
    var texts := PadA(op.labelText, 64) + PadA(op.domain, 32) + PadA(op.xAxis, 64) + PadA(op.yAxis, 64);
    var tail := LeBytes(count, 4) + LeBytes(elemSize, 4);
    FieldsOfFour(PadA(op.source, 64), LeBytes(k, 4), PadA(op.name, 32), PadA(op.sym, 8));
    FieldsOfFour(PadA(op.labelText, 64), PadA(op.domain, 32), PadA(op.xAxis, 64), PadA(op.yAxis, 64));
    FieldsOfTwo(LeBytes(count, 4), LeBytes(elemSize, 4));
    hide *;
    ThreeBlocks(head, texts, tail);
  }

  /** The places of two consecutive fields. */
  lemma FieldsOfTwo(a: Bytes, b: Bytes)
    ensures (a + b)[..|a|] == a && (a + b)[|a|..] == b
  {
  }

  /** Fields inside three consecutive blocks of 108, 224 and 8 bytes. */
  lemma ThreeBlocks(head: Bytes, texts: Bytes, tail: Bytes)
    requires |head| == 108 && |texts| == 224 && |tail| == 8
    ensures var r := head + texts + tail;
      && |r| == OP_SIZE
      && r[..64] == head[..64] && r[64..68] == head[64..68]
      && r[68..100] == head[68..100] && r[100..108] == head[100..]
      && r[108..172] == texts[..64] && r[172..204] == texts[64..96]
      && r[204..268] == texts[96..160] && r[268..332] == texts[160..]
      && r[332..336] == tail[..4] && r[336..340] == tail[4..]
  {
  }

  /** The places of four consecutive fields. */
  lemma FieldsOfFour(a: Bytes, b: Bytes, c: Bytes, d: Bytes)
    ensures var r := a + b + c + d;
      && r[..|a|] == a && r[|a|..|a| + |b|] == b
      && r[|a| + |b|..|a| + |b| + |c|] == c && r[|a| + |b| + |c|..] == d
  {
  }

  /** Op#to_file: the prefix with the element count and element size 2,
      then `data.pack("s<n>")`. A source type outside SOURCE_TYPES has no
      index to pack, and packing nil raises. */
  function EncodeOp(op: OpImage): (r: Result<Bytes>)
    ensures r.Ok? <==> op.srcType in SOURCE_TYPES
    ensures r.Ok? ==> |r.value| == OP_SIZE + 2 * |op.data|
  {
    var k :- match BinarySrcType(op.srcType)
      case Some(k) => Ok(k)
      case None => Err(TypeMismatch);
    Ok(OpPrefix(op, k, |op.data|, 2) + PackInts(op.data, 2))
  }

  /** The element count and element size a record prefix declares. */
  function Count(buf: Bytes): nat
    requires |buf| == OP_SIZE
  {
    LeValue(buf[332..336])
  }

  function ElemSize(buf: Bytes): nat
    requires |buf| == OP_SIZE
  {
    LeValue(buf[336..340])
  }

  /** `buf = f.read(elem_size * num_elem); data = buf.unpack("s<n>")`:
      element size times count bytes, of which the first count signed
      shorts are the data. */
  function OpData(buf: Bytes, s: Bytes): (r: Result<(seq<int>, Bytes)>)
    requires |buf| == OP_SIZE
    ensures r.Ok? ==> |r.value.0| == Count(buf) && |s| == ElemSize(buf) * Count(buf) + |r.value.1|
    ensures Parsed(r, s)
  {
    var (raw, rest) :- Take(s, ElemSize(buf) * Count(buf));
    var data :- UnpackInts(raw, 2, Count(buf));
    Ok((data, rest))
  }

  /** `new(source, SOURCE_TYPES[src_type], name, ...)` on the unpacked
      prefix: Op.new refuses an index with no source type. */
  function OpFields(buf: Bytes, data: seq<int>): (r: Result<OpImage>)
    requires |buf| == OP_SIZE
    ensures r.Ok? <==> LeValue(buf[64..68]) < |SOURCE_TYPES|
    ensures r.Err? ==> r.error == InvalidSourceType
    ensures r.Ok? ==> r.value.data == data && r.value.srcType == SOURCE_TYPES[LeValue(buf[64..68])]
  {
    var k := LeValue(buf[64..68]);
    if k >= |SOURCE_TYPES| then Err(InvalidSourceType)
    else
      Ok(OpImage(StripA(buf[..64]), SOURCE_TYPES[k], StripA(buf[68..100]), StripA(buf[100..108]),
                 StripA(buf[108..172]), StripA(buf[172..204]), StripA(buf[204..268]),
                 StripA(buf[268..332]), data))
  }

  /** Op.from_file: the prefix, then the data; the source type is looked
      up only after the data has been read. */
  function DecodeOp(s: Bytes): (r: Result<(OpImage, Bytes)>)
    ensures Parsed(r, s)
  {
    var (buf, rest) :- Take(s, OP_SIZE);
    var (data, rest') :- OpData(buf, rest);
    var op :- OpFields(buf, data);
    Ok((op, rest'))
  }

  /** A record read back holds as many elements as its count field says,
      and occupies its prefix plus element size times count bytes: the
      stored element size decides how far the reader moves, even though
      the elements are always read as shorts. */
  lemma DecodedOpWidth(s: Bytes)
    requires DecodeOp(s).Ok?
    ensures |s| >= OP_SIZE
    ensures |DecodeOp(s).value.0.data| == Count(s[..OP_SIZE])
    ensures |s| == OP_SIZE + ElemSize(s[..OP_SIZE]) * Count(s[..OP_SIZE]) + |DecodeOp(s).value.1|
    ensures LeValue(s[64..68]) < 4
  {
    assert s[..OP_SIZE][64..68] == s[64..68];
  }

  /** An element size below 2 leaves too few bytes for the shorts: the
      model refuses a record with elements and such a size, where Ruby
      reads it with nil elements. */
  lemma NarrowElementsFail(buf: Bytes, s: Bytes)
    requires |buf| == OP_SIZE && ElemSize(buf) < 2 && Count(buf) > 0
    ensures OpData(buf, s).Err?
  {
    if Take(s, ElemSize(buf) * Count(buf)).Ok? {
      var raw := Take(s, ElemSize(buf) * Count(buf)).value.0;
      UnpackIntsShort(raw, 2, Count(buf));
    }
  }

  /** The operations a record stores without loss: texts that fit their
      fields, a known source type, and data that fits signed shorts with a
      count that fits its field. */
  predicate Storable(op: OpImage)
  {
    && FitsField(op.source, 64) && FitsField(op.name, 32) && FitsField(op.sym, 8)
    && FitsField(op.labelText, 64) && FitsField(op.domain, 32)
    && FitsField(op.xAxis, 64) && FitsField(op.yAxis, 64)
    && op.srcType in SOURCE_TYPES
    && FitsWidth(op.data, 2) && |op.data| < 0x1_0000_0000
  }

  /** Reading a written prefix gives back the texts and both counts. */
  lemma PrefixFields(op: OpImage, k: nat)
    requires Storable(op) && k < 4
    ensures var p := OpPrefix(op, k, |op.data|, 2);
      && StripA(p[..64]) == op.source && LeValue(p[64..68]) == k
      && StripA(p[68..100]) == op.name && StripA(p[100..108]) == op.sym
      && StripA(p[108..172]) == op.labelText && StripA(p[172..204]) == op.domain
      && StripA(p[204..268]) == op.xAxis && StripA(p[268..332]) == op.yAxis
      && LeValue(p[332..336]) == |op.data| && LeValue(p[336..340]) == 2
  {
    FixedFieldRoundTrip(op.source, 64);
    FixedFieldRoundTrip(op.name, 32);
    FixedFieldRoundTrip(op.sym, 8);
    FixedFieldRoundTrip(op.labelText, 64);
    FixedFieldRoundTrip(op.domain, 32);
    FixedFieldRoundTrip(op.xAxis, 64);
    FixedFieldRoundTrip(op.yAxis, 64);
    Pow256Values();
    UnsignedRoundTrip(k, 4);
    UnsignedRoundTrip(|op.data|, 4);
    UnsignedRoundTrip(2, 4);
  }

  /** Reading a record whose prefix and data parse. */
  lemma DecodeOpFrom(buf: Bytes, tail: Bytes, op: OpImage, rest: Bytes)
    requires |buf| == OP_SIZE && OpData(buf, tail).Ok? && OpData(buf, tail).value.1 == rest
    requires OpFields(buf, OpData(buf, tail).value.0) == Ok(op)
    ensures DecodeOp(buf + tail) == Ok((op, rest))
  {
    var s := buf + tail;
    assert s[..OP_SIZE] == buf && s[OP_SIZE..] == tail;
  }

  /** The data written after a prefix declaring element size 2 reads back. */
  lemma OpDataRoundTrip(op: OpImage, k: nat, rest: Bytes)
    requires Storable(op) && k < 4
    ensures OpData(OpPrefix(op, k, |op.data|, 2), PackInts(op.data, 2) + rest) == Ok((op.data, rest))
  {
    hide OpPrefix, PackInts, UnpackInts, StripA, LeValue, FitsField, PadA, LeBytes;
    var p := OpPrefix(op, k, |op.data|, 2);
    var body := PackInts(op.data, 2);
    PrefixFields(op, k);
    assert Take(body + rest, 2 * |op.data|) == Ok((body, rest)) by {
      assert (body + rest)[..|body|] == body && (body + rest)[|body|..] == rest;
    }
    IntsRoundTrip(op.data, 2, []);
    assert body + [] == body;
  }

  /** The fields of a written prefix read back as the operation. */
  lemma OpFieldsRoundTrip(op: OpImage)
    requires Storable(op)
    ensures OpFields(OpPrefix(op, BinarySrcType(op.srcType).value, |op.data|, 2), op.data) == Ok(op)
  {
    PrefixFields(op, BinarySrcType(op.srcType).value);
  }

  /** A known source type is written as its index. */
  lemma EncodeOpShape(op: OpImage)
    requires op.srcType in SOURCE_TYPES
    ensures EncodeOp(op) == Ok(OpPrefix(op, BinarySrcType(op.srcType).value, |op.data|, 2) + PackInts(op.data, 2))
  {
  }

  /** Writing an operation and reading it back gives the same operation,
      and leaves the bytes after it. */
  lemma OpRoundTrip(op: OpImage, rest: Bytes)
    requires Storable(op)
    ensures EncodeOp(op).Ok?
    ensures DecodeOp(EncodeOp(op).value + rest) == Ok((op, rest))
  {
    hide OpPrefix, PackInts, EncodeOp, OpData, OpFields, DecodeOp, BinarySrcType, IndexOf,
      UnpackInts, StripA, LeValue, Take, PadA, LeBytes, FitsWidth, FitsField;
    var k := BinarySrcType(op.srcType).value;
    var p := OpPrefix(op, k, |op.data|, 2);
    var body := PackInts(op.data, 2);
    EncodeOpShape(op);
    OpDataRoundTrip(op, k, rest);
    OpFieldsRoundTrip(op);
    DecodeOpFrom(p, body + rest, op, rest);
    assert EncodeOp(op).value + rest == p + (body + rest);
  }

  // ---------------------------------------------------------------------
  // The container
  // ---------------------------------------------------------------------

  /** The decoded contents of a DSP file. */
  datatype DspImage = DspImage(timestamp: int, ops: seq<OpImage>)

  /** The body-header size the version selects: 8 bytes ("LI": uint32
      timestamp and count) within 0.1 of 2.1, else 12 ("QI"). */
  function BodyHeaderSize(version: Bytes): nat
    requires |version| == 4
  {
    if Near(version, TWO_POINT_ONE, TENTH, false) then 8 else 12
  }

  /** The version this program writes (2.2f, 0.1000000477 above 2.1)
      selects the 12-byte header; a stored 2.1f selects the 8-byte one. */
  lemma VersionSelectsHeader()
    ensures BodyHeaderSize(VERSION) == 12
    ensures BodyHeaderSize(TWO_POINT_ONE_F) == 8
  {
    VersionValues();
    assert LeValue(TWO_POINT_ONE_F) == 0x4006_6666;
    DecodeNear(TWO_POINT_ONE_F, 0x4006_6666);
  }

  /** The 20 bytes before the records ("a4fQI"): prefix, uint64 timestamp,
      uint32 count. */
  function DspHeader(timestamp: int, count: int): (r: Bytes)
    ensures |r| == 20
    ensures r[..8] == WritePrefix(MAGIC, VERSION)
    ensures r[8..16] == LeBytes(timestamp, 8) && r[16..] == LeBytes(count, 4)
  {
    var r := WritePrefix(MAGIC, VERSION) + LeBytes(timestamp, 8) + LeBytes(count, 4);
    assert r[8..16] == LeBytes(timestamp, 8);
    r
  }

  /** Dsp#to_file: the header, then each operation's record. */
  function EncodeDsp(timestamp: int, ops: seq<OpImage>): (r: Result<Bytes>)
    ensures r.Ok? <==> forall i | 0 <= i < |ops| :: ops[i].srcType in SOURCE_TYPES
  {
    var body :- EncodeAll(ops, EncodeOp);
    Ok(DspHeader(timestamp, |ops|) + body)
  }

  /** A file whose records all encode is its header and its records. */
  lemma EncodeDspShape(timestamp: int, ops: seq<OpImage>)
    requires EncodeAll(ops, EncodeOp).Ok?
    ensures EncodeDsp(timestamp, ops) == Ok(DspHeader(timestamp, |ops|) + EncodeAll(ops, EncodeOp).value)
  {
  }

  /** The leads the legacy layout holds. */
  const K52_A: string := "V5"
  const K52_B: string := "II"

  /** One `dsp.operation(<KIND>_NAME[, lead]).data = data_from_k52(f, n)`
      of Dsp.from_k52: the kind, the source looked up (none for the pair
      kinds) and the element count. */
  datatype K52Read = K52Read(kind: Kind, source: Option<string>, count: nat)

  /** The eleven reads, in file order. */
  const K52_READS: seq<K52Read> :=
    [K52Read(APS, Some(K52_A), 128), K52Read(APS, Some(K52_B), 128),
     K52Read(COH, None, 128), K52Read(XAR, None, 128), K52Read(PSA, None, 128),
     K52Read(IMR, None, 256), K52Read(CCR, None, 512),
     K52Read(AMP, Some(K52_A), 100), K52Read(AMP, Some(K52_B), 100),
     K52Read(QRS, Some(K52_A), 512), K52Read(QRS, Some(K52_B), 512)]

  /** The position among the standard operations that each read fills. */
  const K52_TARGETS: seq<nat> := [2, 3, 11, 10, 9, 8, 7, 4, 5, 0, 1]

  function K52Counts(): (r: seq<nat>)
    ensures |r| == 11 && forall k | 0 <= k < 11 :: r[k] == K52_READS[k].count
  {
    seq(11, k requires 0 <= k < 11 => K52_READS[k].count)
  }

  /** Each read names the kind of the standard operation it fills, with
      its lead; a read without a lead fills a pair operation. */
  lemma K52ReadsTargets()
    ensures |K52_READS| == |K52_TARGETS| == 11
    ensures forall k | 0 <= k < 11 ::
      && K52_TARGETS[k] < 12
      && K52_READS[k].kind == StdOps(K52_A, K52_B)[K52_TARGETS[k]].kind
      && (|| K52_READS[k].source == Some(StdOps(K52_A, K52_B)[K52_TARGETS[k]].source)
          || (K52_READS[k].source.None? && K52_TARGETS[k] >= 6))
  {
    StdOpsKinds(K52_A, K52_B);
    StdOpsSources(K52_A, K52_B);
  }

  /** Over the standard operations of V5 and II, the lookup of read k
      finds the operation at its target position. */
  lemma K52Lookup(ops: seq<Op>, k: nat)
    requires |ops| == 12 && k < 11
    requires forall j | 0 <= j < 12 :: Describes(ops[j], StdOps(K52_A, K52_B)[j])
    ensures FirstOp(ops, false, K52_READS[k].kind.name, K52_READS[k].source) == Some(K52_TARGETS[k])
  {
    K52ReadsTargets();
    StdOpFound(ops, K52_A, K52_B, K52_TARGETS[k]);
  }

  lemma K52Tables()
    ensures |K52_READS| == |K52_TARGETS| == 11
    ensures forall k | 0 <= k < 11 :: K52_TARGETS[k] < 12
  {
  }

  /** Dsp.data_from_k52: `f.read(size * 2).unpack("s<size>")`. */
  function DataFromK52(s: Bytes, n: nat): (r: Result<(seq<int>, Bytes)>)
    ensures r.Ok? <==> |s| >= 2 * n
    ensures r.Ok? ==> |r.value.0| == n && r.value.1 == s[2 * n..]
  {
    var (buf, rest) :- Take(s, 2 * n);
    UnpackIntsShort(buf, 2, n);
    Ok((UnpackInts(buf, 2, n).value, rest))
  }

  /** The blocks of the given element counts, read one after the other. */
  function ReadBlocks(counts: seq<nat>, s: Bytes): (r: Result<(seq<seq<int>>, Bytes)>)
    ensures r.Ok? ==> |r.value.0| == |counts|
    ensures r.Ok? ==> forall k | 0 <= k < |counts| :: |r.value.0[k]| == counts[k]
  {
    if counts == [] then Ok(([], s))
    else
      var (front, rest) :- ReadBlocks(counts[..|counts| - 1], s);
      var (block, rest') :- DataFromK52(rest, counts[|counts| - 1]);
      Ok((front + [block], rest'))
  }

  function Sum(xs: seq<nat>): nat
  {
    if xs == [] then 0 else Sum(xs[..|xs| - 1]) + xs[|xs| - 1]
  }

  /** Reading the blocks succeeds exactly when two bytes per element are
      there, and then consumes exactly those. */
  lemma {:induction false} ReadBlocksLength(counts: seq<nat>, s: Bytes)
    ensures ReadBlocks(counts, s).Ok? <==> |s| >= 2 * Sum(counts)
    ensures ReadBlocks(counts, s).Ok? ==> ReadBlocks(counts, s).value.1 == s[2 * Sum(counts)..]
  {
    if counts != [] {
      ReadBlocksLength(counts[..|counts| - 1], s);
    }
  }

  /** The data each standard operation holds after the given blocks have
      been read: the last block read into it, or none. */
  function K52Data(blocks: seq<seq<int>>, i: nat): seq<int>
    requires |blocks| <= 11
  {
    if blocks == [] then []
    else if K52_TARGETS[|blocks| - 1] == i then blocks[|blocks| - 1]
    else K52Data(blocks[..|blocks| - 1], i)
  }

  /** What create_std_ops makes for a standard operation, with data. */
  function StdImage(s: StdOp, data: seq<int>): OpImage
  {
    OpImage(s.source, s.srcType, s.kind.name, s.kind.sym, s.kind.labelText, s.kind.domain,
            s.kind.xAxis, s.kind.yAxis, data)
  }

  /** The Dsp from_k52 returns once the blocks have been read. */
  function K52Image(now: int, blocks: seq<seq<int>>): DspImage
    requires |blocks| <= 11
  {
    DspImage(now, seq(12, i requires 0 <= i < 12 => StdImage(StdOps(K52_A, K52_B)[i], K52Data(blocks, i))))
  }

  /** Dsp.from_k52: the standard operations of V5 and II stamped with the
      current time, filled by the eleven reads. */
  function DecodeK52(s: Bytes, now: int): (r: Result<(DspImage, Bytes)>)
    ensures r.Ok? <==> ReadBlocks(K52Counts(), s).Ok?
    ensures r.Ok? ==> r.value.0.timestamp == now && |r.value.0.ops| == 12
  {
    var (blocks, rest) :- ReadBlocks(K52Counts(), s);
    Ok((K52Image(now, blocks), rest))
  }

  /** Dsp.from_file. Without the magic, the whole remainder of the file
      is measured: a P56 file (5652 or 5689 bytes) is a K52 layout behind
      a 256-byte preamble, a K52 file (5290 bytes) is read from its start,
      and any other size is refused. With the magic, the version selects
      the body header, whose count gives the number of records. */
  function DecodeDsp(s: Bytes, now: int): (r: Result<(DspImage, Bytes)>)
    ensures r.Ok? ==> |s| >= 8
    ensures r.Ok? ==> s[..4] == PadA(MAGIC, 4) || |s| == P56_SIZE || |s| == P56_ALT_SIZE || |s| == K52_SIZE
  {
    var (prefix, rest) :- ReadPrefix(s);
    MagicExact(s, MAGIC);
    if prefix.magic != MAGIC then
      if |s| == P56_SIZE || |s| == P56_ALT_SIZE then DecodeK52(s[P56_DATA_OFFSET..], now)
      else if |s| == K52_SIZE then DecodeK52(s, now)
      else Err(MagicMismatch)
    else
      var size := BodyHeaderSize(prefix.version);
      var (body, rest') :- Take(rest, size);
      var timestamp := LeValue(body[..size - 4]);
      var count := LeValue(body[size - 4..]);
      var (ops, rest'') :- Many(count, DecodeOp, rest');
      Ok((DspImage(timestamp, ops), rest''))
  }

  /** from_k52 fails as the first failing read does. */
  lemma K52Decoded(s: Bytes, now: int)
    ensures DecodeK52(s, now)
         == match ReadBlocks(K52Counts(), s)
            case Ok((blocks, rest)) => Ok((K52Image(now, blocks), rest))
            case Err(e) => Err(e)
  {
  }

  /** The eleven reads take 2632 elements, 5264 bytes. */
  lemma K52Total()
    ensures Sum(K52Counts()) == 2632
  {
    var c := K52Counts();
    assert c[..0] == [];
    assert c[..1][..0] == c[..0] && Sum(c[..1]) == 128;
    assert c[..2][..1] == c[..1] && Sum(c[..2]) == 256;
    assert c[..3][..2] == c[..2] && Sum(c[..3]) == 384;
    assert c[..4][..3] == c[..3] && Sum(c[..4]) == 512;
    assert c[..5][..4] == c[..4] && Sum(c[..5]) == 640;
    assert c[..6][..5] == c[..5] && Sum(c[..6]) == 896;
    assert c[..7][..6] == c[..6] && Sum(c[..7]) == 1408;
    assert c[..8][..7] == c[..7] && Sum(c[..8]) == 1508;
    assert c[..9][..8] == c[..8] && Sum(c[..9]) == 1608;
    assert c[..10][..9] == c[..9] && Sum(c[..10]) == 2120;
    assert c[..11][..10] == c[..10] && Sum(c[..11]) == 2632;
    assert c[..11] == c;
  }

  /** A file without the magic is read as a legacy layout only at the
      P56 and K52 sizes; any other size is refused. */
  lemma DspMagic(s: Bytes, now: int)
    requires |s| >= 8 && s[..4] != PadA(MAGIC, 4)
    ensures |s| !in {P56_SIZE, P56_ALT_SIZE, K52_SIZE} ==> DecodeDsp(s, now) == Err(MagicMismatch)
    ensures |s| in {P56_SIZE, P56_ALT_SIZE} ==> DecodeDsp(s, now) == DecodeK52(s[P56_DATA_OFFSET..], now)
    ensures |s| == K52_SIZE ==> DecodeDsp(s, now) == DecodeK52(s, now)
  {
    MagicExact(s, MAGIC);
  }

  /** Every legacy file is long enough for the eleven reads: a P56 file
      ends 132 (or 169) bytes after them, a K52 file 26 bytes after them. */
  lemma LegacyReads(s: Bytes, now: int)
    requires |s| in {P56_SIZE, P56_ALT_SIZE, K52_SIZE}
    ensures DecodeK52(if |s| == K52_SIZE then s else s[P56_DATA_OFFSET..], now).Ok?
    ensures |s| == K52_SIZE ==> DecodeK52(s, now).value.1 == s[5264..]
    ensures |s| != K52_SIZE ==> DecodeK52(s[P56_DATA_OFFSET..], now).value.1 == s[5520..]
  {
    K52Total();
    var t := if |s| == K52_SIZE then s else s[P56_DATA_OFFSET..];
    ReadBlocksLength(K52Counts(), t);
    if |s| != K52_SIZE {
      assert t[5264..] == s[5520..];
    }
  }

  /** The eleven reads fill eleven different standard operations, each
      with its own block, and leave the cross power spectrum (position 6)
      empty. */
  lemma K52Filled(blocks: seq<seq<int>>)
    requires |blocks| == 11
    ensures forall k | 0 <= k < 11 :: K52Data(blocks, K52_TARGETS[k]) == blocks[k]
    ensures K52Data(blocks, 6) == []
  {
    forall k | 0 <= k < 11
      ensures K52Data(blocks, K52_TARGETS[k]) == blocks[k]
    {
      K52DataAt(blocks, k);
    }
    K52DataNone(blocks, 6);
  }

  /** The data of the operation that read k fills is block k, when no
      later read fills it. */
  lemma {:induction false} K52DataAt(blocks: seq<seq<int>>, k: nat)
    requires |blocks| <= 11 && k < |blocks|
    ensures K52Data(blocks, K52_TARGETS[k]) == blocks[k]
  {
    if k < |blocks| - 1 {
      assert K52_TARGETS[|blocks| - 1] != K52_TARGETS[k];
      K52DataAt(blocks[..|blocks| - 1], k);
    }
  }

  /** An operation no read fills keeps no data. */
  lemma {:induction false} K52DataNone(blocks: seq<seq<int>>, i: nat)
    requires |blocks| <= 11 && i !in K52_TARGETS
    ensures K52Data(blocks, i) == []
  {
    if blocks != [] {
      K52DataNone(blocks[..|blocks| - 1], i);
    }
  }

  /** Reading the body that follows a written DSP header. */
  lemma DecodeDspShape(timestamp: int, count: nat, tail: Bytes, now: int)
    requires 0 <= timestamp < 0x1_0000_0000_0000_0000 && count < 0x1_0000_0000
    ensures DecodeDsp(DspHeader(timestamp, count) + tail, now)
         == match Many(count, DecodeOp, tail)
            case Ok((ops, rest)) => Ok((DspImage(timestamp, ops), rest))
            case Err(e) => Err(e)
  {
    hide DecodeOp, Many, ReadPrefix, BodyHeaderSize, LeValue, LeBytes, DspHeader, WritePrefix, DecodeK52;
    var h := DspHeader(timestamp, count);
    var s := h + tail;
    assert s == WritePrefix(MAGIC, VERSION) + (h[8..] + tail);
    PrefixRoundTrip(MAGIC, VERSION, h[8..] + tail);
    VersionSelectsHeader();
    assert (h[8..] + tail)[..12] == h[8..] && (h[8..] + tail)[12..] == tail;
    assert h[8..][..8] == LeBytes(timestamp, 8) && h[8..][8..] == LeBytes(count, 4);
    Pow256Values();
    UnsignedRoundTrip(timestamp, 8);
    UnsignedRoundTrip(count, 4);
  }

  /** Writing a DSP file and reading it back gives its timestamp and its
      operations, in order. */
  lemma DspRoundTrip(timestamp: int, ops: seq<OpImage>, rest: Bytes, now: int)
    requires 0 <= timestamp < 0x1_0000_0000_0000_0000
    requires |ops| < 0x1_0000_0000
    requires forall op | op in ops :: Storable(op)
    ensures EncodeDsp(timestamp, ops).Ok?
    ensures DecodeDsp(EncodeDsp(timestamp, ops).value + rest, now) == Ok((DspImage(timestamp, ops), rest))
  {
    hide *;
    forall i | 0 <= i < |ops|
      ensures EncodeOp(ops[i]).Ok?
    {
      OpRoundTrip(ops[i], []);
    }
    forall i, tail | 0 <= i < |ops|
      ensures DecodeOp(EncodeOp(ops[i]).value + tail) == Ok((ops[i], tail))
    {
      OpRoundTrip(ops[i], tail);
    }
    ManyRoundTrip(ops, ops, EncodeOp, DecodeOp, rest);
    var body := EncodeAll(ops, EncodeOp).value;
    DecodeDspShape(timestamp, |ops|, body + rest, now);
    EncodeDspShape(timestamp, ops);
    AppendedTwo(DspHeader(timestamp, |ops|), body, rest);
  }

  /** Reading the blocks of one count more extends the blocks read, or
      fails as that read does. */
  lemma ReadBlocksStep(counts: seq<nat>, k: nat, s: Bytes)
    requires k < |counts| && ReadBlocks(counts[..k], s).Ok?
    ensures ReadBlocks(counts[..k + 1], s)
         == match DataFromK52(ReadBlocks(counts[..k], s).value.1, counts[k])
            case Ok((block, rest)) => Ok((ReadBlocks(counts[..k], s).value.0 + [block], rest))
            case Err(e) => Err(e)
  {
    assert counts[..k + 1][..k] == counts[..k];
  }

  /** Before the first read no block has been read. */
  lemma ReadBlocksNone(counts: seq<nat>, s: Bytes)
    ensures ReadBlocks(counts[..0], s) == Ok(([], s))
  {
    assert counts[..0] == [];
  }

  /** Once a read fails, reading all the blocks fails the same way. */
  lemma {:induction false} ReadBlocksErrPersists(counts: seq<nat>, m: nat, s: Bytes)
    requires m <= |counts| && ReadBlocks(counts[..m], s).Err?
    ensures ReadBlocks(counts, s) == Err(ReadBlocks(counts[..m], s).error)
    decreases |counts|
  {
    if m < |counts| {
      var front := counts[..|counts| - 1];
      assert front[..m] == counts[..m];
      ReadBlocksErrPersists(front, m, s);
    } else {
      assert counts[..m] == counts;
    }
  }

  /** The images of a list of operations, in order. */
  function Images(ops: seq<Op>): (r: seq<OpImage>)
    reads ops
    ensures |r| == |ops| && forall i | 0 <= i < |ops| :: r[i] == ops[i].Image()
  {
    if ops == [] then [] else Images(ops[..|ops| - 1]) + [ops[|ops| - 1].Image()]
  }

  /** Standard operations holding the K52 blocks are the image from_k52
      promises. */
  lemma K52Images(ops: seq<Op>, now: int, blocks: seq<seq<int>>)
    requires |ops| == 12 && |blocks| <= 11
    requires forall i | 0 <= i < 12 :: Describes(ops[i], StdOps(K52_A, K52_B)[i])
    requires forall i | 0 <= i < 12 :: ops[i].data == K52Data(blocks, i)
    ensures Images(ops) == K52Image(now, blocks).ops && K52Image(now, blocks).timestamp == now
  {
    hide StdOps, K52Data;
  }

  /** Reading one more block changes only the data of its target. */
  lemma K52DataStep(blocks: seq<seq<int>>, block: seq<int>)
    requires |blocks| < 11
    ensures forall i: nat :: K52Data(blocks + [block], i)
                            == if K52_TARGETS[|blocks|] == i then block else K52Data(blocks, i)
  {
    assert (blocks + [block])[..|blocks|] == blocks;
  }

  /** Before any read every operation is empty. */
  lemma K52DataNoBlocks()
    ensures forall i: nat :: K52Data([], i) == []
  {
  }

  // ---------------------------------------------------------------------
  // The stream methods
  // ---------------------------------------------------------------------

  /** Op#to_file */
  method WriteOp(w: Writer, op: Op)
    requires op.Valid()
    modifies w
    ensures EncodeOp(op.Image()).Ok?
    ensures w.out == old(w.out) + EncodeOp(op.Image()).value
  {
    var img := op.Image();
    var k := BinarySrcType(op.srcType).value;
    EncodeOpShape(img);
    hide *;
    var prefix := OpPrefix(img, k, |img.data|, 2);
    var body := PackInts(img.data, 2);
    w.Write(prefix);
    w.Write(body);
    AppendedTwo(old(w.out), prefix, body);
  }

  /** Dsp#to_file: the header, then `@operations.each { |o| o.to_file(f) }`. */
  method WriteDsp(w: Writer, dsp: Dsp)
    requires forall i | 0 <= i < |dsp.operations| :: dsp.operations[i].Valid()
    modifies w
    ensures EncodeDsp(dsp.timestamp, Images(dsp.operations)).Ok?
    ensures w.out == old(w.out) + EncodeDsp(dsp.timestamp, Images(dsp.operations)).value
  {
    hide *;
    ghost var imgs := Images(dsp.operations);
    var header := DspHeader(dsp.timestamp, |dsp.operations|);
    w.Write(header);
    ghost var start := w.out;
    EncodeAllNone(imgs, EncodeOp);
    for i := 0 to |dsp.operations|
      invariant EncodeAll(imgs[..i], EncodeOp).Ok?
      invariant w.out == start + EncodeAll(imgs[..i], EncodeOp).value
    {
      ghost var before := w.out;
      WriteOp(w, dsp.operations[i]);
      WroteNext(imgs, EncodeOp, i, start, before, w.out);
    }
    assert imgs[..|imgs|] == imgs;
    EncodeDspShape(dsp.timestamp, imgs);
    AppendedTwo(old(w.out), header, EncodeAll(imgs, EncodeOp).value);
  }

  /** Op.from_file */
  method ReadOp(r: Reader) returns (res: Result<Op>)
    requires r.Valid()
    modifies r
    ensures r.Valid()
    ensures match DecodeOp(old(r.Rest()))
      case Ok((img, rest)) =>
        res.Ok? && fresh(res.value) && res.value.Valid() && res.value.Image() == img && r.Rest() == rest
      case Err(e) => res == Err(e)
  {
    var buf :- r.Read(OP_SIZE);
    var raw :- r.Read(ElemSize(buf) * Count(buf));
    var data :- UnpackInts(raw, 2, Count(buf));
    var k := LeValue(buf[64..68]);
    if k >= |SOURCE_TYPES| {
      return Err(InvalidSourceType);
    }
    var op := new Op(StripA(buf[..64]), SOURCE_TYPES[k], StripA(buf[68..100]), StripA(buf[100..108]),
                     StripA(buf[108..172]), StripA(buf[172..204]), StripA(buf[204..268]),
                     StripA(buf[268..332]), data);
    return Ok(op);
  }

  /** The `num_ops.times { ops << Op.from_file(f) }` loop of Dsp.from_file. */
  method ReadOps(r: Reader, count: nat) returns (res: Result<seq<Op>>)
    requires r.Valid()
    modifies r
    ensures r.Valid()
    ensures match Many(count, DecodeOp, old(r.Rest()))
      case Ok((imgs, rest)) =>
        && res.Ok? && Images(res.value) == imgs && r.Rest() == rest
        && forall i | 0 <= i < |res.value| :: fresh(res.value[i]) && res.value[i].Valid()
      case Err(e) => res == Err(e)
  {
    hide DecodeOp, Images;
    ghost var start := r.Rest();
    ghost var imgs: seq<OpImage> := [];
    var ops: seq<Op> := [];
    var i := 0;
    while i < count
      invariant r.Valid() && i <= count && |ops| == |imgs| == i
      invariant Many(i, DecodeOp, start) == Ok((imgs, r.Rest()))
      invariant forall j | 0 <= j < |ops| :: fresh(ops[j]) && ops[j].Valid() && ops[j].Image() == imgs[j]
    {
      ManyStep(i, DecodeOp, start);
      var op := ReadOp(r);
      if op.Err? {
        ManyErrPersists(i + 1, count, DecodeOp, start);
        return Err(op.error);
      }
      ops := ops + [op.value];
      imgs := imgs + [op.value.Image()];
      i := i + 1;
    }
    assert Images(ops) == imgs;
    return Ok(ops);
  }

  /** Dsp.data_from_k52 */
  method ReadShorts(r: Reader, n: nat) returns (res: Result<seq<int>>)
    requires r.Valid()
    modifies r
    ensures r.Valid()
    ensures ReadAs(res, DataFromK52(old(r.Rest()), n), r.Rest())
  {
    var buf :- r.Read(2 * n);
    UnpackIntsShort(buf, 2, n);
    return Ok(UnpackInts(buf, 2, n).value);
  }

  /** One `dsp.operation(<KIND>_NAME[, lead]).data = data_from_k52(f, n)`
      of Dsp.from_k52: the lookup finds the target of read k, which
      receives the elements read. */
  method ReadK52Block(r: Reader, dsp: Dsp, k: nat, ghost ops: seq<Op>) returns (res: Result<seq<int>>)
    requires r.Valid() && k < 11
    requires dsp.operations == ops && |ops| == 12
    requires forall i | 0 <= i < 12 :: Describes(ops[i], StdOps(K52_A, K52_B)[i])
    modifies r, ops[K52_TARGETS[k]]
    ensures r.Valid()
    ensures ReadAs(res, DataFromK52(old(r.Rest()), K52_READS[k].count), r.Rest())
    ensures res.Ok? ==> ops[K52_TARGETS[k]].data == res.value
  {
    var read := K52_READS[k];
    var data := ReadShorts(r, read.count);
    if data.Err? {
      return data;
    }
    K52Lookup(ops, k);
    var op := dsp.Operation(read.kind.name, read.source);
    assert op == Some(ops[K52_TARGETS[k]]);
    op.value.data := data.value;
    return data;
  }

  /** Dsp.from_k52: a new Dsp stamped `now`, its standard operations for
      V5 and II, and the eleven reads, each stored as the data of the
      operation its lookup finds. */
  method ReadK52(r: Reader, now: int) returns (res: Result<Dsp>)
    requires r.Valid()
    modifies r
    ensures r.Valid()
    ensures match DecodeK52(old(r.Rest()), now)
      case Ok((img, rest)) =>
        && res.Ok? && fresh(res.value) && res.value.timestamp == img.timestamp
        && Images(res.value.operations) == img.ops && r.Rest() == rest
      case Err(e) => res == Err(e)
  {
    hide *;
    var dsp := new Dsp(now, []);
    CreateStdOps(dsp, K52_A, K52_B);
    ghost var ops := dsp.operations;
    ghost var start := r.Rest();
    ghost var specs := StdOps(K52_A, K52_B);
    ghost var counts := K52Counts();
    assert ops[0..] == ops;
    K52Tables();
    ReadBlocksNone(counts, start);
    K52Decoded(start, now);
    K52DataNoBlocks();
    for k := 0 to 11
      invariant r.Valid() && dsp.operations == ops && |ops| == 12 && dsp.timestamp == now
      invariant forall i | 0 <= i < 12 :: Describes(ops[i], specs[i])
      invariant Distinct(ops)
      invariant ReadBlocks(counts[..k], start).Ok?
      invariant r.Rest() == ReadBlocks(counts[..k], start).value.1
      invariant forall i | 0 <= i < 12 :: ops[i].data == K52Data(ReadBlocks(counts[..k], start).value.0, i)
    {
      ghost var blocks := ReadBlocks(counts[..k], start).value.0;
      var data := ReadK52Block(r, dsp, k, ops);
      ReadBlocksStep(counts, k, start);
      if data.Err? {
        ReadBlocksErrPersists(counts, k + 1, start);
        return Err(data.error);
      }
      DistinctAt(ops, K52_TARGETS[k]);
      K52DataStep(blocks, data.value);
    }
    assert counts[..11] == counts;
    K52Images(ops, now, ReadBlocks(counts, start).value.0);
    return Ok(dsp);
  }

  /** Dsp.from_file */
  method ReadDsp(r: Reader, now: int) returns (res: Result<Dsp>)
    requires r.Valid()
    modifies r
    ensures r.Valid()
    ensures match DecodeDsp(old(r.Rest()), now)
      case Ok((img, rest)) =>
        && res.Ok? && fresh(res.value) && res.value.timestamp == img.timestamp
        && Images(res.value.operations) == img.ops && r.Rest() == rest
      case Err(e) => res == Err(e)
  {
    hide DecodeK52, Many, DecodeOp, Images;
    var buf :- r.Read(8);
    var prefix := Prefix(StripA(buf[..4]), buf[4..8]);
    if prefix.magic != MAGIC {
      r.Rewind(8);
      var size := r.Remaining();
      if size == P56_SIZE || size == P56_ALT_SIZE {
        r.Skip(P56_DATA_OFFSET);
        res := ReadK52(r, now);
      } else if size == K52_SIZE {
        res := ReadK52(r, now);
      } else {
        res := Err(MagicMismatch);
      }
      return;
    }
    var size := BodyHeaderSize(prefix.version);
    var body :- r.Read(size);
    var timestamp := LeValue(body[..size - 4]);
    var count := LeValue(body[size - 4..]);
    var ops :- ReadOps(r, count);
    var dsp := new Dsp(timestamp, ops);
    return Ok(dsp);
  }
}
