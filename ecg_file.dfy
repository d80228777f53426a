/** The ECG sample file (lib/mcg/signal_analysis/ecg_file.rb).

    A file is the 8-byte prefix ("ECG:" and the version), a body header
    giving the timestamp, the pair and lead counts and the shared lead
    geometry, then one record per lead (a 24-byte head and its elements)
    and one 36-byte record per pair. Version 2 files have a 64-byte body
    header with a 4-byte timestamp, the others a 28-byte one with an
    8-byte timestamp. A file without the magic is read as the legacy K32
    layout when it is 33032 bytes long: a 256-byte preamble, two gains and
    two leads of 8192 shorts. The clock the legacy reader stamps its leads
    with is the parameter `now`. */
module EcgFile {
  import opened Results
  import opened Bytes
  import opened Float32
  import opened Stream
  import opened Header
  import opened IntArrays
  import opened Signals

  const LEAD_SIZE: nat := 24
  const PAIR_SIZE: nat := 36
  const MAGIC: string := "ECG:"
  const VERSION: Bytes := THREE
  const V2_HEADER_SIZE: nat := 64
  const V3_HEADER_SIZE: nat := 28
  const K32_SIZE: nat := 33032
  const K32_DATA_OFFSET: nat := 256
  const V1_SIZE: nat := 32776
  const V1_GAIN_SIZE: nat := 8
  const V1_LEAD_A: string := "V5"
  const V1_LEAD_B: string := "II"
  const V1_ELEM_SIZE: nat := 2
  const V1_BLOCK_SIZE: nat := 512
  const V1_NUM_BLOCKS: nat := 16
  /** The binary32 word of the V1 pair ratio 1.3, as the pair is written;
      Ruby keeps the binary64 Float 1.3 in memory. */
  const V1_RATIO: Word := ONE_POINT_THREE
  /** The word of 2.0f, a version-2 file's version. */
  const TWO_F: Bytes := [0, 0, 0, 64]

  // ---------------------------------------------------------------------
  // SignalSample records
  // ---------------------------------------------------------------------

  /** The width of the directive DTYPE[elem_size] packs and unpacks the
      elements with: 'c' for sizes 0 and 1, 's' for 2 and 3, 'i' for 4.
      DTYPE has no entry for larger sizes. */
  function ElemWidth(elemSize: nat): (r: Result<nat>)
    ensures r.Ok? <==> elemSize < 5
    ensures r.Err? ==> r.error == UnknownTypeTag
    ensures r.Ok? ==> 0 < r.value && (elemSize > 0 ==> r.value <= elemSize)
    ensures elemSize in {1, 2, 4} ==> r == Ok(elemSize)
  {
    if elemSize <= 1 then Ok(1)
    else if elemSize <= 3 then Ok(2)
    else if elemSize == 4 then Ok(4)
    else Err(UnknownTypeTag)
  }

  /** The body header of a file: the timestamp, the numbers of pairs and
      leads, and the geometry every lead shares (blocks, elements per
      block, bytes per element). */
  datatype BodyHeader = BodyHeader(timestamp: int, numPairs: nat, numLeads: nat,
                                   numSegs: nat, numElems: nat, elemSize: nat)

  /** The 24 bytes before a recording's elements ("a16fI"): the name, the
      gain word and the checksum. */
  function LeadHead(x: Recording): (r: Bytes)
    ensures |r| == LEAD_SIZE
    ensures r[..16] == PadA(x.signal.name, 16) && r[16..20] == x.signal.gain
    ensures r[20..] == LeBytes(x.checksum, 4)
  {
    var r := PadA(x.signal.name, 16) + x.signal.gain + LeBytes(x.checksum, 4);
    assert r[16..20] == x.signal.gain;
    r
  }

  /** `data[0, n]`: the first n elements, or all of them when there are
      fewer. */
  function Truncated(data: seq<int>, n: nat): (r: seq<int>)
    ensures |r| == if n <= |data| then n else |data|
    ensures r == data[..|r|]
  {
    if n <= |data| then data[..n] else data
  }

  /** The elements of a recording's whole blocks, the ones written. */
  function BlockData(x: Recording): (r: seq<int>)
    ensures |r| <= |x.data| && r == x.data[..|r|]
    ensures x.numBlocks * x.signal.blockSize <= |x.data| ==> |r| == x.numBlocks * x.signal.blockSize
  {
    Truncated(x.data, x.numBlocks * x.signal.blockSize)
  }

  /** SignalSample#to_file: the head, then the elements of the whole
      blocks with the element directive. The head is written before the
      directive is looked up. */
  function EncodeLead(x: Recording): (r: Result<Bytes>)
    ensures r.Ok? <==> x.signal.elemSize < 5
    ensures r.Err? ==> r.error == UnknownTypeTag
    ensures r.Ok? ==> |r.value| == LEAD_SIZE + |BlockData(x)| * ElemWidth(x.signal.elemSize).value
    ensures r.Ok? ==> r.value[..LEAD_SIZE] == LeadHead(x)
  {
    var w :- ElemWidth(x.signal.elemSize);
    var r := LeadHead(x) + PackInts(BlockData(x), w);
    assert r[..LEAD_SIZE] == LeadHead(x);
    Ok(r)
  }

  /** SignalSample.from_file(f, timestamp, elem_size, block_size,
      num_blocks): the head, then elem_size * count bytes, of which count
      elements are unpacked with the element directive; the recording is
      made by SignalSample.new with the file's timestamp. The stored
      checksum is not kept. */
  function DecodeLead(h: BodyHeader, now: int, s: Bytes): (r: Result<(Recording, Bytes)>)
    ensures Parsed(r, s)
  {
    var (buf, rest) :- Take(s, LEAD_SIZE);
    var count := h.numElems * h.numSegs;
    var (raw, rest') :- Take(rest, h.elemSize * count);
    var w :- ElemWidth(h.elemSize);
    var data :- UnpackInts(raw, w, count);
    var x :- Created(Signal(StripA(buf[..16]), h.elemSize, h.numElems, buf[16..20]), Some(data), Some(h.timestamp), now);
    Ok((x, rest'))
  }

  /** A lead record that the stream holds, with a directive for its
      element size, elements of a size other than 0 and blocks of a size
      other than 0, reads as a recording of the named signal with the
      stored gain, the file's geometry and timestamp, a checksum of 0 and
      the elements unpacked from its element bytes. */
  lemma LeadRead(h: BodyHeader, now: int, s: Bytes)
    requires 0 < h.elemSize < 5 && h.numElems > 0
    requires |s| >= LEAD_SIZE + h.elemSize * (h.numElems * h.numSegs)
    ensures var count := h.numElems * h.numSegs;
      var end := LEAD_SIZE + h.elemSize * count;
      var data := UnpackInts(s[LEAD_SIZE..end], ElemWidth(h.elemSize).value, count);
      && data.Ok?
      && DecodeLead(h, now, s)
         == Ok((Recording(Signal(StripA(s[..16]), h.elemSize, h.numElems, s[16..20]), data.value,
                          h.numSegs, 0, h.timestamp), s[end..]))
  {
    var count := h.numElems * h.numSegs;
    var end := LEAD_SIZE + h.elemSize * count;
    var w := ElemWidth(h.elemSize).value;
    var raw := s[LEAD_SIZE..][..h.elemSize * count];
    assert raw == s[LEAD_SIZE..end];
    assert s[LEAD_SIZE..][h.elemSize * count..] == s[end..];
    assert s[..LEAD_SIZE][..16] == s[..16] && s[..LEAD_SIZE][16..20] == s[16..20];
    WidthFits(w, h.elemSize, count);
    UnpackIntsShort(raw, w, count);
    LeadBlocks(h.numElems, h.numSegs);
  }

  lemma WidthFits(w: nat, e: nat, n: nat)
    requires w <= e
    ensures w * n <= e * n
  {
  }

  /** The whole blocks in count = block_size * num_blocks elements are
      num_blocks. */
  lemma LeadBlocks(b: nat, n: nat)
    requires b > 0
    ensures BlockCount(b * n, b) == n
  {
  }

  /** A lead record reads when the stream holds it, the directive exists,
      elements of size 0 are not asked for, and the block size is not 0;
      the failures come in that order. */
  lemma LeadFailures(h: BodyHeader, now: int, s: Bytes)
    ensures var count := h.numElems * h.numSegs;
      && (|s| < LEAD_SIZE + h.elemSize * count ==> DecodeLead(h, now, s) == Err(ShortRead))
      && (|s| >= LEAD_SIZE + h.elemSize * count && h.elemSize >= 5 ==> DecodeLead(h, now, s) == Err(UnknownTypeTag))
      && (|s| >= LEAD_SIZE + h.elemSize * count && h.elemSize == 0 && count > 0 ==> DecodeLead(h, now, s) == Err(ShortRead))
      && (|s| >= LEAD_SIZE + h.elemSize * count && 0 < h.elemSize < 5 && h.numElems == 0
          ==> DecodeLead(h, now, s) == Err(DivisionByZero))
      && (|s| >= LEAD_SIZE + h.elemSize * count && 0 < h.elemSize < 5 && h.numElems > 0 ==> DecodeLead(h, now, s).Ok?)
  {
    var count := h.numElems * h.numSegs;
    if |s| >= LEAD_SIZE + h.elemSize * count && h.elemSize < 5 {
      if h.elemSize > 0 && h.numElems > 0 {
        LeadRead(h, now, s);
      } else if h.elemSize == 0 && count > 0 {
        var raw := s[LEAD_SIZE..][..0];
        UnpackIntsShort(raw, 1, count);
      } else if h.elemSize > 0 {
        var raw := s[LEAD_SIZE..][..h.elemSize * count];
        UnpackIntsShort(raw, ElemWidth(h.elemSize).value, count);
      }
    }
  }

  /** A 3-byte element size reads 3 bytes per element but unpacks 2-byte
      elements from the front of them: the last third of the bytes is
      skipped. */
  lemma ThreeByteElements(h: BodyHeader, now: int, s: Bytes)
    requires h.elemSize == 3 && DecodeLead(h, now, s).Ok?
    ensures var count := h.numElems * h.numSegs;
      && DecodeLead(h, now, s).value.1 == s[LEAD_SIZE + 3 * count..]
      && UnpackInts(s[LEAD_SIZE..LEAD_SIZE + 2 * count], 2, count) == Ok(DecodeLead(h, now, s).value.0.data)
  {
    var count := h.numElems * h.numSegs;
    LeadFailures(h, now, s);
    LeadRead(h, now, s);
    var raw := s[LEAD_SIZE..LEAD_SIZE + 3 * count];
    UnpackIntsPrefix(raw, 2, count, 2 * count);
    assert raw[..2 * count] == s[LEAD_SIZE..LEAD_SIZE + 2 * count];
  }

  /** Unpacking n elements of width w looks at the first n * w bytes only. */
  lemma {:induction false} UnpackIntsPrefix(b: Bytes, w: nat, n: nat, k: nat)
    requires w > 0 && n * w <= k <= |b|
    ensures UnpackInts(b, w, n) == UnpackInts(b[..k], w, n)
    decreases n
  {
    if n > 0 {
      assert n * w == w + (n - 1) * w;
      assert b[..k][w..] == b[w..][..k - w];
      assert b[..k][..w] == b[..w];
      UnpackIntsPrefix(b[w..], w, n - 1, k - w);
    }
  }

  /** The recordings a file stores exactly: a name that fits the field,
      an element size with a directive of its own width, a block size
      other than 0, whole blocks in the data, and elements that fit. */
  predicate LeadStorable(x: Recording)
  {
    && FitsField(x.signal.name, 16)
    && x.signal.elemSize in {1, 2, 4} && x.signal.blockSize > 0
    && x.numBlocks * x.signal.blockSize <= |x.data|
    && FitsWidth(BlockData(x), x.signal.elemSize)
  }

  /** The header fields a recording is written under. */
  function Geometry(x: Recording, timestamp: int): BodyHeader
  {
    BodyHeader(timestamp, 0, 0, x.numBlocks, x.signal.blockSize, x.signal.elemSize)
  }

  /** Writing a lead and reading it back under its own geometry gives its
      signal, its whole blocks only, a checksum of 0 and the file's
      timestamp. */
  lemma LeadRoundTrip(x: Recording, h: BodyHeader, now: int, rest: Bytes)
    requires LeadStorable(x)
    requires h.numSegs == x.numBlocks && h.numElems == x.signal.blockSize && h.elemSize == x.signal.elemSize
    ensures EncodeLead(x).Ok?
    ensures DecodeLead(h, now, EncodeLead(x).value + rest)
         == Ok((Recording(x.signal, BlockData(x), x.numBlocks, 0, h.timestamp), rest))
  {
    var es := x.signal.elemSize;
    var count := x.signal.blockSize * x.numBlocks;
    var data := BlockData(x);
    var head := LeadHead(x);
    var body := PackInts(data, es);
    var s := EncodeLead(x).value + rest;
    assert |data| == count && |body| == es * count;
    assert s == head + body + rest;
    LeadRead(h, now, s);
    hide *;
    assert s[..16] == head[..16] && s[16..20] == head[16..20];
    assert s[LEAD_SIZE..LEAD_SIZE + es * count] == body && s[LEAD_SIZE + es * count..] == rest;
    IntsRoundTrip(data, es, []);
    assert body + [] == body;
    FixedFieldRoundTrip(x.signal.name, 16);
  }

  // ---------------------------------------------------------------------
  // SignalPair records
  // ---------------------------------------------------------------------

  function SignalName(s: Signal): string
  {
    s.name
  }

  /** `sigs.select { |x| x.name == name }.first`: the first signal with
      that name, or nil. */
  function Named(sigs: seq<Signal>, name: string): (r: Option<Signal>)
    ensures r.Some? ==> r.value in sigs && r.value.name == name
    ensures r.None? <==> forall i | 0 <= i < |sigs| :: sigs[i].name != name
  {
    match KeyIndex(sigs, SignalName, name)
    case None => None
    case Some(i) => Some(sigs[i])
  }

  /** Named finds the first signal with the name. */
  lemma NamedFirst(sigs: seq<Signal>, name: string, i: nat)
    requires i < |sigs| && sigs[i].name == name
    requires forall j | 0 <= j < i :: sigs[j].name != name
    ensures Named(sigs, name) == Some(sigs[i])
  {
  }

  /** SignalPair#to_file ("a16a16f"): both names and the ratio word; a
      pair holding nil raises on nil.name and writes nothing. */
  function EncodePair(p: SignalPair): (r: Result<Bytes>)
    ensures r.Ok? <==> p.a.Some? && p.b.Some?
    ensures r.Err? ==> r.error == NoMethod
    ensures r.Ok? ==> |r.value| == PAIR_SIZE
  {
    if p.a.None? || p.b.None? then Err(NoMethod)
    else Ok(PadA(p.a.value.name, 16) + PadA(p.b.value.name, 16) + p.ratio)
  }

  /** SignalPair.from_file(f, sigs) ("A16A16f"): each name becomes the
      first of sigs with that name, or nil. */
  function DecodePair(sigs: seq<Signal>, s: Bytes): (r: Result<(SignalPair, Bytes)>)
    ensures r.Ok? <==> |s| >= PAIR_SIZE
    ensures r.Ok? ==> r.value.1 == s[PAIR_SIZE..] && r.value.0.ratio == s[32..36]
    ensures r.Ok? ==> r.value.0.a == Named(sigs, StripA(s[..16])) && r.value.0.b == Named(sigs, StripA(s[16..32]))
  {
    var (buf, rest) :- Take(s, PAIR_SIZE);
    assert buf[..16] == s[..16] && buf[16..32] == s[16..32] && buf[32..36] == s[32..36];
    Ok((SignalPair(Named(sigs, StripA(buf[..16])), Named(sigs, StripA(buf[16..32])), buf[32..36]), rest))
  }

  /** A pair naming a signal the file does not hold is read with nil in
      its place, and such a pair cannot be written back. */
  lemma UnknownPairMember(sigs: seq<Signal>, s: Bytes)
    requires |s| >= PAIR_SIZE
    requires forall i | 0 <= i < |sigs| :: sigs[i].name != StripA(s[..16])
    ensures DecodePair(sigs, s).value.0.a.None?
    ensures EncodePair(DecodePair(sigs, s).value.0) == Err(NoMethod)
  {
  }

  /** A pair whose signals are the first of sigs with their names is
      read back as written. */
  lemma PairRoundTrip(p: SignalPair, sigs: seq<Signal>, rest: Bytes)
    requires p.a.Some? && p.b.Some?
    requires FitsField(p.a.value.name, 16) && FitsField(p.b.value.name, 16)
    requires Named(sigs, p.a.value.name) == p.a && Named(sigs, p.b.value.name) == p.b
    ensures EncodePair(p).Ok?
    ensures DecodePair(sigs, EncodePair(p).value + rest) == Ok((p, rest))
  {
    var s := EncodePair(p).value + rest;
    assert s[..16] == PadA(p.a.value.name, 16);
    assert s[16..32] == PadA(p.b.value.name, 16);
    assert s[32..36] == p.ratio;
    FixedFieldRoundTrip(p.a.value.name, 16);
    FixedFieldRoundTrip(p.b.value.name, 16);
  }

  // ---------------------------------------------------------------------
  // The Sample file
  // ---------------------------------------------------------------------

  /** `leads.inject([]) { |sigs, lead| sigs << lead.signal }` */
  function LeadSignals(leads: seq<Recording>): (r: seq<Signal>)
    ensures |r| == |leads| && forall i | 0 <= i < |leads| :: r[i] == leads[i].signal
  {
    seq(|leads|, i requires 0 <= i < |leads| => leads[i].signal)
  }

  /** The body-header size the version selects: 64 bytes within 0.1 of
      2.0, else 28. */
  function BodyHeaderSize(version: Bytes): (n: nat)
    requires |version| == 4
    ensures n == V2_HEADER_SIZE || n == V3_HEADER_SIZE
  {
    if Near(version, 2.0, TENTH, false) then V2_HEADER_SIZE else V3_HEADER_SIZE
  }

  /** The version this program writes selects the 28-byte header; a
      stored 2.0f selects the 64-byte one. */
  lemma VersionSelectsHeader()
    ensures BodyHeaderSize(VERSION) == V3_HEADER_SIZE
    ensures BodyHeaderSize(TWO_F) == V2_HEADER_SIZE
  {
    VersionValues();
    assert LeValue(TWO_F) == 0x4000_0000;
    DecodeNear(TWO_F, 0x4000_0000);
  }

  /** The body header fields: a version-2 header ("IIIIII...") has a
      4-byte timestamp, a version-3 one ("QIIIII") an 8-byte one; five
      4-byte counts follow. The rest of a version-2 header is not used. */
  function ReadBodyHeader(body: Bytes): (h: BodyHeader)
    requires |body| == V2_HEADER_SIZE || |body| == V3_HEADER_SIZE
    ensures h.timestamp >= 0
  {
    var t := if |body| == V2_HEADER_SIZE then 4 else 8;
    BodyHeader(LeValue(body[..t]), LeValue(body[t..t + 4]), LeValue(body[t + 4..t + 8]),
               LeValue(body[t + 8..t + 12]), LeValue(body[t + 12..t + 16]), LeValue(body[t + 16..t + 20]))
  }

  /** The 36 bytes Sample#to_file starts with ("a4fQIIIII"). */
  function EcgHeader(h: BodyHeader): (r: Bytes)
    ensures |r| == 8 + V3_HEADER_SIZE
    ensures r[..8] == WritePrefix(MAGIC, VERSION)
    ensures r[8..] == LeBytes(h.timestamp, 8) + LeBytes(h.numPairs, 4) + LeBytes(h.numLeads, 4)
                      + LeBytes(h.numSegs, 4) + LeBytes(h.numElems, 4) + LeBytes(h.elemSize, 4)
  {
    WritePrefix(MAGIC, VERSION) + (LeBytes(h.timestamp, 8) + LeBytes(h.numPairs, 4) + LeBytes(h.numLeads, 4)
                                   + LeBytes(h.numSegs, 4) + LeBytes(h.numElems, 4) + LeBytes(h.elemSize, 4))
  }

  /** The header fields Sample#to_file writes: the first recording's
      timestamp and geometry, and the two counts. */
  function FileHeader(img: SampleImage): (h: BodyHeader)
    requires img.recordings != []
    ensures h.numPairs == |img.pairs| && h.numLeads == |img.recordings|
  {
    var first := img.recordings[0];
    BodyHeader(first.timestamp, |img.pairs|, |img.recordings|,
               first.numBlocks, first.signal.blockSize, first.signal.elemSize)
  }

  /** Sample#to_file: the header, every recording, every pair. A Sample
      without recordings raises on `@signals.first[1]`. */
  function EncodeEcg(img: SampleImage): (r: Result<Bytes>)
    ensures img.recordings == [] ==> r == Err(NoMethod)
    ensures r.Ok? <==> img.recordings != [] && EncodeAll(img.recordings, EncodeLead).Ok?
                                           && EncodeAll(img.pairs, EncodePair).Ok?
  {
    if img.recordings == [] then Err(NoMethod)
    else
      var leads :- EncodeAll(img.recordings, EncodeLead);
      var pairs :- EncodeAll(img.pairs, EncodePair);
      Ok(EcgHeader(FileHeader(img)) + leads + pairs)
  }

  function LeadParser(h: BodyHeader, now: int): Bytes -> Result<(Recording, Bytes)>
  {
    s => DecodeLead(h, now, s)
  }

  function PairParser(sigs: seq<Signal>): Bytes -> Result<(SignalPair, Bytes)>
  {
    s => DecodePair(sigs, s)
  }

  /** What follows the body header: num_leads lead records, then
      num_pairs pair records resolved against the leads' signals, made
      into a Sample by Sample.new. */
  function DecodeBody(h: BodyHeader, now: int, s: Bytes): (r: Result<(SampleImage, Bytes)>)
    ensures r.Ok? ==> |r.value.0.pairs| == h.numPairs
  {
    var (leads, rest) :- Many(h.numLeads, LeadParser(h, now), s);
    var sigs := LeadSignals(leads);
    var (pairs, rest') :- Many(h.numPairs, PairParser(sigs), rest);
    Ok((Assembled(Config(sigs, pairs), leads), rest'))
  }

  /** Sample.from_v1: two gains, then two leads of 8192 shorts; the
      signals V5 and II (2-byte elements, blocks of 512), their pair with
      ratio 1.3, and the leads made by SignalSample.new without a
      timestamp, so stamped with the current time. */
  function DecodeV1(s: Bytes, now: int): (r: Result<(SampleImage, Bytes)>)
    ensures r.Ok? ==> |s| == V1_SIZE + |r.value.1|
  {
    var count := V1_BLOCK_SIZE * V1_NUM_BLOCKS;
    var (gains, r1) :- Take(s, V1_GAIN_SIZE);
    var (rawA, r2) :- Take(r1, V1_ELEM_SIZE * count);
    var dataA :- UnpackInts(rawA, 2, count);
    var (rawB, r3) :- Take(r2, V1_ELEM_SIZE * count);
    var dataB :- UnpackInts(rawB, 2, count);
    var a := Signal(V1_LEAD_A, V1_ELEM_SIZE, V1_BLOCK_SIZE, gains[..4]);
    var b := Signal(V1_LEAD_B, V1_ELEM_SIZE, V1_BLOCK_SIZE, gains[4..8]);
    var la := Created(a, Some(dataA), None, now).value;
    var lb := Created(b, Some(dataB), None, now).value;
    Ok((Assembled(Config([a, b], [SignalPair(Some(a), Some(b), V1_RATIO)]), [la, lb]), r3))
  }

  /** Sample.from_file. Without the magic, the file from the record's
      start is measured: at the K32 size the V1 layout is read behind the
      256-byte preamble; any other size is refused. (The second test of
      the K32 size can never hold, so a bare V1 file of 32776 bytes is
      refused too.) With the magic, the version selects the body
      header. */
  function DecodeEcg(s: Bytes, now: int): (r: Result<(SampleImage, Bytes)>)
    ensures r.Ok? ==> |s| >= 8 && (s[..4] == PadA(MAGIC, 4) || |s| == K32_SIZE)
  {
    var (prefix, rest) :- ReadPrefix(s);
    MagicExact(s, MAGIC);
    if prefix.magic != MAGIC then
      if |s| == K32_SIZE then DecodeV1(s[K32_DATA_OFFSET..], now)
      else Err(MagicMismatch)
    else
      var (body, rest') :- Take(rest, BodyHeaderSize(prefix.version));
      DecodeBody(ReadBodyHeader(body), now, rest')
  }

  /** A file without the magic is read only at the K32 size; every other
      size, the V1 size among them, is refused. */
  lemma EcgMagic(s: Bytes, now: int)
    requires |s| >= 8 && s[..4] != PadA(MAGIC, 4)
    ensures |s| == K32_SIZE ==> DecodeEcg(s, now) == DecodeV1(s[K32_DATA_OFFSET..], now)
    ensures |s| != K32_SIZE ==> DecodeEcg(s, now) == Err(MagicMismatch)
    ensures |s| == V1_SIZE ==> DecodeEcg(s, now) == Err(MagicMismatch)
  {
    MagicExact(s, MAGIC);
  }

  /** Two recordings with different names are kept as they are by
      Sample.new, which adds none. */
  lemma AssembledOfLeads(leads: seq<Recording>, pairs: seq<SignalPair>)
    requires DistinctKeys(leads, RecordingName)
    ensures Assembled(Config(LeadSignals(leads), pairs), leads) == SampleImage(leads, pairs)
  {
    PutAllDistinct(leads, RecordingName);
    var names := RecordingNames(leads);
    forall c | c in LeadSignals(leads)
      ensures c.name in names
    {
      var i :| 0 <= i < |leads| && LeadSignals(leads)[i] == c;
      assert names[i] == c.name;
    }
    NothingMissing(names, LeadSignals(leads));
    assert leads + [] == leads;
  }

  /** A legacy V1 body always reads when the stream holds its 32776
      bytes: the V5 and II leads of 16 blocks of 512 elements each,
      stamped `now`, with a checksum of 0, and their pair. */
  lemma V1Read(s: Bytes, now: int)
    requires |s| >= V1_SIZE
    ensures var dataA := UnpackInts(s[8..16392], 2, 8192);
      var dataB := UnpackInts(s[16392..V1_SIZE], 2, 8192);
      var a := Signal(V1_LEAD_A, 2, 512, s[..4]);
      var b := Signal(V1_LEAD_B, 2, 512, s[4..8]);
      && dataA.Ok? && dataB.Ok?
      && DecodeV1(s, now)
         == Ok((SampleImage([Recording(a, dataA.value, 16, 0, now), Recording(b, dataB.value, 16, 0, now)],
                            [SignalPair(Some(a), Some(b), V1_RATIO)]), s[V1_SIZE..]))
  {
    var r1 := s[8..];
    var r2 := r1[16384..];
    assert r1[..16384] == s[8..16392];
    assert r2[..16384] == s[16392..V1_SIZE];
    assert r2[16384..] == s[V1_SIZE..];
    assert s[..8][..4] == s[..4] && s[..8][4..8] == s[4..8];
    UnpackIntsShort(s[8..16392], 2, 8192);
    UnpackIntsShort(s[16392..V1_SIZE], 2, 8192);
    var a := Signal(V1_LEAD_A, 2, 512, s[..4]);
    var b := Signal(V1_LEAD_B, 2, 512, s[4..8]);
    var dA := UnpackInts(s[8..16392], 2, 8192).value;
    var dB := UnpackInts(s[16392..V1_SIZE], 2, 8192).value;
    var la := Recording(a, dA, 16, 0, now);
    var lb := Recording(b, dB, 16, 0, now);
    var pairs := [SignalPair(Some(a), Some(b), V1_RATIO)];
    LeadBlocks(512, 16);
    assert Created(a, Some(dA), None, now) == Ok(la);
    assert Created(b, Some(dB), None, now) == Ok(lb);
    assert V1_BLOCK_SIZE * V1_NUM_BLOCKS == 8192 && V1_ELEM_SIZE * 8192 == 16384;
    assert [la, lb][0].signal.name == "V5" && [la, lb][1].signal.name == "II";
    AssembledOfLeads([la, lb], pairs);
    assert LeadSignals([la, lb]) == [a, b];
    hide Assembled, UnpackInts, Created, LeadSignals, PutAll, MissingSignals;
  }

  /** A K32 file without the magic is always read, to its end. */
  lemma K32Read(s: Bytes, now: int)
    requires |s| == K32_SIZE && s[..4] != PadA(MAGIC, 4)
    ensures DecodeEcg(s, now).Ok? && DecodeEcg(s, now).value.1 == []
  {
    EcgMagic(s, now);
    V1Read(s[K32_DATA_OFFSET..], now);
  }

  // ---------------------------------------------------------------------
  // The round trip
  // ---------------------------------------------------------------------

  /** The samples a file stores exactly: at least one recording, every
      recording storable, sharing the first one's geometry and timestamp,
      with a checksum of 0 and no partial block; distinct names; and
      pairs of the recordings' signals. The counts and the timestamp fit
      their fields. */
  predicate EcgStorable(img: SampleImage)
  {
    && img.recordings != []
    && |img.recordings| < 0x1_0000_0000 && |img.pairs| < 0x1_0000_0000
    && var f := img.recordings[0];
    && 0 <= f.timestamp < 0x1_0000_0000_0000_0000
    && f.numBlocks < 0x1_0000_0000 && f.signal.blockSize < 0x1_0000_0000
    && (forall i | 0 <= i < |img.recordings| ::
          && LeadStorable(img.recordings[i]) && img.recordings[i].checksum == 0
          && img.recordings[i].signal.elemSize == f.signal.elemSize
          && img.recordings[i].signal.blockSize == f.signal.blockSize
          && img.recordings[i].numBlocks == f.numBlocks
          && img.recordings[i].timestamp == f.timestamp
          && |img.recordings[i].data| == f.numBlocks * f.signal.blockSize)
    && DistinctKeys(img.recordings, RecordingName)
    && forall i | 0 <= i < |img.pairs| ::
         && img.pairs[i].a.Some? && img.pairs[i].a.value in LeadSignals(img.recordings)
         && img.pairs[i].b.Some? && img.pairs[i].b.value in LeadSignals(img.recordings)
  }

  /** Reading what follows a written ECG header. */
  lemma DecodeEcgShape(h: BodyHeader, tail: Bytes, now: int)
    requires 0 <= h.timestamp < 0x1_0000_0000_0000_0000
    requires h.numPairs < 0x1_0000_0000 && h.numLeads < 0x1_0000_0000 && h.numSegs < 0x1_0000_0000
    requires h.numElems < 0x1_0000_0000 && h.elemSize < 0x1_0000_0000
    ensures DecodeEcg(EcgHeader(h) + tail, now) == DecodeBody(h, now, tail)
  {
    hide DecodeBody, ReadPrefix, BodyHeaderSize, LeValue, LeBytes, EcgHeader, WritePrefix, DecodeV1;
    var e := EcgHeader(h);
    var s := e + tail;
    var t := e[8..] + tail;
    assert s == WritePrefix(MAGIC, VERSION) + t;
    PrefixRoundTrip(MAGIC, VERSION, t);
    VersionSelectsHeader();
    assert t[..28] == e[8..] && t[28..] == tail;
    var b := e[8..];
    assert b[..8] == LeBytes(h.timestamp, 8);
    assert b[8..12] == LeBytes(h.numPairs, 4) && b[12..16] == LeBytes(h.numLeads, 4);
    assert b[16..20] == LeBytes(h.numSegs, 4) && b[20..24] == LeBytes(h.numElems, 4);
    assert b[24..28] == LeBytes(h.elemSize, 4);
    Pow256Values();
    UnsignedRoundTrip(h.timestamp, 8);
    UnsignedRoundTrip(h.numPairs, 4);
    UnsignedRoundTrip(h.numLeads, 4);
    UnsignedRoundTrip(h.numSegs, 4);
    UnsignedRoundTrip(h.numElems, 4);
    UnsignedRoundTrip(h.elemSize, 4);
    assert ReadBodyHeader(b) == h;
  }

  /** The names of storable recordings with distinct names find each
      recording's signal. */
  lemma NamedLead(leads: seq<Recording>, i: nat)
    requires i < |leads| && DistinctKeys(leads, RecordingName)
    ensures Named(LeadSignals(leads), leads[i].signal.name) == Some(leads[i].signal)
  {
    forall j | 0 <= j < i
      ensures LeadSignals(leads)[j].name != leads[i].signal.name
    {
      assert RecordingName(leads[j]) != RecordingName(leads[i]);
    }
    NamedFirst(LeadSignals(leads), leads[i].signal.name, i);
  }

  /** Each recording of a storable sample reads back as itself under the
      file's header. */
  lemma LeadsRoundTrip(img: SampleImage, now: int)
    requires EcgStorable(img)
    ensures forall i | 0 <= i < |img.recordings| :: EncodeLead(img.recordings[i]).Ok?
    ensures forall i, tail | 0 <= i < |img.recordings| ::
      LeadParser(FileHeader(img), now)(EncodeLead(img.recordings[i]).value + tail) == Ok((img.recordings[i], tail))
  {
    var h := FileHeader(img);
    forall i, tail | 0 <= i < |img.recordings|
      ensures EncodeLead(img.recordings[i]).Ok?
      ensures LeadParser(h, now)(EncodeLead(img.recordings[i]).value + tail) == Ok((img.recordings[i], tail))
    {
      var x := img.recordings[i];
      LeadRoundTrip(x, h, now, tail);
      assert BlockData(x) == x.data;
    }
  }

  /** Each pair of a storable sample reads back as itself against the
      recordings' signals. */
  lemma PairsRoundTrip(img: SampleImage)
    requires EcgStorable(img)
    ensures forall i | 0 <= i < |img.pairs| :: EncodePair(img.pairs[i]).Ok?
    ensures forall i, tail | 0 <= i < |img.pairs| ::
      PairParser(LeadSignals(img.recordings))(EncodePair(img.pairs[i]).value + tail) == Ok((img.pairs[i], tail))
  {
    var leads := img.recordings;
    var sigs := LeadSignals(leads);
    forall i, tail | 0 <= i < |img.pairs|
      ensures EncodePair(img.pairs[i]).Ok?
      ensures PairParser(sigs)(EncodePair(img.pairs[i]).value + tail) == Ok((img.pairs[i], tail))
    {
      var p := img.pairs[i];
      var ja :| 0 <= ja < |leads| && sigs[ja] == p.a.value;
      var jb :| 0 <= jb < |leads| && sigs[jb] == p.b.value;
      NamedLead(leads, ja);
      NamedLead(leads, jb);
      assert LeadStorable(leads[ja]) && LeadStorable(leads[jb]);
      PairRoundTrip(p, sigs, tail);
    }
  }

  /** Writing a storable sample and reading it back gives the same
      sample, and leaves what followed. */
  lemma EcgRoundTrip(img: SampleImage, rest: Bytes, now: int)
    requires EcgStorable(img)
    ensures EncodeEcg(img).Ok?
    ensures DecodeEcg(EncodeEcg(img).value + rest, now) == Ok((img, rest))
  {
    var h := FileHeader(img);
    var leads := img.recordings;
    var sigs := LeadSignals(leads);
    LeadsRoundTrip(img, now);
    PairsRoundTrip(img);
    hide *;
    ManyRoundTrip(img.pairs, img.pairs, EncodePair, PairParser(sigs), rest);
    var pb := EncodeAll(img.pairs, EncodePair).value;
    ManyRoundTrip(leads, leads, EncodeLead, LeadParser(h, now), pb + rest);
    var lb := EncodeAll(leads, EncodeLead).value;
    EcgEncoded(img);
    AppendedThree(EcgHeader(h), lb, pb, rest);
    EcgHeaderFits(img);
    DecodeEcgShape(h, lb + pb + rest, now);
    DecodeBodyShape(h, now, lb, pb, rest, leads, img.pairs);
    AssembledOfLeadsOf(img);
  }

  /** A sample whose records all encode is written as its header, its
      recordings and its pairs. */
  lemma EcgEncoded(img: SampleImage)
    requires img.recordings != []
    ensures EncodeAll(img.recordings, EncodeLead).Err?
            ==> EncodeEcg(img) == Err(EncodeAll(img.recordings, EncodeLead).error)
    ensures EncodeAll(img.recordings, EncodeLead).Ok? && EncodeAll(img.pairs, EncodePair).Err?
            ==> EncodeEcg(img) == Err(EncodeAll(img.pairs, EncodePair).error)
    ensures EncodeAll(img.recordings, EncodeLead).Ok? && EncodeAll(img.pairs, EncodePair).Ok?
            ==> EncodeEcg(img) == Ok(EcgHeader(FileHeader(img)) + EncodeAll(img.recordings, EncodeLead).value
                                     + EncodeAll(img.pairs, EncodePair).value)
  {
  }

  lemma EcgHeaderFits(img: SampleImage)
    requires EcgStorable(img)
    ensures var h := FileHeader(img);
      && 0 <= h.timestamp < 0x1_0000_0000_0000_0000
      && h.numPairs < 0x1_0000_0000 && h.numLeads < 0x1_0000_0000 && h.numSegs < 0x1_0000_0000
      && h.numElems < 0x1_0000_0000 && h.elemSize < 0x1_0000_0000
  {
    assert LeadStorable(img.recordings[0]);
  }

  lemma DecodeBodyShape(h: BodyHeader, now: int, lb: Bytes, pb: Bytes, rest: Bytes,
                        leads: seq<Recording>, pairs: seq<SignalPair>)
    requires h.numLeads == |leads| && h.numPairs == |pairs|
    requires Many(|leads|, LeadParser(h, now), lb + (pb + rest)) == Ok((leads, pb + rest))
    requires Many(|pairs|, PairParser(LeadSignals(leads)), pb + rest) == Ok((pairs, rest))
    ensures DecodeBody(h, now, lb + pb + rest) == Ok((Assembled(Config(LeadSignals(leads), pairs), leads), rest))
  {
    assert lb + pb + rest == lb + (pb + rest);
  }

  lemma AssembledOfLeadsOf(img: SampleImage)
    requires EcgStorable(img)
    ensures Assembled(Config(LeadSignals(img.recordings), img.pairs), img.recordings) == img
  {
    AssembledOfLeads(img.recordings, img.pairs);
  }

  // ---------------------------------------------------------------------
  // The stream methods
  // ---------------------------------------------------------------------

  /** SignalSample#to_file; when the element size has no directive, the
      head has been written. */
  method WriteLead(w: Writer, s: SignalSample) returns (res: Result<()>)
    modifies w
    ensures Wrote(res, EncodeLead(s.Image()), old(w.out), w.out)
    ensures res.Err? ==> w.out == old(w.out) + LeadHead(s.Image())
  {
    var head := LeadHead(s.Image());
    w.Write(head);
    var width := ElemWidth(s.signal.elemSize);
    if width.Err? {
      return Err(width.error);
    }
    var body := PackInts(Truncated(s.data, s.numBlocks * s.signal.blockSize), width.value);
    w.Write(body);
    AppendedTwo(old(w.out), head, body);
    return Ok(());
  }

  /** SignalPair#to_file */
  method WritePair(w: Writer, p: SignalPair) returns (res: Result<()>)
    modifies w
    ensures Wrote(res, EncodePair(p), old(w.out), w.out)
    ensures res.Err? ==> w.out == old(w.out)
  {
    if p.a.None? || p.b.None? {
      return Err(NoMethod);
    }
    w.Write(PadA(p.a.value.name, 16) + PadA(p.b.value.name, 16) + p.ratio);
    return Ok(());
  }

  /** `@signals.values.each { |s| s.to_file(f) }` */
  method WriteLeads(w: Writer, leads: seq<SignalSample>) returns (res: Result<()>)
    modifies w
    ensures Wrote(res, EncodeAll(old(Images(leads)), EncodeLead), old(w.out), w.out)
  {
    hide EncodeAll, EncodeLead, Images;
    ghost var imgs := Images(leads);
    assert |imgs| == |leads| && forall i | 0 <= i < |leads| :: imgs[i] == leads[i].Image();
    EncodeAllNone(imgs, EncodeLead);
    for i := 0 to |leads|
      invariant EncodeAll(imgs[..i], EncodeLead).Ok?
      invariant w.out == old(w.out) + EncodeAll(imgs[..i], EncodeLead).value
    {
      ghost var before := w.out;
      var written := WriteLead(w, leads[i]);
      if written.Err? {
        EncodeAllStops(imgs, EncodeLead, i);
        return written;
      }
      WroteNext(imgs, EncodeLead, i, old(w.out), before, w.out);
    }
    assert imgs[..|imgs|] == imgs;
    return Ok(());
  }

  /** `@pairs.each { |p| p.to_file(f) }` */
  method WritePairs(w: Writer, pairs: seq<SignalPair>) returns (res: Result<()>)
    modifies w
    ensures Wrote(res, EncodeAll(pairs, EncodePair), old(w.out), w.out)
  {
    hide EncodeAll, EncodePair;
    EncodeAllNone(pairs, EncodePair);
    for i := 0 to |pairs|
      invariant EncodeAll(pairs[..i], EncodePair).Ok?
      invariant w.out == old(w.out) + EncodeAll(pairs[..i], EncodePair).value
    {
      ghost var before := w.out;
      var written := WritePair(w, pairs[i]);
      if written.Err? {
        EncodeAllStops(pairs, EncodePair, i);
        return written;
      }
      WroteNext(pairs, EncodePair, i, old(w.out), before, w.out);
    }
    assert pairs[..|pairs|] == pairs;
    return Ok(());
  }

  /** Sample#to_file */
  method WriteEcg(w: Writer, sample: Sample) returns (res: Result<()>)
    modifies w
    ensures Wrote(res, EncodeEcg(old(sample.Image())), old(w.out), w.out)
  {
    var img := sample.Image();
    if img.recordings == [] {
      return Err(NoMethod);
    }
    EcgEncoded(img);
    var h := FileHeader(img);
    assert img.recordings == Images(sample.leads) && img.pairs == sample.pairs;
    hide EncodeEcg, EncodeAll, EncodeLead, EncodePair, EcgHeader, FileHeader, Images;
    var header := EcgHeader(h);
    w.Write(header);
    assert Images(sample.leads) == img.recordings;
    ghost var mid := w.out;
    ghost var leads := EncodeAll(img.recordings, EncodeLead);
    var written := WriteLeads(w, sample.leads);
    assert Wrote(written, leads, mid, w.out);
    if written.Err? {
      assert written == Err(leads.error) && mid <= w.out;
      KeptPrefix(old(w.out), mid, w.out);
      return written;
    }
    ghost var lb := leads.value;
    assert w.out == mid + lb;
    ghost var mid2 := w.out;
    ghost var pairs := EncodeAll(img.pairs, EncodePair);
    written := WritePairs(w, sample.pairs);
    assert Wrote(written, pairs, mid2, w.out);
    if written.Err? {
      assert written == Err(pairs.error) && mid2 <= w.out;
      KeptPrefix(old(w.out), mid, mid2);
      KeptPrefix(old(w.out), mid2, w.out);
      return written;
    }
    ghost var pb := pairs.value;
    assert w.out == mid2 + pb;
    AppendedThree(old(w.out), header, lb, pb);
    return Ok(());
  }

  /** SignalSample.from_file */
  method ReadLead(r: Reader, h: BodyHeader, now: int) returns (res: Result<SignalSample>)
    requires r.Valid()
    modifies r
    ensures r.Valid()
    ensures match DecodeLead(h, now, old(r.Rest()))
      case Ok((x, rest)) => res.Ok? && fresh(res.value) && res.value.Image() == x && r.Rest() == rest
      case Err(e) => res == Err(e)
  {
    var buf :- r.Read(LEAD_SIZE);
    var count := h.numElems * h.numSegs;
    var raw :- r.Read(h.elemSize * count);
    var w :- ElemWidth(h.elemSize);
    var data :- UnpackInts(raw, w, count);
    var signal := Signal(StripA(buf[..16]), h.elemSize, h.numElems, buf[16..20]);
    res := NewSignalSample(signal, Some(data), Some(h.timestamp), now);
  }

  /** The `num_leads.times { leads << SignalSample.from_file(...) }` loop. */
  method ReadLeads(r: Reader, h: BodyHeader, now: int) returns (res: Result<seq<SignalSample>>)
    requires r.Valid()
    modifies r
    ensures r.Valid()
    ensures match Many(h.numLeads, LeadParser(h, now), old(r.Rest()))
      case Ok((xs, rest)) =>
        && res.Ok? && Images(res.value) == xs && r.Rest() == rest
        && forall i | 0 <= i < |res.value| :: fresh(res.value[i])
      case Err(e) => res == Err(e)
  {
    hide DecodeLead, Images;
    ghost var start := r.Rest();
    var leads: seq<SignalSample> := [];
    var i := 0;
    while i < h.numLeads
      invariant r.Valid() && i <= h.numLeads
      invariant Many(i, LeadParser(h, now), start).Ok?
      invariant Images(leads) == Many(i, LeadParser(h, now), start).value.0
      invariant r.Rest() == Many(i, LeadParser(h, now), start).value.1
      invariant forall j | 0 <= j < |leads| :: fresh(leads[j])
    {
      ManyStep(i, LeadParser(h, now), start);
      var lead := ReadLead(r, h, now);
      if lead.Err? {
        ManyErrPersists(i + 1, h.numLeads, LeadParser(h, now), start);
        return Err(lead.error);
      }
      ImagesAppend(leads, lead.value);
      leads := leads + [lead.value];
      i := i + 1;
    }
    return Ok(leads);
  }

  /** The states of one more SignalSample. */
  lemma ImagesAppend(xs: seq<SignalSample>, x: SignalSample)
    ensures Images(xs + [x]) == Images(xs) + [x.Image()]
  {
  }

  /** SignalPair.from_file */
  method ReadPair(r: Reader, sigs: seq<Signal>) returns (res: Result<SignalPair>)
    requires r.Valid()
    modifies r
    ensures r.Valid()
    ensures ReadAs(res, DecodePair(sigs, old(r.Rest())), r.Rest())
  {
    var buf :- r.Read(PAIR_SIZE);
    return Ok(SignalPair(Named(sigs, StripA(buf[..16])), Named(sigs, StripA(buf[16..32])), buf[32..36]));
  }

  /** The `num_pairs.times { pairs << SignalPair.from_file(f, sigs) }` loop. */
  method ReadPairs(r: Reader, count: nat, sigs: seq<Signal>) returns (res: Result<seq<SignalPair>>)
    requires r.Valid()
    modifies r
    ensures r.Valid()
    ensures ReadAs(res, Many(count, PairParser(sigs), old(r.Rest())), r.Rest())
  {
    hide DecodePair;
    ghost var start := r.Rest();
    var pairs: seq<SignalPair> := [];
    var i := 0;
    while i < count
      invariant r.Valid() && i <= count
      invariant Many(i, PairParser(sigs), start) == Ok((pairs, r.Rest()))
    {
      ManyStep(i, PairParser(sigs), start);
      var pair := ReadPair(r, sigs);
      if pair.Err? {
        ManyErrPersists(i + 1, count, PairParser(sigs), start);
        return Err(pair.error);
      }
      pairs := pairs + [pair.value];
      i := i + 1;
    }
    return Ok(pairs);
  }

  /** `leads.inject([]) { |sigs, lead| sigs << lead.signal }` */
  method CollectSignals(leads: seq<SignalSample>) returns (sigs: seq<Signal>)
    ensures sigs == LeadSignals(Images(leads))
  {
    sigs := [];
    for i := 0 to |leads|
      invariant sigs == LeadSignals(Images(leads[..i]))
    {
      assert Images(leads[..i + 1]) == Images(leads[..i]) + [leads[i].Image()];
      sigs := sigs + [leads[i].signal];
    }
    assert leads[..|leads|] == leads;
  }

  /** Sample.from_v1 */
  method ReadV1(r: Reader, now: int) returns (res: Result<Sample>)
    requires r.Valid()
    modifies r
    ensures r.Valid()
    ensures match DecodeV1(old(r.Rest()), now)
      case Ok((img, rest)) => res.Ok? && fresh(res.value) && res.value.Image() == img && r.Rest() == rest
      case Err(e) => res == Err(e)
  {
    var count := V1_BLOCK_SIZE * V1_NUM_BLOCKS;
    var gains :- r.Read(V1_GAIN_SIZE);
    var rawA :- r.Read(V1_ELEM_SIZE * count);
    var dataA :- UnpackInts(rawA, 2, count);
    var rawB :- r.Read(V1_ELEM_SIZE * count);
    var dataB :- UnpackInts(rawB, 2, count);
    var a := Signal(V1_LEAD_A, V1_ELEM_SIZE, V1_BLOCK_SIZE, gains[..4]);
    var b := Signal(V1_LEAD_B, V1_ELEM_SIZE, V1_BLOCK_SIZE, gains[4..8]);
    var la := NewSignalSample(a, Some(dataA), None, now);
    var lb := NewSignalSample(b, Some(dataB), None, now);
    assert Images([la.value, lb.value]) == [la.value.Image(), lb.value.Image()];
    var sample := new Sample(Config([a, b], [SignalPair(Some(a), Some(b), V1_RATIO)]), [la.value, lb.value]);
    return Ok(sample);
  }

  /** The body of Sample.from_file after the body header: the leads,
      their signals, the pairs, and the Sample made of them. */
  method ReadBody(r: Reader, h: BodyHeader, now: int) returns (res: Result<Sample>)
    requires r.Valid()
    modifies r
    ensures r.Valid()
    ensures match DecodeBody(h, now, old(r.Rest()))
      case Ok((img, rest)) => res.Ok? && fresh(res.value) && res.value.Image() == img && r.Rest() == rest
      case Err(e) => res == Err(e)
  {
    hide Assembled, Many, LeadParser, PairParser, Images, LeadSignals;
    var leads :- ReadLeads(r, h, now);
    var sigs := CollectSignals(leads);
    var pairs :- ReadPairs(r, h.numPairs, sigs);
    var sample := new Sample(Config(sigs, pairs), leads);
    return Ok(sample);
  }

  /** Sample.from_file */
  method ReadEcg(r: Reader, now: int) returns (res: Result<Sample>)
    requires r.Valid()
    modifies r
    ensures r.Valid()
    ensures match DecodeEcg(old(r.Rest()), now)
      case Ok((img, rest)) => res.Ok? && fresh(res.value) && res.value.Image() == img && r.Rest() == rest
      case Err(e) => res == Err(e)
  {
    hide DecodeBody, DecodeV1, Assembled;
    var buf :- r.Read(8);
    var prefix := Prefix(StripA(buf[..4]), buf[4..8]);
    if prefix.magic != MAGIC {
      r.Rewind(8);
      var size := r.Remaining();
      if size == K32_SIZE {
        r.Skip(K32_DATA_OFFSET);
        res := ReadV1(r, now);
      } else {
        res := Err(MagicMismatch);
      }
      return;
    }
    var size := BodyHeaderSize(prefix.version);
    var body :- r.Read(size);
    res := ReadBody(r, ReadBodyHeader(body), now);
  }
}
