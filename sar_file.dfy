/** The SAR file (lib/mcg/signal_analysis/sar_file.rb): a container prefix
    ("SARl", version 1.2), a body header (timestamp, analysis count), then
    one record per analysis: a 132-byte prefix, its 44-byte index records
    and its intermediate-data records (a 116-byte prefix and the packed
    data). */
module SarFile {
  import opened Results
  import opened Bytes
  import opened Pack
  import opened Float32
  import opened Stream
  import opened Header
  import opened Sar

  const INDEX_SIZE: nat := 44
  const INT_DATA_SIZE: nat := 116
  const ANALYSIS_SIZE: nat := 132
  const MAGIC: string := "SARl"
  const VERSION: Bytes := ONE_POINT_TWO

  // ---------------------------------------------------------------------
  // Index records ("a32a8f")
  // ---------------------------------------------------------------------

  /** Index#to_file: name, symbol and the binary32 value. */
  function EncodeIndex(x: Index): (r: Result<Bytes>)
    ensures r.Ok? && |r.value| == INDEX_SIZE
    ensures r.value[..32] == PadA(x.name, 32) && r.value[32..40] == PadA(x.sym, 8)
    ensures r.value[40..] == x.value
  {
    var b := PadA(x.name, 32) + PadA(x.sym, 8) + x.value;
    assert b[32..40] == PadA(x.sym, 8);
    Ok(b)
  }

  /** Index.from_file ("A32A8f"). */
  function DecodeIndex(s: Bytes): (r: Result<(Index, Bytes)>)
    ensures r.Ok? <==> |s| >= INDEX_SIZE
    ensures r.Ok? ==> r.value.1 == s[INDEX_SIZE..]
  {
    var (buf, rest) :- Take(s, INDEX_SIZE);
    Ok((Index(StripA(buf[..32]), StripA(buf[32..40]), buf[40..44]), rest))
  }

  predicate IndexStorable(x: Index)
  {
    FitsField(x.name, 32) && FitsField(x.sym, 8)
  }

  /** An index whose texts fit their fields reads back as written. */
  lemma IndexRoundTrip(x: Index, rest: Bytes)
    requires IndexStorable(x)
    ensures DecodeIndex(EncodeIndex(x).value + rest) == Ok((x, rest))
  {
    var b := EncodeIndex(x).value;
    assert (b + rest)[..INDEX_SIZE] == b && (b + rest)[INDEX_SIZE..] == rest;
    assert b[40..44] == x.value;
    FixedFieldRoundTrip(x.name, 32);
    FixedFieldRoundTrip(x.sym, 8);
  }

  // ---------------------------------------------------------------------
  // IntData records ("a32iia64iII" and the data)
  // ---------------------------------------------------------------------

  /** TYPES[type]: the letter of a type index, nil (formatted as "") for
      an index with no entry. */
  function Letter(k: int): (r: string)
    ensures RubyIndex(13, k).Ok? ==> r == INT_TYPES[RubyIndex(13, k).value]
    ensures RubyIndex(13, k).Err? ==> r == ""
  {
    match RubyAt(INT_TYPES, k)
    case Some(l) => l
    case None => ""
  }

  /** The data template `"%s%d" % [letter, count]`. */
  function Template(letter: string, count: nat): string
  {
    letter + Decimal(count)
  }

  /** A table letter with its count is the directive of that letter and
      count; with no letter, the count's first digit is the (unknown)
      directive. */
  lemma TemplateDirective(k: int, count: nat)
    ensures RubyIndex(13, k).Ok? ==>
      ParseDirective(Template(Letter(k), count)) == Directive(Letter(k)[0], count)
    ensures RubyIndex(13, k).Err? ==> !IsKnownCode(ParseDirective(Template(Letter(k), count)).code)
  {
    if RubyIndex(13, k).Ok? {
      assert Letter(k) == [Letter(k)[0]];
      ParseDecimal(Letter(k)[0], count);
    } else {
      assert Template(Letter(k), count) == Decimal(count);
    }
  }

  /** Every letter but "a" is a numeric directive whose width is the table
      size at its position. */
  lemma Letters(j: nat)
    requires j < 13
    ensures |INT_TYPES[j]| == 1
    ensures INT_TYPES[j] != "a" ==>
      (IsIntegerCode(INT_TYPES[j][0]) || IsFloatCode(INT_TYPES[j][0]))
      && ElementWidth(INT_TYPES[j]) == Width(INT_TYPES[j][0])
    ensures INT_TYPES[j] == "a" <==> j in {0, 11, 12}
  {
  }

  /** The first 104 bytes of the prefix: name, ref role, ref type and ref
      name. */
  function RefHead(name: string, role: int, rtype: int, refName: string): (r: Bytes)
    ensures |r| == 104
    ensures r[..32] == PadA(name, 32) && r[32..36] == LeBytes(role, 4)
    ensures r[36..40] == LeBytes(rtype, 4) && r[40..] == PadA(refName, 64)
  {
    var r := PadA(name, 32) + LeBytes(role, 4) + LeBytes(rtype, 4) + PadA(refName, 64);
    assert r[32..36] == LeBytes(role, 4) && r[36..40] == LeBytes(rtype, 4);
    r
  }

  /** Three 4-byte integer fields. */
  function Words(a: int, b: int, c: int): (r: Bytes)
    ensures |r| == 12
    ensures r[..4] == LeBytes(a, 4) && r[4..8] == LeBytes(b, 4) && r[8..] == LeBytes(c, 4)
  {
    var r := LeBytes(a, 4) + LeBytes(b, 4) + LeBytes(c, 4);
    assert r[4..8] == LeBytes(b, 4);
    r
  }

  /** The 116-byte prefix: name, ref role, ref type, ref name, type,
      element size and element count. */
  function IntDataPrefix(name: string, role: int, rtype: int, refName: string,
                         k: int, size: int, count: int): (r: Bytes)
    ensures |r| == INT_DATA_SIZE
    ensures r[..32] == PadA(name, 32) && r[32..36] == LeBytes(role, 4)
    ensures r[36..40] == LeBytes(rtype, 4) && r[40..104] == PadA(refName, 64)
    ensures r[104..108] == LeBytes(k, 4) && r[108..112] == LeBytes(size, 4)
    ensures r[112..116] == LeBytes(count, 4)
  {
    var head := RefHead(name, role, rtype, refName);
    var tail := Words(k, size, count);
    hide RefHead, Words, PadA, LeBytes;
    var r := head + tail;
    assert r[..104] == head && r[104..] == tail;
    assert r[..32] == head[..32] && r[32..36] == head[32..36] && r[36..40] == head[36..40];
    assert r[40..104] == head[40..];
    assert r[104..108] == tail[..4] && r[108..112] == tail[4..8] && r[112..116] == tail[8..];
    r
  }

  /** A table position packed as an integer; nil cannot be packed. */
  function Known(x: Option<nat>): (r: Result<nat>)
    ensures r.Ok? <==> x.Some?
    ensures r.Ok? ==> r.value == x.value
    ensures r.Err? ==> r.error == TypeMismatch
  {
    if x.Some? then Ok(x.value) else Err(TypeMismatch)
  }

  /** IntData#to_file: the prefix, then `data.pack("%s%d" % [letter,
      data.length])`. A missing ref has no binary_role (NoMethodError); a
      role or type outside the tables, a letter type, or a size that is
      not a number cannot be packed (TypeError). */
  function EncodeIntData(d: IntData): (r: Result<Bytes>)
    ensures r.Ok? ==> d.ref.Some? && BinaryRole(d.ref.value).Some? && BinaryType(d.ref.value).Some?
    ensures r.Ok? ==> d.typ.At? && TypeSize(d.typ).Ok?
    ensures d.ref.None? ==> r == Err(NoMethod)
  {
    var ref :- if d.ref.Some? then Ok(d.ref.value) else Err(NoMethod);
    var role :- Known(BinaryRole(ref));
    var rtype :- Known(BinaryType(ref));
    var size :- TypeSize(d.typ);
    var body :- PackItems(ParseDirective(Template(Letter(d.typ.k), |d.data|)), d.data);
    Ok(IntDataPrefix(d.name, role, rtype, ref.name, d.typ.k, size, |d.data|) + body)
  }

  /** The fields of a 116-byte prefix. */
  function TypeField(buf: Bytes): int
    requires |buf| == INT_DATA_SIZE
  {
    LeSigned(buf[104..108])
  }

  function ElemSize(buf: Bytes): nat
    requires |buf| == INT_DATA_SIZE
  {
    LeValue(buf[108..112])
  }

  function ElemCount(buf: Bytes): nat
    requires |buf| == INT_DATA_SIZE
  {
    LeValue(buf[112..116])
  }

  /** `Ref.new(Ref::TYPES[ref_type], Ref::ROLES[ref_role], ref_name)`. */
  function RefField(buf: Bytes): Ref
    requires |buf| == INT_DATA_SIZE
  {
    Ref(RubyAt(REF_TYPES, LeSigned(buf[36..40])), RubyAt(REF_ROLES, LeSigned(buf[32..36])), StripA(buf[40..104]))
  }

  /** IntData.from_file: the prefix, then element size times count bytes
      unpacked with the letter of the stored type; the type is kept as the
      stored integer. */
  function DecodeIntData(s: Bytes): (r: Result<(IntData, Bytes)>)
    ensures Parsed(r, s)
  {
    var (buf, rest) :- Take(s, INT_DATA_SIZE);
    var (raw, rest') :- Take(rest, ElemSize(buf) * ElemCount(buf));
    var data :- UnpackItems(ParseDirective(Template(Letter(TypeField(buf)), ElemCount(buf))), raw);
    Ok((IntData(StripA(buf[..32]), At(TypeField(buf)), Some(RefField(buf)), data), rest'))
  }

  /** A stored type with no table entry reads no data at all (the template
      is only digits), whatever the count says. */
  lemma UnknownTypeReadsNothing(s: Bytes)
    requires DecodeIntData(s).Ok?
    requires RubyIndex(13, TypeField(s[..INT_DATA_SIZE])).Err?
    ensures DecodeIntData(s).value.0.data == []
  {
    var buf := s[..INT_DATA_SIZE];
    TemplateDirective(TypeField(buf), ElemCount(buf));
  }

  /** The data a type letter writes and reads back exactly: numbers its
      directive holds, or for "a" one one-byte character. */
  predicate DataFits(letter: string, data: seq<Item>)
  {
    if letter == "a" then |data| == 1 && data[0].Str? && |data[0].s| == 1 && data[0].s[0] as int < 256
    else
      && |letter| == 1 && (IsIntegerCode(letter[0]) || IsFloatCode(letter[0]))
      && forall i | 0 <= i < |data| :: FitsCode(letter[0], data[i])
  }

  /** The intermediate data a record stores without loss: texts that fit,
      a ref whose type and role are in the tables, an integer type with a
      numeric size, and data its letter holds. */
  predicate IntDataStorable(d: IntData)
  {
    && FitsField(d.name, 32)
    && d.ref.Some? && FitsField(d.ref.value.name, 64)
    && d.ref.value.typ.Some? && d.ref.value.typ.value in REF_TYPES
    && d.ref.value.role.Some? && d.ref.value.role.value in REF_ROLES
    && d.typ.At? && RubyIndex(13, d.typ.k).Ok? && RubyIndex(13, d.typ.k).value != 0
    && |d.data| < 0x1_0000_0000
    && DataFits(Letter(d.typ.k), d.data)
  }

  /** String data is written with a count of one item: only its first
      character is stored. */
  lemma StringDataFirstChar(s: string)
    requires |s| >= 1 && forall i | 0 <= i < |s| :: s[i] as int < 256
    ensures PackItems(ParseDirective(Template("a", |[Str(s)]|)), [Str(s)]) == Ok([CharByte(s[0])])
  {
    ParseDecimal('a', 1);
    assert Template("a", 1) == ['a'] + Decimal(1);
    assert PadA(s, 1) == [CharByte(s[0])];
  }

  /** "a1" writes a one-byte character as its byte and reads it back. */
  lemma CharDataRoundTrip(s: string)
    requires |s| == 1 && s[0] as int < 256
    ensures PackItems(Directive('a', 1), [Str(s)]) == Ok(PadA(s, 1))
    ensures |PadA(s, 1)| == 1 && UnpackItems(Directive('a', 1), PadA(s, 1)) == Ok([Str(s)])
  {
    assert PadA(s, 1) == [CharByte(s[0])];
    UnpackOneChar(PadA(s, 1));
    assert [CharByte(s[0]) as char] == s;
  }

  /** A numeric directive with the item count writes width bytes per item
      and reads the items back. */
  lemma NumericDataRoundTrip(code: char, data: seq<Item>)
    requires IsIntegerCode(code) || IsFloatCode(code)
    requires forall i | 0 <= i < |data| :: FitsCode(code, data[i])
    ensures PackItems(Directive(code, |data|), data).Ok?
    ensures |PackItems(Directive(code, |data|), data).value| == |data| * Width(code)
    ensures UnpackItems(Directive(code, |data|), PackItems(Directive(code, |data|), data).value) == Ok(data)
  {
    NumbersRoundTrip(code, data);
    PackedSize(Directive(code, |data|), data);
  }

  /** The data of storable intermediate data packs to element size times
      count bytes and unpacks to the same items. */
  lemma DataRoundTrip(d: IntData)
    requires IntDataStorable(d)
    ensures var dir := ParseDirective(Template(Letter(d.typ.k), |d.data|));
      && PackItems(dir, d.data).Ok?
      && |PackItems(dir, d.data).value| == TypeSize(d.typ).value * |d.data|
      && UnpackItems(dir, PackItems(dir, d.data).value) == Ok(d.data)
  {
    var k := d.typ.k;
    var j := RubyIndex(13, k).value;
    var letter := Letter(k);
    TypeTables(d.typ);
    Letters(j);
    TemplateDirective(k, |d.data|);
    hide PackItems, UnpackItems, ParseDirective, Template, Letter, INT_TYPES, INT_TYPE_SIZES, TypeSize,
      ElementWidth, FitsField, PadA;
    if letter == "a" {
      var s := d.data[0].s;
      assert d.data == [Str(s)];
      CharDataRoundTrip(s);
    } else {
      NumericDataRoundTrip(letter[0], d.data);
    }
  }

  /** Reading a written prefix gives back every field. */
  lemma PrefixFields(name: string, role: int, rtype: int, refName: string, k: int, size: int, count: int)
    requires FitsField(name, 32) && FitsField(refName, 64)
    requires 0 <= role < 6 && 0 <= rtype < 5 && -13 <= k < 13
    requires 0 <= size < 0x1_0000_0000 && 0 <= count < 0x1_0000_0000
    ensures var p := IntDataPrefix(name, role, rtype, refName, k, size, count);
      && StripA(p[..32]) == name && RefField(p) == Ref(RubyAt(REF_TYPES, rtype), RubyAt(REF_ROLES, role), refName)
      && TypeField(p) == k && ElemSize(p) == size && ElemCount(p) == count
  {
    hide RubyAt, StripA, REF_TYPES, REF_ROLES;
    FixedFieldRoundTrip(name, 32);
    FixedFieldRoundTrip(refName, 64);
    Pow256Values();
    SignedRoundTrip(role, 4);
    SignedRoundTrip(rtype, 4);
    SignedRoundTrip(k, 4);
    UnsignedRoundTrip(size, 4);
    UnsignedRoundTrip(count, 4);
  }

  /** A ref whose type and role are in the tables is rebuilt from their
      positions. */
  lemma RefRoundTrip(ref: Ref)
    requires ref.typ.Some? && ref.typ.value in REF_TYPES && ref.role.Some? && ref.role.value in REF_ROLES
    ensures BinaryType(ref).Some? && BinaryType(ref).value < 5
    ensures BinaryRole(ref).Some? && BinaryRole(ref).value < 6
    ensures Ref(RubyAt(REF_TYPES, BinaryType(ref).value), RubyAt(REF_ROLES, BinaryRole(ref).value), ref.name) == ref
  {
  }

  /** Intermediate data that encodes is its prefix and its packed data. */
  lemma EncodeIntDataShape(d: IntData)
    requires EncodeIntData(d).Ok?
    ensures var ref := d.ref.value;
      var dir := ParseDirective(Template(Letter(d.typ.k), |d.data|));
      && PackItems(dir, d.data).Ok?
      && EncodeIntData(d).value == IntDataPrefix(d.name, BinaryRole(ref).value, BinaryType(ref).value, ref.name,
                                                 d.typ.k, TypeSize(d.typ).value, |d.data|)
                                   + PackItems(dir, d.data).value
  {
  }

  /** Storable intermediate data encodes. */
  lemma StorableEncodes(d: IntData)
    requires IntDataStorable(d)
    ensures EncodeIntData(d).Ok?
  {
    RefRoundTrip(d.ref.value);
    TypeTables(d.typ);
    DataRoundTrip(d);
  }

  /** Reading a record whose prefix and data are there. */
  lemma DecodeIntDataFrom(p: Bytes, body: Bytes, rest: Bytes, data: seq<Item>)
    requires |p| == INT_DATA_SIZE && |body| == ElemSize(p) * ElemCount(p)
    requires UnpackItems(ParseDirective(Template(Letter(TypeField(p)), ElemCount(p))), body) == Ok(data)
    ensures DecodeIntData(p + (body + rest))
         == Ok((IntData(StripA(p[..32]), At(TypeField(p)), Some(RefField(p)), data), rest))
  {
    hide UnpackItems, ParseDirective, Template, Letter, RefField, TypeField, ElemSize, ElemCount, StripA;
    var s := p + (body + rest);
    assert s[..INT_DATA_SIZE] == p && s[INT_DATA_SIZE..] == body + rest;
    assert (body + rest)[..|body|] == body && (body + rest)[|body|..] == rest;
  }

  /** Storable intermediate data is written as a prefix and a body that
      read back as its fields and its data. */
  lemma IntDataParts(d: IntData) returns (p: Bytes, body: Bytes)
    requires IntDataStorable(d)
    ensures EncodeIntData(d) == Ok(p + body)
    ensures |p| == INT_DATA_SIZE && |body| == ElemSize(p) * ElemCount(p)
    ensures UnpackItems(ParseDirective(Template(Letter(TypeField(p)), ElemCount(p))), body) == Ok(d.data)
    ensures d == IntData(StripA(p[..32]), At(TypeField(p)), Some(RefField(p)), d.data)
  {
    hide EncodeIntData, DecodeIntData, PackItems, UnpackItems, StripA, PadA, LeBytes, IntDataPrefix;
    var ref := d.ref.value;
    var k := d.typ.k;
    RefRoundTrip(ref);
    TypeTables(d.typ);
    var role := BinaryRole(ref).value;
    var rtype := BinaryType(ref).value;
    var size := TypeSize(d.typ).value;
    var dir := ParseDirective(Template(Letter(k), |d.data|));
    DataRoundTrip(d);
    p := IntDataPrefix(d.name, role, rtype, ref.name, k, size, |d.data|);
    body := PackItems(dir, d.data).value;
    assert EncodeIntData(d) == Ok(p + body) by {
      StorableEncodes(d);
      EncodeIntDataShape(d);
    }
    assert StripA(p[..32]) == d.name && RefField(p) == ref && TypeField(p) == k
        && ElemSize(p) == size && ElemCount(p) == |d.data| by {
      assert 0 <= size < 0x1_0000_0000 && -13 <= k < 13;
      PrefixFields(d.name, role, rtype, ref.name, k, size, |d.data|);
    }
  }

  /** Writing storable intermediate data and reading it back gives the
      same record, and leaves the bytes after it. */
  lemma IntDataRoundTrip(d: IntData, rest: Bytes)
    requires IntDataStorable(d)
    ensures EncodeIntData(d).Ok?
    ensures DecodeIntData(EncodeIntData(d).value + rest) == Ok((d, rest))
  {
    hide *;
    var p, body := IntDataParts(d);
    DecodeIntDataFrom(p, body, rest, d.data);
    AppendedTwo(p, body, rest);
  }

  /** What a record writes is its prefix and element size times count
      bytes: the data_size the analysis record counts. */
  lemma IntDataLength(d: IntData)
    requires EncodeIntData(d).Ok?
    ensures DataSize(d).Ok?
    ensures |EncodeIntData(d).value| == INT_DATA_SIZE + DataSize(d).value
  {
    hide EncodeIntData;
    EncodeIntDataShape(d);
    TypeTables(d.typ);
    WrittenSize(d.typ.k, |d.data|);
    PackedSize(ParseDirective(Template(Letter(d.typ.k), |d.data|)), d.data);
  }

  /** The template of a type with a numeric size writes that size per
      element. */
  lemma WrittenSize(k: int, count: nat)
    requires RubyIndex(13, k).Ok? && RubyIndex(13, k).value != 0
    ensures TypeSize(At(k)).Ok?
    ensures DirectiveSize(ParseDirective(Template(Letter(k), count))) == count * TypeSize(At(k)).value
  {
    var j := RubyIndex(13, k).value;
    TypeTables(At(k));
    Letters(j);
    TemplateDirective(k, count);
    var letter := INT_TYPES[j];
    assert Letter(k) == letter;
    hide INT_TYPES, INT_TYPE_SIZES, TypeSize, Letter, Template, ParseDirective, RubyIndex;
    if letter == "a" {
      assert DirectiveSize(Directive('a', count)) == count;
    } else {
      assert DirectiveSize(Directive(letter[0], count)) == count * Width(letter[0]);
    }
  }

  // ---------------------------------------------------------------------
  // Analysis records ("a64a48a8III", indexes, intermediate data)
  // ---------------------------------------------------------------------

  /** The byte count of the intermediate data records: 116 plus
      data_size for each; the first data_size that fails is the failure. */
  function IdataBytes(idata: seq<IntData>): (r: Result<int>)
    ensures r.Ok? <==> forall i | 0 <= i < |idata| :: DataSize(idata[i]).Ok?
    ensures r.Err? ==> r.error == TypeMismatch
  {
    if idata == [] then Ok(0)
    else
      var front :- IdataBytes(idata[..|idata| - 1]);
      var size :- DataSize(idata[|idata| - 1]);
      Ok(front + INT_DATA_SIZE + size)
  }

  /** The size field of Analysis#to_file: 44 per index plus the
      intermediate data records. */
  function SizeField(a: AnalysisImage): Result<int>
  {
    var d :- IdataBytes(a.idata);
    Ok(INDEX_SIZE * |a.indexes| + d)
  }

  /** The 132-byte prefix: source, name, symbol, the two counts and the
      size. */
  function AnalysisPrefix(a: AnalysisImage, size: int): (r: Bytes)
    ensures |r| == ANALYSIS_SIZE
    ensures r[..64] == PadA(a.source, 64) && r[64..112] == PadA(a.name, 48)
    ensures r[112..120] == PadA(a.sym, 8) && r[120..124] == LeBytes(|a.indexes|, 4)
    ensures r[124..128] == LeBytes(|a.idata|, 4) && r[128..132] == LeBytes(size, 4)
  {
    var head := PadA(a.source, 64) + PadA(a.name, 48) + PadA(a.sym, 8);
    var tail := LeBytes(|a.indexes|, 4) + LeBytes(|a.idata|, 4) + LeBytes(size, 4);
    assert head[64..112] == PadA(a.name, 48) && head[112..] == PadA(a.sym, 8);
    assert tail[4..8] == LeBytes(|a.idata|, 4) && tail[8..] == LeBytes(size, 4);
    var r := head + tail;
    assert r[..120] == head && r[120..] == tail;
    r
  }

  /** Analysis#to_file: the size is computed over all the data first, then
      the prefix, every index and every intermediate data record are
      written. */
  function EncodeAnalysis(a: AnalysisImage): (r: Result<Bytes>)
    ensures r.Ok? <==> SizeField(a).Ok? && forall i | 0 <= i < |a.idata| :: EncodeIntData(a.idata[i]).Ok?
  {
    var size :- SizeField(a);
    IndexesLength(a.indexes);
    var idx := EncodeAll(a.indexes, EncodeIndex).value;
    var data :- EncodeAll(a.idata, EncodeIntData);
    Ok(AnalysisPrefix(a, size) + idx + data)
  }

  /** Analysis.from_file: the prefix, then as many index and intermediate
      data records as its counts say; the size field is not used. */
  function DecodeAnalysis(s: Bytes): (r: Result<(AnalysisImage, Bytes)>)
    ensures r.Ok? ==> |s| >= ANALYSIS_SIZE
    ensures r.Ok? ==> |r.value.0.indexes| == LeValue(s[120..124]) && |r.value.0.idata| == LeValue(s[124..128])
  {
    var (buf, rest) :- Take(s, ANALYSIS_SIZE);
    assert buf[120..124] == s[120..124] && buf[124..128] == s[124..128];
    var (indexes, rest') :- Many(LeValue(buf[120..124]), DecodeIndex, rest);
    var (idata, rest'') :- Many(LeValue(buf[124..128]), DecodeIntData, rest');
    Ok((AnalysisImage(StripA(buf[..64]), StripA(buf[64..112]), StripA(buf[112..120]), indexes, idata), rest''))
  }

  /** Index records are 44 bytes each. */
  lemma {:induction false} IndexesLength(xs: seq<Index>)
    ensures EncodeAll(xs, EncodeIndex).Ok?
    ensures |EncodeAll(xs, EncodeIndex).value| == INDEX_SIZE * |xs|
  {
    if xs != [] {
      IndexesLength(xs[..|xs| - 1]);
    }
  }

  /** The data records take the bytes IdataBytes counts. */
  lemma {:induction false} IdataLength(idata: seq<IntData>)
    requires EncodeAll(idata, EncodeIntData).Ok?
    ensures IdataBytes(idata).Ok?
    ensures IdataBytes(idata).value == |EncodeAll(idata, EncodeIntData).value|
  {
    if idata != [] {
      IdataLength(idata[..|idata| - 1]);
      IntDataLength(idata[|idata| - 1]);
    }
  }

  /** The size field of a written analysis is the byte length of the
      records after its prefix. */
  lemma SizeFieldCounts(a: AnalysisImage)
    requires EncodeAnalysis(a).Ok?
    ensures SizeField(a).Ok?
    ensures |EncodeAnalysis(a).value| == ANALYSIS_SIZE + SizeField(a).value
  {
    IndexesLength(a.indexes);
    IdataLength(a.idata);
  }

  /** Letter-typed intermediate data (what the add_idata helpers make)
      has no data size, so an analysis holding any cannot be written. */
  lemma LetterTypedNotWritable(a: AnalysisImage, i: nat)
    requires i < |a.idata| && a.idata[i].typ.Code?
    ensures EncodeAnalysis(a) == Err(TypeMismatch)
  {
    assert DataSize(a.idata[i]).Err?;
  }

  predicate AnalysisStorable(a: AnalysisImage)
  {
    && FitsField(a.source, 64) && FitsField(a.name, 48) && FitsField(a.sym, 8)
    && |a.indexes| < 0x1_0000_0000 && |a.idata| < 0x1_0000_0000
    && (forall i | 0 <= i < |a.indexes| :: IndexStorable(a.indexes[i]))
    && (forall i | 0 <= i < |a.idata| :: IntDataStorable(a.idata[i]))
  }

  /** Reading a written analysis prefix gives back its texts and counts. */
  lemma AnalysisPrefixFields(a: AnalysisImage, size: int)
    requires AnalysisStorable(a)
    ensures var p := AnalysisPrefix(a, size);
      && StripA(p[..64]) == a.source && StripA(p[64..112]) == a.name && StripA(p[112..120]) == a.sym
      && LeValue(p[120..124]) == |a.indexes| && LeValue(p[124..128]) == |a.idata|
  {
    FixedFieldRoundTrip(a.source, 64);
    FixedFieldRoundTrip(a.name, 48);
    FixedFieldRoundTrip(a.sym, 8);
    Pow256Values();
    UnsignedRoundTrip(|a.indexes|, 4);
    UnsignedRoundTrip(|a.idata|, 4);
  }

  /** The records of a storable analysis all encode and read back. */
  lemma AnalysisRecords(a: AnalysisImage, rest: Bytes)
    requires AnalysisStorable(a)
    ensures EncodeAll(a.indexes, EncodeIndex).Ok? && EncodeAll(a.idata, EncodeIntData).Ok?
    ensures Many(|a.idata|, DecodeIntData, EncodeAll(a.idata, EncodeIntData).value + rest) == Ok((a.idata, rest))
    ensures Many(|a.indexes|, DecodeIndex, EncodeAll(a.indexes, EncodeIndex).value
                 + (EncodeAll(a.idata, EncodeIntData).value + rest))
         == Ok((a.indexes, EncodeAll(a.idata, EncodeIntData).value + rest))
  {
    hide EncodeAll, Many, EncodeIndex, DecodeIndex, EncodeIntData, DecodeIntData, IntDataStorable,
      IndexStorable, FitsField;
    forall i | 0 <= i < |a.idata|
      ensures EncodeIntData(a.idata[i]).Ok?
    {
      IntDataRoundTrip(a.idata[i], []);
    }
    forall i, tail | 0 <= i < |a.idata|
      ensures DecodeIntData(EncodeIntData(a.idata[i]).value + tail) == Ok((a.idata[i], tail))
    {
      IntDataRoundTrip(a.idata[i], tail);
    }
    ManyRoundTrip(a.idata, a.idata, EncodeIntData, DecodeIntData, rest);
    var data := EncodeAll(a.idata, EncodeIntData).value;
    forall i, tail | 0 <= i < |a.indexes|
      ensures DecodeIndex(EncodeIndex(a.indexes[i]).value + tail) == Ok((a.indexes[i], tail))
    {
      IndexRoundTrip(a.indexes[i], tail);
    }
    IndexesLength(a.indexes);
    ManyRoundTrip(a.indexes, a.indexes, EncodeIndex, DecodeIndex, data + rest);
  }

  /** Reading an analysis record whose prefix and records are there. */
  lemma DecodeAnalysisFrom(p: Bytes, tail: Bytes, a: AnalysisImage, rest: Bytes)
    requires |p| == ANALYSIS_SIZE
    requires StripA(p[..64]) == a.source && StripA(p[64..112]) == a.name && StripA(p[112..120]) == a.sym
    requires Many(LeValue(p[120..124]), DecodeIndex, tail).Ok?
    requires Many(LeValue(p[120..124]), DecodeIndex, tail).value.0 == a.indexes
    requires Many(LeValue(p[124..128]), DecodeIntData, Many(LeValue(p[120..124]), DecodeIndex, tail).value.1)
          == Ok((a.idata, rest))
    ensures DecodeAnalysis(p + tail) == Ok((a, rest))
  {
    hide Many, StripA, LeValue, DecodeIndex, DecodeIntData;
    var s := p + tail;
    assert s[..ANALYSIS_SIZE] == p && s[ANALYSIS_SIZE..] == tail;
  }

  /** A storable analysis is written as its prefix, index records and
      intermediate data records, which read back as its fields. */
  lemma AnalysisParts(a: AnalysisImage, rest: Bytes) returns (p: Bytes, tail: Bytes)
    requires AnalysisStorable(a)
    ensures EncodeAnalysis(a) == Ok(p + tail) && |p| == ANALYSIS_SIZE
    ensures StripA(p[..64]) == a.source && StripA(p[64..112]) == a.name && StripA(p[112..120]) == a.sym
    ensures Many(LeValue(p[120..124]), DecodeIndex, tail + rest).Ok?
    ensures Many(LeValue(p[120..124]), DecodeIndex, tail + rest).value.0 == a.indexes
    ensures Many(LeValue(p[124..128]), DecodeIntData, Many(LeValue(p[120..124]), DecodeIndex, tail + rest).value.1)
         == Ok((a.idata, rest))
  {
    hide *;
    AnalysisRecords(a, rest);
    StorableSized(a);
    var size := SizeField(a).value;
    p := AnalysisPrefix(a, size);
    AnalysisPrefixFields(a, size);
    var idx := EncodeAll(a.indexes, EncodeIndex).value;
    var data := EncodeAll(a.idata, EncodeIntData).value;
    tail := idx + data;
    EncodeAnalysisShape(a);
    AppendedTwo(p, idx, data);
    AppendedTwo(idx, data, rest);
  }

  /** The size field of a storable analysis can be computed. */
  lemma StorableSized(a: AnalysisImage)
    requires AnalysisStorable(a)
    ensures SizeField(a).Ok?
  {
    forall i | 0 <= i < |a.idata|
      ensures DataSize(a.idata[i]).Ok?
    {
      TypeTables(a.idata[i].typ);
    }
  }

  /** An analysis whose size and records encode is its prefix and its
      records. */
  lemma EncodeAnalysisShape(a: AnalysisImage)
    requires SizeField(a).Ok? && EncodeAll(a.indexes, EncodeIndex).Ok? && EncodeAll(a.idata, EncodeIntData).Ok?
    ensures EncodeAnalysis(a) == Ok(AnalysisPrefix(a, SizeField(a).value) + EncodeAll(a.indexes, EncodeIndex).value
                                    + EncodeAll(a.idata, EncodeIntData).value)
  {
  }

  /** Writing a storable analysis and reading it back gives the same
      analysis, and leaves the bytes after it. */
  lemma AnalysisRoundTrip(a: AnalysisImage, rest: Bytes)
    requires AnalysisStorable(a)
    ensures EncodeAnalysis(a).Ok?
    ensures DecodeAnalysis(EncodeAnalysis(a).value + rest) == Ok((a, rest))
  {
    hide *;
    var p, tail := AnalysisParts(a, rest);
    DecodeAnalysisFrom(p, tail + rest, a, rest);
    AppendedTwo(p, tail, rest);
  }

  // ---------------------------------------------------------------------
  // The container
  // ---------------------------------------------------------------------

  /** The decoded contents of a SAR file. */
  datatype SarImage = SarImage(timestamp: int, analyses: seq<AnalysisImage>)

  /** The body-header size the version selects: 8 bytes ("LI") when
      strictly within 0.1 of 1.1, else 12 ("QI"). */
  function BodyHeaderSize(version: Bytes): nat
    requires |version| == 4
  {
    if Near(version, ONE_POINT_ONE_D, TENTH, true) then 8 else 12
  }

  /** The version this program writes (1.2f, 0.1000000477 above 1.1)
      selects the 12-byte header; a stored 1.1f selects the 8-byte one. */
  lemma VersionSelectsHeader()
    ensures BodyHeaderSize(VERSION) == 12
    ensures BodyHeaderSize(ONE_POINT_ONE) == 8
  {
    VersionValues();
  }

  /** The 20 bytes before the records ("a4fQI"). */
  function SarHeader(timestamp: int, count: int): (r: Bytes)
    ensures |r| == 20
    ensures r[..8] == WritePrefix(MAGIC, VERSION)
    ensures r[8..16] == LeBytes(timestamp, 8) && r[16..] == LeBytes(count, 4)
  {
    var r := WritePrefix(MAGIC, VERSION) + LeBytes(timestamp, 8) + LeBytes(count, 4);
    assert r[8..16] == LeBytes(timestamp, 8);
    r
  }

  /** Sar#to_file: the header, then each analysis's record. */
  function EncodeSar(timestamp: int, analyses: seq<AnalysisImage>): (r: Result<Bytes>)
    ensures r.Ok? <==> forall i | 0 <= i < |analyses| :: EncodeAnalysis(analyses[i]).Ok?
  {
    var body :- EncodeAll(analyses, EncodeAnalysis);
    Ok(SarHeader(timestamp, |analyses|) + body)
  }

  /** A file whose records all encode is its header and its records. */
  lemma EncodeSarShape(timestamp: int, analyses: seq<AnalysisImage>)
    requires EncodeAll(analyses, EncodeAnalysis).Ok?
    ensures EncodeSar(timestamp, analyses) == Ok(SarHeader(timestamp, |analyses|) + EncodeAll(analyses, EncodeAnalysis).value)
  {
  }

  /** A file with a record that does not encode fails as that record. */
  lemma EncodeSarFails(timestamp: int, analyses: seq<AnalysisImage>)
    requires EncodeAll(analyses, EncodeAnalysis).Err?
    ensures EncodeSar(timestamp, analyses) == Err(EncodeAll(analyses, EncodeAnalysis).error)
  {
  }

  /** Sar.from_file: the prefix (an empty file or a short one fails), the
      magic, the body header the version selects, then as many analyses as
      its count says. */
  function DecodeSar(s: Bytes): (r: Result<(SarImage, Bytes)>)
    ensures |s| >= 8 && s[..4] != PadA(MAGIC, 4) ==> r == Err(MagicMismatch)
  {
    var (prefix, rest) :- ReadPrefix(s);
    MagicExact(s, MAGIC);
    if prefix.magic != MAGIC then Err(MagicMismatch)
    else
      var size := BodyHeaderSize(prefix.version);
      var (body, rest') :- Take(rest, size);
      var timestamp := LeValue(body[..size - 4]);
      var count := LeValue(body[size - 4..]);
      var (analyses, rest'') :- Many(count, DecodeAnalysis, rest');
      Ok((SarImage(timestamp, analyses), rest''))
  }

  /** Reading the body that follows a written SAR header. */
  lemma DecodeSarShape(timestamp: int, count: nat, tail: Bytes)
    requires 0 <= timestamp < 0x1_0000_0000_0000_0000 && count < 0x1_0000_0000
    ensures DecodeSar(SarHeader(timestamp, count) + tail)
         == match Many(count, DecodeAnalysis, tail)
            case Ok((analyses, rest)) => Ok((SarImage(timestamp, analyses), rest))
            case Err(e) => Err(e)
  {
    hide DecodeAnalysis, Many, ReadPrefix, BodyHeaderSize, LeValue, LeBytes, SarHeader, WritePrefix;
    var h := SarHeader(timestamp, count);
    var s := h + tail;
    assert s == WritePrefix(MAGIC, VERSION) + (h[8..] + tail);
    PrefixRoundTrip(MAGIC, VERSION, h[8..] + tail);
    VersionSelectsHeader();
    assert (h[8..] + tail)[..12] == h[8..] && (h[8..] + tail)[12..] == tail;
    assert h[8..][..8] == LeBytes(timestamp, 8) && h[8..][8..] == LeBytes(count, 4);
    Pow256Values();
    UnsignedRoundTrip(timestamp, 8);
    UnsignedRoundTrip(count, 4);
  }

  /** Writing a SAR file and reading it back gives its timestamp and its
      analyses, in order. */
  lemma SarRoundTrip(timestamp: int, analyses: seq<AnalysisImage>, rest: Bytes)
    requires 0 <= timestamp < 0x1_0000_0000_0000_0000
    requires |analyses| < 0x1_0000_0000
    requires forall i | 0 <= i < |analyses| :: AnalysisStorable(analyses[i])
    ensures EncodeSar(timestamp, analyses).Ok?
    ensures DecodeSar(EncodeSar(timestamp, analyses).value + rest) == Ok((SarImage(timestamp, analyses), rest))
  {
    hide *;
    forall i | 0 <= i < |analyses|
      ensures EncodeAnalysis(analyses[i]).Ok?
    {
      AnalysisRoundTrip(analyses[i], []);
    }
    forall i, tail | 0 <= i < |analyses|
      ensures DecodeAnalysis(EncodeAnalysis(analyses[i]).value + tail) == Ok((analyses[i], tail))
    {
      AnalysisRoundTrip(analyses[i], tail);
    }
    ManyRoundTrip(analyses, analyses, EncodeAnalysis, DecodeAnalysis, rest);
    var body := EncodeAll(analyses, EncodeAnalysis).value;
    DecodeSarShape(timestamp, |analyses|, body + rest);
    EncodeSarShape(timestamp, analyses);
    AppendedTwo(SarHeader(timestamp, |analyses|), body, rest);
  }

  // ---------------------------------------------------------------------
  // The stream methods
  // ---------------------------------------------------------------------

  /** Index#to_file */
  method WriteIndex(w: Writer, x: Index)
    modifies w
    ensures w.out == old(w.out) + EncodeIndex(x).value
  {
    w.Write(PadA(x.name, 32) + PadA(x.sym, 8) + x.value);
  }

  /** IntData#to_file: the prefix is packed and written, then the data;
      a data pack that fails leaves the prefix written. */
  method WriteIntData(w: Writer, d: IntData) returns (res: Result<()>)
    modifies w
    ensures Wrote(res, EncodeIntData(d), old(w.out), w.out)
  {
    if d.ref.None? {
      return Err(NoMethod);
    }
    var ref := d.ref.value;
    var role :- Known(BinaryRole(ref));
    var rtype :- Known(BinaryType(ref));
    var size :- TypeSize(d.typ);
    var prefix := IntDataPrefix(d.name, role, rtype, ref.name, d.typ.k, size, |d.data|);
    w.Write(prefix);
    var body :- PackItems(ParseDirective(Template(Letter(d.typ.k), |d.data|)), d.data);
    w.Write(body);
    AppendedTwo(old(w.out), prefix, body);
    return Ok(());
  }

  /** The size computation of Analysis#to_file: 44 for each index, then
      116 plus data_size for each intermediate data record. */
  method AnalysisSize(a: Analysis) returns (res: Result<int>)
    ensures res == SizeField(a.Image())
  {
    var size := 0;
    for i := 0 to |a.indexes|
      invariant size == INDEX_SIZE * i
    {
      size := size + INDEX_SIZE;
    }
    for j := 0 to |a.idata|
      invariant IdataBytes(a.idata[..j]) == Ok(size - INDEX_SIZE * |a.indexes|)
    {
      assert a.idata[..j + 1][..j] == a.idata[..j];
      var s := DataSize(a.idata[j]);
      if s.Err? {
        assert !IdataBytes(a.idata).Ok?;
        return Err(s.error);
      }
      size := size + INT_DATA_SIZE + s.value;
    }
    assert a.idata[..|a.idata|] == a.idata;
    return Ok(size);
  }

  /** Analysis#to_file */
  method WriteAnalysis(w: Writer, a: Analysis) returns (res: Result<()>)
    modifies w
    ensures Wrote(res, EncodeAnalysis(a.Image()), old(w.out), w.out)
  {
    var size :- AnalysisSize(a);
    var prefix := AnalysisPrefix(AnalysisImage(a.source, a.name, a.sym, a.indexes, a.idata), size);
    ghost var img := a.Image();
    w.Write(prefix);
    ghost var start := w.out;
    EncodeAllNone(a.indexes, EncodeIndex);
    for i := 0 to |a.indexes|
      invariant EncodeAll(a.indexes[..i], EncodeIndex).Ok?
      invariant w.out == start + EncodeAll(a.indexes[..i], EncodeIndex).value
    {
      ghost var before := w.out;
      WriteIndex(w, a.indexes[i]);
      WroteNext(a.indexes, EncodeIndex, i, start, before, w.out);
    }
    assert a.indexes[..|a.indexes|] == a.indexes;
    ghost var idx := EncodeAll(a.indexes, EncodeIndex).value;
    ghost var mid := w.out;
    EncodeAllNone(a.idata, EncodeIntData);
    for j := 0 to |a.idata|
      invariant EncodeAll(a.idata[..j], EncodeIntData).Ok?
      invariant w.out == mid + EncodeAll(a.idata[..j], EncodeIntData).value
    {
      ghost var before := w.out;
      var written := WriteIntData(w, a.idata[j]);
      if written.Err? {
        EncodeAllStops(a.idata, EncodeIntData, j);
        return written;
      }
      WroteNext(a.idata, EncodeIntData, j, mid, before, w.out);
    }
    assert a.idata[..|a.idata|] == a.idata;
    EncodeAnalysisShape(img);
    AppendedThree(old(w.out), prefix, idx, EncodeAll(a.idata, EncodeIntData).value);
    return Ok(());
  }

  /** Sar#to_file: the header, then `@analyses.each { |a| a.to_file(f) }`. */
  method WriteSar(w: Writer, sar: Sar) returns (res: Result<()>)
    modifies w
    ensures Wrote(res, EncodeSar(sar.timestamp, Images(sar.analyses)), old(w.out), w.out)
  {
    hide EncodeSar, EncodeAll, EncodeAnalysis, SarHeader, Images;
    ghost var imgs := Images(sar.analyses);
    var header := SarHeader(sar.timestamp, |sar.analyses|);
    w.Write(header);
    ghost var start := w.out;
    EncodeAllNone(imgs, EncodeAnalysis);
    for i := 0 to |sar.analyses|
      invariant EncodeAll(imgs[..i], EncodeAnalysis).Ok?
      invariant w.out == start + EncodeAll(imgs[..i], EncodeAnalysis).value
    {
      ghost var before := w.out;
      var written := WriteAnalysis(w, sar.analyses[i]);
      if written.Err? {
        EncodeAllStops(imgs, EncodeAnalysis, i);
        EncodeSarFails(sar.timestamp, imgs);
        return written;
      }
      WroteNext(imgs, EncodeAnalysis, i, start, before, w.out);
    }
    assert imgs[..|imgs|] == imgs;
    EncodeSarShape(sar.timestamp, imgs);
    AppendedTwo(old(w.out), header, EncodeAll(imgs, EncodeAnalysis).value);
    return Ok(());
  }

  /** Index.from_file */
  method ReadIndex(r: Reader) returns (res: Result<Index>)
    requires r.Valid()
    modifies r
    ensures r.Valid()
    ensures ReadAs(res, DecodeIndex(old(r.Rest())), r.Rest())
  {
    var buf :- r.Read(INDEX_SIZE);
    return Ok(Index(StripA(buf[..32]), StripA(buf[32..40]), buf[40..44]));
  }

  /** IntData.from_file */
  method ReadIntData(r: Reader) returns (res: Result<IntData>)
    requires r.Valid()
    modifies r
    ensures r.Valid()
    ensures ReadAs(res, DecodeIntData(old(r.Rest())), r.Rest())
  {
    var buf :- r.Read(INT_DATA_SIZE);
    var raw :- r.Read(ElemSize(buf) * ElemCount(buf));
    var data :- UnpackItems(ParseDirective(Template(Letter(TypeField(buf)), ElemCount(buf))), raw);
    return Ok(IntData(StripA(buf[..32]), At(TypeField(buf)), Some(RefField(buf)), data));
  }

  /** `num_indexes.times { indexes << Index.from_file(f) }` */
  method ReadIndexes(r: Reader, count: nat) returns (res: Result<seq<Index>>)
    requires r.Valid()
    modifies r
    ensures r.Valid()
    ensures ReadAs(res, Many(count, DecodeIndex, old(r.Rest())), r.Rest())
  {
    hide DecodeIndex;
    ghost var start := r.Rest();
    var xs: seq<Index> := [];
    var i := 0;
    while i < count
      invariant r.Valid() && i <= count
      invariant Many(i, DecodeIndex, start) == Ok((xs, r.Rest()))
    {
      ManyStep(i, DecodeIndex, start);
      var x := ReadIndex(r);
      if x.Err? {
        ManyErrPersists(i + 1, count, DecodeIndex, start);
        return Err(x.error);
      }
      xs := xs + [x.value];
      i := i + 1;
    }
    return Ok(xs);
  }

  /** `num_idata.times { idata << IntData.from_file(f) }` */
  method ReadIdata(r: Reader, count: nat) returns (res: Result<seq<IntData>>)
    requires r.Valid()
    modifies r
    ensures r.Valid()
    ensures ReadAs(res, Many(count, DecodeIntData, old(r.Rest())), r.Rest())
  {
    hide DecodeIntData;
    ghost var start := r.Rest();
    var xs: seq<IntData> := [];
    var i := 0;
    while i < count
      invariant r.Valid() && i <= count
      invariant Many(i, DecodeIntData, start) == Ok((xs, r.Rest()))
    {
      ManyStep(i, DecodeIntData, start);
      var x := ReadIntData(r);
      if x.Err? {
        ManyErrPersists(i + 1, count, DecodeIntData, start);
        return Err(x.error);
      }
      xs := xs + [x.value];
      i := i + 1;
    }
    return Ok(xs);
  }

  /** Analysis.from_file */
  method ReadAnalysis(r: Reader) returns (res: Result<Analysis>)
    requires r.Valid()
    modifies r
    ensures r.Valid()
    ensures match DecodeAnalysis(old(r.Rest()))
      case Ok((img, rest)) => res.Ok? && fresh(res.value) && res.value.Image() == img && r.Rest() == rest
      case Err(e) => res == Err(e)
  {
    var buf :- r.Read(ANALYSIS_SIZE);
    var indexes :- ReadIndexes(r, LeValue(buf[120..124]));
    var idata :- ReadIdata(r, LeValue(buf[124..128]));
    var a := new Analysis(StripA(buf[..64]), StripA(buf[64..112]), StripA(buf[112..120]), indexes, idata);
    return Ok(a);
  }

  /** The `num_analyses.times { analyses << Analysis.from_file(f) }` loop
      of Sar.from_file. */
  method ReadAnalyses(r: Reader, count: nat) returns (res: Result<seq<Analysis>>)
    requires r.Valid()
    modifies r
    ensures r.Valid()
    ensures match Many(count, DecodeAnalysis, old(r.Rest()))
      case Ok((imgs, rest)) =>
        && res.Ok? && Images(res.value) == imgs && r.Rest() == rest
        && forall i | 0 <= i < |res.value| :: fresh(res.value[i])
      case Err(e) => res == Err(e)
  {
    hide DecodeAnalysis, Images;
    ghost var start := r.Rest();
    var xs: seq<Analysis> := [];
    var i := 0;
    while i < count
      invariant r.Valid() && i <= count
      invariant Many(i, DecodeAnalysis, start).Ok?
      invariant Images(xs) == Many(i, DecodeAnalysis, start).value.0
      invariant r.Rest() == Many(i, DecodeAnalysis, start).value.1
      invariant forall j | 0 <= j < |xs| :: fresh(xs[j])
    {
      ManyStep(i, DecodeAnalysis, start);
      var a := ReadAnalysis(r);
      if a.Err? {
        ManyErrPersists(i + 1, count, DecodeAnalysis, start);
        return Err(a.error);
      }
      ImagesAppend(xs, a.value);
      xs := xs + [a.value];
      i := i + 1;
    }
    return Ok(xs);
  }

  /** Sar.from_file */
  method ReadSar(r: Reader) returns (res: Result<Sar>)
    requires r.Valid()
    modifies r
    ensures r.Valid()
    ensures match DecodeSar(old(r.Rest()))
      case Ok((img, rest)) =>
        && res.Ok? && fresh(res.value) && res.value.timestamp == img.timestamp
        && Images(res.value.analyses) == img.analyses && r.Rest() == rest
      case Err(e) => res == Err(e)
  {
    var buf :- r.Read(8);
    var prefix := Prefix(StripA(buf[..4]), buf[4..8]);
    if prefix.magic != MAGIC {
      return Err(MagicMismatch);
    }
    var size := BodyHeaderSize(prefix.version);
    var body :- r.Read(size);
    var timestamp := LeValue(body[..size - 4]);
    var count := LeValue(body[size - 4..]);
    var analyses :- ReadAnalyses(r, count);
    var sar := new Sar(timestamp, analyses);
    return Ok(sar);
  }
}
