/** The DCF file: a container prefix, a body header (timestamp and record
    count), then one record per factor: a 76-byte prefix (64-byte name,
    8-byte symbol, int32 tag index) and a payload whose width comes from
    the tag table (lib/mcg/diagnosis/dcf_file.rb). */
module DcfFile {
  import opened Results
  import opened Bytes
  import opened Pack
  import opened Float32
  import opened Stream
  import opened Header
  import opened Dcf

  const RECORD_SIZE: nat := 76
  const MAGIC: string := "DCFl"
  const VERSION: Bytes := ONE_POINT_ONE

  // ---------------------------------------------------------------------
  // One factor
  // ---------------------------------------------------------------------

  /** The item the payload is packed from: for 'c' the string's first
      byte, and 0 in place of nil. */
  function PayloadItem(v: Value): (r: Result<Item>)
    ensures r.Ok? ==> r.value != Nil
    ensures v.typ != "c" && v.data != Nil ==> r == Ok(v.data)
  {
    var data :-
      if v.typ != "c" then Ok(v.data)
      else match v.data
        case Str(s) => Ok(if s == [] then Nil else Int(CharByte(s[0])))
        case _ => Err(NoMethod);
    Ok(if data == Nil then Int(0) else data)
  }

  /** The 76-byte prefix. data_size is computed (and can fail) but has no
      directive, so it is not written. */
  function EncodePrefix(d: Dcf): (r: Result<Bytes>)
    ensures r.Ok? ==> |r.value| == RECORD_SIZE && BinaryDatatype(d.value).Some?
    ensures r.Ok? <==> DataSize(d.value).Ok? && BinaryDatatype(d.value).Some?
  {
    var size :- DataSize(d.value);
    var tag :- match BinaryDatatype(d.value)
      case Some(k) => Ok(k)
      case None => Err(TypeMismatch);
    Ok(RecordPrefix(d.name, d.sym, tag))
  }

  /** The 76 bytes before a payload: name, symbol and tag index in their
      fields. */
  function RecordPrefix(name: string, sym: string, tag: int): (r: Bytes)
    ensures |r| == RECORD_SIZE
    ensures r[..64] == PadA(name, 64) && r[64..72] == PadA(sym, 8) && r[72..76] == LeBytes(tag, 4)
  {
    var r := PadA(name, 64) + PadA(sym, 8) + LeBytes(tag, 4);
    assert r[..64] == PadA(name, 64);
    assert r[64..72] == PadA(sym, 8);
    r
  }

  /** Dcf#to_file: the prefix, then `[data].pack(type)`. */
  function EncodeRecord(d: Dcf): (r: Result<Bytes>)
    ensures r.Ok? ==> EncodePrefix(d).Ok?
  {
    var prefix :- EncodePrefix(d);
    var item :- PayloadItem(d.value);
    var payload :- PackItems(ParseDirective(d.value.typ), [item]);
    Ok(prefix + payload)
  }

  /** The payload written is exactly the tag's table width. */
  lemma RecordSize(d: Dcf)
    ensures EncodeRecord(d).Ok? ==>
      BinaryDatatype(d.value).Some? && |EncodeRecord(d).value| == RECORD_SIZE + TypeSize(d.value)
  {
    if EncodeRecord(d).Ok? {
      var k := BinaryDatatype(d.value).value;
      var item := PayloadItem(d.value).value;
      var dir := ParseDirective(d.value.typ);
      var payload := PackItems(dir, [item]).value;
      assert EncodeRecord(d).value == EncodePrefix(d).value + payload;
      hide EncodeRecord, EncodePrefix, PackItems, ParseDirective, TypeSize, BinaryDatatype;
      TablesAligned();
      TypeSizes(d.value.data);
      assert d.value == Value(TYPES[k], d.value.data);
      PackedSize(dir, [item]);
    }
  }

  /** Dcf.from_file: the stored index selects both the payload width and
      the directive; 'c' is read back as 'a1'. */
  function DecodeRecord(s: Bytes): (r: Result<(Dcf, Bytes)>)
    ensures Parsed(r, s)
  {
    var (buf, rest) :- Take(s, RECORD_SIZE);
    var k :- RubyIndex(|TYPES|, LeSigned(buf[72..76]));
    var (payload, rest') :- Take(rest, TYPE_SIZES[k]);
    var typ := ReadTag(k);
    var items :- UnpackItems(ParseDirective(typ), payload);
    Ok((Dcf(StripA(buf[..64]), StripA(buf[64..72]), Value(typ, First(items))), rest'))
  }

  /** A record read back has a tag of the table other than 'c', and
      occupies 76 bytes plus that tag's table width: the width comes from
      the table, never from the file. */
  lemma DecodedRecordWidth(s: Bytes)
    ensures var r := DecodeRecord(s);
      r.Ok? ==> BinaryDatatype(r.value.0.value).Some? && r.value.0.value.typ != "c" &&
                |s| == RECORD_SIZE + TypeSize(r.value.0.value) + |r.value.1|
  {
    TypeSizes(Nil);
    if DecodeRecord(s).Ok? {
      var k := RubyIndex(|TYPES|, LeSigned(s[..RECORD_SIZE][72..76])).value;
      var v := DecodeRecord(s).value.0.value;
      TypeSizes(v.data);
      assert TYPES[1] == "c" && TYPES[3] == "a1";
      assert k == 1 ==> v.typ == TYPES[3];
      assert k != 1 ==> v.typ == TYPES[k];
    }
  }

  /** The values a record stores without loss (up to StoredValue): a tag
      of the table, and data the tag's directive can pack. */
  predicate StorableValue(v: Value)
  {
    match TagIndex(v.typ)
    case None => false
    case Some(k) =>
      if k == 0 then v.data.Str? || v.data.Arr?
      else if k == 1 || k == 3 then
        v.data.Str? && (v.data.s == [] || v.data.s[0] as int < 256)
      else v.data == Nil || FitsCode(TYPES[k][0], v.data)
  }

  /** The factors a record stores without loss: names that fit their
      fields and a storable value. */
  predicate Storable(d: Dcf)
  {
    FitsField(d.name, 64) && FitsField(d.sym, 8) && StorableValue(d.value)
  }

  /** 0 of a tag's kind: what nil data is written as. */
  function ZeroOf(typ: string): Item
  {
    if typ == "f" then Float32Word(ZERO)
    else if typ == "d" then Float64Word(Zeros(8))
    else Int(0)
  }

  /** What reading back a written value gives: 'c' becomes 'a1' holding
      the first character (NUL for an empty string), 'o' data becomes nil,
      nil data becomes 0. */
  function StoredValue(v: Value): Value
  {
    var first := if v.data.Str? && v.data.s != [] then v.data.s[0] else 0 as char;
    var data :=
      if v.typ == "o" then Nil
      else if v.typ == "c" || v.typ == "a1" then Str([first])
      else if v.data == Nil then ZeroOf(v.typ)
      else v.data;
    Value(if v.typ == "c" then "a1" else v.typ, data)
  }

  function Stored(d: Dcf): Dcf
  {
    Dcf(d.name, d.sym, StoredValue(d.value))
  }

  /** A float field written from nil (packed as 0) reads back as the
      all-zero word, the 0.0 of its width. */
  lemma ZeroFloatRoundTrip(code: char)
    requires IsFloatCode(code)
    ensures PackItems(Directive(code, 1), [Int(0)]) == Ok(Zeros(Width(code)))
    ensures UnpackItems(Directive(code, 1), Zeros(Width(code)))
         == Ok([if code == 'f' then Float32Word(ZERO) else Float64Word(Zeros(8))])
  {
    var w := Width(code);
    var z := Zeros(w);
    assert [Int(0)][..1] == [Int(0)];
    assert PackNumbers(code, [Int(0)]) == Ok(z + []);
    assert z + [] == z;
    assert z[..w] == z;
    assert UnpackNumbers(code, z[w..], 0) == Ok([]);
    assert UnpackNumbers(code, z, 1) == Ok([UnpackNumber(code, z)] + []);
    assert [UnpackNumber(code, z)] + [] == [UnpackNumber(code, z)];
    if code == 'f' {
      assert w == 4 && z == ZERO;
    } else {
      assert w == 8;
    }
  }

  /** What the payload round trip promises for one value. */
  predicate PayloadBack(v: Value, k: nat)
    requires k < |TYPES|
  {
    && PayloadItem(v).Ok?
    && PackItems(ParseDirective(v.typ), [PayloadItem(v).value]).Ok?
    && var b := PackItems(ParseDirective(v.typ), [PayloadItem(v).value]).value;
       var t := StoredValue(v).typ;
       |b| == TYPE_SIZES[k] &&
       UnpackItems(ParseDirective(t), b).Ok? &&
       First(UnpackItems(ParseDirective(t), b).value) == StoredValue(v).data
  }

  /** 'o' writes nothing and reads back nil. */
  lemma OpaquePayloadRoundTrip(v: Value)
    requires v.typ == TYPES[0] && StorableValue(v)
    ensures PayloadBack(v, 0)
  {
    TablesAligned();
  }

  /** 'c' writes the first character's byte and reads it back, as 'a1',
      as a one-character string. */
  lemma CharPayloadRoundTrip(v: Value)
    requires v.typ == "c" && StorableValue(v)
    ensures PayloadBack(v, 1)
  {
    var first := if v.data.s != [] then v.data.s[0] else 0 as char;
    CharPacked(v);
    CharUnpacked(first);
    assert StoredValue(v) == Value("a1", Str([first]));
  }

  /** A 'c' value packs as the byte of its first character (NUL when empty). */
  lemma CharPacked(v: Value)
    requires v.typ == "c" && StorableValue(v)
    ensures var first := if v.data.s != [] then v.data.s[0] else 0 as char;
      && first as int < 256
      && PayloadItem(v).Ok?
      && PackItems(ParseDirective(v.typ), [PayloadItem(v).value]) == Ok([CharByte(first)])
  {
    hide UnpackItems, StripA, PadA;
    var first := if v.data.s != [] then v.data.s[0] else 0 as char;
    var item := Int(CharByte(first));
    assert PayloadItem(v) == Ok(item);
    assert ParseDirective("c") == Directive('c', 1);
    assert LeBytes(CharByte(first), 1) == [CharByte(first)];
    assert PackNumber('c', item) == Ok([CharByte(first)]);
    PackOneNumber('c', item);
  }

  /** The byte of a single-byte character reads back under "a1" as that
      character. */
  lemma CharUnpacked(c: char)
    requires c as int < 256
    ensures UnpackItems(ParseDirective("a1"), [CharByte(c)]) == Ok([Str([c])])
  {
    assert ParseDirective("a1") == Directive('a', 1) by {
      assert DigitPrefix("1") == "1";
    }
    UnpackOneChar([CharByte(c)]);
  }


  /** 'a1' writes the first character's byte and reads it back as a
      one-character string. */
  lemma StringPayloadRoundTrip(v: Value)
    requires v.typ == "a1" && StorableValue(v)
    ensures PayloadBack(v, 3)
  {
    var first := if v.data.s != [] then v.data.s[0] else 0 as char;
    assert PayloadItem(v) == Ok(v.data);
    assert ParseDirective("a1") == Directive('a', 1) by {
      assert DigitPrefix("1") == "1";
    }
    var b := PadA(v.data.s, 1);
    assert b == [CharByte(first)];
    assert PackItems(Directive('a', 1), [v.data]) == Ok(b);
    hide PackItems, PadA, PayloadItem, ParseDirective;
    CharUnpacked(first);
  }

  /** The numeric tags write their item and read it back; nil is written
      as 0 and read back as the 0 of the tag's kind. */
  lemma NumberPayloadRoundTrip(v: Value, code: char, k: nat)
    requires k < |TYPES| && v.typ == TYPES[k] == [code]
    requires (IsIntegerCode(code) || IsFloatCode(code)) && code != 'c'
    requires v.data == Nil || FitsCode(code, v.data)
    ensures PayloadItem(v).Ok?
    ensures PackItems(Directive(code, 1), [PayloadItem(v).value]).Ok?
    ensures var b := PackItems(Directive(code, 1), [PayloadItem(v).value]).value;
      |b| == Width(code) &&
      UnpackItems(Directive(code, 1), b) == Ok([if v.data == Nil then ZeroOf(v.typ) else v.data])
  {
    hide PackItems, UnpackItems, StripA, PadA;
    if v.data == Nil && IsFloatCode(code) {
      ZeroFloatRoundTrip(code);
    } else {
      var item := if v.data == Nil then Int(0) else v.data;
      assert v.typ != "c";
      assert PayloadItem(v) == Ok(item);
      if v.data == Nil {
        UnsignedRoundTrip(0, Width(code));
      }
      NumbersRoundTrip(code, [item]);
      PackedSize(Directive(code, 1), [item]);
    }
  }

  lemma PayloadRoundTrip(v: Value, k: nat)
    requires k < |TYPES| && v.typ == TYPES[k] && StorableValue(v)
    ensures PayloadBack(v, k)
  {
    if k == 0 {
      OpaquePayloadRoundTrip(v);
    } else if k == 1 {
      CharPayloadRoundTrip(v);
    } else if k == 3 {
      StringPayloadRoundTrip(v);
    } else {
      TablesAligned();
      var code := v.typ[0];
      assert v.typ == [code];
      assert IsKnownCode(code);
      NumberPayloadRoundTrip(v, code, k);
      assert v.typ != "o" && v.typ != "c" && v.typ != "a1";
      assert StoredValue(v) == Value(v.typ, if v.data == Nil then ZeroOf(v.typ) else v.data);
    }
  }

  /** The tag a record of tag index k is read back with. */
  function ReadTag(k: nat): string
    requires k < |TYPES|
  {
    if TYPES[k] == "c" then "a1" else TYPES[k]
  }

  /** A storable factor's record is its prefix and its payload. */
  lemma EncodeRecordShape(d: Dcf, k: nat)
    requires Storable(d) && TagIndex(d.value.typ) == Some(k)
    ensures PayloadBack(d.value, k)
    ensures EncodeRecord(d) == Ok(RecordPrefix(d.name, d.sym, k)
                                  + PackItems(ParseDirective(d.value.typ), [PayloadItem(d.value).value]).value)
  {
    PayloadRoundTrip(d.value, k);
    TypeSizes(d.value.data);
    assert DataSize(d.value).Ok?;
  }

  /** Reading a record of tag index k parses the two names, reads exactly
      the tag's table width, and unpacks it with the read-back tag. */
  lemma DecodeRecordShape(prefix: Bytes, k: nat, payload: Bytes, rest: Bytes)
    requires |prefix| == RECORD_SIZE && prefix[72..76] == LeBytes(k, 4)
    requires k < |TYPES| && |payload| == TYPE_SIZES[k]
    requires UnpackItems(ParseDirective(ReadTag(k)), payload).Ok?
    ensures DecodeRecord(prefix + (payload + rest))
         == Ok((Dcf(StripA(prefix[..64]), StripA(prefix[64..72]),
                    Value(ReadTag(k), First(UnpackItems(ParseDirective(ReadTag(k)), payload).value))),
                rest))
  {
    var s := prefix + (payload + rest);
    assert Take(s, RECORD_SIZE) == Ok((prefix, payload + rest)) by {
      assert s[..RECORD_SIZE] == prefix;
      assert s[RECORD_SIZE..] == payload + rest;
    }
    Pow256Values();
    SignedRoundTrip(k, 4);
    assert RubyIndex(|TYPES|, LeSigned(prefix[72..76])) == Ok(k);
    assert Take(payload + rest, TYPE_SIZES[k]) == Ok((payload, rest)) by {
      assert (payload + rest)[..TYPE_SIZES[k]] == payload;
      assert (payload + rest)[TYPE_SIZES[k]..] == rest;
    }
  }

  lemma StoredTag(v: Value, k: nat)
    requires k < |TYPES| && TagIndex(v.typ) == Some(k)
    ensures StoredValue(v).typ == ReadTag(k)
  {
  }

  /** A stored factor reads back as Stored, leaving the bytes after it. */
  lemma RecordRoundTrip(d: Dcf, rest: Bytes)
    requires Storable(d)
    ensures EncodeRecord(d).Ok?
    ensures DecodeRecord(EncodeRecord(d).value + rest) == Ok((Stored(d), rest))
  {
    hide EncodeRecord, DecodeRecord, PackItems, UnpackItems, StripA, PadA, LeBytes, RecordPrefix;
    var v := d.value;
    var k := TagIndex(v.typ).value;
    EncodeRecordShape(d, k);
    var payload := PackItems(ParseDirective(v.typ), [PayloadItem(v).value]).value;
    StoredTag(v, k);
    var t := ReadTag(k);
    assert First(UnpackItems(ParseDirective(t), payload).value) == StoredValue(v).data;
    assert Stored(d) == Dcf(d.name, d.sym, Value(t, StoredValue(v).data));
    var prefix := RecordPrefix(d.name, d.sym, k);
    FixedFieldRoundTrip(d.name, 64);
    FixedFieldRoundTrip(d.sym, 8);
    hide ParseDirective, PayloadItem, StoredValue, ReadTag, PayloadBack;
    DecodeRecordShape(prefix, k, payload, rest);
    assert EncodeRecord(d).value + rest == prefix + (payload + rest);
  }

  // ---------------------------------------------------------------------
  // The list
  // ---------------------------------------------------------------------

  /** The decoded contents of a list file. */
  datatype ListImage = ListImage(timestamp: int, items: seq<Dcf>)

  /** The body-header size the version selects: 8 bytes (uint32 timestamp,
      uint32 count) within 0.1 of 1.0, else 12 (uint64 timestamp). */
  function BodyHeaderSize(version: Bytes): nat
    requires |version| == 4
  {
    if Near(version, 1.0, TENTH, false) then 8 else 12
  }

  /** The version this program writes selects the 12-byte header only
      because 1.1 rounds up to 1.10000002384185791015625 in binary32; a
      stored 1.0 selects the 8-byte one. */
  lemma VersionSelectsHeader()
    ensures BodyHeaderSize(VERSION) == 12
    ensures BodyHeaderSize(ONE) == 8
  {
    VersionValues();
    OneValue();
  }

  /** List#to_file: magic, version, uint64 timestamp, uint32 count, then
      each record. */
  function EncodeList(timestamp: int, items: seq<Dcf>): (r: Result<Bytes>)
    ensures r.Ok? <==> forall i | 0 <= i < |items| :: EncodeRecord(items[i]).Ok?
  {
    var body :- EncodeAll(items, EncodeRecord);
    Ok(ListHeader(timestamp, |items|) + body)
  }

  /** The 20 bytes before the records: prefix, uint64 timestamp, uint32
      count. */
  function ListHeader(timestamp: int, count: int): (r: Bytes)
    ensures |r| == 20
    ensures r[..8] == WritePrefix(MAGIC, VERSION)
    ensures r[8..16] == LeBytes(timestamp, 8) && r[16..] == LeBytes(count, 4)
  {
    var r := WritePrefix(MAGIC, VERSION) + LeBytes(timestamp, 8) + LeBytes(count, 4);
    assert r[8..16] == LeBytes(timestamp, 8);
    r
  }

  /** List.from_file. */
  function DecodeList(s: Bytes): (r: Result<(ListImage, Bytes)>)
    ensures r.Ok? ==> |s| >= 8 && s[..4] == PadA(MAGIC, 4)
  {
    var (prefix, rest) :- ReadPrefix(s);
    MagicExact(s, MAGIC);
    if prefix.magic != MAGIC then Err(MagicMismatch)
    else
      var size := BodyHeaderSize(prefix.version);
      var (body, rest') :- Take(rest, size);
      var timestamp := LeValue(body[..size - 4]);
      var count := LeValue(body[size - 4..]);
      var (items, rest'') :- Many(count, DecodeRecord, rest');
      Ok((ListImage(timestamp, items), rest''))
  }

  /** A file is read as a list only if its first four bytes are the DCF
      magic; any other magic is refused. */
  lemma ListMagic(s: Bytes)
    ensures |s| >= 8 && s[..4] != PadA(MAGIC, 4) ==> DecodeList(s) == Err(MagicMismatch)
    ensures DecodeList(s).Ok? ==> |s| >= 8 && s[..4] == PadA(MAGIC, 4)
  {
    if |s| >= 8 {
      MagicExact(s, MAGIC);
    }
  }

  /** Reading what follows a written list header: the timestamp, then the
      records the count announces. */
  lemma DecodeListShape(timestamp: int, count: nat, tail: Bytes)
    requires 0 <= timestamp < 0x1_0000_0000_0000_0000 && count < 0x1_0000_0000
    ensures DecodeList(ListHeader(timestamp, count) + tail)
         == match Many(count, DecodeRecord, tail)
            case Ok((items, rest)) => Ok((ListImage(timestamp, items), rest))
            case Err(e) => Err(e)
  {
    hide DecodeRecord, Many, ReadPrefix, BodyHeaderSize, LeValue, LeBytes, ListHeader, WritePrefix;
    var h := ListHeader(timestamp, count);
    var s := h + tail;
    assert s == WritePrefix(MAGIC, VERSION) + (h[8..] + tail);
    PrefixRoundTrip(MAGIC, VERSION, h[8..] + tail);
    VersionSelectsHeader();
    assert (h[8..] + tail)[..12] == h[8..] && (h[8..] + tail)[12..] == tail;
    assert h[8..][..8] == LeBytes(timestamp, 8) && h[8..][8..] == LeBytes(count, 4);
    Pow256Values();
    UnsignedRoundTrip(timestamp, 8);
    UnsignedRoundTrip(count, 4);
  }

  /** Writing a list and reading it back gives its timestamp and its
      factors as stored, in order. */
  lemma ListRoundTrip(timestamp: int, items: seq<Dcf>, rest: Bytes)
    requires 0 <= timestamp < 0x1_0000_0000_0000_0000
    requires |items| < 0x1_0000_0000
    requires forall d | d in items :: Storable(d)
    ensures EncodeList(timestamp, items).Ok?
    ensures DecodeList(EncodeList(timestamp, items).value + rest)
         == Ok((ListImage(timestamp, seq(|items|, i requires 0 <= i < |items| => Stored(items[i]))), rest))
  {
    hide *;
    RecordsRoundTrip(items, rest);
    var body := EncodeAll(items, EncodeRecord).value;
    EncodeListShape(timestamp, items);
    DecodeListShape(timestamp, |items|, body + rest);
    assert EncodeList(timestamp, items).value + rest == ListHeader(timestamp, |items|) + (body + rest);
  }

  lemma EncodeListShape(timestamp: int, items: seq<Dcf>)
    requires EncodeAll(items, EncodeRecord).Ok?
    ensures EncodeList(timestamp, items) == Ok(ListHeader(timestamp, |items|) + EncodeAll(items, EncodeRecord).value)
  {
  }

  /** Storable records, written one after another, read back as the
      records they store. */
  lemma RecordsRoundTrip(items: seq<Dcf>, rest: Bytes)
    requires forall d | d in items :: Storable(d)
    ensures EncodeAll(items, EncodeRecord).Ok?
    ensures Many(|items|, DecodeRecord, EncodeAll(items, EncodeRecord).value + rest)
         == Ok((seq(|items|, i requires 0 <= i < |items| => Stored(items[i])), rest))
  {
    hide EncodeRecord, DecodeRecord, Stored;
    var stored := seq(|items|, i requires 0 <= i < |items| => Stored(items[i]));
    forall i | 0 <= i < |items|
      ensures EncodeRecord(items[i]).Ok?
    {
      RecordRoundTrip(items[i], []);
    }
    forall i, tail | 0 <= i < |items|
      ensures DecodeRecord(EncodeRecord(items[i]).value + tail) == Ok((stored[i], tail))
    {
      RecordRoundTrip(items[i], tail);
    }
    ManyRoundTrip(items, stored, EncodeRecord, DecodeRecord, rest);
  }


  // ---------------------------------------------------------------------
  // The stream methods
  // ---------------------------------------------------------------------

  /** Dcf#to_file */
  method WriteRecord(w: Writer, d: Dcf) returns (res: Result<()>)
    modifies w
    ensures Wrote(res, EncodeRecord(d), old(w.out), w.out)
  {
    var prefix :- EncodePrefix(d);
    w.Write(prefix);
    var item :- PayloadItem(d.value);
    var payload :- PackItems(ParseDirective(d.value.typ), [item]);
    w.Write(payload);
    return Ok(());
  }

  /** Dcf.from_file */
  method ReadRecord(r: Reader) returns (res: Result<Dcf>)
    requires r.Valid()
    modifies r
    ensures r.Valid()
    ensures ReadAs(res, DecodeRecord(old(r.Rest())), r.Rest())
  {
    var buf :- r.Read(RECORD_SIZE);
    var k :- RubyIndex(|TYPES|, LeSigned(buf[72..76]));
    var payload :- r.Read(TYPE_SIZES[k]);
    var typ := ReadTag(k);
    var items :- UnpackItems(ParseDirective(typ), payload);
    return Ok(Dcf(StripA(buf[..64]), StripA(buf[64..72]), Value(typ, First(items))));
  }

  /** The `each { |d| d.to_file(f) }` loop of List#to_file. */
  method WriteRecords(w: Writer, items: seq<Dcf>) returns (res: Result<()>)
    modifies w
    ensures Wrote(res, EncodeAll(items, EncodeRecord), old(w.out), w.out)
  {
    var i := 0;
    while i < |items|
      invariant 0 <= i <= |items|
      invariant EncodeAll(items[..i], EncodeRecord).Ok?
      invariant w.out == old(w.out) + EncodeAll(items[..i], EncodeRecord).value
    {
      ghost var before := w.out;
      var written := WriteRecord(w, items[i]);
      if written.Err? {
        EncodeAllStops(items, EncodeRecord, i);
        return written;
      }
      WroteNext(items, EncodeRecord, i, old(w.out), before, w.out);
      i := i + 1;
    }
    assert items[..i] == items;
    return Ok(());
  }

  /** List#to_file */
  method WriteList(w: Writer, list: List) returns (res: Result<()>)
    modifies w
    ensures Wrote(res, EncodeList(list.timestamp, list.items), old(w.out), w.out)
  {
    hide EncodeRecord, EncodeAll, ListHeader;
    var header := ListHeader(list.timestamp, |list.items|);
    w.Write(header);
    ghost var mid := w.out;
    res := WriteRecords(w, list.items);
    assert res.Ok? ==> w.out == old(w.out) + (header + EncodeAll(list.items, EncodeRecord).value);
  }

  /** The `num_dcfs.times { list << Dcf.from_file(f) }` loop of
      List.from_file: appends each record read to the list. */
  method ReadRecords(r: Reader, list: List, count: nat) returns (res: Result<()>)
    requires r.Valid()
    modifies r, list
    ensures r.Valid() && list.timestamp == old(list.timestamp)
    ensures match Many(count, DecodeRecord, old(r.Rest()))
      case Ok((items, rest)) => res == Ok(()) && list.items == old(list.items) + items && r.Rest() == rest
      case Err(e) => res == Err(e)
  {
    hide DecodeRecord;
    ghost var start := r.Rest();
    ghost var first := list.items;
    var i := 0;
    while i < count
      invariant r.Valid() && i <= count && list.timestamp == old(list.timestamp)
      invariant Many(i, DecodeRecord, start).Ok?
      invariant list.items == first + Many(i, DecodeRecord, start).value.0
      invariant r.Rest() == Many(i, DecodeRecord, start).value.1
    {
      ManyStep(i, DecodeRecord, start);
      var d := ReadRecord(r);
      if d.Err? {
        ManyErrPersists(i + 1, count, DecodeRecord, start);
        return Err(d.error);
      }
      list.Append(d.value);
      i := i + 1;
    }
    return Ok(());
  }

  /** List.from_file */
  method ReadList(r: Reader) returns (res: Result<List>)
    requires r.Valid()
    modifies r
    ensures r.Valid()
    ensures match DecodeList(old(r.Rest()))
      case Ok((image, rest)) =>
        res.Ok? && fresh(res.value) && r.Rest() == rest &&
        res.value.timestamp == image.timestamp && res.value.items == image.items
      case Err(e) => res == Err(e)
  {
    var buf :- r.Read(8);
    var prefix := Prefix(StripA(buf[..4]), buf[4..8]);
    if prefix.magic != MAGIC {
      return Err(MagicMismatch);
    }
    var size := BodyHeaderSize(prefix.version);
    var body :- r.Read(size);
    var timestamp := LeValue(body[..size - 4]);
    var count := LeValue(body[size - 4..]);
    var list := new List(timestamp, []);
    var read := ReadRecords(r, list, count);
    if read.Err? {
      return Err(read.error);
    }
    return Ok(list);
  }
}
