/** The DGO file: the diagnoses each algorithm produced, with their typed
    values and the references that weighted them
    (lib/mcg/diagnosis/dgo_file.rb).

    The value and reference classes, and their tag tables, are defined
    with the rest of the DGO classes in mpa/diagnosis/dgo, which is not
    part of this model: the tables are a parameter of every operation, and
    the round trips hold for every table of the shape WellFormed states. */
module DgoFile {
  import opened Results
  import opened Bytes
  import opened Pack
  import opened Float32
  import opened Stream
  import opened Header

  const REF_SIZE: nat := 200
  const DIAGNOSIS_SIZE: nat := 88
  const ALGORITHM_SIZE: nat := 76
  const MAGIC: string := "DGOl"
  const VERSION: Bytes := ONE_POINT_ONE

  /** Value::TYPES, Value::TYPE_SIZES and Ref::TYPES. */
  datatype Tables = Tables(types: seq<string>, sizes: seq<nat>, refTypes: seq<string>)

  /** A value tag is one directive letter: 'a' (a string of any length)
      is the tag of width 0, every other tag is a numeric directive of its
      table width. */
  predicate TagFits(typ: string, size: nat)
  {
    && |typ| == 1
    && (if size == 0 then typ == "a"
        else (IsIntegerCode(typ[0]) || IsFloatCode(typ[0])) && Width(typ[0]) == size)
  }

  /** The tables the codec is meant for: aligned value tables of fitting
      tags, and indexes that fit an int32. */
  predicate WellFormed(t: Tables)
  {
    && |t.types| == |t.sizes| < 0x8000_0000
    && |t.refTypes| < 0x8000_0000
    && forall k | 0 <= k < |t.types| :: TagFits(t.types[k], t.sizes[k])
  }

  datatype Value = Value(typ: string, data: Item)

  /** A reference; its tag is nil when the stored index has no entry. */
  datatype Ref = Ref(typ: Option<string>, source: string, component: string, item: string, weight: Item)

  datatype Diagnosis = Diagnosis(name: string, sym: string, positive: bool, value: Value, refs: seq<Ref>)

  datatype Algorithm = Algorithm(name: string, sym: string, diagnoses: seq<Diagnosis>)

  // ---------------------------------------------------------------------
  // Values
  // ---------------------------------------------------------------------

  /** `TYPES.index(@type)`; a tag absent from the table makes the next
      table access or pack fail with a TypeError. */
  function TypeIndex(t: Tables, v: Value): (r: Result<nat>)
    ensures r.Ok? <==> v.typ in t.types
    ensures r.Ok? ==> r.value < |t.types| && t.types[r.value] == v.typ
  {
    match IndexOf(t.types, v.typ)
    case Some(k) => Ok(k)
    case None => Err(TypeMismatch)
  }

  /** Value#data_size, taken to be the DCF value's: the table width, or
      the data's length when the width is 0. */
  function DataSize(t: Tables, v: Value): (r: Result<nat>)
    ensures r.Ok? ==> v.typ in t.types
  {
    var k :- TypeIndex(t, v);
    match RubyAt(t.sizes, k)
    case Some(0) => Length(v.data)
    case Some(w) => Ok(w)
    case None => Err(NoMethod)
  }

  /** Value#pack_str: the tag followed by the data's length when the tag's
      width is 0, else the bare tag. */
  function PackStr(t: Tables, v: Value): (r: Result<string>)
    ensures r.Ok? ==> v.typ in t.types
  {
    var k :- TypeIndex(t, v);
    if RubyAt(t.sizes, k) == Some(0) then
      var n :- Length(v.data);
      Ok(v.typ + Decimal(n))
    else Ok(v.typ)
  }

  /** The values a diagnosis stores exactly: a tag of the table, and data
      its directive packs and unpacks unchanged. */
  predicate StorableValue(t: Tables, v: Value)
  {
    && v.typ in t.types
    && |v.typ| == 1
    && if v.typ == "a" then v.data.Str? && FitsField(v.data.s, |v.data.s|) && |v.data.s| < 0x1_0000_0000
       else (IsIntegerCode(v.typ[0]) || IsFloatCode(v.typ[0])) && FitsCode(v.typ[0], v.data)
  }

  /** The template pack_str builds denotes one directive that writes
      exactly data_size bytes: "a<length>" for a string, the tag itself
      for a number. */
  lemma PackStrSize(t: Tables, v: Value)
    requires WellFormed(t) && StorableValue(t, v)
    ensures PackStr(t, v).Ok? && DataSize(t, v).Ok?
    ensures ParseDirective(PackStr(t, v).value)
         == if v.typ == "a" then Directive('a', DataSize(t, v).value) else Directive(v.typ[0], 1)
    ensures DataSize(t, v).value == DirectiveSize(ParseDirective(PackStr(t, v).value))
    ensures v.typ == "a" ==> DataSize(t, v).value == |v.data.s|
    ensures v.typ != "a" ==> ParseDirective(v.typ) == Directive(v.typ[0], 1)
  {
    var k := TypeIndex(t, v).value;
    assert TagFits(t.types[k], t.sizes[k]);
    assert RubyAt(t.sizes, k) == Some(t.sizes[k]);
    assert ParseDirective(v.typ) == Directive(v.typ[0], 1) by {
      assert v.typ[1..] == [];
    }
    hide WellFormed, TagFits, ParseDirective, IndexOf, RubyAt, Decimal, Width;
    if v.typ == "a" {
      ParseDecimal('a', |v.data.s|);
      assert v.typ == ['a'];
    }
  }

  // ---------------------------------------------------------------------
  // References
  // ---------------------------------------------------------------------

  /** The 200 bytes of a reference: int32 tag index, three 64-byte labels,
      binary32 weight. */
  function RefBytes(k: int, source: string, component: string, item: string, weight: Bytes): (r: Bytes)
    requires |weight| == 4
    ensures |r| == REF_SIZE
    ensures r[..4] == LeBytes(k, 4) && r[4..68] == PadA(source, 64)
    ensures r[68..132] == PadA(component, 64) && r[132..196] == PadA(item, 64)
    ensures r[196..] == weight
  {
    var r := LeBytes(k, 4) + PadA(source, 64) + PadA(component, 64) + PadA(item, 64) + weight;
    assert r[4..68] == PadA(source, 64);
    assert r[68..132] == PadA(component, 64);
    assert r[132..196] == PadA(item, 64);
    r
  }

  /** Ref#to_file: "ia64a64a64f". A tag absent from Ref::TYPES packs nil
      into the int32 field, a TypeError. */
  function EncodeRef(t: Tables, x: Ref): (r: Result<Bytes>)
    ensures r.Ok? ==> |r.value| == REF_SIZE
    ensures r.Ok? ==> x.typ.Some? && x.typ.value in t.refTypes
  {
    var k :- match x.typ
      case Some(typ) => (match IndexOf(t.refTypes, typ) case Some(k) => Ok(k) case None => Err(TypeMismatch))
      case None => Err(TypeMismatch);
    var weight :- PackItems(Directive('f', 1), [x.weight]);
    PackedSize(Directive('f', 1), [x.weight]);
    Ok(RefBytes(k, x.source, x.component, x.item, weight))
  }

  /** Ref.from_file: "iA64A64A64f"; the tag is Ref::TYPES at the stored
      index, nil when there is no such entry. */
  function DecodeRef(t: Tables, s: Bytes): (r: Result<(Ref, Bytes)>)
    ensures r.Ok? <==> |s| >= REF_SIZE
    ensures r.Ok? ==> r.value.1 == s[REF_SIZE..] && r.value.0.weight.Float32Word?
  {
    var (buf, rest) :- Take(s, REF_SIZE);
    Ok((Ref(RubyAt(t.refTypes, LeSigned(buf[..4])), StripA(buf[4..68]), StripA(buf[68..132]),
            StripA(buf[132..196]), Float32Word(buf[196..200])), rest))
  }

  function RefEncoder(t: Tables): Ref -> Result<Bytes>
  {
    x => EncodeRef(t, x)
  }

  function RefParser(t: Tables): Bytes -> Result<(Ref, Bytes)>
  {
    s => DecodeRef(t, s)
  }

  /** The references stored exactly: a tag of Ref::TYPES, labels that fit
      their fields, and a binary32 weight word. */
  predicate StorableRef(t: Tables, x: Ref)
  {
    && x.typ.Some? && x.typ.value in t.refTypes
    && FitsField(x.source, 64) && FitsField(x.component, 64) && FitsField(x.item, 64)
    && x.weight.Float32Word? && |x.weight.w| == 4
  }

  /** Reading a reference from 200 bytes and what follows them. */
  lemma DecodeRefShape(t: Tables, b: Bytes, rest: Bytes)
    requires |b| == REF_SIZE
    ensures DecodeRef(t, b + rest)
         == Ok((Ref(RubyAt(t.refTypes, LeSigned(b[..4])), StripA(b[4..68]), StripA(b[68..132]),
                    StripA(b[132..196]), Float32Word(b[196..200])), rest))
  {
    var s := b + rest;
    assert s[..REF_SIZE] == b && s[REF_SIZE..] == rest;
  }

  /** A stored reference reads back unchanged, leaving the bytes after it. */
  lemma RefRoundTrip(t: Tables, x: Ref, rest: Bytes)
    requires |t.refTypes| < 0x8000_0000 && StorableRef(t, x)
    ensures EncodeRef(t, x).Ok?
    ensures DecodeRef(t, EncodeRef(t, x).value + rest) == Ok((x, rest))
  {
    var k := IndexOf(t.refTypes, x.typ.value).value;
    var w := x.weight.w;
    assert PackNumber('f', x.weight) == Ok(w);
    PackOneNumber('f', x.weight);
    var b := RefBytes(k, x.source, x.component, x.item, w);
    assert EncodeRef(t, x) == Ok(b);
    DecodeRefShape(t, b, rest);
    hide EncodeRef, DecodeRef, PackItems, PackNumber, RefBytes;
    Pow256Values();
    SignedRoundTrip(k, 4);
    FixedFieldRoundTrip(x.source, 64);
    FixedFieldRoundTrip(x.component, 64);
    FixedFieldRoundTrip(x.item, 64);
    assert RubyAt(t.refTypes, k) == x.typ;
    assert b[196..200] == b[196..] == w;
    assert x == Ref(x.typ, x.source, x.component, x.item, Float32Word(w));
  }

  // ---------------------------------------------------------------------
  // Diagnoses
  // ---------------------------------------------------------------------

  /** The 88 bytes before a diagnosis's payload: 64-byte name, 8-byte
      symbol, int32 positive flag (1 or 0), int32 tag index, uint32 payload
      size, uint32 reference count. */
  function DiagnosisPrefix(name: string, sym: string, positive: bool, k: int, size: int, count: int): (r: Bytes)
    ensures |r| == DIAGNOSIS_SIZE
    ensures r[..64] == PadA(name, 64) && r[64..72] == PadA(sym, 8)
    ensures r[72..76] == LeBytes(if positive then 1 else 0, 4) && r[76..80] == LeBytes(k, 4)
    ensures r[80..84] == LeBytes(size, 4) && r[84..] == LeBytes(count, 4)
  {
    var r := PadA(name, 64) + PadA(sym, 8) + LeBytes(if positive then 1 else 0, 4)
             + LeBytes(k, 4) + LeBytes(size, 4) + LeBytes(count, 4);
    PrefixLayout(PadA(name, 64), PadA(sym, 8), LeBytes(if positive then 1 else 0, 4),
                 LeBytes(k, 4), LeBytes(size, 4), LeBytes(count, 4));
    r
  }

  /** Where the six fields of a diagnosis prefix sit. */
  lemma PrefixLayout(a: Bytes, b: Bytes, c: Bytes, d: Bytes, e: Bytes, f: Bytes)
    requires |a| == 64 && |b| == 8 && |c| == 4 && |d| == 4 && |e| == 4 && |f| == 4
    ensures var r := a + b + c + d + e + f;
      && r[..64] == a && r[64..72] == b && r[72..76] == c
      && r[76..80] == d && r[80..84] == e && r[84..] == f
  {
    var r := a + b + c + d + e + f;
    assert r[..64] == a;
    assert r[64..72] == b;
    assert r[72..76] == c;
    assert r[76..80] == d;
    assert r[80..84] == e;
  }

  /** Diagnosis#to_file: the prefix, `[data].pack(pack_str)`, then each
      reference in order. */
  function EncodeDiagnosis(t: Tables, d: Diagnosis): (r: Result<Bytes>)
    ensures r.Ok? ==> d.value.typ in t.types && forall i | 0 <= i < |d.refs| :: EncodeRef(t, d.refs[i]).Ok?
  {
    var k :- TypeIndex(t, d.value);
    var size :- DataSize(t, d.value);
    var template :- PackStr(t, d.value);
    var payload :- PackItems(ParseDirective(template), [d.value.data]);
    var refs :- EncodeAll(d.refs, RefEncoder(t));
    Ok(DiagnosisPrefix(d.name, d.sym, d.positive, k, size, |d.refs|) + payload + refs)
  }

  /** The template the payload is read with: "A<size>" for 'a', which
      strips trailing NUL and space, else the tag itself. */
  function ReadDirective(dtype: string, size: nat): Directive
  {
    if dtype == "a" then Directive('A', size) else ParseDirective(dtype)
  }

  /** Value::TYPES at a stored index; unpacking with the nil of a missing
      entry is a TypeError. */
  function StoredTag(t: Tables, i: int): (r: Result<string>)
    ensures r.Ok? <==> RubyAt(t.types, i).Some?
    ensures r.Ok? ==> r.value in t.types
  {
    match RubyAt(t.types, i)
    case Some(x) => Ok(x)
    case None => Err(TypeMismatch)
  }

  /** Diagnosis.from_file: the prefix, exactly the stored payload size,
      then the stored number of references. */
  function DecodeDiagnosis(t: Tables, s: Bytes): (r: Result<(Diagnosis, Bytes)>)
    ensures r.Ok? ==> |s| >= DIAGNOSIS_SIZE && |s| >= DIAGNOSIS_SIZE + LeValue(s[80..84])
    ensures r.Ok? ==> |r.value.0.refs| == LeValue(s[84..88])
  {
    var (buf, rest) :- Take(s, DIAGNOSIS_SIZE);
    assert buf[80..84] == s[80..84] && buf[84..88] == s[84..88];
    var size := LeValue(buf[80..84]);
    var (payload, rest') :- Take(rest, size);
    var dtype :- StoredTag(t, LeSigned(buf[76..80]));
    var items :- UnpackItems(ReadDirective(dtype, size), payload);
    var (refs, rest'') :- Many(LeValue(buf[84..88]), RefParser(t), rest');
    Ok((Diagnosis(StripA(buf[..64]), StripA(buf[64..72]), LeSigned(buf[72..76]) != 0,
                  Value(dtype, First(items)), refs), rest''))
  }

  function DiagnosisEncoder(t: Tables): Diagnosis -> Result<Bytes>
  {
    d => EncodeDiagnosis(t, d)
  }

  function DiagnosisParser(t: Tables): Bytes -> Result<(Diagnosis, Bytes)>
  {
    s => DecodeDiagnosis(t, s)
  }

  /** Each reference read consumes exactly 200 bytes. */
  lemma RefParserWidth(t: Tables)
    ensures forall x :: RefParser(t)(x).Ok? ==> |x| == REF_SIZE + |RefParser(t)(x).value.1|
  {
  }

  /** A diagnosis read back ends where its references, read from just
      after the stated payload size, end. */
  lemma DecodedDiagnosisTail(t: Tables, s: Bytes)
    requires |s| >= DIAGNOSIS_SIZE
    ensures var r := DecodeDiagnosis(t, s);
      r.Ok? ==> && DIAGNOSIS_SIZE + LeValue(s[80..84]) <= |s|
                && var refs := Many(LeValue(s[84..88]), RefParser(t), s[DIAGNOSIS_SIZE + LeValue(s[80..84])..]);
                   refs.Ok? && r.value.1 == refs.value.1
  {
    var buf := s[..DIAGNOSIS_SIZE];
    assert buf[80..84] == s[80..84] && buf[84..88] == s[84..88];
    if DIAGNOSIS_SIZE + LeValue(s[80..84]) <= |s| {
      assert s[DIAGNOSIS_SIZE..][LeValue(s[80..84])..] == s[DIAGNOSIS_SIZE + LeValue(s[80..84])..];
    }
  }

  /** A diagnosis read back occupies its 88-byte prefix, exactly the
      payload size the prefix states, and 200 bytes per stated reference. */
  lemma DecodedDiagnosisWidth(t: Tables, s: Bytes)
    requires |s| >= DIAGNOSIS_SIZE
    ensures var r := DecodeDiagnosis(t, s);
      r.Ok? ==> |s| == DIAGNOSIS_SIZE + LeValue(s[80..84]) + REF_SIZE * LeValue(s[84..88]) + |r.value.1|
  {
    hide DecodeDiagnosis, Many, RefParser, LeValue;
    DecodedDiagnosisTail(t, s);
    RefParserWidth(t);
    if DecodeDiagnosis(t, s).Ok? {
      ManyConsumes(LeValue(s[84..88]), RefParser(t), s[DIAGNOSIS_SIZE + LeValue(s[80..84])..], REF_SIZE);
    }
  }


  /** The diagnoses stored exactly: names that fit, a storable value, and
      storable references whose count fits the uint32 field. */
  predicate StorableDiagnosis(t: Tables, d: Diagnosis)
  {
    && FitsField(d.name, 64) && FitsField(d.sym, 8)
    && StorableValue(t, d.value)
    && |d.refs| < 0x1_0000_0000
    && forall i | 0 <= i < |d.refs| :: StorableRef(t, d.refs[i])
  }

  /** A storable value's payload is data_size bytes and reads back, with
      the tag's read template, as the value's data. */
  lemma PayloadRoundTrip(t: Tables, v: Value)
    requires WellFormed(t) && StorableValue(t, v)
    ensures PackStr(t, v).Ok? && DataSize(t, v).Ok?
    ensures PackItems(ParseDirective(PackStr(t, v).value), [v.data]).Ok?
    ensures var b := PackItems(ParseDirective(PackStr(t, v).value), [v.data]).value;
      |b| == DataSize(t, v).value &&
      UnpackItems(ReadDirective(v.typ, |b|), b) == Ok([v.data])
  {
    PackStrSize(t, v);
    var dir := ParseDirective(PackStr(t, v).value);
    var n := DataSize(t, v).value;
    assert ReadDirective(v.typ, n) == if v.typ == "a" then Directive('A', n) else ParseDirective(v.typ);
    assert v.typ == "a" ==> v.data.Str? && FitsField(v.data.s, |v.data.s|);
    assert v.typ != "a" ==> (IsIntegerCode(v.typ[0]) || IsFloatCode(v.typ[0])) && FitsCode(v.typ[0], v.data);
    hide *;
    if v.typ == "a" {
      StringFieldRoundTrip(v.data.s, |v.data.s|);
      assert v.data == Str(v.data.s);
    } else {
      NumbersRoundTrip(v.typ[0], [v.data]);
    }
    PackedSize(dir, [v.data]);
  }

  /** A storable diagnosis is its prefix, its payload and its references. */
  lemma EncodeDiagnosisShape(t: Tables, d: Diagnosis)
    requires WellFormed(t) && StorableDiagnosis(t, d)
    ensures PayloadBack(t, d.value)
    ensures EncodeAll(d.refs, RefEncoder(t)).Ok?
    ensures EncodeDiagnosis(t, d)
         == Ok(DiagnosisPrefix(d.name, d.sym, d.positive, TypeIndex(t, d.value).value,
                               DataSize(t, d.value).value, |d.refs|)
               + Payload(t, d.value) + EncodeAll(d.refs, RefEncoder(t)).value)
  {
    PayloadRoundTrip(t, d.value);
    forall i | 0 <= i < |d.refs|
      ensures RefEncoder(t)(d.refs[i]).Ok?
    {
      RefRoundTrip(t, d.refs[i], []);
    }
  }

  /** A storable value's tag index fits the int32 field, its size the
      uint32 field, and its payload reads back as its data. */
  lemma PayloadFits(t: Tables, v: Value)
    requires WellFormed(t) && StorableValue(t, v) && PayloadBack(t, v)
    ensures TypeIndex(t, v).Ok? && TypeIndex(t, v).value < 0x8000_0000
    ensures DataSize(t, v).value < 0x1_0000_0000 && |Payload(t, v)| == DataSize(t, v).value
    ensures UnpackItems(ReadDirective(v.typ, |Payload(t, v)|), Payload(t, v)) == Ok([v.data])
  {
    if v.typ != "a" {
      var k := TypeIndex(t, v).value;
      assert TagFits(t.types[k], t.sizes[k]);
    }
  }

  /** What PayloadRoundTrip promises, as a predicate of the value. */
  predicate PayloadBack(t: Tables, v: Value)
  {
    && PackStr(t, v).Ok? && DataSize(t, v).Ok?
    && PackItems(ParseDirective(PackStr(t, v).value), [v.data]).Ok?
    && var b := PackItems(ParseDirective(PackStr(t, v).value), [v.data]).value;
       |b| == DataSize(t, v).value && UnpackItems(ReadDirective(v.typ, |b|), b) == Ok([v.data])
  }

  /** The payload bytes written for a value. */
  function Payload(t: Tables, v: Value): Bytes
    requires PayloadBack(t, v)
  {
    PackItems(ParseDirective(PackStr(t, v).value), [v.data]).value
  }

  /** Reading a diagnosis from a prefix whose fields hold d's name,
      symbol, flag, tag and payload size, d's payload, and bytes from which
      the stated number of references parse as d's references. */
  lemma DecodeDiagnosisFrom(t: Tables, prefix: Bytes, payload: Bytes, tail: Bytes, d: Diagnosis, rest: Bytes)
    requires |prefix| == DIAGNOSIS_SIZE
    requires StripA(prefix[..64]) == d.name && StripA(prefix[64..72]) == d.sym
    requires (LeSigned(prefix[72..76]) != 0) == d.positive
    requires StoredTag(t, LeSigned(prefix[76..80])) == Ok(d.value.typ)
    requires LeValue(prefix[80..84]) == |payload|
    requires UnpackItems(ReadDirective(d.value.typ, |payload|), payload) == Ok([d.value.data])
    requires Many(LeValue(prefix[84..88]), RefParser(t), tail) == Ok((d.refs, rest))
    ensures DecodeDiagnosis(t, prefix + (payload + tail)) == Ok((d, rest))
  {
    var s := prefix + (payload + tail);
    assert Take(s, DIAGNOSIS_SIZE) == Ok((prefix, payload + tail)) by {
      assert s[..DIAGNOSIS_SIZE] == prefix && s[DIAGNOSIS_SIZE..] == payload + tail;
    }
    assert Take(payload + tail, |payload|) == Ok((payload, tail)) by {
      assert (payload + tail)[..|payload|] == payload && (payload + tail)[|payload|..] == tail;
    }
    hide Take, Many, UnpackItems, StoredTag, StripA, LeSigned, LeValue;
    assert First([d.value.data]) == d.value.data;
    assert d == Diagnosis(d.name, d.sym, d.positive, Value(d.value.typ, d.value.data), d.refs);
  }

  /** The tag a stored in-range index selects. */
  lemma StoredTagAt(t: Tables, k: nat)
    requires k < |t.types|
    ensures StoredTag(t, k) == Ok(t.types[k])
  {
  }

  /** Stored references read back unchanged, in order. */
  lemma RefsRoundTrip(t: Tables, refs: seq<Ref>, rest: Bytes)
    requires |t.refTypes| < 0x8000_0000
    requires forall i | 0 <= i < |refs| :: StorableRef(t, refs[i])
    ensures EncodeAll(refs, RefEncoder(t)).Ok?
    ensures Many(|refs|, RefParser(t), EncodeAll(refs, RefEncoder(t)).value + rest) == Ok((refs, rest))
  {
    forall i | 0 <= i < |refs|
      ensures RefEncoder(t)(refs[i]).Ok?
    {
      RefRoundTrip(t, refs[i], []);
    }
    forall i, tail | 0 <= i < |refs|
      ensures RefParser(t)(RefEncoder(t)(refs[i]).value + tail) == Ok((refs[i], tail))
    {
      RefRoundTrip(t, refs[i], tail);
    }
    ManyRoundTrip(refs, refs, RefEncoder(t), RefParser(t), rest);
  }

  /** A stored diagnosis reads back unchanged, leaving the bytes after it. */
  lemma DiagnosisRoundTrip(t: Tables, d: Diagnosis, rest: Bytes)
    requires WellFormed(t) && StorableDiagnosis(t, d)
    ensures EncodeDiagnosis(t, d).Ok?
    ensures DecodeDiagnosis(t, EncodeDiagnosis(t, d).value + rest) == Ok((d, rest))
  {
    assert |t.refTypes| < 0x8000_0000;
    assert forall i | 0 <= i < |d.refs| :: StorableRef(t, d.refs[i]);
    assert StorableValue(t, d.value) && FitsField(d.name, 64) && FitsField(d.sym, 8) && |d.refs| < 0x1_0000_0000;
    hide EncodeDiagnosis, DecodeDiagnosis, EncodeAll, Many, PackItems, UnpackItems, PackStr, DataSize,
         TypeIndex, Payload, DiagnosisPrefix, RefEncoder, RefParser, WellFormed, StorableValue, PayloadBack,
         StorableDiagnosis, StorableRef, StripA, PadA, FitsField;
    EncodeDiagnosisShape(t, d);
    RefsRoundTrip(t, d.refs, rest);
    PayloadFits(t, d.value);
    DiagnosisFromParts(t, d, TypeIndex(t, d.value).value, Payload(t, d.value),
                       EncodeAll(d.refs, RefEncoder(t)).value, rest);
  }

  /** Decoding what a diagnosis prefix, a payload and encoded references
      hold, once each part is known to read back. */
  lemma DiagnosisFromParts(t: Tables, d: Diagnosis, k: nat, payload: Bytes, refs: Bytes, rest: Bytes)
    requires FitsField(d.name, 64) && FitsField(d.sym, 8)
    requires k < |t.types| && t.types[k] == d.value.typ && k < 0x8000_0000
    requires |payload| < 0x1_0000_0000 && |d.refs| < 0x1_0000_0000
    requires UnpackItems(ReadDirective(d.value.typ, |payload|), payload) == Ok([d.value.data])
    requires Many(|d.refs|, RefParser(t), refs + rest) == Ok((d.refs, rest))
    ensures DecodeDiagnosis(t, DiagnosisPrefix(d.name, d.sym, d.positive, k, |payload|, |d.refs|) + payload + refs + rest)
         == Ok((d, rest))
  {
    var prefix := DiagnosisPrefix(d.name, d.sym, d.positive, k, |payload|, |d.refs|);
    hide *;
    assert prefix + payload + refs + rest == prefix + (payload + (refs + rest));
    DiagnosisPrefixFields(d.name, d.sym, d.positive, k, |payload|, |d.refs|);
    StoredTagAt(t, k);
    DecodeDiagnosisFrom(t, prefix, payload, refs + rest, d, rest);
  }



  /** The fields of a written diagnosis prefix read back as written. */
  lemma DiagnosisPrefixFields(name: string, sym: string, positive: bool, k: int, size: int, count: int)
    requires FitsField(name, 64) && FitsField(sym, 8)
    requires 0 <= k < 0x8000_0000 && 0 <= size < 0x1_0000_0000 && 0 <= count < 0x1_0000_0000
    ensures var p := DiagnosisPrefix(name, sym, positive, k, size, count);
      && StripA(p[..64]) == name && StripA(p[64..72]) == sym
      && (LeSigned(p[72..76]) != 0) == positive && LeSigned(p[76..80]) == k
      && LeValue(p[80..84]) == size && LeValue(p[84..88]) == count
  {
    var p := DiagnosisPrefix(name, sym, positive, k, size, count);
    assert p[84..88] == p[84..];
    hide DiagnosisPrefix;
    Pow256Values();
    SignedRoundTrip(k, 4);
    UnsignedRoundTrip(size, 4);
    UnsignedRoundTrip(count, 4);
    SignedRoundTrip(if positive then 1 else 0, 4);
    FixedFieldRoundTrip(name, 64);
    FixedFieldRoundTrip(sym, 8);
  }

  // ---------------------------------------------------------------------
  // Algorithms
  // ---------------------------------------------------------------------

  /** The 76 bytes before an algorithm's diagnoses: 64-byte name, 8-byte
      symbol, uint32 diagnosis count. */
  function AlgorithmPrefix(name: string, sym: string, count: int): (r: Bytes)
    ensures |r| == ALGORITHM_SIZE
    ensures r[..64] == PadA(name, 64) && r[64..72] == PadA(sym, 8) && r[72..] == LeBytes(count, 4)
  {
    var r := PadA(name, 64) + PadA(sym, 8) + LeBytes(count, 4);
    assert r[64..72] == PadA(sym, 8);
    r
  }

  /** Algorithm#to_file: the prefix, then each diagnosis in order. */
  function EncodeAlgorithm(t: Tables, a: Algorithm): (r: Result<Bytes>)
    ensures r.Ok? <==> forall i | 0 <= i < |a.diagnoses| :: EncodeDiagnosis(t, a.diagnoses[i]).Ok?
  {
    var body :- EncodeAll(a.diagnoses, DiagnosisEncoder(t));
    Ok(AlgorithmPrefix(a.name, a.sym, |a.diagnoses|) + body)
  }

  /** Algorithm.from_file: the prefix, then the stated number of
      diagnoses. */
  function DecodeAlgorithm(t: Tables, s: Bytes): (r: Result<(Algorithm, Bytes)>)
    ensures r.Ok? ==> |s| >= ALGORITHM_SIZE
  {
    var (buf, rest) :- Take(s, ALGORITHM_SIZE);
    var (diagnoses, rest') :- Many(LeValue(buf[72..76]), DiagnosisParser(t), rest);
    Ok((Algorithm(StripA(buf[..64]), StripA(buf[64..72]), diagnoses), rest'))
  }

  function AlgorithmEncoder(t: Tables): Algorithm -> Result<Bytes>
  {
    a => EncodeAlgorithm(t, a)
  }

  function AlgorithmParser(t: Tables): Bytes -> Result<(Algorithm, Bytes)>
  {
    s => DecodeAlgorithm(t, s)
  }

  /** The algorithms stored exactly: names that fit, storable diagnoses,
      and a count that fits the uint32 field. */
  predicate StorableAlgorithm(t: Tables, a: Algorithm)
  {
    && FitsField(a.name, 64) && FitsField(a.sym, 8)
    && |a.diagnoses| < 0x1_0000_0000
    && forall i | 0 <= i < |a.diagnoses| :: StorableDiagnosis(t, a.diagnoses[i])
  }

  /** Stored diagnoses read back unchanged, in order. */
  lemma DiagnosesRoundTrip(t: Tables, ds: seq<Diagnosis>, rest: Bytes)
    requires WellFormed(t)
    requires forall i | 0 <= i < |ds| :: StorableDiagnosis(t, ds[i])
    ensures EncodeAll(ds, DiagnosisEncoder(t)).Ok?
    ensures Many(|ds|, DiagnosisParser(t), EncodeAll(ds, DiagnosisEncoder(t)).value + rest) == Ok((ds, rest))
  {
    hide EncodeDiagnosis, DecodeDiagnosis, StorableDiagnosis, WellFormed;
    forall i | 0 <= i < |ds|
      ensures DiagnosisEncoder(t)(ds[i]).Ok?
    {
      DiagnosisRoundTrip(t, ds[i], []);
    }
    forall i, tail | 0 <= i < |ds|
      ensures DiagnosisParser(t)(DiagnosisEncoder(t)(ds[i]).value + tail) == Ok((ds[i], tail))
    {
      DiagnosisRoundTrip(t, ds[i], tail);
    }
    ManyRoundTrip(ds, ds, DiagnosisEncoder(t), DiagnosisParser(t), rest);
  }

  /** The fields of a written algorithm prefix read back as written. */
  lemma AlgorithmPrefixFields(name: string, sym: string, count: int)
    requires FitsField(name, 64) && FitsField(sym, 8) && 0 <= count < 0x1_0000_0000
    ensures var p := AlgorithmPrefix(name, sym, count);
      StripA(p[..64]) == name && StripA(p[64..72]) == sym && LeValue(p[72..76]) == count
  {
    var p := AlgorithmPrefix(name, sym, count);
    assert p[72..76] == p[72..];
    hide AlgorithmPrefix;
    Pow256Values();
    UnsignedRoundTrip(count, 4);
    FixedFieldRoundTrip(name, 64);
    FixedFieldRoundTrip(sym, 8);
  }

  /** Writing a storable algorithm and reading it back gives the same
      algorithm, its diagnoses in order, and leaves what follows. */
  lemma AlgorithmRoundTrip(t: Tables, a: Algorithm, rest: Bytes)
    requires WellFormed(t) && StorableAlgorithm(t, a)
    ensures EncodeAlgorithm(t, a).Ok?
    ensures DecodeAlgorithm(t, EncodeAlgorithm(t, a).value + rest) == Ok((a, rest))
  {
    assert forall i | 0 <= i < |a.diagnoses| :: StorableDiagnosis(t, a.diagnoses[i]);
    hide EncodeDiagnosis, DecodeDiagnosis, StorableDiagnosis, WellFormed, Many, EncodeAll, StripA, LeValue,
         DiagnosisEncoder, DiagnosisParser;
    DiagnosesRoundTrip(t, a.diagnoses, rest);
    var prefix := AlgorithmPrefix(a.name, a.sym, |a.diagnoses|);
    var body := EncodeAll(a.diagnoses, DiagnosisEncoder(t)).value;
    AlgorithmPrefixFields(a.name, a.sym, |a.diagnoses|);
    var s := prefix + (body + rest);
    AppendedTwo(prefix, body, rest);
    assert EncodeAlgorithm(t, a).value + rest == s;
    assert s[..ALGORITHM_SIZE] == prefix && s[ALGORITHM_SIZE..] == body + rest;
  }

  // ---------------------------------------------------------------------
  // The container
  // ---------------------------------------------------------------------

  /** The decoded contents of a DGO file. */
  datatype DgoImage = DgoImage(timestamp: int, algorithms: seq<Algorithm>)

  /** The body-header size the version selects. The test for the 8-byte
      layout compares the distance to 1.0 against -0.1, so it never holds
      and the 12-byte layout (uint64 timestamp, uint32 count) is always
      read. */
  function BodyHeaderSize(version: Bytes): nat
    requires |version| == 4
  {
    if Near(version, 1.0, -TENTH, false) then 8 else 12
  }

  /** Every stored version, 1.0 included, selects the 12-byte body
      header. */
  lemma HeaderAlways12(version: Bytes)
    requires |version| == 4
    ensures BodyHeaderSize(version) == 12
  {
    NearNegativeNever(version, 1.0, -TENTH, false);
  }

  /** The 20 bytes before the algorithms: "DGOl", 1.1, uint64 timestamp,
      uint32 algorithm count. */
  function DgoHeader(timestamp: int, count: int): (r: Bytes)
    ensures |r| == 20
    ensures r[..8] == WritePrefix(MAGIC, VERSION)
    ensures r[8..16] == LeBytes(timestamp, 8) && r[16..] == LeBytes(count, 4)
  {
    var r := WritePrefix(MAGIC, VERSION) + LeBytes(timestamp, 8) + LeBytes(count, 4);
    assert r[8..16] == LeBytes(timestamp, 8);
    r
  }

  /** Dgo#to_file: the header, then each algorithm in order. */
  function EncodeDgo(t: Tables, timestamp: int, algorithms: seq<Algorithm>): (r: Result<Bytes>)
    ensures r.Ok? <==> forall i | 0 <= i < |algorithms| :: EncodeAlgorithm(t, algorithms[i]).Ok?
  {
    var body :- EncodeAll(algorithms, AlgorithmEncoder(t));
    Ok(DgoHeader(timestamp, |algorithms|) + body)
  }

  /** Dgo.from_file. */
  function DecodeDgo(t: Tables, s: Bytes): (r: Result<(DgoImage, Bytes)>)
    ensures r.Ok? ==> |s| >= 8 && s[..4] == PadA(MAGIC, 4)
  {
    var (prefix, rest) :- ReadPrefix(s);
    MagicExact(s, MAGIC);
    if prefix.magic != MAGIC then Err(MagicMismatch)
    else
      var size := BodyHeaderSize(prefix.version);
      var (body, rest') :- Take(rest, size);
      var timestamp := LeValue(body[..size - 4]);
      var count := LeValue(body[size - 4..]);
      var (algorithms, rest'') :- Many(count, AlgorithmParser(t), rest');
      Ok((DgoImage(timestamp, algorithms), rest''))
  }

  /** A file is read as a DGO only if its first four bytes are "DGOl";
      any other magic is refused. */
  lemma DgoMagic(t: Tables, s: Bytes)
    ensures |s| >= 8 && s[..4] != PadA(MAGIC, 4) ==> DecodeDgo(t, s) == Err(MagicMismatch)
    ensures DecodeDgo(t, s).Ok? ==> |s| >= 8 && s[..4] == PadA(MAGIC, 4)
  {
    if |s| >= 8 {
      MagicExact(s, MAGIC);
    }
  }

  /** Reading what follows a written DGO header: the timestamp, then the
      algorithms the count announces. */
  lemma DecodeDgoShape(t: Tables, timestamp: int, count: nat, tail: Bytes)
    requires 0 <= timestamp < 0x1_0000_0000_0000_0000 && count < 0x1_0000_0000
    ensures DecodeDgo(t, DgoHeader(timestamp, count) + tail)
         == match Many(count, AlgorithmParser(t), tail)
            case Ok((algorithms, rest)) => Ok((DgoImage(timestamp, algorithms), rest))
            case Err(e) => Err(e)
  {
    hide DecodeAlgorithm, Many, ReadPrefix, BodyHeaderSize, LeValue, LeBytes, DgoHeader, WritePrefix;
    var h := DgoHeader(timestamp, count);
    var s := h + tail;
    assert s == WritePrefix(MAGIC, VERSION) + (h[8..] + tail);
    PrefixRoundTrip(MAGIC, VERSION, h[8..] + tail);
    HeaderAlways12(VERSION);
    assert (h[8..] + tail)[..12] == h[8..] && (h[8..] + tail)[12..] == tail;
    assert h[8..][..8] == LeBytes(timestamp, 8) && h[8..][8..] == LeBytes(count, 4);
    Pow256Values();
    UnsignedRoundTrip(timestamp, 8);
    UnsignedRoundTrip(count, 4);
  }

  /** Writing a DGO and reading it back gives its timestamp and its
      algorithms unchanged, in order. */
  lemma DgoRoundTrip(t: Tables, timestamp: int, algorithms: seq<Algorithm>, rest: Bytes)
    requires WellFormed(t)
    requires 0 <= timestamp < 0x1_0000_0000_0000_0000
    requires |algorithms| < 0x1_0000_0000
    requires forall i | 0 <= i < |algorithms| :: StorableAlgorithm(t, algorithms[i])
    ensures EncodeDgo(t, timestamp, algorithms).Ok?
    ensures DecodeDgo(t, EncodeDgo(t, timestamp, algorithms).value + rest) == Ok((DgoImage(timestamp, algorithms), rest))
  {
    hide EncodeAlgorithm, DecodeAlgorithm, DecodeDgo, StorableAlgorithm, WellFormed, DgoHeader, Many, LeBytes;
    forall i | 0 <= i < |algorithms|
      ensures AlgorithmEncoder(t)(algorithms[i]).Ok?
    {
      AlgorithmRoundTrip(t, algorithms[i], []);
    }
    forall i, tail | 0 <= i < |algorithms|
      ensures AlgorithmParser(t)(AlgorithmEncoder(t)(algorithms[i]).value + tail) == Ok((algorithms[i], tail))
    {
      AlgorithmRoundTrip(t, algorithms[i], tail);
    }
    ManyRoundTrip(algorithms, algorithms, AlgorithmEncoder(t), AlgorithmParser(t), rest);
    var body := EncodeAll(algorithms, AlgorithmEncoder(t)).value;
    DecodeDgoShape(t, timestamp, |algorithms|, body + rest);
    assert EncodeDgo(t, timestamp, algorithms).value + rest == DgoHeader(timestamp, |algorithms|) + (body + rest);
  }

  /** A DGO document: its timestamp and the algorithms Dgo.from_file
      appends to it. */
  class Dgo {
    var timestamp: int
    var algorithms: seq<Algorithm>

    /** Dgo.new(timestamp), with no algorithms yet. */
    constructor (timestamp: int)
      ensures this.timestamp == timestamp && algorithms == []
    {
      this.timestamp := timestamp;
      algorithms := [];
    }

    /** `dgo.algorithms << algorithm` */
    method Append(a: Algorithm)
      modifies this
      ensures algorithms == old(algorithms) + [a] && timestamp == old(timestamp)
    {
      algorithms := algorithms + [a];
    }
  }

  // ---------------------------------------------------------------------
  // The stream methods
  // ---------------------------------------------------------------------

  /** Ref#to_file */
  method WriteRef(w: Writer, t: Tables, x: Ref) returns (res: Result<()>)
    modifies w
    ensures Wrote(res, EncodeRef(t, x), old(w.out), w.out)
  {
    if x.typ.None? {
      return Err(TypeMismatch);
    }
    var found := IndexOf(t.refTypes, x.typ.value);
    if found.None? {
      return Err(TypeMismatch);
    }
    var weight :- PackItems(Directive('f', 1), [x.weight]);
    PackedSize(Directive('f', 1), [x.weight]);
    w.Write(RefBytes(found.value, x.source, x.component, x.item, weight));
    return Ok(());
  }

  /** Ref.from_file */
  method ReadRef(r: Reader, t: Tables) returns (res: Result<Ref>)
    requires r.Valid()
    modifies r
    ensures r.Valid()
    ensures ReadAs(res, DecodeRef(t, old(r.Rest())), r.Rest())
  {
    var buf :- r.Read(REF_SIZE);
    return Ok(Ref(RubyAt(t.refTypes, LeSigned(buf[..4])), StripA(buf[4..68]), StripA(buf[68..132]),
                  StripA(buf[132..196]), Float32Word(buf[196..200])));
  }

  /** The `@refs.each { |r| r.to_file(f) }` loop of Diagnosis#to_file. */
  method WriteRefs(w: Writer, t: Tables, refs: seq<Ref>) returns (res: Result<()>)
    modifies w
    ensures Wrote(res, EncodeAll(refs, RefEncoder(t)), old(w.out), w.out)
  {
    var i := 0;
    while i < |refs|
      invariant 0 <= i <= |refs|
      invariant EncodeAll(refs[..i], RefEncoder(t)).Ok?
      invariant w.out == old(w.out) + EncodeAll(refs[..i], RefEncoder(t)).value
    {
      ghost var before := w.out;
      var written := WriteRef(w, t, refs[i]);
      if written.Err? {
        EncodeAllStops(refs, RefEncoder(t), i);
        return written;
      }
      WroteNext(refs, RefEncoder(t), i, old(w.out), before, w.out);
      i := i + 1;
    }
    assert refs[..i] == refs;
    return Ok(());
  }

  /** The `num_refs.times { diag.refs << Ref.from_file(f) }` loop of
      Diagnosis.from_file: the references in file order. */
  method ReadRefs(r: Reader, t: Tables, count: nat) returns (res: Result<seq<Ref>>)
    requires r.Valid()
    modifies r
    ensures r.Valid()
    ensures ReadAs(res, Many(count, RefParser(t), old(r.Rest())), r.Rest())
  {
    hide DecodeRef;
    ghost var start := r.Rest();
    var refs := [];
    var i := 0;
    while i < count
      invariant r.Valid() && i <= count
      invariant Many(i, RefParser(t), start) == Ok((refs, r.Rest()))
    {
      ManyStep(i, RefParser(t), start);
      var x := ReadRef(r, t);
      if x.Err? {
        ManyErrPersists(i + 1, count, RefParser(t), start);
        return Err(x.error);
      }
      refs := refs + [x.value];
      i := i + 1;
    }
    return Ok(refs);
  }

  /** Diagnosis#to_file */
  method WriteDiagnosis(w: Writer, t: Tables, d: Diagnosis) returns (res: Result<()>)
    modifies w
    ensures Wrote(res, EncodeDiagnosis(t, d), old(w.out), w.out)
  {
    hide EncodeRef, EncodeAll, DiagnosisPrefix, PackItems, TypeIndex, DataSize, PackStr, ParseDirective,
         RefEncoder;
    var k :- TypeIndex(t, d.value);
    var size :- DataSize(t, d.value);
    var prefix := DiagnosisPrefix(d.name, d.sym, d.positive, k, size, |d.refs|);
    w.Write(prefix);
    var template :- PackStr(t, d.value);
    var payload :- PackItems(ParseDirective(template), [d.value.data]);
    w.Write(payload);
    res := WriteRefs(w, t, d.refs);
    if res.Ok? {
      AppendedThree(old(w.out), prefix, payload, EncodeAll(d.refs, RefEncoder(t)).value);
    }
  }

  /** Diagnosis.from_file */
  method ReadDiagnosis(r: Reader, t: Tables) returns (res: Result<Diagnosis>)
    requires r.Valid()
    modifies r
    ensures r.Valid()
    ensures ReadAs(res, DecodeDiagnosis(t, old(r.Rest())), r.Rest())
  {
    var buf :- r.Read(DIAGNOSIS_SIZE);
    var size := LeValue(buf[80..84]);
    var payload :- r.Read(size);
    var dtype :- StoredTag(t, LeSigned(buf[76..80]));
    var items :- UnpackItems(ReadDirective(dtype, size), payload);
    hide DecodeRef, Many, UnpackItems, StoredTag, LeValue, LeSigned, StripA, Take;
    var refs :- ReadRefs(r, t, LeValue(buf[84..88]));
    return Ok(Diagnosis(StripA(buf[..64]), StripA(buf[64..72]), LeSigned(buf[72..76]) != 0,
                        Value(dtype, First(items)), refs));
  }

  /** The `@diagnoses.each { |d| d.to_file(f) }` loop of
      Algorithm#to_file. */
  method WriteDiagnoses(w: Writer, t: Tables, ds: seq<Diagnosis>) returns (res: Result<()>)
    modifies w
    ensures Wrote(res, EncodeAll(ds, DiagnosisEncoder(t)), old(w.out), w.out)
  {
    hide EncodeDiagnosis;
    var i := 0;
    while i < |ds|
      invariant 0 <= i <= |ds|
      invariant EncodeAll(ds[..i], DiagnosisEncoder(t)).Ok?
      invariant w.out == old(w.out) + EncodeAll(ds[..i], DiagnosisEncoder(t)).value
    {
      ghost var before := w.out;
      var written := WriteDiagnosis(w, t, ds[i]);
      if written.Err? {
        EncodeAllStops(ds, DiagnosisEncoder(t), i);
        return written;
      }
      WroteNext(ds, DiagnosisEncoder(t), i, old(w.out), before, w.out);
      i := i + 1;
    }
    assert ds[..i] == ds;
    return Ok(());
  }

  /** The `num_diags.times { algo.diagnoses << Diagnosis.from_file(f) }`
      loop of Algorithm.from_file: the diagnoses in file order. */
  method ReadDiagnoses(r: Reader, t: Tables, count: nat) returns (res: Result<seq<Diagnosis>>)
    requires r.Valid()
    modifies r
    ensures r.Valid()
    ensures ReadAs(res, Many(count, DiagnosisParser(t), old(r.Rest())), r.Rest())
  {
    hide DecodeDiagnosis;
    ghost var start := r.Rest();
    var ds := [];
    var i := 0;
    while i < count
      invariant r.Valid() && i <= count
      invariant Many(i, DiagnosisParser(t), start) == Ok((ds, r.Rest()))
    {
      ManyStep(i, DiagnosisParser(t), start);
      var d := ReadDiagnosis(r, t);
      if d.Err? {
        ManyErrPersists(i + 1, count, DiagnosisParser(t), start);
        return Err(d.error);
      }
      ds := ds + [d.value];
      i := i + 1;
    }
    return Ok(ds);
  }

  /** Algorithm#to_file */
  method WriteAlgorithm(w: Writer, t: Tables, a: Algorithm) returns (res: Result<()>)
    modifies w
    ensures Wrote(res, EncodeAlgorithm(t, a), old(w.out), w.out)
  {
    hide EncodeDiagnosis, EncodeAll, AlgorithmPrefix;
    var prefix := AlgorithmPrefix(a.name, a.sym, |a.diagnoses|);
    w.Write(prefix);
    res := WriteDiagnoses(w, t, a.diagnoses);
    if res.Ok? {
      AppendedTwo(old(w.out), prefix, EncodeAll(a.diagnoses, DiagnosisEncoder(t)).value);
    }
  }

  /** Algorithm.from_file */
  method ReadAlgorithm(r: Reader, t: Tables) returns (res: Result<Algorithm>)
    requires r.Valid()
    modifies r
    ensures r.Valid()
    ensures ReadAs(res, DecodeAlgorithm(t, old(r.Rest())), r.Rest())
  {
    var buf :- r.Read(ALGORITHM_SIZE);
    hide DecodeDiagnosis, Many, LeValue, StripA, Take;
    var ds :- ReadDiagnoses(r, t, LeValue(buf[72..76]));
    return Ok(Algorithm(StripA(buf[..64]), StripA(buf[64..72]), ds));
  }

  /** The `algorithms.each { |a| a.to_file(f) }` loop of Dgo#to_file. */
  method WriteAlgorithms(w: Writer, t: Tables, algorithms: seq<Algorithm>) returns (res: Result<()>)
    modifies w
    ensures Wrote(res, EncodeAll(algorithms, AlgorithmEncoder(t)), old(w.out), w.out)
  {
    hide EncodeAlgorithm;
    var i := 0;
    while i < |algorithms|
      invariant 0 <= i <= |algorithms|
      invariant EncodeAll(algorithms[..i], AlgorithmEncoder(t)).Ok?
      invariant w.out == old(w.out) + EncodeAll(algorithms[..i], AlgorithmEncoder(t)).value
    {
      ghost var before := w.out;
      var written := WriteAlgorithm(w, t, algorithms[i]);
      if written.Err? {
        EncodeAllStops(algorithms, AlgorithmEncoder(t), i);
        return written;
      }
      WroteNext(algorithms, AlgorithmEncoder(t), i, old(w.out), before, w.out);
      i := i + 1;
    }
    assert algorithms[..i] == algorithms;
    return Ok(());
  }

  /** Dgo#to_file */
  method WriteDgo(w: Writer, t: Tables, dgo: Dgo) returns (res: Result<()>)
    modifies w
    ensures Wrote(res, EncodeDgo(t, dgo.timestamp, dgo.algorithms), old(w.out), w.out)
  {
    var algorithms := dgo.algorithms;
    var header := DgoHeader(dgo.timestamp, |algorithms|);
    assert EncodeDgo(t, dgo.timestamp, algorithms)
        == match EncodeAll(algorithms, AlgorithmEncoder(t))
           case Ok(body) => Ok(header + body)
           case Err(e) => Err(e);
    hide EncodeAlgorithm, EncodeAll, DgoHeader, AlgorithmEncoder, EncodeDgo;
    w.Write(header);
    res := WriteAlgorithms(w, t, algorithms);
    if res.Ok? {
      AppendedTwo(old(w.out), header, EncodeAll(algorithms, AlgorithmEncoder(t)).value);
    }
  }

  /** The `num_algos.times { dgo.algorithms << Algorithm.from_file(f) }`
      loop of Dgo.from_file: appends each algorithm read to the document. */
  method ReadAlgorithms(r: Reader, t: Tables, dgo: Dgo, count: nat) returns (res: Result<()>)
    requires r.Valid()
    modifies r, dgo
    ensures r.Valid() && dgo.timestamp == old(dgo.timestamp)
    ensures match Many(count, AlgorithmParser(t), old(r.Rest()))
      case Ok((algorithms, rest)) =>
        res == Ok(()) && dgo.algorithms == old(dgo.algorithms) + algorithms && r.Rest() == rest
      case Err(e) => res == Err(e)
  {
    hide DecodeAlgorithm;
    ghost var start := r.Rest();
    ghost var first := dgo.algorithms;
    var i := 0;
    while i < count
      invariant r.Valid() && i <= count && dgo.timestamp == old(dgo.timestamp)
      invariant Many(i, AlgorithmParser(t), start).Ok?
      invariant dgo.algorithms == first + Many(i, AlgorithmParser(t), start).value.0
      invariant r.Rest() == Many(i, AlgorithmParser(t), start).value.1
    {
      ManyStep(i, AlgorithmParser(t), start);
      var a := ReadAlgorithm(r, t);
      if a.Err? {
        ManyErrPersists(i + 1, count, AlgorithmParser(t), start);
        return Err(a.error);
      }
      dgo.Append(a.value);
      i := i + 1;
    }
    return Ok(());
  }

  /** Dgo.from_file */
  method ReadDgo(r: Reader, t: Tables) returns (res: Result<Dgo>)
    requires r.Valid()
    modifies r
    ensures r.Valid()
    ensures match DecodeDgo(t, old(r.Rest()))
      case Ok((image, rest)) =>
        res.Ok? && fresh(res.value) && r.Rest() == rest &&
        res.value.timestamp == image.timestamp && res.value.algorithms == image.algorithms
      case Err(e) => res == Err(e)
  {
    var buf :- r.Read(8);
    var prefix := Prefix(StripA(buf[..4]), buf[4..8]);
    if prefix.magic != MAGIC {
      return Err(MagicMismatch);
    }
    var size := BodyHeaderSize(prefix.version);
    var body :- r.Read(size);
    var timestamp := LeValue(body[..size - 4]);
    var count := LeValue(body[size - 4..]);
    var dgo := new Dgo(timestamp);
    hide DecodeAlgorithm, Many, LeValue, StripA, Take, BodyHeaderSize;
    var read := ReadAlgorithms(r, t, dgo, count);
    if read.Err? {
      return Err(read.error);
    }
    return Ok(dgo);
  }
}
