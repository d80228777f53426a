# mcg-file binary containers, modelled in Dafny

This project models the binary file codecs of the mcg-file library. These
are the container files that an MCG (magnetocardiography) analysis pipeline
reads and writes, and the in-memory objects they load into:

- **DCF**: disease control factors. These are typed values that weight the
  diagnoses, kept in a timestamped `Dcf::List` (`lib/mcg/diagnosis/dcf.rb`,
  `dcf_file.rb`).
- **DGO**: the diagnoses each algorithm produced, with their typed values and
  references (`dgo_file.rb`). The built-in diagnosis constants, the standard
  output list, the legacy symbol and comment tables, and `name_to_sym` /
  `sym_to_name` come from `dgo_diagnoses.rb`.
- **DSP**: signal-processing operations on one lead or a pair of leads
  (`dsp.rb`, `dsp_ops.rb`, `dsp_file.rb`). This includes the twelve standard
  operations `create_std_ops` makes, and the legacy K52 layout with and
  without its P56 preamble.
- **SAR**: signal-analysis results (`sar.rb`, `sar_file.rb`). These are
  analyses holding indexes and intermediate data. `sar_indexes.rb` adds the
  built-in analyses, the 132 legacy indexes and the three legacy exports
  (`legacy_indexes`, `to_llo`, `to_llo_x`).
- **ECG**: waveform samples (`signal_sample.rb`, `ecg_file.rb`). A `Sample`
  holds the `SignalSample` recordings keyed by signal name, plus the
  `SignalPair`s. There are two body-header layouts, and the legacy K32 file
  is recognised by its length.

Every container starts with a 4-byte magic and a binary32 version (module
`Header`). The version selects one of two body-header layouts. Bytes are
`seq<Byte>`. Ruby's `Array#pack` / `String#unpack` for the directives the
codecs build at run time are modelled in `Pack`, `IntArrays` and `Bytes`.
Every record codec is a pair of pure functions:

- an encoder, `T -> Result<Bytes>`;
- a parser, `Bytes -> Result<(T, Bytes)>`.

Round-trip lemmas connect each pair. The `from_file` / `to_file` methods of
each container loop over a `Stream.Reader` or `Stream.Writer`. Each method's
`ensures` ties the bytes consumed or written, and the objects created, to
those functions. The generic combinators `Stream.Many` (for
`n.times { list << read }`) and `Stream.EncodeAll` (for `each { write }`)
express this.

Objects whose fields the source updates in place are classes:

- `Dcf.List`
- `Dsp.Dsp`, `Dsp.Op`
- `Sar.Sar`, `Sar.Analysis`
- `Signals.SignalSample`, `Signals.Sample`
- `DgoFile.Dgo`

Records that are only built and read are datatypes. Each raise the codecs
can reach is one constructor of `Results.Error`: `ShortRead`,
`MagicMismatch`, `UnknownTypeTag`, `TypeMismatch`, `NoMethod`,
`MissingConstant` and the others.

## Model

| member | source | states |
|---|---|---|
| Bytes.Pow256 | lib/mcg/diagnosis/dcf_file.rb:57-62 | the range of an n-byte field is positive |
| Bytes.Pow256Values | lib/mcg/diagnosis/dcf_file.rb:57-62 | the ranges of the 1-, 2-, 4- and 8-byte fields |
| Bytes.LeValue | lib/mcg/signal_analysis/sar_file.rb:12-20 | the unsigned value of an n-byte little-endian field is below 256^n |
| Bytes.HalfEven | lib/mcg/signal_analysis/ecg_file.rb:17-25 | an n-byte field has as many negative values as non-negative ones |
| Bytes.LeSigned | lib/mcg/signal_analysis/ecg_file.rb:17-25 | the signed value of an n-byte field lies in its two's-complement range |
| Bytes.LeBytes | lib/mcg/signal_analysis/sar_file.rb:13-34 | an integer pack directive writes exactly n bytes |
| Bytes.UnsignedRoundTrip | lib/mcg/signal_analysis/sar_file.rb:12-13 | an unsigned field reads back every value it can hold |
| Bytes.LeBytesWrap | lib/mcg/signal_analysis/sar_file.rb:13-34 | integer fields wrap: adding 256^n does not change the bytes written |
| Bytes.SignedRoundTrip | lib/mcg/signal_analysis/ecg_file.rb:25-38 | a signed field reads back every value in its range |
| Bytes.LeBytesInjective | lib/mcg/signal_analysis/sar_file.rb:12-13 | writing the value a field holds gives back the field |
| Bytes.StringBytes | lib/mcg/signal_analysis/sar_file.rb:13 | one byte per character |
| Bytes.RawString | lib/mcg/signal_analysis/sar_file.rb:24-25 | unpack "a" gives one character per byte, nothing removed |
| Bytes.PadA | lib/mcg/signal_analysis/sar_file.rb:13-32 | pack "aN" writes exactly N bytes |
| Bytes.StripA | lib/mcg/signal_analysis/sar_file.rb:12-20 | unpack "AN" removes exactly the trailing NUL and space bytes and keeps the rest |
| Bytes.Zeros | lib/mcg/signal_analysis/sar_file.rb:13 | k NUL bytes |
| Bytes.StripPadding | lib/mcg/signal_analysis/sar_file.rb:12-13 | stripping removes exactly the NUL padding behind content that does not end in a pad byte |
| Bytes.ZerosShorter | lib/mcg/signal_analysis/sar_file.rb:12-13 | dropping the last byte of padding leaves one NUL fewer |
| Bytes.StripDrops | lib/mcg/signal_analysis/sar_file.rb:12 | a field ending in a pad byte strips as the field without it |
| Bytes.StripKept | lib/mcg/signal_analysis/sar_file.rb:12 | a field not ending in a pad byte strips to all of it |
| Bytes.PaddedBytes | lib/mcg/signal_analysis/sar_file.rb:13 | a string that fits is packed as its bytes followed by NULs |
| Bytes.RawStringBytes | lib/mcg/signal_analysis/sar_file.rb:24-25 | single-byte characters read back from their bytes |
| Bytes.FixedFieldRoundTrip | lib/mcg/signal_analysis/sar_file.rb:12-13 | unpack "AN" of pack "aN" gives back every string that fits the field |
| Bytes.RawFieldRoundTrip | lib/mcg/signal_analysis/sar_file.rb:24-38 | unpack "aN" gives back a string of exactly N one-byte characters |
| Bytes.RubyAt | lib/mcg/signal_analysis/sar_file.rb:22 | Array#[] counts a negative index from the end and gives nil outside the array |
| Bytes.RubyIndex | lib/mcg/signal_analysis/sar.rb:89 | the position Array#[] reads, existing exactly for -n <= i < n |
| Bytes.IndexOf | lib/mcg/signal_analysis/sar.rb:34-40 | Array#index: a position exactly for an element of the array, the first holding it |
| Bytes.IndexOfAt | lib/mcg/signal_analysis/sar.rb:34-40 | Array#index finds k when no earlier element equals the one at k |
| Float32.Pow2 | lib/mcg/signal_analysis/sar.rb:148-150 | powers of two are positive |
| Float32.Decode | lib/mcg/signal_analysis/sar.rb:148-150 | a binary32 word is NaN or infinite exactly when its exponent field is all ones |
| Float32.Truncate | lib/mcg/signal_analysis/sar_indexes.rb:983 | Float#to_i truncates toward zero, and raises on NaN and the infinities |
| Float32.Pow2Values | lib/mcg/signal_analysis/sar_file.rb:124 | 2^22 and 2^23 |
| Float32.DecodeNear | lib/mcg/signal_analysis/sar_file.rb:124 | the value of a normal word with exponent field 127 or 128 |
| Float32.VersionValues | lib/mcg/signal_analysis/sar_file.rb:108-124 | the exact binary32 values of the versions written: 1.1, 1.2, 2.2 and 3.0 |
| Float32.OneValue | lib/mcg/signal_analysis/sar.rb:127 | the words of 1.0 and 1.3 |
| Float32.ZeroValue | lib/mcg/signal_analysis/sar.rb:128 | the word of 0.0 |
| Header.Abs | lib/mcg/signal_analysis/sar_file.rb:124 | Float#abs is non-negative and is the value or its negation |
| Header.NearNegativeNever | lib/mcg/diagnosis/dgo_file.rb:128 | a test (version - c).abs <= tol with a negative tolerance never holds |
| Header.ReadPrefix | lib/mcg/signal_analysis/sar_file.rb:100-116 | reading the 8-byte prefix succeeds exactly when 8 bytes remain, and gives a 4-byte version |
| Header.WritePrefix | lib/mcg/signal_analysis/sar_file.rb:106-140 | the prefix written is 8 bytes |
| Header.PrefixRoundTrip | lib/mcg/signal_analysis/sar_file.rb:114-140 | a magic and version written read back unchanged |
| Header.MagicExact | lib/mcg/signal_analysis/sar_file.rb:116-119 | the magic read equals a four-character magic exactly when the first four bytes are that magic |
| IntArrays.PackInts | lib/mcg/signal_analysis/ecg_file.rb:38 | n elements of width w pack to n times w bytes |
| IntArrays.UnpackInts | lib/mcg/signal_analysis/ecg_file.rb:25 | unpacking n elements yields n elements or ShortRead |
| IntArrays.UnpackIntsShort | lib/mcg/signal_analysis/ecg_file.rb:24-25 | reading n elements fails exactly when fewer than n times w bytes are there |
| IntArrays.IntsRoundTrip | lib/mcg/signal_analysis/ecg_file.rb:25-38 | elements that fit the width read back as packed, leaving what follows |
| IntArrays.UnpackNone | lib/mcg/signal_analysis/ecg_file.rb:25 | reading zero elements reads nothing |
| Lex.LeTotal | lib/mcg/signal_analysis/dsp.rb:151 | any two strings compare one way or the other |
| Lex.LeTrans | lib/mcg/signal_analysis/dsp.rb:151 | the string order is transitive |
| Lex.LeAntisymmetric | lib/mcg/signal_analysis/dsp.rb:151 | strings that compare both ways are equal |
| Lex.LeRefl | lib/mcg/signal_analysis/dsp.rb:151 | every string is at most itself |
| Lex.InsertFront | lib/mcg/signal_analysis/dsp.rb:151 | a string not above the head of a sorted list can go in front |
| Lex.InsertBehind | lib/mcg/signal_analysis/dsp.rb:151 | the head of a sorted list stays in front after an insertion behind it |
| Lex.Insert | lib/mcg/signal_analysis/dsp.rb:151 | insertion keeps a list sorted and adds exactly the one string |
| Lex.Sort | lib/mcg/signal_analysis/dsp.rb:151 | Array#sort: the same strings, each as often, in ascending order |
| Lex.HeadLeast | lib/mcg/signal_analysis/dsp.rb:151 | the head of a sorted list is not above any element |
| Lex.SortedTail | lib/mcg/signal_analysis/dsp.rb:151 | the tail of a sorted list is sorted |
| Lex.HeadsEqual | lib/mcg/signal_analysis/dsp.rb:151 | two sorted listings of the same strings start alike |
| Lex.TailMultiset | lib/mcg/signal_analysis/dsp.rb:151 | the tail holds all but the head |
| Lex.SortedUnique | lib/mcg/signal_analysis/dsp.rb:151 | two sorted listings of the same strings are the same listing |
| Lex.DistinctAt | lib/mcg/signal_analysis/dsp.rb:156 | an element of a distinct list occurs once |
| Lex.Uniq | lib/mcg/signal_analysis/dsp.rb:156 | Array#uniq: no repeats, and exactly the elements of the input |
| Lex.IndexOfPrefix | lib/mcg/signal_analysis/dsp.rb:156 | the first position of an element of the front is found in the front |
| Lex.UniqOrder | lib/mcg/signal_analysis/dsp.rb:156 | uniq keeps first-appearance order |
| Pack.Length | lib/mcg/diagnosis/dcf.rb:51-57 | data.length exists exactly for strings and arrays |
| Pack.DigitPrefix | lib/mcg/signal_analysis/sar_file.rb:24-25 | the decimal digits at the front of a template |
| Pack.Decimal | lib/mcg/signal_analysis/sar_file.rb:24-37 | Integer#to_s gives decimal digits that spell the number |
| Pack.ParseDecimal | lib/mcg/signal_analysis/sar_file.rb:24-37 | a letter followed by a count written in decimal is read as that directive and count |
| Pack.DigitPrefixOfDigits | lib/mcg/signal_analysis/sar_file.rb:24 | a string of digits is its own digit prefix |
| Pack.Width | lib/mcg/signal_analysis/sar_file.rb:74 | the numeric directives are 0, 1, 2, 4 or 8 bytes wide |
| Pack.WidthOfKnown | lib/mcg/signal_analysis/sar_file.rb:74 | exactly the integer and float directives have a width |
| Pack.PackNumber | lib/mcg/diagnosis/dcf_file.rb:31 | one number packs to the directive's width |
| Pack.PackNumbers | lib/mcg/signal_analysis/sar_file.rb:37-38 | packing numbers succeeds exactly when each packs |
| Pack.PackItems | lib/mcg/signal_analysis/sar_file.rb:37-38 | a string directive writes exactly its count of bytes; an unknown directive writes nothing |
| Pack.PadSpaces | lib/mcg/diagnosis/dgo_file.rb:47 | pack "AN" writes exactly N bytes |
| Pack.UnpackNumbers | lib/mcg/signal_analysis/sar_file.rb:25 | reading n numbers yields n items or ShortRead |
| Pack.UnpackItems | lib/mcg/signal_analysis/sar_file.rb:25 | a string directive reads one string, a numeric one count numbers; only a numeric one can fail, short; an unknown one reads nothing |
| Pack.UnpackNumbersShort | lib/mcg/signal_analysis/sar_file.rb:23-25 | reading n numbers fails exactly when fewer than n times the width bytes are there |
| Pack.PackedWidth | lib/mcg/signal_analysis/sar_file.rb:37-38 | a numeric directive writes items times width bytes |
| Pack.PackedSize | lib/mcg/signal_analysis/sar_file.rb:33-38 | what a directive writes is exactly its size |
| Pack.NumberRoundTrip | lib/mcg/diagnosis/dcf_file.rb:31-44 | a number that fits its directive reads back unchanged |
| Pack.UnpackNumbersCons | lib/mcg/signal_analysis/sar_file.rb:25 | reading n+1 numbers reads the first from its width and the rest after it |
| Pack.PackNumbersCons | lib/mcg/signal_analysis/sar_file.rb:38 | packing a list packs its head, then its tail |
| Pack.NumbersEmpty | lib/mcg/signal_analysis/sar_file.rb:25-38 | no items pack to nothing, and reading none consumes nothing |
| Pack.NumbersRoundTripFrom | lib/mcg/signal_analysis/sar_file.rb:25-38 | numbers that fit read back as packed, leaving what follows |
| Pack.PackItemsNumeric | lib/mcg/signal_analysis/sar_file.rb:38 | a numeric directive packs the first count items |
| Pack.UnpackItemsNumeric | lib/mcg/signal_analysis/sar_file.rb:25 | a numeric directive reads count numbers |
| Pack.PackOneNumber | lib/mcg/diagnosis/dcf_file.rb:31 | a count-1 directive writes the one number |
| Pack.UnpackOneChar | lib/mcg/signal_analysis/sar_file.rb:25 | "a1" reads the first byte as a one-character string |
| Pack.NumbersRoundTrip | lib/mcg/signal_analysis/sar_file.rb:25-38 | a numeric directive with the item count reads back the items it wrote |
| Pack.StringFieldRoundTrip | lib/mcg/diagnosis/dgo_file.rb:47-59 | "aN" then "AN" give back every string that fits the field |
| Stream.Take | lib/mcg/signal_analysis/sar_file.rb:18 | IO#read(n) that must deliver n bytes: the first n and the rest, failing exactly when fewer remain |
| Stream.Many | lib/mcg/signal_analysis/sar_file.rb:74 | n.times { list << read } yields n values |
| Stream.EncodeAll | lib/mcg/signal_analysis/sar_file.rb:94-95 | writing a list succeeds exactly when every element can be written |
| Stream.ManyRoundTrip | lib/mcg/signal_analysis/sar_file.rb:74-95 | reading n values from the n encodings gives back each value, leaving what follows |
| Stream.ManyConsumes | lib/mcg/signal_analysis/sar_file.rb:74 | when each parse consumes w bytes, n parses consume n times w |
| Stream.ManyErrPersists | lib/mcg/signal_analysis/sar_file.rb:74 | once reading m values fails, reading more fails the same way |
| Stream.ManyStep | lib/mcg/signal_analysis/sar_file.rb:74 | reading one value more extends a successful read by it |
| Stream.EncodeAllNone | lib/mcg/signal_analysis/sar_file.rb:94 | nothing is written before the first element |
| Stream.EncodeAllStep | lib/mcg/signal_analysis/sar_file.rb:94 | writing one element more extends the output by its encoding, or fails with its error |
| Stream.WroteNext | lib/mcg/signal_analysis/sar_file.rb:94 | a writer that wrote the first i encodings and then the next one wrote the first i+1 |
| Stream.EncodeAllStops | lib/mcg/signal_analysis/sar_file.rb:143-145 | the first element that cannot be written decides the failure of the whole list |
| Stream.TakeParsed | lib/mcg/signal_analysis/sar_file.rb:18 | a read consumes a prefix of the input |
| Stream.Reader.constructor | lib/mcg/signal_analysis/sar_file.rb:112 | a new reader is at the start of the file |
| Stream.Reader.Read | lib/mcg/signal_analysis/sar_file.rb:18 | IO#read(n): the next n bytes, or ShortRead when fewer remain |
| Stream.Reader.Remaining | lib/mcg/signal_analysis/ecg_file.rb:89-93 | the length from the read position to the end of the file |
| Stream.Reader.Rewind | lib/mcg/signal_analysis/ecg_file.rb:89 | seeking back makes the bytes passed over unread again |
| Stream.Reader.Skip | lib/mcg/signal_analysis/ecg_file.rb:134 | seeking forward skips n bytes, or to the end |
| Stream.Writer.constructor | lib/mcg/signal_analysis/sar_file.rb:138 | a new writer has written nothing |
| Stream.Writer.Write | lib/mcg/signal_analysis/sar_file.rb:141 | IO#write appends the bytes |
| Dcf.BinaryDatatype | lib/mcg/diagnosis/dcf.rb:43-45 | a found position is a position in TYPES holding the value's tag |
| Dcf.TagIndexIsIndexOf | lib/mcg/diagnosis/dcf.rb:35-45 | the tag position is Array#index on TYPES: the first match, nil for a tag not in the table |
| Dcf.TypeSize | lib/mcg/diagnosis/dcf.rb:47-49 | a tag not in TYPES falls back to position 0 and so width 0; every width is 0, 1, 4 or 8 |
| Dcf.DataSize | lib/mcg/diagnosis/dcf.rb:51-57 | a non-zero table width is the data size; width 0 gives the data's length, an error for data without one |
| Dcf.ToS | lib/mcg/diagnosis/dcf.rb:59-67 | 'c' shows the first character of its string, width-0 tags show "[Array]", all other tags show their data |
| Dcf.TablesAligned | lib/mcg/diagnosis/dcf.rb:35-36 | TYPES and TYPE_SIZES have 8 entries each; each tag read as a pack directive has exactly its TYPE_SIZES width; only 'o' is an unknown directive |
| Dcf.TagAt | lib/mcg/diagnosis/dcf.rb:35-45 | every tag of TYPES is found at its own position (the table has no duplicates) |
| Dcf.TypeSizes | lib/mcg/diagnosis/dcf.rb:35-49 | for every tag of TYPES, type_size is its TYPE_SIZES entry and binary_datatype its position |
| Dcf.List.constructor | lib/mcg/diagnosis/dcf.rb:119-122 | a new list holds the given timestamp and factors |
| Dcf.List.Append | lib/mcg/diagnosis/dcf.rb:116 | `<<` appends one factor at the end and keeps the timestamp |
| DcfFile.PayloadItem | lib/mcg/diagnosis/dcf_file.rb:29-30 | the packed item is never nil (nil becomes 0); for any tag but 'c', non-nil data is packed as it is |
| DcfFile.EncodePrefix | lib/mcg/diagnosis/dcf_file.rb:26-27 | the 76-byte prefix can be written exactly when the tag is in TYPES and data_size succeeds |
| DcfFile.EncodeRecord | lib/mcg/diagnosis/dcf_file.rb:25-33 | a record can be written only when its prefix can; EncodeRecordShape and RecordRoundTrip state its bytes |
| DcfFile.DecodeRecord | lib/mcg/diagnosis/dcf_file.rb:35-48 | reading a record consumes a prefix of the input; DecodeRecordShape and RecordRoundTrip state what it reads |
| DcfFile.RecordPrefix | lib/mcg/diagnosis/dcf_file.rb:21-23 | the prefix is 76 bytes: name NUL-padded to 64, symbol to 8, then the int32 tag index |
| DcfFile.RecordSize | lib/mcg/diagnosis/dcf_file.rb:25-33 | a written record is 76 bytes plus the tag's table width |
| DcfFile.DecodedRecordWidth | lib/mcg/diagnosis/dcf_file.rb:35-48 | a record read back has a tag from TYPES other than 'c' and uses 76 bytes plus that tag's table width |
| DcfFile.ZeroFloatRoundTrip | lib/mcg/diagnosis/dcf_file.rb:29-31 | nil float data is written as 0 and read back as the all-zero word |
| DcfFile.OpaquePayloadRoundTrip | lib/mcg/diagnosis/dcf_file.rb:31-44 | 'o' writes no bytes and reads back nil |
| DcfFile.CharPayloadRoundTrip | lib/mcg/diagnosis/dcf_file.rb:29-44 | a 'c' value writes the byte of its first character and reads back as 'a1' holding that character |
| DcfFile.CharPacked | lib/mcg/diagnosis/dcf_file.rb:29-31 | a 'c' value packs as the byte of its first character, NUL for an empty string |
| DcfFile.CharUnpacked | lib/mcg/diagnosis/dcf_file.rb:43-44 | one byte unpacked under "a1" is the one-character string |
| DcfFile.StringPayloadRoundTrip | lib/mcg/diagnosis/dcf_file.rb:31-44 | an 'a1' value writes the byte of its first character and reads that character back |
| DcfFile.NumberPayloadRoundTrip | lib/mcg/diagnosis/dcf_file.rb:29-44 | a numeric tag writes exactly its width and reads its item back; nil is read back as the 0 of its kind |
| DcfFile.PayloadRoundTrip | lib/mcg/diagnosis/dcf_file.rb:25-48 | for every tag of the table, the payload read back is the stored form of the value written |
| DcfFile.EncodeRecordShape | lib/mcg/diagnosis/dcf_file.rb:25-33 | a storable factor's record is its 76-byte prefix followed by its payload |
| DcfFile.DecodeRecordShape | lib/mcg/diagnosis/dcf_file.rb:35-48 | reading a record strips both names, reads exactly the table width and unpacks it with the read-back tag |
| DcfFile.StoredTag | lib/mcg/diagnosis/dcf_file.rb:40-43 | a value is read back with the tag at its position, with 'c' turned into 'a1' |
| DcfFile.RecordRoundTrip | lib/mcg/diagnosis/dcf_file.rb:25-48 | a storable factor read back after being written is its stored form, and the bytes after it are left unread |
| DcfFile.VersionSelectsHeader | lib/mcg/diagnosis/dcf_file.rb:58-89 | the version written (1.1 as binary32) selects the 12-byte header; a stored 1.0 selects the 8-byte one |
| DcfFile.EncodeList | lib/mcg/diagnosis/dcf_file.rb:66-73 | writing a list succeeds exactly when every record can be written |
| DcfFile.ListHeader | lib/mcg/diagnosis/dcf_file.rb:62-67 | the list header is 20 bytes: magic and version, uint64 timestamp, uint32 count |
| DcfFile.ListMagic | lib/mcg/diagnosis/dcf_file.rb:77-81 | any magic other than "DCFl" is refused; a list that reads starts with "DCFl" |
| DcfFile.DecodeList | lib/mcg/diagnosis/dcf_file.rb:75-99 | a file is read as a list only when it starts with "DCFl"; DecodeListShape and ListRoundTrip state the rest |
| DcfFile.DecodeListShape | lib/mcg/diagnosis/dcf_file.rb:84-98 | after a written header, reading gives the timestamp and then the number of records the count announces |
| DcfFile.EncodeListShape | lib/mcg/diagnosis/dcf_file.rb:66-73 | a list is written as its header followed by its records, one after another |
| DcfFile.RecordsRoundTrip | lib/mcg/diagnosis/dcf_file.rb:70-96 | storable records written one after another read back as their stored forms, in order |
| DcfFile.ListRoundTrip | lib/mcg/diagnosis/dcf_file.rb:66-99 | a list read back after being written keeps its timestamp and has each factor's stored form, in order |
| DcfFile.WriteRecord | lib/mcg/diagnosis/dcf_file.rb:25-33 | writes exactly EncodeRecord's bytes, or fails with its error |
| DcfFile.ReadRecord | lib/mcg/diagnosis/dcf_file.rb:35-48 | consumes and returns what DecodeRecord reads from the remaining input |
| DcfFile.WriteRecords | lib/mcg/diagnosis/dcf_file.rb:70-72 | the loop writes each record in turn: EncodeAll over the factors |
| DcfFile.WriteList | lib/mcg/diagnosis/dcf_file.rb:66-73 | writes exactly EncodeList's bytes for the list's timestamp and factors |
| DcfFile.ReadRecords | lib/mcg/diagnosis/dcf_file.rb:94-96 | appends the count records read to the list, or fails with the first record's error |
| DcfFile.ReadList | lib/mcg/diagnosis/dcf_file.rb:75-99 | returns a new list holding what DecodeList reads, and consumes exactly those bytes |
| DgoFile.TypeIndex | lib/mcg/diagnosis/dgo_file.rb:13-44 | the tag's position is found exactly when the tag is in Value::TYPES, and that position holds the tag |
| DgoFile.DataSize | lib/mcg/diagnosis/dgo_file.rb:44-45 | data_size succeeds only for a tag in the table |
| DgoFile.PackStr | lib/mcg/diagnosis/dgo_file.rb:12-15 | pack_str succeeds only for a tag in the table |
| DgoFile.PackStrSize | lib/mcg/diagnosis/dgo_file.rb:12-47 | for a storable value, pack_str is one directive that writes exactly data_size bytes: "a<length>" for a string, the bare tag for a number |
| DgoFile.RefBytes | lib/mcg/diagnosis/dgo_file.rb:19-25 | a reference is 200 bytes: the int32 tag index, three 64-byte NUL-padded labels, the binary32 weight |
| DgoFile.EncodeRef | lib/mcg/diagnosis/dgo_file.rb:23-27 | a written reference is 200 bytes, and writing one succeeds only for a tag of Ref::TYPES |
| DgoFile.DecodeRef | lib/mcg/diagnosis/dgo_file.rb:29-34 | reading a reference succeeds exactly when 200 bytes remain; it consumes exactly those bytes and reads the weight as a binary32 word |
| DgoFile.DecodeRefShape | lib/mcg/diagnosis/dgo_file.rb:29-34 | a reference read from 200 bytes has the Ref::TYPES entry at the stored index (nil when there is none), the three stripped labels and the weight word |
| DgoFile.RefRoundTrip | lib/mcg/diagnosis/dgo_file.rb:23-34 | a storable reference read back after being written is unchanged, and the bytes after it are left unread |
| DgoFile.DiagnosisPrefix | lib/mcg/diagnosis/dgo_file.rb:39-45 | the diagnosis prefix is 88 bytes: name (64), symbol (8), int32 positive flag 1 or 0, int32 tag index, uint32 payload size, uint32 reference count |
| DgoFile.EncodeDiagnosis | lib/mcg/diagnosis/dgo_file.rb:43-50 | writing a diagnosis succeeds only when its tag is in the table and every reference can be written |
| DgoFile.StoredTag | lib/mcg/diagnosis/dgo_file.rb:56 | Value::TYPES at the stored index (a Ruby index, so negative ones count from the end); an index with no entry fails |
| DgoFile.RefParserWidth | lib/mcg/diagnosis/dgo_file.rb:21-30 | each reference read consumes exactly 200 bytes |
| DgoFile.DecodedDiagnosisTail | lib/mcg/diagnosis/dgo_file.rb:52-66 | a diagnosis read back ends where its references end, read from just after the stated payload size |
| DgoFile.DecodedDiagnosisWidth | lib/mcg/diagnosis/dgo_file.rb:52-66 | a diagnosis read back uses its 88-byte prefix, exactly the stated payload size and 200 bytes per stated reference |
| DgoFile.DecodeDiagnosis | lib/mcg/diagnosis/dgo_file.rb:52-66 | a diagnosis that reads had its 88-byte prefix and the stated payload size available, and holds as many references as its count says |
| DgoFile.PayloadRoundTrip | lib/mcg/diagnosis/dgo_file.rb:47-59 | a storable value's payload is data_size bytes and reads back, with "A<size>" for 'a' or else the tag, as the value's data |
| DgoFile.EncodeDiagnosisShape | lib/mcg/diagnosis/dgo_file.rb:43-50 | a storable diagnosis is written as its prefix, then its payload, then its references |
| DgoFile.PayloadFits | lib/mcg/diagnosis/dgo_file.rb:44-47 | a storable value's tag index fits the int32 field, its size fits the uint32 field, and its payload reads back as its data |
| DgoFile.DecodeDiagnosisFrom | lib/mcg/diagnosis/dgo_file.rb:52-66 | a prefix holding d's name, symbol, flag, tag and payload size, then d's payload, then bytes that read as d's references, reads back as d |
| DgoFile.StoredTagAt | lib/mcg/diagnosis/dgo_file.rb:56 | a stored in-range index selects its own table entry |
| DgoFile.RefsRoundTrip | lib/mcg/diagnosis/dgo_file.rb:49-63 | storable references written one after another read back unchanged and in order |
| DgoFile.DiagnosisRoundTrip | lib/mcg/diagnosis/dgo_file.rb:43-66 | a storable diagnosis read back after being written is unchanged, and the bytes after it are left unread |
| DgoFile.DiagnosisFromParts | lib/mcg/diagnosis/dgo_file.rb:43-66 | a written prefix, a payload that reads back and encoded references together read back as the diagnosis |
| DgoFile.DiagnosisPrefixFields | lib/mcg/diagnosis/dgo_file.rb:39-55 | each field of a written diagnosis prefix reads back as written, and any non-zero flag reads as positive |
| DgoFile.AlgorithmPrefix | lib/mcg/diagnosis/dgo_file.rb:71-76 | the algorithm prefix is 76 bytes: name (64), symbol (8), uint32 diagnosis count |
| DgoFile.EncodeAlgorithm | lib/mcg/diagnosis/dgo_file.rb:75-79 | writing an algorithm succeeds exactly when every diagnosis can be written |
| DgoFile.DecodeAlgorithm | lib/mcg/diagnosis/dgo_file.rb:81-90 | an algorithm that reads had at least its 76-byte prefix available |
| DgoFile.DiagnosesRoundTrip | lib/mcg/diagnosis/dgo_file.rb:78-87 | storable diagnoses written one after another read back unchanged and in order |
| DgoFile.AlgorithmPrefixFields | lib/mcg/diagnosis/dgo_file.rb:71-83 | each field of a written algorithm prefix reads back as written |
| DgoFile.AlgorithmRoundTrip | lib/mcg/diagnosis/dgo_file.rb:75-90 | a storable algorithm read back after being written is unchanged, with its diagnoses in order |
| DgoFile.HeaderAlways12 | lib/mcg/diagnosis/dgo_file.rb:126-131 | the 8-byte header test compares a distance against -0.1, so it never holds: every version, 1.0 included, selects the 12-byte header |
| DgoFile.DgoHeader | lib/mcg/diagnosis/dgo_file.rb:101-107 | the DGO header is 20 bytes: "DGOl", 1.1, uint64 timestamp, uint32 algorithm count |
| DgoFile.EncodeDgo | lib/mcg/diagnosis/dgo_file.rb:105-113 | writing a DGO succeeds exactly when every algorithm can be written |
| DgoFile.DgoMagic | lib/mcg/diagnosis/dgo_file.rb:117-123 | any magic other than "DGOl" is refused; a DGO that reads starts with "DGOl" |
| DgoFile.DecodeDgo | lib/mcg/diagnosis/dgo_file.rb:115-141 | a file is read as a DGO only when it starts with "DGOl"; DecodeDgoShape and DgoRoundTrip state the rest |
| DgoFile.DecodeDgoShape | lib/mcg/diagnosis/dgo_file.rb:125-140 | after a written header, reading gives the timestamp and then the number of algorithms the count announces |
| DgoFile.DgoRoundTrip | lib/mcg/diagnosis/dgo_file.rb:105-141 | a DGO read back after being written keeps its timestamp and its algorithms, unchanged and in order |
| DgoFile.Dgo.constructor | lib/mcg/diagnosis/dgo_file.rb:135 | Dgo.new(timestamp) has that timestamp and no algorithms |
| DgoFile.Dgo.Append | lib/mcg/diagnosis/dgo_file.rb:137 | appending an algorithm adds it at the end and keeps the timestamp |
| DgoFile.WriteRef | lib/mcg/diagnosis/dgo_file.rb:23-27 | writes exactly EncodeRef's bytes, or fails with its error |
| DgoFile.ReadRef | lib/mcg/diagnosis/dgo_file.rb:29-34 | consumes and returns what DecodeRef reads |
| DgoFile.WriteRefs | lib/mcg/diagnosis/dgo_file.rb:49 | the loop writes each reference in turn: EncodeAll over the references |
| DgoFile.ReadRefs | lib/mcg/diagnosis/dgo_file.rb:61-63 | reads the stated number of references in file order: Many over the reference parser |
| DgoFile.WriteDiagnosis | lib/mcg/diagnosis/dgo_file.rb:43-50 | writes exactly EncodeDiagnosis's bytes, or fails with its error |
| DgoFile.ReadDiagnosis | lib/mcg/diagnosis/dgo_file.rb:52-66 | consumes and returns what DecodeDiagnosis reads |
| DgoFile.WriteDiagnoses | lib/mcg/diagnosis/dgo_file.rb:78 | the loop writes each diagnosis in turn |
| DgoFile.ReadDiagnoses | lib/mcg/diagnosis/dgo_file.rb:85-87 | reads the stated number of diagnoses in file order |
| DgoFile.WriteAlgorithm | lib/mcg/diagnosis/dgo_file.rb:75-79 | writes exactly EncodeAlgorithm's bytes, or fails with its error |
| DgoFile.ReadAlgorithm | lib/mcg/diagnosis/dgo_file.rb:81-90 | consumes and returns what DecodeAlgorithm reads |
| DgoFile.WriteAlgorithms | lib/mcg/diagnosis/dgo_file.rb:110-112 | the loop writes each algorithm in turn |
| DgoFile.WriteDgo | lib/mcg/diagnosis/dgo_file.rb:105-113 | writes exactly EncodeDgo's bytes for the document's timestamp and algorithms |
| DgoFile.ReadAlgorithms | lib/mcg/diagnosis/dgo_file.rb:136-138 | appends the counted algorithms read to the document, or fails with the first error |
| DgoFile.ReadDgo | lib/mcg/diagnosis/dgo_file.rb:115-141 | returns a new document holding what DecodeDgo reads, and consumes exactly those bytes |
| DgoDiagnoses.ImpressionConstants | lib/mcg/diagnosis/dgo_diagnoses.rb:13-28 | the impression group defines 10 constants |
| DgoDiagnoses.PrimaryConstants | lib/mcg/diagnosis/dgo_diagnoses.rb:29-59 | the primary group defines 20 constants |
| DgoDiagnoses.SecondaryConstants | lib/mcg/diagnosis/dgo_diagnoses.rb:60-117 | the secondary group defines 38 constants, the two alternative symbols among them |
| DgoDiagnoses.TertiaryConstants | lib/mcg/diagnosis/dgo_diagnoses.rb:118-161 | the tertiary group defines 28 constants |
| DgoDiagnoses.MetaConstants | lib/mcg/diagnosis/dgo_diagnoses.rb:163-224 | the meta-diagnosis group defines 38 constants |
| DgoDiagnoses.TableConstants | lib/mcg/diagnosis/dgo_diagnoses.rb:226-348 | the list, hash and comment-id constants number 32, and none of them is a string |
| DgoDiagnoses.FirstWithValue | lib/mcg/diagnosis/dgo_diagnoses.rb:352-358 | the first constant from i on whose value is the string: it holds the string, no earlier one does, and nil means none does |
| DgoDiagnoses.FirstWithName | lib/mcg/diagnosis/dgo_diagnoses.rb:353-359 | the first constant from i on with the given name; nil means no constant has that name |
| DgoDiagnoses.HashGet | lib/mcg/diagnosis/dgo_diagnoses.rb:268-282 | a hash lookup is nil exactly when no entry has the key, and otherwise reads an entry stored under that key |
| DgoDiagnoses.HashGetEntry | lib/mcg/diagnosis/dgo_diagnoses.rb:268-282 | with distinct keys, every entry is what its key reads |
| DgoDiagnoses.ConstGet | lib/mcg/diagnosis/dgo_diagnoses.rb:353-359 | const_get succeeds exactly for a defined constant name and gives that constant's value; any other name is a NameError |
| DgoDiagnoses.Convert | lib/mcg/diagnosis/dgo_diagnoses.rb:351-361 | the result is nil exactly when no constant holds the string; a NameError happens only when some constant holds it |
| DgoDiagnoses.NameToSym | lib/mcg/diagnosis/dgo_diagnoses.rb:351-354 | name_to_sym is nil exactly when no Diagnosis constant holds the string; it raises only NameError, when the _SYM sibling is missing (LocalIschemiaSym states a concrete answer) |
| DgoDiagnoses.SymToName | lib/mcg/diagnosis/dgo_diagnoses.rb:357-360 | sym_to_name is nil exactly when no Diagnosis constant holds the string; it raises only NameError, when the _NAME sibling is missing (GlobalIschemiaName, InfarctName and AltSymbolsFail state concrete answers) |
| DgoDiagnoses.SubSuffixRoundTrip | lib/mcg/diagnosis/dgo_diagnoses.rb:353-359 | rewriting _NAME to _SYM and then back gives the original name |
| DgoDiagnoses.SiblingNames | lib/mcg/diagnosis/dgo_diagnoses.rb:353-359 | the suffix rewrites of LISCH_NAME, GISCH_SYM, MI_SYM, VH_ALT_SYM and MI_ALT_SYM name their siblings |
| DgoDiagnoses.AltNamesMissing | lib/mcg/diagnosis/dgo_diagnoses.rb:11-348 | VH_ALT_NAME and MI_ALT_NAME are not constants of the class |
| DgoDiagnoses.LocalIschemiaFound | lib/mcg/diagnosis/dgo_diagnoses.rb:30 | the first constant holding 'Local Ischemia' is LISCH_NAME |
| DgoDiagnoses.LocalIschemiaSymbol | lib/mcg/diagnosis/dgo_diagnoses.rb:31 | LISCH_SYM is 'CAD' |
| DgoDiagnoses.LocalIschemiaSym | lib/mcg/diagnosis/dgo_diagnoses.rb:351-355 | name_to_sym('Local Ischemia') is 'CAD' |
| DgoDiagnoses.GlobalIschemiaFound | lib/mcg/diagnosis/dgo_diagnoses.rb:37 | the first constant holding 'NCI' is GISCH_SYM |
| DgoDiagnoses.GlobalIschemiaNamed | lib/mcg/diagnosis/dgo_diagnoses.rb:36 | GISCH_NAME is 'Global Ischemia' |
| DgoDiagnoses.GlobalIschemiaName | lib/mcg/diagnosis/dgo_diagnoses.rb:357-361 | sym_to_name('NCI') is 'Global Ischemia' |
| DgoDiagnoses.InfarctFound | lib/mcg/diagnosis/dgo_diagnoses.rb:85 | the first constant holding 'I' is MI_SYM |
| DgoDiagnoses.InfarctNamed | lib/mcg/diagnosis/dgo_diagnoses.rb:84 | MI_NAME is 'Myocardial Infarct' |
| DgoDiagnoses.InfarctName | lib/mcg/diagnosis/dgo_diagnoses.rb:357-361 | sym_to_name('I') is 'Myocardial Infarct' |
| DgoDiagnoses.HypertrophyAltFound | lib/mcg/diagnosis/dgo_diagnoses.rb:64 | the first constant holding 'H' is VH_ALT_SYM |
| DgoDiagnoses.InfarctAltFound | lib/mcg/diagnosis/dgo_diagnoses.rb:86 | the first constant holding 'C(I)' is MI_ALT_SYM |
| DgoDiagnoses.AltSymbolsFail | lib/mcg/diagnosis/dgo_diagnoses.rb:357-361 | sym_to_name('H') and sym_to_name('C(I)') raise a NameError: the alternative symbols have no _NAME sibling |
| DgoDiagnoses.McgDiagsShape | lib/mcg/diagnosis/dgo_diagnoses.rb:228-265 | MCG_DIAGS lists 36 names, 'Local Ischemia' first and 'Power Failure' last |
| DgoDiagnoses.DiaDiagMapShape | lib/mcg/diagnosis/dgo_diagnoses.rb:268-282 | DIA_DIAG_MAP has 13 distinct symbols and sends both infarct symbols to 'Myocardial Infarct' |
| DgoDiagnoses.LegacySymbolsAgree | lib/mcg/diagnosis/dgo_diagnoses.rb:268-282 | the symbol table reads 'C(I)', which sym_to_name rejects, and agrees with sym_to_name on 'I' |
| DgoDiagnoses.CommentIdsOrdered | lib/mcg/diagnosis/dgo_diagnoses.rb:286-314 | DIAG_COMMENT has 29 entries; its ids ascend up to the last one, and the last id differs from every other |
| DgoDiagnoses.DiagCommentShape | lib/mcg/diagnosis/dgo_diagnoses.rb:318-348 | DIAG_COMMENT has 29 distinct ids, and ids 145 and 166 both give 'atrial_fibrillation' |
| DspOps.StdTablesAligned | lib/mcg/signal_analysis/dsp_ops.rb:81-103 | STD_OPERATIONS and STD_OPERATION_NAMES have nine entries each, and entry i of both comes from the same constant group |
| DspOps.KindsDistinct | lib/mcg/signal_analysis/dsp_ops.rb:15-76 | no two operation kinds share a name or a symbol, so each standard symbol pairs with exactly one name |
| DspOps.PairName | lib/mcg/signal_analysis/dsp_ops.rb:106 | the pair source is "(", the first lead, ",", the second lead, ")" |
| DspOps.StdOps | lib/mcg/signal_analysis/dsp_ops.rb:105-144 | create_std_ops describes exactly twelve operations |
| DspOps.StdOpsSources | lib/mcg/signal_analysis/dsp_ops.rb:108-143 | the first six operations are 'Signal' operations on a, b, a, b, a, b; the last six are 'SigPair' operations on "(a,b)" |
| DspOps.StdOpsKinds | lib/mcg/signal_analysis/dsp_ops.rb:108-143 | operation i has the constant group of kind QRS, QRS, APS, APS, AMP, AMP, CPS, CCR, IMR, PSA, XAR, COH in turn |
| DspOps.SharedKind | lib/mcg/signal_analysis/dsp_ops.rb:108-143 | two operations share a kind only when they are the per-lead pair of QRS, APS or AMP |
| DspOps.StdOpsCoverKinds | lib/mcg/signal_analysis/dsp_ops.rb:81-143 | every operation's kind is in the standard tables, and every kind of the tables is created |
| DspOps.AppendStd | lib/mcg/signal_analysis/dsp_ops.rb:108-110 | appends one new operation holding the standard description and no data; the existing operations and the timestamp are unchanged |
| DspOps.CreateStdOps | lib/mcg/signal_analysis/dsp_ops.rb:105-144 | appends twelve new, distinct operations after the existing ones, which stay as they were, operation i holding standard description i |
| DspOps.StdKeysDistinct | lib/mcg/signal_analysis/dsp_ops.rb:105-144 | with two different leads, no two standard operations share both name and source, and no other operation has a pair operation's name |
| DspOps.StdOpFound | lib/mcg/signal_analysis/dsp_ops.rb:105-144 | after create_std_ops with two different leads, a lookup by name and source finds exactly the operation created for them, and a lookup of a pair operation by name alone finds it too |
| Dsp.BinarySrcType | lib/mcg/signal_analysis/dsp.rb:51-53 | a position is found exactly when the source type is in SOURCE_TYPES, and that position holds the type |
| Dsp.SourceTypeIndex | lib/mcg/signal_analysis/dsp.rb:31-53 | each of the four distinct source types is stored as its own position |
| Dsp.Qualified | lib/mcg/signal_analysis/dsp.rb:61-72 | fullname and fullsym start with the name (or symbol); with skip_pair on a "(..." source they are the name alone, otherwise the name, the separator and the source |
| Dsp.Op.constructor | lib/mcg/signal_analysis/dsp.rb:37-49 | for a valid source type, the new op holds exactly the given fields and data |
| Dsp.NewOp | lib/mcg/signal_analysis/dsp.rb:37-49 | Op.new succeeds exactly when the source type is in SOURCE_TYPES, and raises 'Invalid source type' otherwise; a new op holds the given fields |
| Dsp.FirstOp | lib/mcg/signal_analysis/dsp.rb:117-125 | the first op whose key (and source, when one is given) matches, with no earlier match; none means no op matches |
| Dsp.Category | lib/mcg/signal_analysis/dsp.rb:135-145 | find puts each op in the first of full name, full symbol, name, symbol that matches, or in none of them |
| Dsp.Group | lib/mcg/signal_analysis/dsp.rb:131-145 | a group holds exactly the ops of that category, each of them from the list |
| Dsp.GroupStep | lib/mcg/signal_analysis/dsp.rb:135-145 | one more op joins its group at the end, and only that group |
| Dsp.FindMembers | lib/mcg/signal_analysis/dsp.rb:130-148 | an op is found exactly when its full name, full symbol, name or symbol is the string |
| Dsp.FindGrouped | lib/mcg/signal_analysis/dsp.rb:147 | the result lists the full-name matches, then the full-symbol, name and symbol matches, in that order |
| Dsp.GroupsPartition | lib/mcg/signal_analysis/dsp.rb:135-145 | every op lands in exactly one of the four lists or in none: the five group sizes add up to the list's length |
| Dsp.FindCount | lib/mcg/signal_analysis/dsp.rb:147 | find returns every op that matches, each once per occurrence in the list |
| Dsp.SourceList | lib/mcg/signal_analysis/dsp.rb:151 | the sources of the ops, one per op, in list order |
| Dsp.SignalSources | lib/mcg/signal_analysis/dsp.rb:155-156 | the sources of the 'Signal' ops, and only those |
| Dsp.Dsp.constructor | lib/mcg/signal_analysis/dsp.rb:112-115 | a new Dsp holds the given timestamp and operations |
| Dsp.Dsp.Operation | lib/mcg/signal_analysis/dsp.rb:117-120 | Dsp#operation finds nothing exactly when no op has the name (and the source, when one is given); otherwise it returns the first op that does |
| Dsp.Dsp.OperationSym | lib/mcg/signal_analysis/dsp.rb:122-125 | Dsp#operation_sym does the same by symbol |
| Dsp.Dsp.Find | lib/mcg/signal_analysis/dsp.rb:130-148 | the one-pass loop over the ops returns the four lists joined in order, which FindMembers and FindGrouped characterise |
| Dsp.Dsp.Sources | lib/mcg/signal_analysis/dsp.rb:150-152 | sources returns every source, duplicates kept, sorted |
| Dsp.Dsp.Signals | lib/mcg/signal_analysis/dsp.rb:154-157 | signals returns each source of a 'Signal' op exactly once, and nothing else |
| Dsp.SourcesUnique | lib/mcg/signal_analysis/dsp.rb:150-152 | sources is the only sorted arrangement of the sources |
| Dsp.SignalsOrder | lib/mcg/signal_analysis/dsp.rb:154-157 | signals come in the order of each source's first 'Signal' op |
| DspFile.OpPrefix | lib/mcg/signal_analysis/dsp_file.rb:15-39 | the record prefix is 340 bytes: source, source-type index, name, symbol, label, domain and the axis labels in NUL-padded fields of 64, 4, 32, 8, 64, 32, 64, 64 bytes, then the element count and element size |
| DspFile.OpPrefixLayout | lib/mcg/signal_analysis/dsp_file.rb:16-17 | the ten packed fields sit at the offsets of "a64Ia32a8a64a32a64a64II" and fill 340 bytes |
| DspFile.EncodeOp | lib/mcg/signal_analysis/dsp_file.rb:35-45 | writing an operation succeeds exactly when its source type is in SOURCE_TYPES, and takes 340 bytes plus two per element |
| DspFile.OpData | lib/mcg/signal_analysis/dsp_file.rb:25-28 | reading the data consumes element size times count bytes and yields count signed shorts |
| DspFile.OpFields | lib/mcg/signal_analysis/dsp_file.rb:30-31 | building the op succeeds exactly when the stored index names a source type (otherwise 'Invalid source type'), and keeps the data read |
| DspFile.DecodedOpWidth | lib/mcg/signal_analysis/dsp_file.rb:20-32 | a record read back holds as many elements as its count, and the reader moves past element size times count bytes, however the elements are read |
| DspFile.DecodeOp | lib/mcg/signal_analysis/dsp_file.rb:20-32 | reading an operation consumes a prefix of the input; DecodedOpWidth and OpRoundTrip state what it reads |
| DspFile.NarrowElementsFail | lib/mcg/signal_analysis/dsp_file.rb:25-28 | an element size below 2 with a non-zero count leaves too few bytes for the shorts: the model refuses the record; Ruby reads it with nil elements |
| DspFile.PrefixFields | lib/mcg/signal_analysis/dsp_file.rb:20-39 | every text, the source-type index and both counts of a written prefix read back as written |
| DspFile.DecodeOpFrom | lib/mcg/signal_analysis/dsp_file.rb:20-32 | a prefix whose data and fields read gives that operation and the rest of the input |
| DspFile.OpDataRoundTrip | lib/mcg/signal_analysis/dsp_file.rb:25-43 | data written after a prefix declaring element size 2 reads back unchanged |
| DspFile.OpFieldsRoundTrip | lib/mcg/signal_analysis/dsp_file.rb:30-39 | the fields of a written prefix read back as the operation |
| DspFile.EncodeOpShape | lib/mcg/signal_analysis/dsp_file.rb:35-45 | a known source type is written as its index, followed by the data as shorts |
| DspFile.OpRoundTrip | lib/mcg/signal_analysis/dsp_file.rb:20-45 | a storable operation read back after being written is unchanged, and the bytes after it are left unread |
| DspFile.VersionSelectsHeader | lib/mcg/signal_analysis/dsp_file.rb:49-57 | the version written (2.2 as binary32) selects the 12-byte header; a stored 2.1 selects the 8-byte one |
| DspFile.DspHeader | lib/mcg/signal_analysis/dsp_file.rb:55 | the file header is 20 bytes: "DSPl", 2.2, uint64 timestamp, uint32 operation count |
| DspFile.EncodeDsp | lib/mcg/signal_analysis/dsp_file.rb:135-141 | writing a DSP succeeds exactly when every operation has a known source type |
| DspFile.EncodeDspShape | lib/mcg/signal_analysis/dsp_file.rb:135-141 | a DSP is written as its header followed by each operation's record |
| DspFile.K52Counts | lib/mcg/signal_analysis/dsp_file.rb:115-125 | the eleven reads take 128, 128, 128, 128, 128, 256, 512, 100, 100, 512, 512 elements |
| DspFile.K52ReadsTargets | lib/mcg/signal_analysis/dsp_file.rb:109-126 | each read names the kind of the standard operation it fills and that operation's lead; a read without a lead fills a pair operation |
| DspFile.K52Lookup | lib/mcg/signal_analysis/dsp_file.rb:115-125 | over the standard operations of V5 and II, the lookup of each read finds its target operation |
| DspFile.DataFromK52 | lib/mcg/signal_analysis/dsp_file.rb:129-132 | data_from_k52 succeeds exactly when two bytes per element remain, and reads that many shorts |
| DspFile.ReadBlocks | lib/mcg/signal_analysis/dsp_file.rb:115-125 | the blocks read one after another have the given element counts |
| DspFile.ReadBlocksLength | lib/mcg/signal_analysis/dsp_file.rb:115-125 | reading all the blocks succeeds exactly when two bytes per element are there, and then consumes exactly those |
| DspFile.K52Decoded | lib/mcg/signal_analysis/dsp_file.rb:109-127 | from_k52 returns the standard operations filled by the blocks, or fails as the first failing read does |
| DspFile.DecodeK52 | lib/mcg/signal_analysis/dsp_file.rb:109-127 | from_k52 succeeds exactly when all eleven blocks can be read, and gives twelve operations stamped with the current time |
| DspFile.K52Total | lib/mcg/signal_analysis/dsp_file.rb:115-125 | the eleven reads take 2632 elements, 5264 bytes |
| DspFile.DspMagic | lib/mcg/signal_analysis/dsp_file.rb:67-86 | without the magic, a P56 size (5652 or 5689) is read as K52 after 256 bytes, the K52 size (5290) from the start, and any other size is refused |
| DspFile.DecodeDsp | lib/mcg/signal_analysis/dsp_file.rb:65-102 | a file is read only when it starts with "DSPl" or has a P56 or K52 size |
| DspFile.LegacyReads | lib/mcg/signal_analysis/dsp_file.rb:58-61 | every legacy file is long enough for the eleven reads; a K52 file has 26 bytes left after them, a P56 file 132 or 169 |
| DspFile.K52Filled | lib/mcg/signal_analysis/dsp_file.rb:115-125 | the eleven reads fill eleven different operations, each with its own block, and leave the cross power spectrum empty |
| DspFile.K52DataAt | lib/mcg/signal_analysis/dsp_file.rb:115-125 | an operation that read k fills holds block k |
| DspFile.K52DataNone | lib/mcg/signal_analysis/dsp_file.rb:113-125 | an operation no read fills keeps no data |
| DspFile.DecodeDspShape | lib/mcg/signal_analysis/dsp_file.rb:88-101 | after a written header, reading gives the timestamp and then the number of records the count announces |
| DspFile.DspRoundTrip | lib/mcg/signal_analysis/dsp_file.rb:65-141 | a DSP read back after being written keeps its timestamp and its operations, unchanged and in order |
| DspFile.K52Images | lib/mcg/signal_analysis/dsp_file.rb:112-126 | standard operations holding the blocks read are the DSP that from_k52 returns |
| DspFile.K52DataStep | lib/mcg/signal_analysis/dsp_file.rb:115-125 | reading one more block changes only the data of its target operation |
| DspFile.WriteOp | lib/mcg/signal_analysis/dsp_file.rb:35-45 | writes exactly EncodeOp's bytes for the operation |
| DspFile.WriteDsp | lib/mcg/signal_analysis/dsp_file.rb:135-141 | writes exactly EncodeDsp's bytes for the timestamp and the operations' contents |
| DspFile.ReadOp | lib/mcg/signal_analysis/dsp_file.rb:20-32 | returns a new operation holding what DecodeOp reads, and consumes exactly those bytes |
| DspFile.ReadOps | lib/mcg/signal_analysis/dsp_file.rb:99 | reads the counted operations in file order as new objects: Many over DecodeOp |
| DspFile.ReadShorts | lib/mcg/signal_analysis/dsp_file.rb:129-132 | consumes and returns what DataFromK52 reads |
| DspFile.ReadK52Block | lib/mcg/signal_analysis/dsp_file.rb:115-125 | one lookup-and-assign: the read's target operation receives the elements read |
| DspFile.ReadK52 | lib/mcg/signal_analysis/dsp_file.rb:109-127 | returns a new DSP whose operations hold what DecodeK52 describes, and consumes exactly the bytes read |
| DspFile.ReadDsp | lib/mcg/signal_analysis/dsp_file.rb:65-102 | returns a new DSP whose timestamp and operations are what DecodeDsp reads |
| Sar.TablePosition | lib/mcg/signal_analysis/sar.rb:34-40 | Array#index: a position exactly when the entry is in the table, holding it, with no earlier copy |
| Sar.BinaryType | lib/mcg/signal_analysis/sar.rb:34-36 | Ref#binary_type is a position exactly when the type is in TYPES, and that position holds the type |
| Sar.BinaryRole | lib/mcg/signal_analysis/sar.rb:38-40 | Ref#binary_role is a position exactly when the role is in ROLES, and that position holds the role |
| Sar.RefPositions | lib/mcg/signal_analysis/sar.rb:25-40 | every Ref type and role is stored as its own position in TYPES and ROLES |
| Sar.BinaryDatatype | lib/mcg/signal_analysis/sar.rb:73-86 | a position exactly for a letter type listed in TYPES, the first holding that letter |
| Sar.TypeSize | lib/mcg/signal_analysis/sar.rb:74-89 | TYPE_SIZES[type] multiplies a length only for an integer type; a letter type, an index out of the table and entry 0 (the string '1') all raise TypeError |
| Sar.TypeTables | lib/mcg/signal_analysis/sar.rb:73-89 | both tables have 13 entries; a size exists exactly for integer positions in range other than 0, and it is the width of the letter at that position |
| Sar.DataSize | lib/mcg/signal_analysis/sar.rb:88-90 | data_size is the element count times the type's table size, and fails exactly when the size does |
| Sar.NoSizeForLetters | lib/mcg/signal_analysis/sar.rb:88-90 | IntData built with a letter type, as add_idata does, or with type 0 has no data size |
| Sar.Flatten | lib/mcg/signal_analysis/sar.rb:271-272 | the result holds no nested array, and an already flat list is unchanged |
| Sar.FlattenSplit | lib/mcg/signal_analysis/sar.rb:271-272 | flattening a list flattens its first item, then the rest |
| Sar.FlattenAppend | lib/mcg/signal_analysis/sar.rb:271-272 | flattening a concatenation concatenates the flattened parts |
| Sar.IsSetThreshold | lib/mcg/signal_analysis/sar.rb:127-150 | 0.0 is not set, 1.0 is set, NaN is never set |
| Sar.NaNWord | lib/mcg/signal_analysis/sar.rb:148-150 | the word 0x7FC00000 decodes to NaN |
| Sar.NullIndexIsZero | lib/mcg/signal_analysis/sar.rb:181-193 | a NullIndex has the query as its name and symbol and value 0.0, and is never set |
| Sar.IsSetMonotone | lib/mcg/signal_analysis/sar.rb:148-150 | of two finite values, the larger is set whenever the smaller is |
| Sar.FirstMatch | lib/mcg/signal_analysis/sar.rb:245-264 | the first position satisfying the test, or none exactly when no element does |
| Sar.FirstMatchAgree | lib/mcg/signal_analysis/sar.rb:246-252 | sequences whose elements agree on the tests have their first match at the same position |
| Sar.IndexIn | lib/mcg/signal_analysis/sar.rb:245-255 | index and index_sym return a NullIndex for the query exactly when no index has that key, else the first index with it |
| Sar.AllNames | lib/mcg/signal_analysis/sar.rb:297-324 | the nil default stands for every index name, in order, repeats included |
| Sar.SetCount | lib/mcg/signal_analysis/sar.rb:309-318 | the count of set lookups is at most the number of names |
| Sar.AddFloat | lib/mcg/signal_analysis/sar.rb:303 | addition of finite values is exact |
| Sar.SetSumStep | lib/mcg/signal_analysis/sar.rb:301-304 | summing one name more adds its value when set, else zero |
| Sar.SetCountStep | lib/mcg/signal_analysis/sar.rb:314-316 | counting one name more adds one exactly when its lookup is set |
| Sar.SumAtLeastHalfCount | lib/mcg/signal_analysis/sar.rb:296-306 | the sum is +Infinity or a finite value at least half the count of set indexes |
| Sar.SetFlags | lib/mcg/signal_analysis/sar.rb:325 | one flag per name, each the set test of that name's lookup |
| Sar.CountIsTrueFlags | lib/mcg/signal_analysis/sar.rb:309-326 | count_indexes is the number of true flags from indexes_to_bool |
| Sar.Analysis.constructor | lib/mcg/signal_analysis/sar.rb:217-223 | the new analysis holds the source, name, symbol, indexes and intermediate data given |
| Sar.Analysis.Includes | lib/mcg/signal_analysis/sar.rb:257-260 | include? holds exactly when some index has this name |
| Sar.Analysis.IndexByName | lib/mcg/signal_analysis/sar.rb:245-249 | Analysis#index gives a NullIndex for the name exactly when no index has that name, else an index of the analysis with that name (IndexIn: the first) |
| Sar.Analysis.IndexBySym | lib/mcg/signal_analysis/sar.rb:251-255 | Analysis#index_sym does the same by symbol |
| Sar.Analysis.DataNamed | lib/mcg/signal_analysis/sar.rb:262-264 | data returns nil exactly when no intermediate data has this name, else the first with it |
| Sar.Analysis.AddIndex | lib/mcg/signal_analysis/sar.rb:266-268 | appends one index with the name, symbol and value given; intermediate data unchanged |
| Sar.Analysis.AddIdata | lib/mcg/signal_analysis/sar.rb:270-273 | appends one IntData with the letter, the reference and the data wrapped and flattened; indexes unchanged |
| Sar.Analysis.AddIdataI | lib/mcg/signal_analysis/sar.rb:275-277 | add_idata with type 'i' |
| Sar.Analysis.AddIdataUi | lib/mcg/signal_analysis/sar.rb:279-281 | add_idata with type 'I' |
| Sar.Analysis.AddIdataF | lib/mcg/signal_analysis/sar.rb:283-285 | add_idata with type 'f' |
| Sar.Analysis.AddIdataD | lib/mcg/signal_analysis/sar.rb:287-289 | add_idata with type 'd' |
| Sar.Analysis.AddIdataS | lib/mcg/signal_analysis/sar.rb:291-293 | add_idata with type 'a' |
| Sar.Analysis.SumIndexes | lib/mcg/signal_analysis/sar.rb:296-306 | returns the sum of the set values over the names given or every index name |
| Sar.Analysis.CountIndexes | lib/mcg/signal_analysis/sar.rb:309-318 | returns the number of those names whose lookup is set |
| Sar.Analysis.IndexesToBool | lib/mcg/signal_analysis/sar.rb:321-326 | one flag per selected name: whether its lookup by name is set |
| Sar.Images | lib/mcg/signal_analysis/sar.rb:213-223 | the images of the analyses, in order |
| Sar.ImagesAppend | lib/mcg/signal_analysis/sar.rb:413 | appending an analysis appends its image |
| Sar.Find | lib/mcg/signal_analysis/sar.rb:421 | the first position at or after the start holding the character, or none exactly when there is none |
| Sar.PairAt | lib/mcg/signal_analysis/sar.rb:421 | the match of /\([^,]+,[^)]+\)/ starting at a position is unique, and found when it exists |
| Sar.PairMatch | lib/mcg/signal_analysis/sar.rb:421 | the leftmost match of the lead-pair pattern, with no match starting earlier; none exactly when none exists |
| Sar.Leads | lib/mcg/signal_analysis/sar.rb:428-433 | the two groups exist exactly when the pattern matches |
| Sar.LeadsOfPairName | lib/mcg/signal_analysis/sar.rb:428-433 | a pair name "(a,b)" built from leads with no comma in a and no ')' in b is parsed back into a and b |
| Sar.Sar.constructor | lib/mcg/signal_analysis/sar.rb:377-380 | the new container holds the timestamp and analyses given |
| Sar.Sar.AnalysisNamed | lib/mcg/signal_analysis/sar.rb:382-392 | nil exactly when no analysis has the name (and the source, when given), else the first that does |
| Sar.Sar.AnalysisBySym | lib/mcg/signal_analysis/sar.rb:394-404 | the same by symbol |
| Sar.Sar.GetOrCreateAnalysis | lib/mcg/signal_analysis/sar.rb:407-417 | returns the existing analysis unchanged, or appends a new empty one; afterwards the lookup finds the one returned |
| Sar.Sar.LeadPairName | lib/mcg/signal_analysis/sar.rb:420-424 | the source of the first analysis the pattern matches; with none, a NoMethodError |
| Sar.Sar.PrimaryLeadName | lib/mcg/signal_analysis/sar.rb:427-429 | the first group of the pair name, failing exactly when the pair name does |
| Sar.Sar.SecondaryLeadName | lib/mcg/signal_analysis/sar.rb:432-434 | the second group of the pair name, failing exactly when the pair name does |
| SarFile.EncodeIndex | lib/mcg/signal_analysis/sar_file.rb:44-59 | an index record is 44 bytes: the name and symbol NUL-padded to 32 and 8, then the binary32 value |
| SarFile.DecodeIndex | lib/mcg/signal_analysis/sar_file.rb:49-53 | reading an index succeeds exactly when 44 bytes remain, and consumes exactly those |
| SarFile.IndexRoundTrip | lib/mcg/signal_analysis/sar_file.rb:43-59 | an index whose texts fit their fields reads back as written, leaving the bytes after it |
| SarFile.Letter | lib/mcg/signal_analysis/sar_file.rb:24-37 | TYPES[type] for a stored type index, counted from the end when negative; nil, formatted as "", outside the table |
| SarFile.TemplateDirective | lib/mcg/signal_analysis/sar_file.rb:24-37 | the template of a table letter is the directive of that letter with the count; with no letter the template names no known directive |
| SarFile.Letters | lib/mcg/signal_analysis/sar_file.rb:73-74 | every TYPES entry is one letter; all but 'a' are numeric directives whose width is the size at that position; 'a' sits at 0, 11 and 12 |
| SarFile.RefHead | lib/mcg/signal_analysis/sar_file.rb:12-32 | the first 104 prefix bytes: the name in 32, the ref role and type as 4-byte integers, the ref name in 64 |
| SarFile.Words | lib/mcg/signal_analysis/sar_file.rb:12-34 | three 4-byte little-endian integers |
| SarFile.IntDataPrefix | lib/mcg/signal_analysis/sar_file.rb:12-34 | the 116-byte prefix holds name, ref role, ref type, ref name, type, element size and element count at their offsets |
| SarFile.Known | lib/mcg/signal_analysis/sar_file.rb:32 | a table position packs as its integer; nil cannot be packed (TypeError) |
| SarFile.EncodeIntData | lib/mcg/signal_analysis/sar_file.rb:31-40 | writing succeeds only with a ref whose role and type are in the tables and an integer type with a numeric size; a missing ref fails with NoMethodError |
| SarFile.DecodeIntData | lib/mcg/signal_analysis/sar_file.rb:17-28 | reading consumes a prefix of the input and returns what follows it |
| SarFile.UnknownTypeReadsNothing | lib/mcg/signal_analysis/sar_file.rb:24-25 | a stored type with no table entry gives an empty data list whatever the count says |
| SarFile.StringDataFirstChar | lib/mcg/signal_analysis/sar_file.rb:37-38 | string data is packed with template 'a1', so only its first character is written |
| SarFile.CharDataRoundTrip | lib/mcg/signal_analysis/sar_file.rb:24-38 | a one-character string is written as its byte and read back |
| SarFile.NumericDataRoundTrip | lib/mcg/signal_analysis/sar_file.rb:24-38 | numbers that fit a numeric directive with the item count take width bytes each and read back unchanged |
| SarFile.DataRoundTrip | lib/mcg/signal_analysis/sar_file.rb:23-38 | storable data packs to element size times count bytes and unpacks to the same items |
| SarFile.PrefixFields | lib/mcg/signal_analysis/sar_file.rb:18-34 | every field of a written prefix reads back, the ref rebuilt from the tables |
| SarFile.RefRoundTrip | lib/mcg/signal_analysis/sar_file.rb:22-32 | a ref whose type and role are in the tables is rebuilt from their stored positions |
| SarFile.EncodeIntDataShape | lib/mcg/signal_analysis/sar_file.rb:31-40 | a record that encodes is its prefix followed by its packed data |
| SarFile.StorableEncodes | lib/mcg/signal_analysis/sar_file.rb:31-40 | storable intermediate data can be written |
| SarFile.DecodeIntDataFrom | lib/mcg/signal_analysis/sar_file.rb:17-28 | a prefix followed by the data it announces reads as that record, leaving the rest |
| SarFile.IntDataParts | lib/mcg/signal_analysis/sar_file.rb:17-40 | a storable record is written as a prefix and a body that read back as its fields and data |
| SarFile.IntDataRoundTrip | lib/mcg/signal_analysis/sar_file.rb:17-40 | storable intermediate data read back after being written is unchanged, leaving the bytes after it |
| SarFile.IntDataLength | lib/mcg/signal_analysis/sar_file.rb:33-38 | a written record takes 116 bytes plus its data_size |
| SarFile.WrittenSize | lib/mcg/signal_analysis/sar_file.rb:33-37 | the template of a type with a numeric size covers that size per element |
| SarFile.IdataBytes | lib/mcg/signal_analysis/sar_file.rb:86-89 | summing data_size over the records succeeds exactly when each has one |
| SarFile.AnalysisPrefix | lib/mcg/signal_analysis/sar_file.rb:63-92 | the 132-byte prefix holds source, name and symbol in 64, 48 and 8 bytes, then the index count, the data count and the size |
| SarFile.IndexesLength | lib/mcg/signal_analysis/sar_file.rb:85-94 | index records always encode, 44 bytes each |
| SarFile.IdataLength | lib/mcg/signal_analysis/sar_file.rb:86-95 | the data records take exactly the bytes the size computation counts |
| SarFile.SizeFieldCounts | lib/mcg/signal_analysis/sar_file.rb:83-96 | the size field of a written analysis is the length of the records after its prefix |
| SarFile.LetterTypedNotWritable | lib/mcg/signal_analysis/sar_file.rb:88-89 | an analysis holding letter-typed intermediate data, as the add_idata helpers make, cannot be written (TypeError) |
| SarFile.AnalysisPrefixFields | lib/mcg/signal_analysis/sar_file.rb:68-92 | the texts and both counts of a written prefix read back |
| SarFile.AnalysisRecords | lib/mcg/signal_analysis/sar_file.rb:73-95 | the records of a storable analysis encode and read back in order |
| SarFile.DecodeAnalysisFrom | lib/mcg/signal_analysis/sar_file.rb:68-80 | a prefix followed by the records it counts reads as that analysis |
| SarFile.DecodeAnalysis | lib/mcg/signal_analysis/sar_file.rb:68-80 | an analysis that reads had its 132-byte prefix, and holds as many indexes and data records as the prefix counts |
| SarFile.AnalysisParts | lib/mcg/signal_analysis/sar_file.rb:68-96 | a storable analysis is written as a prefix and records that read back as its fields |
| SarFile.StorableSized | lib/mcg/signal_analysis/sar_file.rb:84-89 | the size of a storable analysis can be computed |
| SarFile.EncodeAnalysisShape | lib/mcg/signal_analysis/sar_file.rb:83-96 | an analysis that encodes is its prefix, its index records and its data records |
| SarFile.EncodeAnalysis | lib/mcg/signal_analysis/sar_file.rb:83-96 | writing an analysis succeeds exactly when its size can be computed and every intermediate data record can be written |
| SarFile.AnalysisRoundTrip | lib/mcg/signal_analysis/sar_file.rb:68-96 | a storable analysis read back after being written is unchanged, leaving the bytes after it |
| SarFile.VersionSelectsHeader | lib/mcg/signal_analysis/sar_file.rb:102-127 | the version written (1.2 as binary32) selects the 12-byte body header; a stored 1.1 the 8-byte one |
| SarFile.SarHeader | lib/mcg/signal_analysis/sar_file.rb:100-140 | the 20 bytes before the records: "SARl", 1.2, uint64 timestamp, uint32 count |
| SarFile.EncodeSar | lib/mcg/signal_analysis/sar_file.rb:138-146 | writing succeeds exactly when every analysis can be written |
| SarFile.EncodeSarShape | lib/mcg/signal_analysis/sar_file.rb:138-146 | a file is its header followed by each analysis's record |
| SarFile.EncodeSarFails | lib/mcg/signal_analysis/sar_file.rb:143-145 | a file with an analysis that cannot be written fails as the first such analysis |
| SarFile.DecodeSar | lib/mcg/signal_analysis/sar_file.rb:114-119 | a file whose first four bytes are not the magic is refused |
| SarFile.DecodeSarShape | lib/mcg/signal_analysis/sar_file.rb:112-135 | after a written header, reading gives the timestamp and as many analyses as the count announces |
| SarFile.SarRoundTrip | lib/mcg/signal_analysis/sar_file.rb:112-146 | a SAR read back after being written keeps its timestamp and its analyses, in order |
| SarFile.WriteIndex | lib/mcg/signal_analysis/sar_file.rb:56-59 | writes exactly the index record |
| SarFile.WriteIntData | lib/mcg/signal_analysis/sar_file.rb:31-40 | writes exactly the record EncodeIntData gives, or fails with its error |
| SarFile.AnalysisSize | lib/mcg/signal_analysis/sar_file.rb:84-89 | the loop computes the size field: 44 per index, 116 plus data_size per data record |
| SarFile.WriteAnalysis | lib/mcg/signal_analysis/sar_file.rb:83-96 | writes the record EncodeAnalysis gives, or fails as it does |
| SarFile.WriteSar | lib/mcg/signal_analysis/sar_file.rb:138-146 | writes the file EncodeSar gives for the timestamp and the analyses' contents |
| SarFile.ReadIndex | lib/mcg/signal_analysis/sar_file.rb:49-53 | consumes and returns what DecodeIndex reads |
| SarFile.ReadIntData | lib/mcg/signal_analysis/sar_file.rb:17-28 | consumes and returns what DecodeIntData reads |
| SarFile.ReadIndexes | lib/mcg/signal_analysis/sar_file.rb:73-74 | reads the counted index records, in order |
| SarFile.ReadIdata | lib/mcg/signal_analysis/sar_file.rb:76-77 | reads the counted data records, in order |
| SarFile.ReadAnalysis | lib/mcg/signal_analysis/sar_file.rb:68-80 | returns a new analysis holding what DecodeAnalysis reads |
| SarFile.ReadAnalyses | lib/mcg/signal_analysis/sar_file.rb:131-132 | reads the counted analyses in file order as new objects |
| SarFile.ReadSar | lib/mcg/signal_analysis/sar_file.rb:112-135 | returns a new SAR whose timestamp and analyses are what DecodeSar reads |
| SarIndexes.Repeat | lib/mcg/signal_analysis/sar_indexes.rb:593-726 | n copies of a name, as the runs of LEGACY_OPS are written |
| SarIndexes.LegacyIndexNames | lib/mcg/signal_analysis/sar_indexes.rb:458-591 | LEGACY_INDEXES holds 132 names |
| SarIndexes.LegacyOpNames | lib/mcg/signal_analysis/sar_indexes.rb:593-726 | LEGACY_OPS holds 132 analysis names |
| SarIndexes.OpsLead | lib/mcg/signal_analysis/sar_indexes.rb:593-726 | the analyses of the 26 indexes of one lead |
| SarIndexes.LegacySourceNames | lib/mcg/signal_analysis/sar_indexes.rb:728-750 | LEGACY_SOURCES holds 132 sources |
| SarIndexes.LegacyName | lib/mcg/signal_analysis/sar_indexes.rb:752-754 | Index.legacy_name gives LEGACY_INDEXES[idx], counted from the end when negative, and nil exactly outside -132..131 |
| SarIndexes.Run | lib/mcg/signal_analysis/sar_indexes.rb:819-975 | a run of lookups on one analysis and lead, one per index name, in order |
| SarIndexes.GroupLead | lib/mcg/signal_analysis/sar_indexes.rb:819-875 | lookups 0-25 (primary) and 26-51 (secondary): 26 entries |
| SarIndexes.GroupQxy | lib/mcg/signal_analysis/sar_indexes.rb:877-886 | lookups 52-57: 6 entries |
| SarIndexes.GroupRh | lib/mcg/signal_analysis/sar_indexes.rb:888-891 | lookups 58-59: 2 entries |
| SarIndexes.GroupPih | lib/mcg/signal_analysis/sar_indexes.rb:893-903 | lookups 60-69: 10 entries |
| SarIndexes.GroupHa | lib/mcg/signal_analysis/sar_indexes.rb:905-915 | lookups 70-77: 8 entries |
| SarIndexes.GroupVxy | lib/mcg/signal_analysis/sar_indexes.rb:917-943 | lookups 78-102: 25 entries |
| SarIndexes.GroupQ | lib/mcg/signal_analysis/sar_indexes.rb:945-975 | lookups 103-131: 29 entries |
| SarIndexes.LegacyLookups | lib/mcg/signal_analysis/sar_indexes.rb:813-977 | legacy_indexes makes 132 lookups |
| SarIndexes.ExtraReals | lib/mcg/signal_analysis/sar_indexes.rb:1149-1157 | to_llo_x adds 6 float lookups |
| SarIndexes.ExtraWholes | lib/mcg/signal_analysis/sar_indexes.rb:1159-1173 | and 10 integer lookups |
| SarIndexes.Names | lib/mcg/signal_analysis/sar_indexes.rb:458-591 | the index names of a list of lookups, in order |
| SarIndexes.NamesAppend | lib/mcg/signal_analysis/sar_indexes.rb:458-591 | the names of joined lists are the joined names |
| SarIndexes.GroupNames | lib/mcg/signal_analysis/sar_indexes.rb:458-591 | each group of lookups names the indexes of the same group of LEGACY_INDEXES |
| SarIndexes.LeadGroupNames | lib/mcg/signal_analysis/sar_indexes.rb:458-591 | both lead groups name the same 26 indexes |
| SarIndexes.RunNames | lib/mcg/signal_analysis/sar_indexes.rb:819-975 | a run names its indexes in order |
| SarIndexes.LookupsFollowLegacyIndexes | lib/mcg/signal_analysis/sar_indexes.rb:813-977 | lookup i of legacy_indexes asks for the index LEGACY_INDEXES[i] |
| SarIndexes.Eight | lib/mcg/signal_analysis/sar_indexes.rb:813-977 | position i of eight joined lists is in the list it falls in |
| SarIndexes.GroupShapes | lib/mcg/signal_analysis/sar_indexes.rb:817-975 | the analysis and lead of every lookup of each group, the heart-rate entries 9-12 reading the pair's analysis |
| SarIndexes.LookupAt | lib/mcg/signal_analysis/sar_indexes.rb:813-977 | lookup i is the entry of the group it falls in |
| SarIndexes.LegacyTableSizes | lib/mcg/signal_analysis/sar_indexes.rb:458-750 | the three legacy tables have 132 entries |
| SarIndexes.LegacyOpAt | lib/mcg/signal_analysis/sar_indexes.rb:593-726 | entry i of LEGACY_OPS, by group |
| SarIndexes.OpsLeadAt | lib/mcg/signal_analysis/sar_indexes.rb:593-726 | entries 9-12 of a lead's group are heart rate, the others auto power spectrum |
| SarIndexes.LookupLeadAt | lib/mcg/signal_analysis/sar_indexes.rb:817-975 | the lead each lookup reads its analysis on |
| SarIndexes.LegacySourceAt | lib/mcg/signal_analysis/sar_indexes.rb:728-750 | entry i of LEGACY_SOURCES, by group |
| SarIndexes.LookupsFollowLegacyOps | lib/mcg/signal_analysis/sar_indexes.rb:813-977 | lookup i reads the analysis LEGACY_OPS[i] |
| SarIndexes.LegacySourcesDiffer | lib/mcg/signal_analysis/sar_indexes.rb:728-750 | for leads V5 and II, LEGACY_SOURCES names the source lookup i reads exactly outside 9-12 and 35-38, where the heart-rate indexes come from the pair |
| SarIndexes.SourceOf | lib/mcg/signal_analysis/sar.rb:420-434 | the source a lead stands for: the pair name, or its first or second group; all fail exactly when the pair name does |
| SarIndexes.Resolve | lib/mcg/signal_analysis/sar_indexes.rb:820-821 | a lookup fails only with NoMethodError (index called on nil), and otherwise answers with the index name asked for |
| SarIndexes.ResolveAll | lib/mcg/signal_analysis/sar_indexes.rb:813-977 | a list of lookups gives one answer per lookup, or NoMethodError |
| SarIndexes.ResolveAllPointwise | lib/mcg/signal_analysis/sar_indexes.rb:813-977 | the list succeeds exactly when every lookup does, and then entry i is lookup i's answer |
| SarIndexes.Whole | lib/mcg/signal_analysis/sar_indexes.rb:983-985 | value.to_i fails when the lookup does (NoMethodError) or on NaN and infinities (FloatDomainError) |
| SarIndexes.WholeValue | lib/mcg/signal_analysis/sar_indexes.rb:983-985 | a found value gives its truncation exactly when finite, FloatDomainError otherwise, and a NullIndex gives 0 |
| SarIndexes.WholeAll | lib/mcg/signal_analysis/sar_indexes.rb:979-1141 | a list of truncated lookups has one entry per lookup |
| SarIndexes.WholeAllPointwise | lib/mcg/signal_analysis/sar_indexes.rb:979-1141 | the list succeeds exactly when every lookup does, and entry i is lookup i's integer |
| SarIndexes.WholeAllFirstFailure | lib/mcg/signal_analysis/sar_indexes.rb:979-1141 | a failing list fails with the error of its first failing lookup |
| SarIndexes.LegacyIndexes | lib/mcg/signal_analysis/sar_indexes.rb:813-977 | legacy_indexes yields 132 entries |
| SarIndexes.ToLlo | lib/mcg/signal_analysis/sar_indexes.rb:979-1141 | to_llo yields 132 integers |
| SarIndexes.Ints | lib/mcg/signal_analysis/sar_indexes.rb:1146-1147 | the integers of to_llo as entries of the extended vector |
| SarIndexes.Reals | lib/mcg/signal_analysis/sar_indexes.rb:1149-1157 | the float values of the camel lookups, one per lookup |
| SarIndexes.ToLloX | lib/mcg/signal_analysis/sar_indexes.rb:1146-1176 | to_llo_x succeeds only after to_llo does and yields 148 entries |
| SarIndexes.ResolveSpec | lib/mcg/signal_analysis/sar_indexes.rb:820-821 | a lookup succeeds exactly when the lead's source exists and some analysis of that name is on it; it reads the first such analysis |
| SarIndexes.LegacyIndexesNamed | lib/mcg/signal_analysis/sar_indexes.rb:813-977 | entry i of legacy_indexes is named LEGACY_INDEXES[i], found or not |
| SarIndexes.NoLeadPairFails | lib/mcg/signal_analysis/sar_indexes.rb:817 | with no lead-pair analysis all three exports fail with NoMethodError |
| SarIndexes.WholeAllOfResolveAll | lib/mcg/signal_analysis/sar_indexes.rb:813-1141 | truncated values exist exactly when every lookup resolves to a finite value, and each is that value truncated |
| SarIndexes.ToLloTruncatesIndexes | lib/mcg/signal_analysis/sar_indexes.rb:813-1141 | to_llo succeeds exactly when legacy_indexes does with finite values, and entry i is entry i of legacy_indexes truncated, 0 for a NullIndex |
| SarIndexes.HeartRateShared | lib/mcg/signal_analysis/sar_indexes.rb:829-861 | positions 9-12 and 35-38 read the same heart-rate indexes of the pair |
| SarIndexes.ToLloXLayout | lib/mcg/signal_analysis/sar_indexes.rb:1146-1176 | to_llo_x is to_llo, then the six camel values as floats, then the ten integers; it fails as to_llo when to_llo fails |
| SarIndexes.SameAnalysisSameOutcome | lib/mcg/signal_analysis/sar_indexes.rb:820-821 | whether a lookup succeeds depends on its analysis and lead only |
| SarIndexes.ExtraRealsShape | lib/mcg/signal_analysis/sar_indexes.rb:1149-1157 | the camel lookups read auto power spectrum, three on each lead |
| SarIndexes.ToLloXRealsFound | lib/mcg/signal_analysis/sar_indexes.rb:1146-1157 | once to_llo succeeds, the camel lookups find their analyses |
| SarIndexes.ImageInOther | lib/mcg/signal_analysis/sar_indexes.rb:813-1176 | each analysis of one container has its image among the other's |
| SarIndexes.OnePairAt | lib/mcg/signal_analysis/sar.rb:420-424 | with one pair, any two pair analyses share their source |
| SarIndexes.UniqueAt | lib/mcg/signal_analysis/sar.rb:382-392 | with unique keys two analyses differ in name or source |
| SarIndexes.SameImageSameIndex | lib/mcg/signal_analysis/sar.rb:245-249 | analyses with equal contents answer a lookup alike |
| SarIndexes.ReorderedParts | lib/mcg/signal_analysis/sar_indexes.rb:813-1176 | reordered containers hold the same analyses, with unique keys and one pair |
| SarIndexes.SourceOfLeadPair | lib/mcg/signal_analysis/sar.rb:420-434 | the lead names depend on the pair name only |
| SarIndexes.LeadPairIgnoresOrder | lib/mcg/signal_analysis/sar.rb:420-424 | with one lead pair, reordering keeps the pair name |
| SarIndexes.ResolveIgnoresOrder | lib/mcg/signal_analysis/sar_indexes.rb:820-821 | with unique keys and one pair, a lookup answers the same after reordering |
| SarIndexes.ResolveAllIgnoresOrder | lib/mcg/signal_analysis/sar_indexes.rb:813-977 | a list of lookups answers the same after reordering |
| SarIndexes.WholeAllIgnoresOrder | lib/mcg/signal_analysis/sar_indexes.rb:979-1141 | a list of truncated lookups answers the same after reordering |
| SarIndexes.ExportsIgnoreOrder | lib/mcg/signal_analysis/sar_indexes.rb:813-1176 | with unique name-source keys and one lead pair, all three exports are independent of the order of the analyses |
| SarIndexes.NewAnalysis | lib/mcg/signal_analysis/sar_indexes.rb:784-806 | Analysis.new(source, NAME, SYM) has no indexes and no data |
| SarIndexes.StdAnalyses | lib/mcg/signal_analysis/sar_indexes.rb:782-808 | create_std_analyses appends ten analyses |
| SarIndexes.StdAnalysesFollowTables | lib/mcg/signal_analysis/sar_indexes.rb:758-808 | each appended analysis is empty and has the name and symbol at its table row; CPS's row is never used |
| SarIndexes.StdRowsCovered | lib/mcg/signal_analysis/sar_indexes.rb:758-808 | every table row but CPS's is appended |
| SarIndexes.StdNoCrossPowerSpectrum | lib/mcg/signal_analysis/sar_indexes.rb:758-808 | no cross power spectrum analysis is created, though both tables list it |
| SarIndexes.StdSources | lib/mcg/signal_analysis/sar_indexes.rb:782-808 | heart rate and the five pair analyses are on "(a,b)", the spectrum and amplitude analyses on a and b in turn |
| SarIndexes.AppendAnalysis | lib/mcg/signal_analysis/sar_indexes.rb:784-806 | appends one new analysis holding the image given |
| SarIndexes.CreateStdAnalyses | lib/mcg/signal_analysis/sar_indexes.rb:782-808 | appends the ten standard analyses as new objects after the existing ones, which stay as they were |
| SarIndexes.StdNames | lib/mcg/signal_analysis/sar_indexes.rb:782-808 | the names of the appended analyses, in order |
| SarIndexes.StdSlot | lib/mcg/signal_analysis/sar_indexes.rb:813-977 | the standard analysis each lookup reads is one of the ten |
| SarIndexes.StdCovers | lib/mcg/signal_analysis/sar_indexes.rb:782-977 | every lookup of the exports names an analysis create_std_analyses makes, on the source its lead stands for |
| SarIndexes.StdLeadNames | lib/mcg/signal_analysis/sar_indexes.rb:782-808 | after create_std_analyses(a, b) the pair name is "(a,b)" and the lead names are a and b |
| SarIndexes.FirstPairName | lib/mcg/signal_analysis/sar.rb:420-424 | when the first analysis is on a pair, its source is the pair name |
| SarIndexes.StdLookupEmpty | lib/mcg/signal_analysis/sar_indexes.rb:782-985 | on the standard analyses each lookup finds its analysis, empty, and answers a NullIndex, truncated to 0 |
| SarIndexes.StdAllEmpty | lib/mcg/signal_analysis/sar_indexes.rb:782-985 | the same for all 132 lookups |
| SarIndexes.StdSarExports | lib/mcg/signal_analysis/sar_indexes.rb:782-1141 | with only the standard analyses, legacy_indexes is 132 NullIndexes named by LEGACY_INDEXES and to_llo is 132 zeros |
| SarIndexes.ResolveAllPrefixFails | lib/mcg/signal_analysis/sar_indexes.rb:813-977 | once a prefix of the lookups fails, the export fails with that error |
| SarIndexes.WholeAllPrefixFails | lib/mcg/signal_analysis/sar_indexes.rb:979-1141 | the same for the truncated lookups |
| SarIndexes.ResolveEach | lib/mcg/signal_analysis/sar_indexes.rb:813-977 | the loop appending each lookup's answer computes ResolveAll |
| SarIndexes.WholeAllStep | lib/mcg/signal_analysis/sar_indexes.rb:979-1141 | one more lookup extends a successful list by its integer, or fails with its error |
| SarIndexes.WholeEach | lib/mcg/signal_analysis/sar_indexes.rb:979-1141 | the loop appending each truncated value computes WholeAll |
| SarIndexes.ExportLegacyIndexes | lib/mcg/signal_analysis/sar_indexes.rb:813-977 | Sar#legacy_indexes returns LegacyIndexes |
| SarIndexes.ExportLlo | lib/mcg/signal_analysis/sar_indexes.rb:979-1141 | Sar#to_llo returns ToLlo |
| SarIndexes.ExportLloX | lib/mcg/signal_analysis/sar_indexes.rb:1146-1176 | Sar#to_llo_x returns ToLloX |
| Signals.Appended | lib/mcg/signal_analysis/signal_sample.rb:88-93 | append adds the elements at the end, sets the block count to the whole blocks of the new length and stamps the time; a block size of 0 raises ZeroDivisionError |
| Signals.Cleared | lib/mcg/signal_analysis/signal_sample.rb:81-86 | a cleared recording keeps its signal, holds no data and is consistent |
| Signals.Pushed | lib/mcg/signal_analysis/signal_sample.rb:103-105 | << keeps the data already there and adds the elements behind it; the block count goes stale but stays consistent |
| Signals.BlockCount | lib/mcg/signal_analysis/signal_sample.rb:90 | integer division: the largest k with k blocks fitting in the length |
| Signals.Created | lib/mcg/signal_analysis/signal_sample.rb:74-79 | SignalSample.new: the data given (or none), checksum 0, the timestamp given, else the append time when data was given, else 0; data with block size 0 raises |
| Signals.ConsistentKept | lib/mcg/signal_analysis/signal_sample.rb:74-105 | clear, append, << and new keep the checksum at 0 and a block count no larger than the data allows |
| Signals.AppendTwice | lib/mcg/signal_analysis/signal_sample.rb:88-93 | two appends are one append of both lists, stamped with the second time |
| Signals.PushThenAppend | lib/mcg/signal_analysis/signal_sample.rb:88-105 | << leaves the block count stale, and the next append counts the pushed elements too |
| Signals.AppendBlocksExample | lib/mcg/signal_analysis/signal_sample.rb:74-93 | 2048 elements in blocks of 512 are 4 blocks, 8 after a second append, and clear empties the recording |
| Signals.SignalSample.constructor | lib/mcg/signal_analysis/signal_sample.rb:74-77 | a new SignalSample with no data is cleared |
| Signals.SignalSample.Clear | lib/mcg/signal_analysis/signal_sample.rb:81-86 | no data, no blocks, checksum and timestamp 0 |
| Signals.SignalSample.Append | lib/mcg/signal_analysis/signal_sample.rb:88-93 | the new state is Appended's; on ZeroDivisionError the data has already grown and nothing else has changed |
| Signals.SignalSample.Push | lib/mcg/signal_analysis/signal_sample.rb:103-104 | each element of the array is added at the end; nothing else changes |
| Signals.SignalSample.PushOne | lib/mcg/signal_analysis/signal_sample.rb:103-104 | one element is added at the end; nothing else changes |
| Signals.NewSignalSample | lib/mcg/signal_analysis/signal_sample.rb:74-79 | returns a new SignalSample in the state Created describes, or the error append raised |
| Signals.PairLabel | lib/mcg/signal_analysis/signal_sample.rb:148-150 | the pair name exists exactly when both signals are there; a missing one raises NoMethodError |
| Signals.PairLabelLeads | lib/mcg/signal_analysis/signal_sample.rb:148-150 | the pair name is "(a,b)", and lead-name parsing gives back a and b when a has no comma and b no ')' |
| Signals.KeyIndex | lib/mcg/signal_analysis/signal_sample.rb:189-198 | the position of the first entry with the key, none exactly when no entry has it |
| Signals.Put | lib/mcg/signal_analysis/signal_sample.rb:189 | hash assignment keeps or adds one entry |
| Signals.LastWithKey | lib/mcg/signal_analysis/signal_sample.rb:188-190 | the last of a list with a key, none exactly when none has it |
| Signals.FindPut | lib/mcg/signal_analysis/signal_sample.rb:189 | after an assignment the value is found under its key and every other key finds what it found before; keys stay distinct |
| Signals.KeyIndexSameKeys | lib/mcg/signal_analysis/signal_sample.rb:189 | lists with the same keys position by position find each key at the same place |
| Signals.KeyIndexAppend | lib/mcg/signal_analysis/signal_sample.rb:193 | adding an entry at the end does not move the entries already there |
| Signals.PutAllFind | lib/mcg/signal_analysis/signal_sample.rb:186-190 | filling an empty hash keeps, under each key, the last sample with that key, and no key twice |
| Signals.PutAllDistinct | lib/mcg/signal_analysis/signal_sample.rb:186-190 | samples with distinct names are kept in their order |
| Signals.PutAllKeys | lib/mcg/signal_analysis/signal_sample.rb:186-190 | the filled hash has exactly the keys of the samples |
| Signals.SignalNames | lib/mcg/signal_analysis/signal_sample.rb:192-194 | the names of the signals, in order |
| Signals.MissingSignalsSpec | lib/mcg/signal_analysis/signal_sample.rb:192-194 | the signals added are config signals named by no existing key, added once each, and every config name ends up a key |
| Signals.NothingMissing | lib/mcg/signal_analysis/signal_sample.rb:192-194 | when every config signal already has a key nothing is added |
| Signals.AllMissing | lib/mcg/signal_analysis/signal_sample.rb:192-194 | with no keys and distinct names every config signal is added, in order |
| Signals.RecordingNames | lib/mcg/signal_analysis/signal_sample.rb:189 | the names recordings are keyed by |
| Signals.ClearedAll | lib/mcg/signal_analysis/signal_sample.rb:193 | one empty recording for each of the signals |
| Signals.AssembledDistinct | lib/mcg/signal_analysis/signal_sample.rb:183-195 | a Sample holds one recording per name |
| Signals.Assembled | lib/mcg/signal_analysis/signal_sample.rb:183-195 | Sample.new keeps the config's pairs; AssembledDistinct, AssembledKeepsLast and AssembledCoversConfig state its recordings |
| Signals.CombinedDistinct | lib/mcg/signal_analysis/signal_sample.rb:183-195 | kept samples with distinct names followed by empty recordings for new, distinct names have distinct names |
| Signals.AssembledKeepsLast | lib/mcg/signal_analysis/signal_sample.rb:186-199 | under the name of a given sample, a Sample holds the last sample with that name |
| Signals.AssembledCoversConfig | lib/mcg/signal_analysis/signal_sample.rb:183-195 | every config signal has a recording in the Sample, and the pairs are the config's |
| Signals.NameCovered | lib/mcg/signal_analysis/signal_sample.rb:192-194 | a name of a kept sample or of a missing signal is found |
| Signals.KeyFound | lib/mcg/signal_analysis/signal_sample.rb:198 | a key that some entry has is found |
| Signals.FindPrefix | lib/mcg/signal_analysis/signal_sample.rb:193 | a key found among the first entries is found there in the whole list |
| Signals.Images | lib/mcg/signal_analysis/signal_sample.rb:183-195 | the states of the SignalSamples, in order |
| Signals.ImagesPutAll | lib/mcg/signal_analysis/signal_sample.rb:186-190 | keying SignalSamples by name and taking their states commute |
| Signals.KeyIndexImages | lib/mcg/signal_analysis/signal_sample.rb:189 | a name is at the same place among SignalSamples and among their states |
| Signals.KeyIndexMapped | lib/mcg/signal_analysis/signal_sample.rb:189 | lists with the same names position by position find a name at the same place |
| Signals.MissingStep | lib/mcg/signal_analysis/signal_sample.rb:192-194 | one more config signal is added exactly when its name is new |
| Signals.MissingAll | lib/mcg/signal_analysis/signal_sample.rb:192-194 | the whole config list is its full prefix |
| Signals.KeyNames | lib/mcg/signal_analysis/signal_sample.rb:189 | the names SignalSamples are keyed by |
| Signals.KeyNamesImages | lib/mcg/signal_analysis/signal_sample.rb:189 | the names of the states are the names of the samples |
| Signals.AbsentKey | lib/mcg/signal_analysis/signal_sample.rb:193 | during the fill, a name is absent exactly when neither a kept sample nor an added signal has it |
| Signals.AssembledImages | lib/mcg/signal_analysis/signal_sample.rb:183-195 | the recordings the constructor ends with are the assembled ones |
| Signals.AssembledSplit | lib/mcg/signal_analysis/signal_sample.rb:183-195 | the assembled recordings are the kept samples' states followed by the empty ones |
| Signals.ImagesConcat | lib/mcg/signal_analysis/signal_sample.rb:192-194 | the states of the kept samples and the added ones, joined |
| Signals.KeyBySignal | lib/mcg/signal_analysis/signal_sample.rb:188-190 | the loop assigning each sample under its signal name computes PutAll |
| Signals.AddMissing | lib/mcg/signal_analysis/signal_sample.rb:192-194 | the loop adds a new empty SignalSample after the kept ones for each config signal whose name is missing, in order |
| Signals.Sample.Get | lib/mcg/signal_analysis/signal_sample.rb:197-199 | Sample#[] returns the recording of the named signal, or nil exactly when there is none |
| Signals.Sample.constructor | lib/mcg/signal_analysis/signal_sample.rb:183-195 | the pairs are the config's; the given samples keyed by name come first, then new empty recordings; the contents are Assembled |
| EcgFile.ElemWidth | lib/mcg/signal_analysis/ecg_file.rb:17-38 | DTYPE[elem_size] has a directive exactly for sizes below 5: 'c' for 0 and 1, 's' for 2 and 3, 'i' for 4, never wider than the size; sizes 1, 2 and 4 are their own width |
| EcgFile.LeadHead | lib/mcg/signal_analysis/ecg_file.rb:14-32 | the 24-byte lead head: the name NUL-padded to 16, the gain word and the checksum |
| EcgFile.Truncated | lib/mcg/signal_analysis/ecg_file.rb:36 | data[0, n]: the first n elements, or all when there are fewer |
| EcgFile.BlockData | lib/mcg/signal_analysis/ecg_file.rb:35-36 | the elements of the whole blocks, a prefix of the data, of block count times block size elements when the data holds them |
| EcgFile.EncodeLead | lib/mcg/signal_analysis/ecg_file.rb:31-40 | writing a lead succeeds exactly when the element size has a directive, and takes 24 bytes plus the directive width per written element after the head |
| EcgFile.DecodeLead | lib/mcg/signal_analysis/ecg_file.rb:19-29 | reading consumes a prefix of the input and returns what follows |
| EcgFile.LeadRead | lib/mcg/signal_analysis/ecg_file.rb:19-29 | a lead the stream holds reads as its name and gain, the header's geometry and timestamp, checksum 0, and the elements unpacked from element size times count bytes |
| EcgFile.WidthFits | lib/mcg/signal_analysis/ecg_file.rb:24-25 | the directive never reads past the bytes read |
| EcgFile.LeadBlocks | lib/mcg/signal_analysis/ecg_file.rb:23-28 | the count read is block size times the block count, which append counts back |
| EcgFile.LeadFailures | lib/mcg/signal_analysis/ecg_file.rb:19-29 | a short stream fails, an element size of 5 or more has no directive, size 0 reads no bytes for its elements, and a block size of 0 raises ZeroDivisionError; otherwise the lead reads |
| EcgFile.ThreeByteElements | lib/mcg/signal_analysis/ecg_file.rb:17-25 | a 3-byte element size reads 3 bytes per element but unpacks 2-byte elements from the front of them |
| EcgFile.UnpackIntsPrefix | lib/mcg/signal_analysis/ecg_file.rb:25 | unpacking n elements looks at the first n times width bytes only |
| EcgFile.LeadRoundTrip | lib/mcg/signal_analysis/ecg_file.rb:19-40 | a storable recording written and read back under its own geometry is unchanged |
| EcgFile.Named | lib/mcg/signal_analysis/ecg_file.rb:53-54 | the first signal with the name, nil exactly when none has it |
| EcgFile.NamedFirst | lib/mcg/signal_analysis/ecg_file.rb:53-54 | the first signal with the name is the one found |
| EcgFile.EncodePair | lib/mcg/signal_analysis/ecg_file.rb:45-62 | a pair record is 36 bytes, and is written exactly when both signals are there (NoMethodError otherwise) |
| EcgFile.DecodePair | lib/mcg/signal_analysis/ecg_file.rb:49-57 | reading a pair succeeds exactly when 36 bytes remain; each name becomes the first signal with it, or nil, and the ratio is the word stored |
| EcgFile.UnknownPairMember | lib/mcg/signal_analysis/ecg_file.rb:53-60 | a pair naming a signal the file does not hold is read with nil there, and cannot be written back |
| EcgFile.PairRoundTrip | lib/mcg/signal_analysis/ecg_file.rb:49-62 | a pair whose signals are the first of their names reads back as written |
| EcgFile.LeadSignals | lib/mcg/signal_analysis/ecg_file.rb:125 | the signals of the leads, in order |
| EcgFile.BodyHeaderSize | lib/mcg/signal_analysis/ecg_file.rb:106-111 | the body header is 64 or 28 bytes |
| EcgFile.VersionSelectsHeader | lib/mcg/signal_analysis/ecg_file.rb:74-111 | the version written (3.0) selects the 28-byte header; a stored 2.0 the 64-byte one |
| EcgFile.ReadBodyHeader | lib/mcg/signal_analysis/ecg_file.rb:112-116 | the timestamp read is never negative |
| EcgFile.EcgHeader | lib/mcg/signal_analysis/ecg_file.rb:66-74 | the 36 bytes before the records: "ECG:", 3.0, uint64 timestamp, then the pair and lead counts |
| EcgFile.FileHeader | lib/mcg/signal_analysis/ecg_file.rb:169-174 | the counts written are the numbers of pairs and leads |
| EcgFile.EncodeEcg | lib/mcg/signal_analysis/ecg_file.rb:168-180 | a Sample with no recording cannot be written (NoMethodError on nil); otherwise writing succeeds exactly when every lead and every pair can be written (a pair with a missing signal raises NoMethodError) |
| EcgFile.EcgMagic | lib/mcg/signal_analysis/ecg_file.rb:88-103 | without the magic, a 33032-byte file is read as K32 from byte 256 and every other size is refused; the 32776-byte V1 size is refused too, its branch being unreachable |
| EcgFile.DecodeEcg | lib/mcg/signal_analysis/ecg_file.rb:81-131 | a file is read only when it starts with "ECG:" or has the K32 size |
| EcgFile.AssembledOfLeads | lib/mcg/signal_analysis/ecg_file.rb:124-130 | leads with distinct names assemble into a Sample holding them as they are |
| EcgFile.V1Read | lib/mcg/signal_analysis/ecg_file.rb:147-165 | a V1 body the stream holds reads as V5 and II with the stored gains, 8192 shorts each, 16 blocks, stamped now, and the pair with ratio 1.3 |
| EcgFile.DecodeV1 | lib/mcg/signal_analysis/ecg_file.rb:147-165 | from_v1 consumes exactly the two gains and two leads of 8192 two-byte elements |
| EcgFile.K32Read | lib/mcg/signal_analysis/ecg_file.rb:133-136 | a K32 file without the magic is always read, to its end |
| EcgFile.DecodeEcgShape | lib/mcg/signal_analysis/ecg_file.rb:81-131 | after a written header, reading continues with the counted leads and pairs |
| EcgFile.NamedLead | lib/mcg/signal_analysis/ecg_file.rb:53-54 | among recordings with distinct names each name finds its own signal |
| EcgFile.LeadsRoundTrip | lib/mcg/signal_analysis/ecg_file.rb:19-40 | each recording of a storable sample reads back as itself under the file's geometry |
| EcgFile.PairsRoundTrip | lib/mcg/signal_analysis/ecg_file.rb:49-62 | each pair of a storable sample reads back as itself against the file's signals |
| EcgFile.EcgRoundTrip | lib/mcg/signal_analysis/ecg_file.rb:81-180 | a storable sample read back after being written is unchanged, leaving the bytes after it |
| EcgFile.EcgEncoded | lib/mcg/signal_analysis/ecg_file.rb:168-180 | writing fails as the first lead or pair that fails, and otherwise is the header, the leads and the pairs |
| EcgFile.EcgHeaderFits | lib/mcg/signal_analysis/ecg_file.rb:173-175 | the header fields of a storable sample fit their widths |
| EcgFile.DecodeBodyShape | lib/mcg/signal_analysis/ecg_file.rb:118-130 | leads and pairs that read give the Sample assembled from them |
| EcgFile.DecodeBody | lib/mcg/signal_analysis/ecg_file.rb:118-130 | the Sample read holds as many pairs as the header counts |
| EcgFile.AssembledOfLeadsOf | lib/mcg/signal_analysis/ecg_file.rb:124-130 | a storable sample assembles into itself |
| EcgFile.WriteLead | lib/mcg/signal_analysis/ecg_file.rb:31-40 | writes exactly EncodeLead's bytes; with no directive only the head has been written |
| EcgFile.WritePair | lib/mcg/signal_analysis/ecg_file.rb:59-62 | writes exactly EncodePair's bytes, and nothing when a signal is missing |
| EcgFile.WriteLeads | lib/mcg/signal_analysis/ecg_file.rb:178 | writes each lead's record in turn, or fails as the first failing lead |
| EcgFile.WritePairs | lib/mcg/signal_analysis/ecg_file.rb:179 | writes each pair's record in turn, or fails as the first failing pair |
| EcgFile.WriteEcg | lib/mcg/signal_analysis/ecg_file.rb:168-180 | writes exactly the file EncodeEcg gives for the Sample's contents |
| EcgFile.ReadLead | lib/mcg/signal_analysis/ecg_file.rb:19-29 | returns a new SignalSample holding what DecodeLead reads |
| EcgFile.ReadLeads | lib/mcg/signal_analysis/ecg_file.rb:118-122 | reads the counted leads in file order as new objects |
| EcgFile.ImagesAppend | lib/mcg/signal_analysis/ecg_file.rb:119-122 | one more SignalSample adds its state |
| EcgFile.ReadPair | lib/mcg/signal_analysis/ecg_file.rb:49-57 | consumes and returns what DecodePair reads |
| EcgFile.ReadPairs | lib/mcg/signal_analysis/ecg_file.rb:127-128 | reads the counted pairs in file order |
| EcgFile.CollectSignals | lib/mcg/signal_analysis/ecg_file.rb:124-125 | the signals of the leads read, in order |
| EcgFile.ReadV1 | lib/mcg/signal_analysis/ecg_file.rb:147-165 | returns a new Sample holding what DecodeV1 reads |
| EcgFile.ReadBody | lib/mcg/signal_analysis/ecg_file.rb:118-130 | returns a new Sample holding what DecodeBody reads |
| EcgFile.ReadEcg | lib/mcg/signal_analysis/ecg_file.rb:81-131 | returns a new Sample holding what DecodeEcg reads |

## Left out

- File I/O is a byte sequence and a position (`Stream.Reader`) or the bytes written so far (`Stream.Writer`). Opening, closing and OS errors are not modelled.
- A read past the end of the stream is the error `ShortRead`. Ruby's `unpack` would instead yield nil or short strings and fail later, or not at all.
- EcgFile.DecodeLead, EcgFile.LeadFailures, DspFile.OpData, DspFile.NarrowElementsFail, SarFile.DecodeIntData, DgoFile.DecodeDiagnosis: a record whose stored element or payload size is narrower than its directive is refused with `ShortRead`, even when the stream holds every byte the record announces. Ruby reads such a record and fills the missing elements with nil:
  - an ECG lead with element size 0 and a non-zero count reads no bytes and unpacks `"c<count>"` to count nils (`ecg_file.rb:23-28`);
  - a DSP operation with element size 1 and count 4 reads 4 bytes, and `"s4"` gives two shorts and two nils (`dsp_file.rb:25-28`);
  - SAR intermediate data of type 'd' stored with element size 4 gives half as many doubles, then nils (`sar_file.rb:22-24`);
  - a DGO 'i' value stored with payload size 2 becomes nil (`dgo_file.rb:57-59`).
  The model has no nil elements inside a data list, so these records are outside what it reads.
- Floats are carried opaquely: float fields (gains, ratios, weights, index values, DCF and intermediate-data `f`/`d` payloads) keep their raw 4- or 8-byte words.
  - `Float32` decodes a binary32 word exactly, but only where the program compares, converts or adds one: the container version tests, `Index#is_set?` / `to_i`, and the index values `Analysis#sum_indexes` adds.
  - `EcgFile.V1_RATIO` is the binary32 word of 1.3, which is what `to_file` writes for the V1 pair. The Sample `from_v1` builds holds the binary64 Float 1.3 (`ecg_file.rb:142`), which is not the same value.
  - Converting a Ruby number into a float word is outside the model. Packing a non-zero integer under `f` or `d`, or a float word under an integer directive, gives `NotModelled`.
  - The binary64 subtraction in the version tests is taken exactly, not rounded.
- Bytes and characters: text is one character per byte. A character code of 256 or more is reduced modulo 256 when packed. String encodings and multi-byte characters are not modelled.
- The clock: `Time.now`, used as the default timestamp of new containers, by `SignalSample#append` and by the legacy K32 and K52 readers, is the parameter `now`. The default-argument forms always receive a timestamp.
- Side channels: diagnostic output to stderr, `inspect`, `to_s` (except `Dcf::Value#to_s`, which is `Dcf.ToS`; `Dcf::Dcf#to_s` is not modelled), `to_h` / `from_h` and JSON conversion are not modelled.
- The DGO value and reference classes and their tag tables belong to `mpa/diagnosis/dgo`, which is not part of this model. They are the parameter `DgoFile.Tables`, and the round trips hold for every table that `DgoFile.WellFormed` accepts. `DgoFile.DataSize` takes `Dgo::Value#data_size`, which that library defines, to be the DCF value's definition: the table width, or the data's length when the width is 0. `DgoFile.PackStr` is not borrowed: it models `Value#pack_str` as `dgo_file.rb:12-15` defines it, the tag followed by the data's length when the tag's width is 0, else the bare tag.
- Ruby reflection in `name_to_sym` / `sym_to_name` (`constants`, `const_get`) is replaced by an explicit table of the `Diagnosis` constants in definition order.
- Ruby hashes (`DIA_DIAG_MAP`, `DIAG_COMMENT`, the signals of a `Sample`) are lists of entries in insertion order, searched first-match.
- Unknown pack directives follow Ruby before 3.3, which ignores them: such a directive writes nothing and reads nothing (`Pack.PackItems`, `Pack.UnpackItems`, the DCF tag 'o', `SarFile.TemplateDirective`, `SarFile.UnknownTypeReadsNothing`). From Ruby 3.3 on, `pack` and `unpack` raise ArgumentError there instead.
- EcgFile.ElemWidth, EcgFile.EncodeLead, EcgFile.DecodeLead, EcgFile.WriteLead: these depart from that Ruby version. An element size of 5 or more has no `DTYPE` entry, so the template is bare digits. Ruby before 3.3 would read such a lead as no elements and write only its 24-byte head; the model gives `UnknownTypeTag` on both paths, which is closer to what Ruby 3.3 does.
- A lead header with 0 elements per block gives `DivisionByZero`, as Ruby's integer division would.
- The ECG V1 branch (`ecg_file.rb:97`) cannot be reached: its `elsif` repeats the K32 length test, so a V1-sized file falls through to the magic error. It is kept as written: `EcgFile.EcgMagic` states that V1-sized files are refused. Only that `elsif` (`ecg_file.rb:97-98`) is unreachable. `Sample.from_v1` is still reached through `from_k32` (`ecg_file.rb:133-136`), and `EcgFile.DecodeEcg` and `EcgFile.ReadEcg` call `EcgFile.DecodeV1` and `EcgFile.ReadV1` for K32 files.
- The DGO version test (`dgo_file.rb:128`) compares against a negative tolerance, so it never holds. Every DGO file is therefore read with the 12-byte body header, as written (`Header.NearNegativeNever`).
- The SAR version test (`sar_file.rb:124`) uses a strict `<`, unlike the other containers. It is modelled as written.
- String intermediate data in SAR is packed with the template `a1`. Only its first character is written (`SarFile.StringDataFirstChar`).
- Intermediate data that the `add_idata` helpers create has a letter as its type. `TYPE_SIZES[type]` then raises, so such an analysis cannot be written (`SarFile.LetterTypedNotWritable`). This is modelled as written.
- A stored intermediate-data type with no table entry reads an empty data list (`SarFile.UnknownTypeReadsNothing`).
- `LEGACY_SOURCES` disagrees with the sources the exports actually read, at legacy indexes 9-12 and 35-38. This is stated as `SarIndexes.LegacySourcesDiffer`. The exports follow the code, not the table.
- Sar.Sar.GetOrCreateAnalysis: the model takes a source string. The nil-source call, which matches analyses with any source, is covered by `Sar.Sar.AnalysisNamed` (`None` source) but not by the creation path.
- Dsp.Op.FullName, Dsp.Op.FullSym, Sar.Analysis.FullName, Sar.Analysis.FullSym: these carry no contract of their own. What they compute is `Dsp.Qualified`, whose lemmas state it.
- The write methods (`WriteList`, `WriteDgo`, `WriteDsp`, `WriteSar`, `WriteEcg`) state the bytes written as the encoder applied to the objects' contents before the call. Aliasing between the container and the objects it lists is not otherwise modelled.
- Sar.AddFloat, Sar.SetSum, Sar.Analysis.SumIndexes: the sum of finite index values is taken exactly. Ruby's `sum +=` (`sar.rb:303`) adds binary64 Floats and rounds after every step, so for example 1.0e30 plus 1.0 loses the 1.0 in Ruby but not in the model. `Sar.SumAtLeastHalfCount` is about the exact sum. When no index is set, Ruby's `sum = 0` (`sar.rb:300`) stays the Integer 0, while the model returns the float 0.0; the two compare equal in Ruby.
- DcfFile.WriteRecord, DcfFile.WriteRecords, DcfFile.WriteList, DgoFile.WriteRef, DgoFile.WriteRefs, DgoFile.WriteDiagnosis, DgoFile.WriteDiagnoses, DgoFile.WriteAlgorithm, DgoFile.WriteAlgorithms, DgoFile.WriteDgo, SarFile.WriteIntData, SarFile.WriteAnalysis, SarFile.WriteSar, EcgFile.WriteLeads, EcgFile.WriteEcg: on failure these promise only that the bytes written before the call stay in place. They do not state which part of the record was written before the raise. `EcgFile.WriteLead` and `EcgFile.WritePair` do state it.
- Integer widths: a negative or oversized integer packed into an n-byte field is reduced modulo 256^n, as `pack` does. Ruby's unbounded integers are otherwise Dafny `int`.
