/** Ruby's Array#pack / String#unpack for the single directives the codecs
    build at run time from a stored type tag ("c", "a1", "s128", "A5", ...).

    Items are what a directive consumes or produces. A Float item carries
    the raw word it was read from (4 bytes for "f", 8 for "d"); the model
    does not convert between binary32, binary64 and numbers. */
module Pack {
  import opened Results
  import opened Bytes

  datatype Item =
    | Int(i: int)
    | Str(s: string)
    | Float32Word(w: Bytes)
    | Float64Word(w: Bytes)
    | Arr(elems: seq<Item>)
    | Nil

  /** `data.length` for the kinds of data that have one. */
  function Length(x: Item): (r: Result<nat>)
    ensures r.Ok? <==> x.Str? || x.Arr?
  {
    match x
    case Str(s) => Ok(|s|)
    case Arr(e) => Ok(|e|)
    case _ => Err(NoMethod)
  }

  /** One directive: a letter and a repeat count. */
  datatype Directive = Directive(code: char, count: nat)

  // ---------------------------------------------------------------------
  // Directive text
  // ---------------------------------------------------------------------

  predicate IsDigit(c: char)
  {
    '0' <= c <= '9'
  }

  /** The decimal digits at the front of s. */
  function DigitPrefix(s: string): (r: string)
    ensures |r| <= |s| && r == s[..|r|]
    ensures forall i | 0 <= i < |r| :: IsDigit(r[i])
    ensures |r| < |s| ==> !IsDigit(s[|r|])
  {
    if s != [] && IsDigit(s[0]) then [s[0]] + DigitPrefix(s[1..]) else []
  }

  /** The number a string of decimal digits spells, most significant first. */
  function DigitsValue(d: string): nat
    requires forall i | 0 <= i < |d| :: IsDigit(d[i])
  {
    if d == [] then 0
    else
      var c := d[|d| - 1];
      assert IsDigit(c);
      10 * DigitsValue(d[..|d| - 1]) + (c as int - '0' as int)
  }

  /** Integer#to_s: the decimal digits of n, without leading zeros. */
  function Decimal(n: nat): (r: string)
    ensures |r| > 0 && forall i | 0 <= i < |r| :: IsDigit(r[i])
    ensures DigitsValue(r) == n
  {
    var last := ['0' + ((n % 10) as char)];
    if n < 10 then last else Decimal(n / 10) + last
  }

  /** The directive a template of one letter and an optional count denotes.
      A missing count means 1; characters after the count are ignored. */
  function ParseDirective(t: string): Directive
  {
    if t == [] then Directive(' ', 1)
    else
      var digits := DigitPrefix(t[1..]);
      Directive(t[0], if digits == [] then 1 else DigitsValue(digits))
  }

  /** Writing a count after a letter and reading the template back gives
      that letter and that count. */
  lemma ParseDecimal(code: char, n: nat)
    ensures ParseDirective([code] + Decimal(n)) == Directive(code, n)
  {
    var t := [code] + Decimal(n);
    assert t[1..] == Decimal(n);
    DigitPrefixOfDigits(Decimal(n));
  }

  lemma {:induction false} DigitPrefixOfDigits(d: string)
    requires forall i | 0 <= i < |d| :: IsDigit(d[i])
    ensures DigitPrefix(d) == d
  {
    if d != [] {
      DigitPrefixOfDigits(d[1..]);
    }
  }

  // ---------------------------------------------------------------------
  // Directive semantics
  // ---------------------------------------------------------------------

  /** Byte width of the numeric directives on a little-endian host with
      32-bit int; 0 for every other letter. */
  function Width(code: char): (n: nat)
    ensures n in {0, 1, 2, 4, 8}
  {
    match code
    case 'c' => 1
    case 'C' => 1
    case 's' => 2
    case 'S' => 2
    case 'i' => 4
    case 'I' => 4
    case 'l' => 4
    case 'L' => 4
    case 'q' => 8
    case 'Q' => 8
    case 'f' => 4
    case 'd' => 8
    case _ => 0
  }

  predicate IsIntegerCode(code: char)
  {
    code in "cCsSiIlLqQ"
  }

  predicate IsSignedCode(code: char)
  {
    code in "csilq"
  }

  predicate IsStringCode(code: char)
  {
    code == 'a' || code == 'A'
  }

  predicate IsFloatCode(code: char)
  {
    code == 'f' || code == 'd'
  }

  /** The code letters this model gives a meaning to; every other letter
      is skipped by both pack and unpack. */
  predicate IsKnownCode(code: char)
  {
    IsIntegerCode(code) || IsStringCode(code) || IsFloatCode(code)
  }

  lemma WidthOfKnown(code: char)
    ensures (IsIntegerCode(code) || IsFloatCode(code)) <==> Width(code) > 0
  {
  }

  /** Packs one numeric item. */
  function PackNumber(code: char, item: Item): (r: Result<Bytes>)
    requires IsIntegerCode(code) || IsFloatCode(code)
    ensures r.Ok? ==> |r.value| == Width(code)
  {
    if IsIntegerCode(code) then
      match item
      case Int(x) => Ok(LeBytes(x, Width(code)))
      case Float32Word(_) => Err(NotModelled)
      case Float64Word(_) => Err(NotModelled)
      case _ => Err(TypeMismatch)
    else
      match item
      case Float32Word(w) =>
        if code == 'f' && |w| == 4 then Ok(w) else Err(NotModelled)
      case Float64Word(w) =>
        if code == 'd' && |w| == 8 then Ok(w) else Err(NotModelled)
      case Int(x) => if x == 0 then Ok(Zeros(Width(code))) else Err(NotModelled)
      case _ => Err(TypeMismatch)
  }

  /** Packs every item with a numeric code, in order. */
  function PackNumbers(code: char, items: seq<Item>): (r: Result<Bytes>)
    requires IsIntegerCode(code) || IsFloatCode(code)
    ensures r.Ok? <==> forall j | 0 <= j < |items| :: PackNumber(code, items[j]).Ok?
  {
    if items == [] then Ok([])
    else
      var first :- PackNumber(code, items[0]);
      var rest :- PackNumbers(code, items[1..]);
      Ok(first + rest)
  }

  /** Array#pack with one directive. Too few items is Ruby's ArgumentError,
      a wrong kind of item its TypeError; both are TypeMismatch here. */
  function PackItems(d: Directive, items: seq<Item>): (r: Result<Bytes>)
    ensures r.Ok? && IsStringCode(d.code) ==> |r.value| == d.count
    ensures !IsKnownCode(d.code) ==> r == Ok([])
  {
    if IsStringCode(d.code) then
      if |items| == 0 then Err(TypeMismatch)
      else match items[0]
        case Str(s) =>
          Ok(if d.code == 'a' then PadA(s, d.count) else PadSpaces(s, d.count))
        case _ => Err(TypeMismatch)
    else if IsIntegerCode(d.code) || IsFloatCode(d.code) then
      if |items| < d.count then Err(TypeMismatch)
      else PackNumbers(d.code, items[..d.count])
    else Ok([])
  }

  /** Ruby pack "AN": like "aN" but padded with spaces. */
  function PadSpaces(s: string, n: nat): (r: Bytes)
    ensures |r| == n
  {
    seq(n, i requires 0 <= i < n => if i < |s| then CharByte(s[i]) else 32)
  }

  /** One numeric element read from exactly Width(code) bytes. */
  function UnpackNumber(code: char, b: Bytes): Item
    requires IsIntegerCode(code) || IsFloatCode(code)
    requires |b| == Width(code)
  {
    if code == 'f' then Float32Word(b)
    else if code == 'd' then Float64Word(b)
    else if IsSignedCode(code) then Int(LeSigned(b))
    else Int(LeValue(b))
  }

  /** n numeric elements read from the front of b, in order. Ruby gives
      nil for an element whose bytes are not all there; here that is
      ShortRead. */
  function UnpackNumbers(code: char, b: Bytes, n: nat): (r: Result<seq<Item>>)
    requires IsIntegerCode(code) || IsFloatCode(code)
    ensures r.Ok? ==> |r.value| == n
    ensures r.Err? ==> r.error == ShortRead
  {
    var w := Width(code);
    if n == 0 then Ok([])
    else if |b| < w then Err(ShortRead)
    else
      var rest :- UnpackNumbers(code, b[w..], n - 1);
      Ok([UnpackNumber(code, b[..w])] + rest)
  }

  /** String#unpack with one directive. */
  function UnpackItems(d: Directive, b: Bytes): (r: Result<seq<Item>>)
    ensures r.Ok? && IsStringCode(d.code) ==> |r.value| == 1
    ensures r.Ok? && (IsIntegerCode(d.code) || IsFloatCode(d.code)) ==> |r.value| == d.count
    ensures r.Err? ==> (IsIntegerCode(d.code) || IsFloatCode(d.code)) && r.error == ShortRead
    ensures !IsKnownCode(d.code) ==> r == Ok([])
  {
    if IsStringCode(d.code) then
      var field := if d.count <= |b| then b[..d.count] else b;
      Ok([Str(if d.code == 'a' then RawString(field) else StripA(field))])
    else if IsIntegerCode(d.code) || IsFloatCode(d.code) then
      UnpackNumbers(d.code, b, d.count)
    else Ok([])
  }

  /** Reading n elements fails exactly when fewer than n * width bytes
      are there. */
  lemma {:induction false} UnpackNumbersShort(code: char, b: Bytes, n: nat)
    requires IsIntegerCode(code) || IsFloatCode(code)
    ensures UnpackNumbers(code, b, n).Err? <==> |b| < n * Width(code)
  {
    if n > 0 {
      var w := Width(code);
      assert n * w == w + (n - 1) * w;
      if |b| >= w {
        UnpackNumbersShort(code, b[w..], n - 1);
      }
    }
  }

  /** A numeric directive writes count * width bytes. */
  lemma {:induction false} PackedWidth(code: char, items: seq<Item>)
    requires IsIntegerCode(code) || IsFloatCode(code)
    requires PackNumbers(code, items).Ok?
    ensures |PackNumbers(code, items).value| == |items| * Width(code)
  {
    if items != [] {
      var w := Width(code);
      PackedWidth(code, items[1..]);
      assert |items| * w == w + (|items| - 1) * w;
    }
  }

  /** The byte count a one-directive template writes and reads. */
  function DirectiveSize(d: Directive): nat
  {
    if IsStringCode(d.code) then d.count
    else if IsIntegerCode(d.code) || IsFloatCode(d.code) then d.count * Width(d.code)
    else 0
  }

  /** What a directive writes is exactly its size. */
  lemma PackedSize(d: Directive, items: seq<Item>)
    requires PackItems(d, items).Ok?
    ensures |PackItems(d, items).value| == DirectiveSize(d)
  {
    if IsIntegerCode(d.code) || IsFloatCode(d.code) {
      PackItemsNumeric(d, items);
      PackedWidth(d.code, items[..d.count]);
    }
  }

  /** `unpack(t)[0]`: the first element, or nil when there is none. */
  function First(items: seq<Item>): Item
  {
    if items == [] then Nil else items[0]
  }

  // ---------------------------------------------------------------------
  // Round trips
  // ---------------------------------------------------------------------

  /** The items a numeric directive writes exactly: integers in the range
      of its width, words of its width. */
  predicate FitsCode(code: char, item: Item)
    requires IsIntegerCode(code) || IsFloatCode(code)
  {
    match item
    case Int(x) =>
      IsIntegerCode(code) &&
      (if IsSignedCode(code) then -Half(Width(code)) <= x < Half(Width(code))
       else 0 <= x < Pow256(Width(code)))
    case Float32Word(w) => code == 'f' && |w| == 4
    case Float64Word(w) => code == 'd' && |w| == 8
    case _ => false
  }

  lemma NumberRoundTrip(code: char, item: Item)
    requires IsIntegerCode(code) || IsFloatCode(code)
    requires FitsCode(code, item)
    ensures PackNumber(code, item).Ok?
    ensures UnpackNumber(code, PackNumber(code, item).value) == item
  {
    if item.Int? {
      if IsSignedCode(code) {
        SignedRoundTrip(item.i, Width(code));
      } else {
        UnsignedRoundTrip(item.i, Width(code));
      }
    }
  }

  /** Reading n+1 numbers reads the first from its own width and the rest
      from what follows. */
  lemma UnpackNumbersCons(code: char, first: Bytes, more: Bytes, n: nat)
    requires IsIntegerCode(code) || IsFloatCode(code)
    requires |first| == Width(code)
    ensures UnpackNumbers(code, first + more, n + 1).Ok? <==> UnpackNumbers(code, more, n).Ok?
    ensures UnpackNumbers(code, more, n).Ok? ==>
      UnpackNumbers(code, first + more, n + 1).value == [UnpackNumber(code, first)] + UnpackNumbers(code, more, n).value
  {
    var b := first + more;
    assert b[..Width(code)] == first && b[Width(code)..] == more;
  }

  /** Packing a non-empty list packs its head and then its tail. */
  lemma PackNumbersCons(code: char, items: seq<Item>)
    requires IsIntegerCode(code) || IsFloatCode(code)
    requires items != [] && PackNumbers(code, items).Ok?
    ensures PackNumber(code, items[0]).Ok? && PackNumbers(code, items[1..]).Ok?
    ensures PackNumbers(code, items).value
      == PackNumber(code, items[0]).value + PackNumbers(code, items[1..]).value
  {
  }

  /** No items pack to nothing, and reading none consumes nothing. */
  lemma NumbersEmpty(code: char, rest: Bytes)
    requires IsIntegerCode(code) || IsFloatCode(code)
    ensures PackNumbers(code, []) == Ok([])
    ensures UnpackNumbers(code, rest, 0) == Ok([])
  {
  }

  lemma {:induction false} NumbersRoundTripFrom(code: char, items: seq<Item>, rest: Bytes)
    requires IsIntegerCode(code) || IsFloatCode(code)
    requires forall j | 0 <= j < |items| :: FitsCode(code, items[j])
    ensures PackNumbers(code, items).Ok?
    ensures UnpackNumbers(code, PackNumbers(code, items).value + rest, |items|) == Ok(items)
  {
    hide PackNumber, PackNumbers, UnpackNumber, UnpackNumbers, FitsCode, IsIntegerCode, IsFloatCode, Width;
    if items == [] {
      NumbersEmpty(code, rest);
      assert [] + rest == rest;
    } else {
      NumberRoundTrip(code, items[0]);
      assert forall j | 0 <= j < |items| - 1 :: FitsCode(code, items[1..][j]) by {
        forall j | 0 <= j < |items| - 1
          ensures FitsCode(code, items[1..][j])
        {
          assert items[1..][j] == items[j + 1];
        }
      }
      NumbersRoundTripFrom(code, items[1..], rest);
      PackNumbersCons(code, items);
      var first := PackNumber(code, items[0]).value;
      var tail := PackNumbers(code, items[1..]).value;
      assert PackNumbers(code, items).value + rest == first + (tail + rest);
      UnpackNumbersCons(code, first, tail + rest, |items| - 1);
      assert [items[0]] + items[1..] == items;
    }
  }

  /** A numeric directive packs the first count items as numbers. */
  lemma PackItemsNumeric(d: Directive, items: seq<Item>)
    requires IsIntegerCode(d.code) || IsFloatCode(d.code)
    requires d.count <= |items|
    ensures PackItems(d, items) == PackNumbers(d.code, items[..d.count])
  {
  }

  /** A numeric directive reads count numbers. */
  lemma UnpackItemsNumeric(d: Directive, b: Bytes)
    requires IsIntegerCode(d.code) || IsFloatCode(d.code)
    ensures UnpackItems(d, b) == UnpackNumbers(d.code, b, d.count)
  {
  }

  /** A count-1 numeric directive writes the one number. */
  lemma PackOneNumber(code: char, item: Item)
    requires IsIntegerCode(code) || IsFloatCode(code)
    requires PackNumber(code, item).Ok?
    ensures PackItems(Directive(code, 1), [item]) == PackNumber(code, item)
  {
    PackItemsNumeric(Directive(code, 1), [item]);
    assert [item][..1] == [item];
    assert PackNumber(code, item).value + [] == PackNumber(code, item).value;
  }

  /** "a1" reads the first byte as a one-character string. */
  lemma UnpackOneChar(b: Bytes)
    requires |b| == 1
    ensures UnpackItems(Directive('a', 1), b) == Ok([Str([b[0] as char])])
  {
    assert b[..1] == b;
    assert RawString(b) == [b[0] as char];
  }

  /** A numeric directive reads back the items it wrote. */
  lemma NumbersRoundTrip(code: char, items: seq<Item>)
    requires IsIntegerCode(code) || IsFloatCode(code)
    requires forall j | 0 <= j < |items| :: FitsCode(code, items[j])
    ensures PackItems(Directive(code, |items|), items).Ok?
    ensures UnpackItems(Directive(code, |items|), PackItems(Directive(code, |items|), items).value)
      == Ok(items)
  {
    var d := Directive(code, |items|);
    NumbersRoundTripFrom(code, items, []);
    PackItemsNumeric(d, items);
    var b := PackNumbers(code, items).value;
    UnpackItemsNumeric(d, b);
    hide PackItems, UnpackItems, PackNumbers, UnpackNumbers;
    assert items[..|items|] == items;
    assert b + [] == b;
  }

  /** "aN" and then "AN" give back every string that fits the field. */
  lemma StringFieldRoundTrip(s: string, n: nat)
    requires FitsField(s, n)
    ensures PackItems(Directive('a', n), [Str(s)]) == Ok(PadA(s, n))
    ensures UnpackItems(Directive('A', n), PadA(s, n)) == Ok([Str(s)])
  {
    FixedFieldRoundTrip(s, n);
    assert PadA(s, n)[..n] == PadA(s, n);
  }
}
