/** Disease control factors (DCF): typed values that weight the diagnoses
    by patient attributes, and the timestamped list of them
    (lib/mcg/diagnosis/dcf.rb). */
module Dcf {
  import opened Results
  import opened Bytes
  import opened Pack

  // Standard DCFs.
  const GENDER_NAME: string := "gender"
  const GENDER_SYM: string := "Sex"
  const GENDER_TYPE: string := "c"
  const GENDER_MALE: string := "M"
  const GENDER_FEMALE: string := "F"
  const AGE_NAME: string := "age"
  const AGE_SYM: string := "Age"
  const AGE_TYPE: string := "C"

  /** The type tags, which are also the pack directives of the payload, and
      the payload width of each tag. */
  const TYPES: seq<string> := ["o", "c", "C", "a1", "i", "I", "f", "d"]
  const TYPE_SIZES: seq<nat> := [0, 1, 1, 1, 4, 4, 4, 8]

  /** A typed value. `data` is whatever the program stores: a string for
      'c' and 'a1', an integer, a float word, an array for 'o', or nil. */
  datatype Value = Value(typ: string, data: Item)

  datatype Dcf = Dcf(name: string, sym: string, value: Value)

  /** The position of a tag in TYPES, nil when absent. */
  function TagIndex(t: string): (r: Option<nat>)
    ensures r.Some? ==> r.value < |TYPES| && TYPES[r.value] == t
  {
    if t == "o" then Some(0)
    else if t == "c" then Some(1)
    else if t == "C" then Some(2)
    else if t == "a1" then Some(3)
    else if t == "i" then Some(4)
    else if t == "I" then Some(5)
    else if t == "f" then Some(6)
    else if t == "d" then Some(7)
    else None
  }

  /** Value#binary_datatype: TYPES.index of the tag. */
  function BinaryDatatype(v: Value): (r: Option<nat>)
    ensures r.Some? ==> r.value < |TYPES| && TYPES[r.value] == v.typ
  {
    TagIndex(v.typ)
  }

  /** TagIndex is Array#index on TYPES: a tag absent from the table has no
      position, and each present tag has its own. */
  lemma TagIndexIsIndexOf(t: string)
    ensures TagIndex(t) == IndexOf(TYPES, t)
  {
    if TagIndex(t).Some? {
      IndexOfAt(TYPES, TagIndex(t).value);
    } else {
      assert t !in TYPES;
    }
  }

  /** Value#type_size: the table width of the tag; an absent tag reads
      entry 0. */
  function TypeSize(v: Value): (n: nat)
    ensures BinaryDatatype(v).None? ==> n == 0
    ensures n in {0, 1, 4, 8}
  {
    match BinaryDatatype(v)
    case Some(k) => TYPE_SIZES[k]
    case None => TYPE_SIZES[0]
  }

  /** Value#data_size: the table width, or the data's length when the
      width is 0. */
  function DataSize(v: Value): (r: Result<nat>)
    ensures TypeSize(v) != 0 ==> r == Ok(TypeSize(v))
    ensures TypeSize(v) == 0 ==> r == Length(v.data)
  {
    var size := TypeSize(v);
    if size == 0 then Length(v.data) else Ok(size)
  }

  /** Value#to_s: the object whose text is shown. For 'c' it is the
      first character (String#[0]; nil for an empty string, bit 0 for an
      integer), for zero-width tags the text "[Array]", otherwise the data
      itself. */
  function ToS(v: Value): (r: Result<Item>)
    ensures v.typ == "c" && v.data.Str? && v.data.s != [] ==> r == Ok(Str([v.data.s[0]]))
    ensures v.typ != "c" && TypeSize(v) == 0 ==> r == Ok(Str("[Array]"))
    ensures v.typ != "c" && TypeSize(v) != 0 ==> r == Ok(v.data)
  {
    if v.typ == "c" then
      match v.data
      case Str(s) => Ok(if s == [] then Nil else Str([s[0]]))
      case Int(x) => Ok(Int(x % 2))
      case Arr(e) => Ok(if e == [] then Nil else e[0])
      case _ => Err(NoMethod)
    else if TypeSize(v) == 0 then Ok(Str("[Array]"))
    else Ok(v.data)
  }

  /** The two tables agree with each other and with the pack directives:
      every tag's width is the number of bytes its directive writes, and
      'o' is the one tag that writes nothing. */
  lemma TablesAligned()
    ensures |TYPES| == |TYPE_SIZES| == 8
    ensures forall k | 0 <= k < 8 :: DirectiveSize(ParseDirective(TYPES[k])) == TYPE_SIZES[k]
    ensures forall k | 0 <= k < 8 :: IsKnownCode(ParseDirective(TYPES[k]).code) <==> k != 0
    ensures forall k | 0 <= k < 8 :: ParseDirective(TYPES[k]) == Directive(TYPES[k][0], 1)
  {
    assert DigitPrefix("1") == "1";
    assert DigitsValue("1") == 1;
    assert ParseDirective("a1") == Directive('a', 1);
    forall k | 0 <= k < 8
      ensures DirectiveSize(ParseDirective(TYPES[k])) == TYPE_SIZES[k]
      ensures IsKnownCode(ParseDirective(TYPES[k]).code) <==> k != 0
      ensures ParseDirective(TYPES[k]) == Directive(TYPES[k][0], 1)
    {
      if k != 3 {
        assert |TYPES[k]| == 1;
        assert ParseDirective(TYPES[k]) == Directive(TYPES[k][0], 1);
      }
    }
  }

  /** Each tag of the table is found at its own position. */
  lemma TagAt(k: nat)
    requires k < |TYPES|
    ensures TagIndex(TYPES[k]) == Some(k)
  {
    if k == 0 {
    } else if k == 1 {
    } else if k == 2 {
    } else if k == 3 {
      assert TYPES[3] != "o" && TYPES[3] != "c" && TYPES[3] != "C";
    } else if k == 4 {
    } else if k == 5 {
    } else if k == 6 {
    } else {
    }
  }

  /** Value#type_size of every tag in TYPES is its entry in TYPE_SIZES:
      'o' 0; 'c', 'C', 'a1' 1; 'i', 'I', 'f' 4; 'd' 8. */
  lemma TypeSizes(x: Item)
    ensures forall k | 0 <= k < |TYPES| :: TypeSize(Value(TYPES[k], x)) == TYPE_SIZES[k]
    ensures forall k | 0 <= k < |TYPES| :: BinaryDatatype(Value(TYPES[k], x)) == Some(k)
  {
    forall k | 0 <= k < |TYPES|
      ensures BinaryDatatype(Value(TYPES[k], x)) == Some(k)
    {
      TagAt(k);
    }
  }

  /** Dcf::List: a timestamp and the factors, in order. The program's
      default timestamp is the clock, so here it is always given. */
  class List {
    var timestamp: int
    var items: seq<Dcf>

    constructor (timestamp: int, arr: seq<Dcf>)
      ensures this.timestamp == timestamp && items == arr
    {
      this.timestamp := timestamp;
      items := arr;
    }

    /** List#<< */
    method Append(d: Dcf)
      modifies this
      ensures items == old(items) + [d] && timestamp == old(timestamp)
    {
      items := items + [d];
    }
  }
}
