/** Signal analysis results in memory (lib/mcg/signal_analysis/sar.rb):
    references, intermediate data, indexes (features) and the null object
    that stands for a missing one, the analyses holding them, and the Sar
    container with its lookups and lead-name parsing. */
module Sar {
  import opened Results
  import opened Bytes
  import opened Pack
  import opened Float32
  import Dsp
  import DspOps

  // ---------------------------------------------------------------------
  // Ref
  // ---------------------------------------------------------------------

  const REF_TYPES: seq<string> := ["DSP", "Signal", "Intermediate Data", "Index", "Misc"]
  const REF_ROLES: seq<string> := ["x axis", "y axis", "z axis", "ratio", "count", "score"]

  /** What an IntData was computed from. The type and role are nil when a
      file stores an index with no table entry. */
  datatype Ref = Ref(typ: Option<string>, role: Option<string>, name: string)

  /** Array#index of an entry in a table; nil is in no table. */
  function TablePosition(table: seq<string>, x: Option<string>): (r: Option<nat>)
    ensures r.Some? <==> x.Some? && x.value in table
    ensures r.Some? ==> r.value < |table| && table[r.value] == x.value
    ensures r.Some? ==> forall j | 0 <= j < r.value :: table[j] != x.value
  {
    match x
    case None => None
    case Some(v) => IndexOf(table, v)
  }

  /** Ref#binary_type */
  function BinaryType(r: Ref): (k: Option<nat>)
    ensures k.Some? <==> r.typ.Some? && r.typ.value in REF_TYPES
    ensures k.Some? ==> k.value < |REF_TYPES| && REF_TYPES[k.value] == r.typ.value
  {
    TablePosition(REF_TYPES, r.typ)
  }

  /** Ref#binary_role */
  function BinaryRole(r: Ref): (k: Option<nat>)
    ensures k.Some? <==> r.role.Some? && r.role.value in REF_ROLES
    ensures k.Some? ==> k.value < |REF_ROLES| && REF_ROLES[k.value] == r.role.value
  {
    TablePosition(REF_ROLES, r.role)
  }

  /** Both tables are free of repeats, so every entry is stored as its own
      position. */
  lemma RefPositions(t: nat, k: nat, name: string)
    requires t < |REF_TYPES| && k < |REF_ROLES|
    ensures BinaryType(Ref(Some(REF_TYPES[t]), Some(REF_ROLES[k]), name)) == Some(t)
    ensures BinaryRole(Ref(Some(REF_TYPES[t]), Some(REF_ROLES[k]), name)) == Some(k)
  {
    IndexOfAt(REF_TYPES, t);
    IndexOfAt(REF_ROLES, k);
  }

  // ---------------------------------------------------------------------
  // IntData
  // ---------------------------------------------------------------------

  /** IntData::TYPES: pack letters ('a' three times). */
  const INT_TYPES: seq<string> := ["a", "c", "C", "s", "S", "i", "I", "l", "L", "f", "d", "a", "a"]

  /** IntData::TYPE_SIZES. The first entry is the string '1', not a number. */
  const INT_TYPE_SIZES: seq<Item> :=
    [Str("1"), Int(1), Int(1), Int(2), Int(2), Int(4), Int(4), Int(4), Int(4), Int(4), Int(8), Int(1), Int(1)]

  /** An IntData type: the letter the add_idata helpers give it, or the
      integer position a file stores and decoding keeps. */
  datatype TypeTag = Code(code: string) | At(k: int)

  datatype IntData = IntData(name: string, typ: TypeTag, ref: Option<Ref>, data: seq<Item>)

  /** IntData#binary_datatype: the first position of the letter in TYPES
      (so 'a' is 0); an integer type is in no position. */
  function BinaryDatatype(d: IntData): (r: Option<nat>)
    ensures r.Some? <==> d.typ.Code? && d.typ.code in INT_TYPES
    ensures r.Some? ==> r.value < |INT_TYPES| && INT_TYPES[r.value] == d.typ.code
  {
    match d.typ
    case Code(c) => IndexOf(INT_TYPES, c)
    case At(_) => None
  }

  /** The byte width of one element of a type letter: 1 for a string
      character, the pack width for a number. */
  function ElementWidth(letter: string): nat
  {
    if letter == "a" || |letter| != 1 then 1 else Width(letter[0])
  }

  /** TYPE_SIZES[type]. A letter type cannot index an Array, and an index
      outside the table gives nil; neither, nor the string '1' at entry 0,
      multiplies a length (TypeError). */
  function TypeSize(t: TypeTag): (r: Result<int>)
    ensures r.Ok? ==> t.At?
    ensures r.Err? ==> r.error == TypeMismatch
  {
    match t
    case Code(_) => Err(TypeMismatch)
    case At(k) =>
      match RubyAt(INT_TYPE_SIZES, k)
      case Some(x) => if x.Int? then Ok(x.i) else Err(TypeMismatch)
      case None => Err(TypeMismatch)
  }

  /** The two tables have 13 entries. Apart from entry 0, the size at each
      position is the width of the letter there; entry 0 ('a' with the
      string '1') has no size, and letter types have none either. */
  lemma TypeTables(t: TypeTag)
    ensures |INT_TYPES| == |INT_TYPE_SIZES| == 13
    ensures TypeSize(t).Ok? <==> t.At? && RubyIndex(13, t.k).Ok? && RubyIndex(13, t.k).value != 0
    ensures TypeSize(t).Ok? ==> TypeSize(t).value == ElementWidth(INT_TYPES[RubyIndex(13, t.k).value])
  {
    if t.At? && RubyIndex(13, t.k).Ok? {
      var j := RubyIndex(13, t.k).value;
      assert RubyAt(INT_TYPE_SIZES, t.k) == Some(INT_TYPE_SIZES[j]);
      assert j == 0 || INT_TYPE_SIZES[j] == Int(ElementWidth(INT_TYPES[j]));
    }
  }

  /** IntData#data_size: length times the type's table size. */
  function DataSize(d: IntData): (r: Result<int>)
    ensures r.Ok? <==> TypeSize(d.typ).Ok?
    ensures r.Ok? ==> r.value == |d.data| * TypeSize(d.typ).value
    ensures r.Err? ==> r.error == TypeMismatch
  {
    var w :- TypeSize(d.typ);
    Ok(|d.data| * w)
  }

  /** IntData built with a letter type (every add_idata helper does so)
      has no data size, and neither has type index 0. */
  lemma NoSizeForLetters(name: string, letter: string, ref: Option<Ref>, data: seq<Item>)
    ensures DataSize(IntData(name, Code(letter), ref, data)) == Err(TypeMismatch)
    ensures DataSize(IntData(name, At(0), ref, data)) == Err(TypeMismatch)
  {
  }

  /** Array#flatten: nested arrays replaced by their elements, at every
      depth. */
  function Flatten(xs: seq<Item>): (r: seq<Item>)
    ensures forall i | 0 <= i < |r| :: !r[i].Arr?
    ensures (forall i | 0 <= i < |xs| :: !xs[i].Arr?) ==> r == xs
    decreases xs
  {
    if xs == [] then []
    else
      var head := match xs[0]
        case Arr(e) => Flatten(e)
        case x => [x];
      assert xs == [xs[0]] + xs[1..];
      head + Flatten(xs[1..])
  }

  /** Flattening a list flattens its first item, then the others. */
  lemma FlattenSplit(xs: seq<Item>)
    requires xs != []
    ensures Flatten(xs) == Flatten([xs[0]]) + Flatten(xs[1..])
  {
    assert [xs[0]][1..] == [];
  }

  /** Flattening a concatenation flattens each part. */
  lemma {:induction false} FlattenAppend(xs: seq<Item>, ys: seq<Item>)
    ensures Flatten(xs + ys) == Flatten(xs) + Flatten(ys)
    decreases xs
  {
    hide Flatten;
    if xs != [] {
      assert (xs + ys)[0] == xs[0];
      assert (xs + ys)[1..] == xs[1..] + ys;
      FlattenSplit(xs);
      FlattenSplit(xs + ys);
      FlattenAppend(xs[1..], ys);
    } else {
      assert xs + ys == ys;
    }
  }

  // ---------------------------------------------------------------------
  // Index and NullIndex
  // ---------------------------------------------------------------------

  /** A binary32 word: how an index value is stored. */
  type Word = w: Bytes | |w| == 4 witness [0, 0, 0, 0]

  datatype Index = Index(name: string, sym: string, value: Word)

  /** Index#is_set?: `value - 0.0 >= 0.5`. NaN compares false and
      +Infinity true. */
  predicate IsSetValue(w: Word)
  {
    match Decode(w)
    case Finite(v) => v - 0.0 >= 0.5
    case PosInf => true
    case _ => false
  }

  /** What Analysis#index returns: the index found, or a NullIndex whose
      name and symbol are the query and whose value is 0.0. */
  datatype IndexRef = Present(index: Index) | Missing(query: string) {
    function Name(): string
    {
      if Present? then index.name else query
    }

    function Sym(): string
    {
      if Present? then index.sym else query
    }

    function Value(): Word
    {
      if Present? then index.value else ZERO
    }

    /** NullIndex#is_set? is false outright. */
    predicate IsSet()
    {
      Present? && IsSetValue(index.value)
    }

    predicate NotSet()
    {
      !IsSet()
    }
  }

  /** The threshold: 0.0 is not set, 1.0 is, and NaN never is. */
  lemma IsSetThreshold()
    ensures !IsSetValue(ZERO) && IsSetValue(ONE)
    ensures !IsSetValue([0, 0, 192, 127])
  {
    ZeroValue();
    OneValue();
    NaNWord();
  }

  lemma NaNWord()
    ensures Decode([0, 0, 192, 127]).NaN?
  {
    hide Pow2;
    assert LeValue([0, 0, 192, 127]) == 0x7FC0_0000;
    assert (0x7FC0_0000 / 0x80_0000) % 256 == 255 && 0x7FC0_0000 % 0x80_0000 != 0;
  }

  /** A NullIndex answers as an index named and symbolled by the query
      with value 0.0: never set. */
  lemma NullIndexIsZero(q: string)
    ensures Missing(q).IsSet() == Present(Index(q, q, ZERO)).IsSet() == false
    ensures Missing(q).Name() == Missing(q).Sym() == q && Decode(Missing(q).Value()) == Finite(0.0)
  {
    ZeroValue();
  }

  /** Whether a finite value is set depends only on the value: of two
      finite values, the larger is set when the smaller is. */
  lemma IsSetMonotone(w1: Word, w2: Word)
    requires Decode(w1).Finite? && Decode(w2).Finite? && Decode(w1).r <= Decode(w2).r
    ensures IsSetValue(w1) ==> IsSetValue(w2)
  {
  }

  // ---------------------------------------------------------------------
  // First-match lookups
  // ---------------------------------------------------------------------

  /** The position of the first element satisfying p. */
  function FirstMatch<T>(xs: seq<T>, p: T -> bool): (r: Option<nat>)
    ensures r.None? <==> forall i | 0 <= i < |xs| :: !p(xs[i])
    ensures r.Some? ==> r.value < |xs| && p(xs[r.value])
    ensures r.Some? ==> forall j | 0 <= j < r.value :: !p(xs[j])
  {
    if xs == [] then None
    else if p(xs[0]) then Some(0)
    else match FirstMatch(xs[1..], p)
      case None => None
      case Some(k) =>
        assert forall j | 1 <= j <= k + 1 :: xs[j] == xs[1..][j - 1];
        Some(k + 1)
  }

  /** Two sequences whose elements agree on the tests have their first
      match at the same position. */
  lemma {:induction false} FirstMatchAgree<T, U>(xs: seq<T>, p: T -> bool, ys: seq<U>, q: U -> bool)
    requires |xs| == |ys| && forall i | 0 <= i < |xs| :: p(xs[i]) == q(ys[i])
    ensures FirstMatch(xs, p) == FirstMatch(ys, q)
  {
    if xs != [] && !p(xs[0]) {
      FirstMatchAgree(xs[1..], p, ys[1..], q);
    }
  }

  /** Analysis#index (by name) and #index_sym (by symbol): the first index
      whose key matches, else a NullIndex named after the query. */
  function IndexIn(indexes: seq<Index>, bySym: bool, key: string): (r: IndexRef)
    ensures r.Missing? <==> forall i | 0 <= i < |indexes| :: (if bySym then indexes[i].sym else indexes[i].name) != key
    ensures r.Missing? ==> r.query == key
    ensures r.Present? ==> exists i | 0 <= i < |indexes| ::
      indexes[i] == r.index && (if bySym then r.index.sym else r.index.name) == key &&
      forall j | 0 <= j < i :: (if bySym then indexes[j].sym else indexes[j].name) != key
  {
    match FirstMatch(indexes, (x: Index) => (if bySym then x.sym else x.name) == key)
    case None => Missing(key)
    case Some(i) => Present(indexes[i])
  }

  /** The names an `indexes=nil` default stands for: every index name, in
      order, repeats included. */
  function AllNames(indexes: seq<Index>): (r: seq<string>)
    ensures |r| == |indexes| && forall i | 0 <= i < |indexes| :: r[i] == indexes[i].name
  {
    seq(|indexes|, i requires 0 <= i < |indexes| => indexes[i].name)
  }

  /** The number of names whose lookup is set. */
  function SetCount(indexes: seq<Index>, names: seq<string>): (r: nat)
    ensures r <= |names|
  {
    if names == [] then 0
    else
      SetCount(indexes, names[..|names| - 1])
      + (if IndexIn(indexes, false, names[|names| - 1]).IsSet() then 1 else 0)
  }

  /** Float addition of the decoded index values. Ruby adds binary64
      Floats and rounds each sum; here finite values add exactly. */
  function AddFloat(a: Float, b: Float): (r: Float)
    ensures a.Finite? && b.Finite? ==> r == Finite(a.r + b.r)
  {
    match (a, b)
    case (Finite(x), Finite(y)) => Finite(x + y)
    case (NaN, _) => NaN
    case (_, NaN) => NaN
    case (PosInf, NegInf) => NaN
    case (NegInf, PosInf) => NaN
    case (PosInf, _) => PosInf
    case (_, PosInf) => PosInf
    case _ => NegInf
  }

  /** The value a name adds to the sum: its index value when set, else 0. */
  function SetPart(indexes: seq<Index>, name: string): Float
  {
    var x := IndexIn(indexes, false, name);
    if x.IsSet() then Decode(x.Value()) else Finite(0.0)
  }

  /** The sum of the values of the names whose lookup is set. */
  function SetSum(indexes: seq<Index>, names: seq<string>): Float
  {
    if names == [] then Finite(0.0)
    else AddFloat(SetSum(indexes, names[..|names| - 1]), SetPart(indexes, names[|names| - 1]))
  }

  /** Summing one name more adds its part. */
  lemma SetSumStep(indexes: seq<Index>, names: seq<string>, i: nat)
    requires i < |names|
    ensures SetSum(indexes, names[..i + 1]) == AddFloat(SetSum(indexes, names[..i]), SetPart(indexes, names[i]))
  {
    assert names[..i + 1][..i] == names[..i];
  }

  /** Counting one name more adds one when its lookup is set. */
  lemma SetCountStep(indexes: seq<Index>, names: seq<string>, i: nat)
    requires i < |names|
    ensures SetCount(indexes, names[..i + 1])
         == SetCount(indexes, names[..i]) + (if IndexIn(indexes, false, names[i]).IsSet() then 1 else 0)
  {
    assert names[..i + 1][..i] == names[..i];
  }

  /** Only set values are added: the sum is +Infinity or a finite value of
      at least half a point per set index. */
  lemma {:induction false} SumAtLeastHalfCount(indexes: seq<Index>, names: seq<string>)
    ensures SetSum(indexes, names).Finite? || SetSum(indexes, names).PosInf?
    ensures SetSum(indexes, names).Finite? ==>
      SetSum(indexes, names).r >= 0.5 * SetCount(indexes, names) as real
  {
    if names != [] {
      var front := names[..|names| - 1];
      SumAtLeastHalfCount(indexes, front);
    }
  }

  /** The set test of each name, in order. */
  function SetFlags(indexes: seq<Index>, names: seq<string>): (r: seq<bool>)
    ensures |r| == |names|
    ensures forall i | 0 <= i < |names| :: r[i] == IndexIn(indexes, false, names[i]).IsSet()
  {
    seq(|names|, i requires 0 <= i < |names| => IndexIn(indexes, false, names[i]).IsSet())
  }

  function Trues(bs: seq<bool>): nat
  {
    if bs == [] then 0 else Trues(bs[..|bs| - 1]) + (if bs[|bs| - 1] then 1 else 0)
  }

  /** count_indexes counts exactly the true flags of indexes_to_bool. */
  lemma {:induction false} CountIsTrueFlags(indexes: seq<Index>, names: seq<string>)
    ensures SetCount(indexes, names) == Trues(SetFlags(indexes, names))
  {
    if names != [] {
      var front := names[..|names| - 1];
      CountIsTrueFlags(indexes, front);
      assert SetFlags(indexes, names)[..|names| - 1] == SetFlags(indexes, front);
    }
  }

  // ---------------------------------------------------------------------
  // Analysis
  // ---------------------------------------------------------------------

  /** Everything an Analysis holds, as a value: what its file record
      stores. */
  datatype AnalysisImage = AnalysisImage(source: string, name: string, sym: string,
                                         indexes: seq<Index>, idata: seq<IntData>)

  /** One analysis of a source (a lead, or a pair "(a,b)"): its indexes
      and intermediate data, both appended to in place. */
  class Analysis {
    const source: string
    const name: string
    const sym: string
    var indexes: seq<Index>
    var idata: seq<IntData>

    constructor (source: string, name: string, sym: string, indexes: seq<Index>, idata: seq<IntData>)
      ensures Image() == AnalysisImage(source, name, sym, indexes, idata)
    {
      this.source := source;
      this.name := name;
      this.sym := sym;
      this.indexes := indexes;
      this.idata := idata;
    }

    function Image(): AnalysisImage
      reads this
    {
      AnalysisImage(source, name, sym, indexes, idata)
    }

    /** Analysis#fullname and #fullsym: the same rule as a DSP operation's. */
    function FullName(sep: string, skipPair: bool): string
    {
      Dsp.Qualified(name, source, sep, skipPair)
    }

    function FullSym(sep: string, skipPair: bool): string
    {
      Dsp.Qualified(sym, source, sep, skipPair)
    }

    /** Analysis#index */
    function IndexByName(key: string): (r: IndexRef)
      reads this
      ensures r.Missing? <==> forall i | 0 <= i < |indexes| :: indexes[i].name != key
      ensures r.Missing? ==> r.query == key
      ensures r.Present? ==> r.index.name == key && r.index in indexes
    {
      IndexIn(indexes, false, key)
    }

    /** Analysis#index_sym */
    function IndexBySym(key: string): (r: IndexRef)
      reads this
      ensures r.Missing? <==> forall i | 0 <= i < |indexes| :: indexes[i].sym != key
      ensures r.Missing? ==> r.query == key
      ensures r.Present? ==> r.index.sym == key && r.index in indexes
    {
      IndexIn(indexes, true, key)
    }

    /** Analysis#include?: some index has this name, which is when the
        lookup by name finds a real index. */
    predicate Includes(key: string)
      reads this
      ensures Includes(key) <==> exists i | 0 <= i < |indexes| :: indexes[i].name == key
    {
      IndexByName(key).Present?
    }

    /** Analysis#data: the first intermediate data with this name, or nil. */
    function DataNamed(key: string): (r: Option<IntData>)
      reads this
      ensures r.None? <==> forall i | 0 <= i < |idata| :: idata[i].name != key
      ensures r.Some? ==> exists i | 0 <= i < |idata| ::
        idata[i] == r.value && r.value.name == key && forall j | 0 <= j < i :: idata[j].name != key
    {
      match FirstMatch(idata, (d: IntData) => d.name == key)
      case None => None
      case Some(i) => Some(idata[i])
    }

    /** Analysis#add_index */
    method AddIndex(name: string, sym: string, value: Word)
      modifies this
      ensures indexes == old(indexes) + [Index(name, sym, value)]
      ensures idata == old(idata)
    {
      indexes := indexes + [Index(name, sym, value)];
    }

    /** Analysis#add_idata: the data is wrapped in an array and flattened. */
    method AddIdata(name: string, letter: string, data: Item, ref: Option<Ref>)
      modifies this
      ensures idata == old(idata) + [IntData(name, Code(letter), ref, Flatten([data]))]
      ensures indexes == old(indexes)
    {
      idata := idata + [IntData(name, Code(letter), ref, Flatten([data]))];
    }

    method AddIdataI(name: string, data: Item, ref: Option<Ref>)
      modifies this
      ensures idata == old(idata) + [IntData(name, Code("i"), ref, Flatten([data]))]
      ensures indexes == old(indexes)
    {
      AddIdata(name, "i", data, ref);
    }

    method AddIdataUi(name: string, data: Item, ref: Option<Ref>)
      modifies this
      ensures idata == old(idata) + [IntData(name, Code("I"), ref, Flatten([data]))]
      ensures indexes == old(indexes)
    {
      AddIdata(name, "I", data, ref);
    }

    method AddIdataF(name: string, data: Item, ref: Option<Ref>)
      modifies this
      ensures idata == old(idata) + [IntData(name, Code("f"), ref, Flatten([data]))]
      ensures indexes == old(indexes)
    {
      AddIdata(name, "f", data, ref);
    }

    method AddIdataD(name: string, data: Item, ref: Option<Ref>)
      modifies this
      ensures idata == old(idata) + [IntData(name, Code("d"), ref, Flatten([data]))]
      ensures indexes == old(indexes)
    {
      AddIdata(name, "d", data, ref);
    }

    method AddIdataS(name: string, data: Item, ref: Option<Ref>)
      modifies this
      ensures idata == old(idata) + [IntData(name, Code("a"), ref, Flatten([data]))]
      ensures indexes == old(indexes)
    {
      AddIdata(name, "a", data, ref);
    }

    /** The names an aggregate runs over: those given, or by default every
        index name. */
    function Selected(names: Option<seq<string>>): seq<string>
      reads this
    {
      if names.Some? then names.value else AllNames(indexes)
    }

    /** Analysis#sum_indexes */
    method SumIndexes(names: Option<seq<string>>) returns (sum: Float)
      ensures sum == SetSum(indexes, Selected(names))
    {
      var selected := if names.Some? then names.value else AllNames(indexes);
      sum := Finite(0.0);
      for i := 0 to |selected|
        invariant sum == SetSum(indexes, selected[..i])
      {
        SetSumStep(indexes, selected, i);
        var idx := IndexByName(selected[i]);
        sum := AddFloat(sum, if idx.IsSet() then Decode(idx.Value()) else Finite(0.0));
      }
      assert selected[..|selected|] == selected;
    }

    /** Analysis#count_indexes */
    method CountIndexes(names: Option<seq<string>>) returns (count: nat)
      ensures count == SetCount(indexes, Selected(names))
    {
      var selected := if names.Some? then names.value else AllNames(indexes);
      count := 0;
      for i := 0 to |selected|
        invariant count == SetCount(indexes, selected[..i])
      {
        SetCountStep(indexes, selected, i);
        count := count + if IndexByName(selected[i]).IsSet() then 1 else 0;
      }
      assert selected[..|selected|] == selected;
    }

    /** Analysis#indexes_to_bool */
    function IndexesToBool(names: Option<seq<string>>): (r: seq<bool>)
      reads this
      ensures |r| == |Selected(names)|
      ensures forall i | 0 <= i < |r| :: r[i] == IndexByName(Selected(names)[i]).IsSet()
    {
      SetFlags(indexes, Selected(names))
    }
  }

  /** The images of a list of analyses, in order. */
  function Images(analyses: seq<Analysis>): (r: seq<AnalysisImage>)
    reads analyses
    ensures |r| == |analyses| && forall i | 0 <= i < |analyses| :: r[i] == analyses[i].Image()
  {
    if analyses == [] then [] else Images(analyses[..|analyses| - 1]) + [analyses[|analyses| - 1].Image()]
  }

  lemma ImagesAppend(analyses: seq<Analysis>, a: Analysis)
    ensures Images(analyses + [a]) == Images(analyses) + [a.Image()]
  {
    assert (analyses + [a])[..|analyses|] == analyses;
  }

  // ---------------------------------------------------------------------
  // The lead-pair pattern /\([^,]+,[^)]+\)/
  // ---------------------------------------------------------------------

  /** The first position at or after i holding c. */
  function Find(s: string, c: char, i: nat): (r: Option<nat>)
    requires i <= |s|
    ensures r.None? <==> forall j | i <= j < |s| :: s[j] != c
    ensures r.Some? ==> i <= r.value < |s| && s[r.value] == c
    ensures r.Some? ==> forall j | i <= j < r.value :: s[j] != c
    decreases |s| - i
  {
    if i == |s| then None
    else if s[i] == c then Some(i)
    else Find(s, c, i + 1)
  }

  /** s[o..p+1] matches the pattern with its comma at c: '(' at o, one or
      more characters other than ',' up to c, one or more other than ')'
      up to the ')' at p. */
  predicate IsPairMatch(s: string, o: nat, c: nat, p: nat)
  {
    && o + 2 <= c && c + 2 <= p && p < |s|
    && s[o] == '(' && s[c] == ',' && s[p] == ')'
    && (forall j | o < j < c :: s[j] != ',')
    && (forall j | c < j < p :: s[j] != ')')
  }

  /** The match of the pattern that starts at o, if there is one: the
      comma and the closing parenthesis are the first of each after it. */
  function PairAt(s: string, o: nat): (r: Option<(nat, nat)>)
    requires o <= |s|
    ensures r.Some? ==> IsPairMatch(s, o, r.value.0, r.value.1)
    ensures forall c: nat, p: nat :: IsPairMatch(s, o, c, p) ==> r == Some((c, p))
  {
    if o == |s| || s[o] != '(' then None
    else match Find(s, ',', o + 1)
      case None => None
      case Some(c) =>
        if c == o + 1 then None
        else match Find(s, ')', c + 1)
          case None => None
          case Some(p) => if p == c + 1 then None else Some((c, p))
  }

  /** `s =~ /\([^,]+,[^)]+\)/` searching from i: the leftmost match, as
      the positions of its '(', ',' and ')'. */
  function PairMatch(s: string, i: nat): (r: Option<(nat, nat, nat)>)
    requires i <= |s|
    ensures r.Some? ==> i <= r.value.0 && IsPairMatch(s, r.value.0, r.value.1, r.value.2)
    ensures r.Some? ==> forall o: nat, c: nat, p: nat | i <= o < r.value.0 :: !IsPairMatch(s, o, c, p)
    ensures r.None? ==> forall o: nat, c: nat, p: nat | i <= o :: !IsPairMatch(s, o, c, p)
    decreases |s| - i
  {
    match PairAt(s, i)
    case Some((c, p)) => Some((i, c, p))
    case None => if i == |s| then None else PairMatch(s, i + 1)
  }

  /** The two groups of /\(([^,]+),([^)]+)\)/ on s: the text between '('
      and ',' and between ',' and ')' of the leftmost match. */
  function Leads(s: string): (r: Option<(string, string)>)
    ensures r.Some? <==> PairMatch(s, 0).Some?
  {
    match PairMatch(s, 0)
    case None => None
    case Some((o, c, p)) => Some((s[o + 1..c], s[c + 1..p]))
  }

  /** A pair name built from two lead names is parsed back into them when
      the first has no comma and the second no ')'. */
  lemma LeadsOfPairName(a: string, b: string)
    requires a != [] && ',' !in a && b != [] && ')' !in b
    ensures Leads(DspOps.PairName(a, b)) == Some((a, b))
  {
    var s := DspOps.PairName(a, b);
    var c := |a| + 1;
    var p := |s| - 1;
    forall j | 0 < j < c
      ensures s[j] != ','
    {
      assert s[j] == a[j - 1];
    }
    forall j | c < j < p
      ensures s[j] != ')'
    {
      assert s[j] == b[j - c - 1];
    }
    assert IsPairMatch(s, 0, c, p);
    assert PairAt(s, 0) == Some((c, p));
  }

  // ---------------------------------------------------------------------
  // Sar
  // ---------------------------------------------------------------------

  /** The test of Sar#analysis (by name) and #analysis_sym (by symbol):
      the key matches, and so does the source when one is given. */
  predicate AnalysisMatches(a: Analysis, bySym: bool, key: string, source: Option<string>)
  {
    (if bySym then a.sym else a.name) == key && (source.None? || a.source == source.value)
  }

  /** A source the lead-pair pattern matches somewhere. */
  predicate HasPair(source: string)
  {
    PairMatch(source, 0).Some?
  }

  class Sar {
    const timestamp: int
    var analyses: seq<Analysis>

    constructor (timestamp: int, ops: seq<Analysis>)
      ensures this.timestamp == timestamp && analyses == ops
    {
      this.timestamp := timestamp;
      analyses := ops;
    }

    /** Sar#analysis: the first analysis with this name (and source, when
        one is given), or nil. */
    function AnalysisNamed(name: string, source: Option<string>): (r: Option<Analysis>)
      reads this
      ensures r.None? <==> forall i | 0 <= i < |analyses| :: !AnalysisMatches(analyses[i], false, name, source)
      ensures r.Some? ==> exists i | 0 <= i < |analyses| ::
        analyses[i] == r.value && AnalysisMatches(r.value, false, name, source) &&
        forall j | 0 <= j < i :: !AnalysisMatches(analyses[j], false, name, source)
    {
      match FirstMatch(analyses, (a: Analysis) => AnalysisMatches(a, false, name, source))
      case None => None
      case Some(i) => Some(analyses[i])
    }

    /** Sar#analysis_sym */
    function AnalysisBySym(sym: string, source: Option<string>): (r: Option<Analysis>)
      reads this
      ensures r.None? <==> forall i | 0 <= i < |analyses| :: !AnalysisMatches(analyses[i], true, sym, source)
      ensures r.Some? ==> exists i | 0 <= i < |analyses| ::
        analyses[i] == r.value && AnalysisMatches(r.value, true, sym, source) &&
        forall j | 0 <= j < i :: !AnalysisMatches(analyses[j], true, sym, source)
    {
      match FirstMatch(analyses, (a: Analysis) => AnalysisMatches(a, true, sym, source))
      case None => None
      case Some(i) => Some(analyses[i])
    }

    /** Sar#get_or_create_analysis: the existing analysis with this name
        and source unchanged, or else a new empty one appended. */
    method GetOrCreateAnalysis(name: string, sym: string, source: string) returns (a: Analysis)
      modifies this
      ensures old(AnalysisNamed(name, Some(source))).Some? ==>
        a == old(AnalysisNamed(name, Some(source))).value && analyses == old(analyses)
      ensures old(AnalysisNamed(name, Some(source))).None? ==>
        fresh(a) && analyses == old(analyses) + [a] && a.Image() == AnalysisImage(source, name, sym, [], [])
      ensures AnalysisNamed(name, Some(source)) == Some(a)
    {
      var found := AnalysisNamed(name, Some(source));
      if found.Some? {
        return found.value;
      }
      a := new Analysis(source, name, sym, [], []);
      analyses := analyses + [a];
      assert AnalysisMatches(analyses[|analyses| - 1], false, name, Some(source));
    }

    /** Sar#lead_pair_name: the source of the first analysis the pattern
        matches; with none, `.source` is called on nil. */
    function LeadPairName(): (r: Result<string>)
      reads this
      ensures r.Err? <==> forall i | 0 <= i < |analyses| :: !HasPair(analyses[i].source)
      ensures r.Err? ==> r.error == NoMethod
      ensures r.Ok? ==> HasPair(r.value) && exists i | 0 <= i < |analyses| ::
        analyses[i].source == r.value && forall j | 0 <= j < i :: !HasPair(analyses[j].source)
    {
      match FirstMatch(analyses, (a: Analysis) => HasPair(a.source))
      case None => Err(NoMethod)
      case Some(i) => Ok(analyses[i].source)
    }

    /** Sar#primary_lead_name: the first group of the pair name ('' when
        the pattern fails, which the pair name never lets happen). */
    function PrimaryLeadName(): (r: Result<string>)
      reads this
      ensures r.Err? <==> LeadPairName().Err?
      ensures r.Ok? ==> Leads(LeadPairName().value).Some? && r.value == Leads(LeadPairName().value).value.0
    {
      var pair :- LeadPairName();
      Ok(match Leads(pair) case Some(l) => l.0 case None => "")
    }

    /** Sar#secondary_lead_name: the second group. */
    function SecondaryLeadName(): (r: Result<string>)
      reads this
      ensures r.Err? <==> LeadPairName().Err?
      ensures r.Ok? ==> Leads(LeadPairName().value).Some? && r.value == Leads(LeadPairName().value).value.1
    {
      var pair :- LeadPairName();
      Ok(match Leads(pair) case Some(l) => l.1 case None => "")
    }
  }
}
