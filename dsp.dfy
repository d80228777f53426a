/** Signal-processing output in memory (lib/mcg/signal_analysis/dsp.rb):
    operations, each the output of one processing step applied to a signal
    or to a pair of signals, and the Dsp container that lists them. */
module Dsp {
  import opened Results
  import opened Bytes
  import opened Lex

  const SOURCE_UNK: string := "Unknown"
  const SOURCE_SIG: string := "Signal"
  const SOURCE_PAIR: string := "SigPair"
  const SOURCE_OP: string := "DspOp"
  const SOURCE_TYPES: seq<string> := [SOURCE_UNK, SOURCE_SIG, SOURCE_PAIR, SOURCE_OP]

  /** Op#binary_src_type: the position of a source type in SOURCE_TYPES. */
  function BinarySrcType(srcType: string): (r: Option<nat>)
    ensures r.Some? <==> srcType in SOURCE_TYPES
    ensures r.Some? ==> r.value < 4 && SOURCE_TYPES[r.value] == srcType
  {
    IndexOf(SOURCE_TYPES, srcType)
  }

  /** The four source types are distinct, so each position is the one
      its type is stored as. */
  lemma SourceTypeIndex(k: nat)
    requires k < 4
    ensures BinarySrcType(SOURCE_TYPES[k]) == Some(k)
  {
    IndexOfAt(SOURCE_TYPES, k);
  }

  /** A source naming a pair of signals, "(a,b)". */
  predicate IsPairSource(source: string)
  {
    |source| > 0 && source[0] == '('
  }

  /** Op#fullname and Op#fullsym: the name (or symbol) alone when
      skip_pair is set and the source is a pair, otherwise the name, the
      separator and the source. */
  function Qualified(base: string, source: string, sep: string, skipPair: bool): (r: string)
    ensures |r| >= |base| && r[..|base|] == base
    ensures skipPair && IsPairSource(source) ==> r == base
    ensures !(skipPair && IsPairSource(source)) ==>
      |r| == |base| + |sep| + |source| && r[|base|..|base| + |sep|] == sep && r[|base| + |sep|..] == source
  {
    if skipPair && IsPairSource(source) then base else base + sep + source
  }

  /** Everything an Op holds, as a value: what its file record stores. */
  datatype OpImage = OpImage(source: string, srcType: string, name: string, sym: string,
                             labelText: string, domain: string, xAxis: string, yAxis: string,
                             data: seq<int>)

  /** One DSP operation. Only the data is writable. */
  class Op {
    const source: string
    const srcType: string
    const name: string
    const sym: string
    const labelText: string
    const domain: string
    const xAxis: string
    const yAxis: string
    var data: seq<int>

    /** The source type is one of SOURCE_TYPES; the constructor refuses
        anything else. */
    predicate Valid()
    {
      srcType in SOURCE_TYPES
    }

    function Image(): OpImage
      reads this
    {
      OpImage(source, srcType, name, sym, labelText, domain, xAxis, yAxis, data)
    }

    /** The constructor proper, once the source type has been checked
        (see NewOp for the check). */
    constructor (source: string, srcType: string, name: string, sym: string, labelText: string,
                 domain: string, xAxis: string, yAxis: string, data: seq<int>)
      requires srcType in SOURCE_TYPES
      ensures Valid()
      ensures Image() == OpImage(source, srcType, name, sym, labelText, domain, xAxis, yAxis, data)
    {
      this.source := source;
      this.srcType := srcType;
      this.name := name;
      this.sym := sym;
      this.labelText := labelText;
      this.domain := domain;
      this.xAxis := xAxis;
      this.yAxis := yAxis;
      this.data := data;
    }

    function FullName(sep: string, skipPair: bool): string
    {
      Qualified(name, source, sep, skipPair)
    }

    function FullSym(sep: string, skipPair: bool): string
    {
      Qualified(sym, source, sep, skipPair)
    }
  }

  /** Op.new: raises 'Invalid source type' unless the source type is one
      of SOURCE_TYPES. */
  method NewOp(source: string, srcType: string, name: string, sym: string, labelText: string,
               domain: string, xAxis: string, yAxis: string, data: seq<int>)
    returns (r: Result<Op>)
    ensures r.Ok? <==> srcType in SOURCE_TYPES
    ensures r.Err? ==> r.error == InvalidSourceType
    ensures r.Ok? ==> fresh(r.value) && r.value.Valid()
    ensures r.Ok? ==> r.value.Image() == OpImage(source, srcType, name, sym, labelText, domain, xAxis, yAxis, data)
  {
    if srcType !in SOURCE_TYPES {
      return Err(InvalidSourceType);
    }
    var op := new Op(source, srcType, name, sym, labelText, domain, xAxis, yAxis, data);
    return Ok(op);
  }

  // ---------------------------------------------------------------------
  // Lookups
  // ---------------------------------------------------------------------

  /** The test of Dsp#operation (by name) and Dsp#operation_sym (by
      symbol): the key matches, and so does the source when one is
      given. */
  predicate Matches(op: Op, bySym: bool, key: string, source: Option<string>)
  {
    (if bySym then op.sym else op.name) == key && (source.None? || op.source == source.value)
  }

  /** The position of the first matching op. */
  function FirstOp(ops: seq<Op>, bySym: bool, key: string, source: Option<string>): (r: Option<nat>)
    ensures r.None? <==> forall i | 0 <= i < |ops| :: !Matches(ops[i], bySym, key, source)
    ensures r.Some? ==> r.value < |ops| && Matches(ops[r.value], bySym, key, source)
    ensures r.Some? ==> forall j | 0 <= j < r.value :: !Matches(ops[j], bySym, key, source)
  {
    if ops == [] then None
    else if Matches(ops[0], bySym, key, source) then Some(0)
    else match FirstOp(ops[1..], bySym, key, source)
      case None => None
      case Some(k) =>
        assert forall j | 1 <= j <= k + 1 :: ops[j] == ops[1..][j - 1];
        Some(k + 1)
  }

  /** The first group of `find` that op falls in for str: 0 full name,
      1 full symbol, 2 name, 3 symbol; 4 when it matches none. */
  function Category(op: Op, str: string, sep: string): (k: nat)
    ensures k <= 4
  {
    if op.FullName(sep, false) == str then 0
    else if op.FullSym(sep, false) == str then 1
    else if op.name == str then 2
    else if op.sym == str then 3
    else 4
  }

  /** The ops of group k, in list order. */
  function Group(ops: seq<Op>, str: string, sep: string, k: nat): (r: seq<Op>)
    ensures |r| <= |ops|
    ensures forall o | o in r :: o in ops && Category(o, str, sep) == k
    ensures forall o | o in ops && Category(o, str, sep) == k :: o in r
  {
    if ops == [] then []
    else
      var last := ops[|ops| - 1];
      assert ops == ops[..|ops| - 1] + [last];
      Group(ops[..|ops| - 1], str, sep, k) + (if Category(last, str, sep) == k then [last] else [])
  }

  /** Group k of one more op: the op joins it when it falls in group k. */
  lemma GroupStep(ops: seq<Op>, i: nat, str: string, sep: string, k: nat)
    requires i < |ops|
    ensures Group(ops[..i + 1], str, sep, k)
            == Group(ops[..i], str, sep, k) + (if Category(ops[i], str, sep) == k then [ops[i]] else [])
  {
    assert ops[..i + 1][..i] == ops[..i];
  }

  /** What Dsp#find returns: the full-name matches, then the full-symbol,
      name and symbol matches. */
  function FindResult(ops: seq<Op>, str: string, sep: string): seq<Op>
  {
    Group(ops, str, sep, 0) + Group(ops, str, sep, 1) + Group(ops, str, sep, 2) + Group(ops, str, sep, 3)
  }

  /** An op is found exactly when its full name, full symbol, name or
      symbol is the string. */
  lemma FindMembers(ops: seq<Op>, str: string, sep: string, o: Op)
    ensures o in FindResult(ops, str, sep) <==>
      o in ops && (o.FullName(sep, false) == str || o.FullSym(sep, false) == str || o.name == str || o.sym == str)
  {
  }

  /** The groups come in order: a full-name match is never listed after a
      full-symbol match, and so on. */
  lemma FindGrouped(ops: seq<Op>, str: string, sep: string)
    ensures var r := FindResult(ops, str, sep);
      forall i, j | 0 <= i < j < |r| :: Category(r[i], str, sep) <= Category(r[j], str, sep)
  {
    var g0, g1, g2, g3 := Group(ops, str, sep, 0), Group(ops, str, sep, 1), Group(ops, str, sep, 2), Group(ops, str, sep, 3);
    var r := FindResult(ops, str, sep);
    forall i | 0 <= i < |r|
      ensures Category(r[i], str, sep) == (if i < |g0| then 0 else if i < |g0| + |g1| then 1
                                           else if i < |g0| + |g1| + |g2| then 2 else 3)
    {
      if i < |g0| {
        assert r[i] == g0[i] && g0[i] in g0;
      } else if i < |g0| + |g1| {
        assert r[i] == g1[i - |g0|] && g1[i - |g0|] in g1;
      } else if i < |g0| + |g1| + |g2| {
        assert r[i] == g2[i - |g0| - |g1|] && g2[i - |g0| - |g1|] in g2;
      } else {
        assert r[i] == g3[i - |g0| - |g1| - |g2|] && g3[i - |g0| - |g1| - |g2|] in g3;
      }
    }
  }

  /** Every op lands in exactly one of the five groups: the four find
      lists and the ops it leaves out. */
  lemma {:induction false} GroupsPartition(ops: seq<Op>, str: string, sep: string)
    ensures |Group(ops, str, sep, 0)| + |Group(ops, str, sep, 1)| + |Group(ops, str, sep, 2)|
          + |Group(ops, str, sep, 3)| + |Group(ops, str, sep, 4)| == |ops|
  {
    if ops != [] {
      GroupsPartition(ops[..|ops| - 1], str, sep);
    }
  }

  /** Each op appears in the result of find at most once per occurrence
      in the list. */
  lemma FindCount(ops: seq<Op>, str: string, sep: string)
    ensures |FindResult(ops, str, sep)| == |ops| - |Group(ops, str, sep, 4)|
  {
    GroupsPartition(ops, str, sep);
  }

  /** Every source, in list order. */
  function SourceList(ops: seq<Op>): (r: seq<string>)
    ensures |r| == |ops| && forall i | 0 <= i < |ops| :: r[i] == ops[i].source
  {
    seq(|ops|, i requires 0 <= i < |ops| => ops[i].source)
  }

  /** The sources of the ops of type 'Signal', in list order. */
  function SignalSources(ops: seq<Op>): (r: seq<string>)
    ensures forall x :: x in r <==> exists i | 0 <= i < |ops| :: ops[i].srcType == SOURCE_SIG && ops[i].source == x
  {
    if ops == [] then []
    else
      var last := ops[|ops| - 1];
      assert ops == ops[..|ops| - 1] + [last];
      SignalSources(ops[..|ops| - 1]) + (if last.srcType == SOURCE_SIG then [last.source] else [])
  }

  // ---------------------------------------------------------------------
  // The container
  // ---------------------------------------------------------------------

  class Dsp {
    var timestamp: int
    var operations: seq<Op>

    constructor (timestamp: int, ops: seq<Op>)
      ensures this.timestamp == timestamp && operations == ops
    {
      this.timestamp := timestamp;
      operations := ops;
    }

    /** Dsp#operation: the first op with this name (and source, when one
        is given), or nil. */
    function Operation(name: string, source: Option<string>): (r: Option<Op>)
      reads this
      ensures r.None? <==> forall i | 0 <= i < |operations| :: !Matches(operations[i], false, name, source)
      ensures r.Some? ==> exists i | 0 <= i < |operations| ::
        operations[i] == r.value && Matches(r.value, false, name, source) && forall j | 0 <= j < i :: !Matches(operations[j], false, name, source)
    {
      match FirstOp(operations, false, name, source)
      case None => None
      case Some(i) => Some(operations[i])
    }

    /** Dsp#operation_sym: the same, by symbol. */
    function OperationSym(sym: string, source: Option<string>): (r: Option<Op>)
      reads this
      ensures r.None? <==> forall i | 0 <= i < |operations| :: !Matches(operations[i], true, sym, source)
      ensures r.Some? ==> exists i | 0 <= i < |operations| ::
        operations[i] == r.value && Matches(r.value, true, sym, source) && forall j | 0 <= j < i :: !Matches(operations[j], true, sym, source)
    {
      match FirstOp(operations, true, sym, source)
      case None => None
      case Some(i) => Some(operations[i])
    }

    /** Dsp#find: one pass over the operations, each op going to the first
        of the four lists it matches. */
    method Find(str: string, sep: string) returns (r: seq<Op>)
      ensures r == FindResult(operations, str, sep)
    {
      var fn, fs, n, s := [], [], [], [];
      var i := 0;
      while i < |operations|
        invariant 0 <= i <= |operations|
        invariant fn == Group(operations[..i], str, sep, 0)
        invariant fs == Group(operations[..i], str, sep, 1)
        invariant n == Group(operations[..i], str, sep, 2)
        invariant s == Group(operations[..i], str, sep, 3)
      {
        var op := operations[i];
        GroupStep(operations, i, str, sep, 0);
        GroupStep(operations, i, str, sep, 1);
        GroupStep(operations, i, str, sep, 2);
        GroupStep(operations, i, str, sep, 3);
        hide Group;
        if op.FullName(sep, false) == str {
          fn := fn + [op];
        } else if op.FullSym(sep, false) == str {
          fs := fs + [op];
        } else if op.name == str {
          n := n + [op];
        } else if op.sym == str {
          s := s + [op];
        }
        i := i + 1;
      }
      assert operations[..i] == operations;
      r := fn + fs + n + s;
    }

    /** Dsp#sources: every source, duplicates kept, in String order. */
    function Sources(): (r: seq<string>)
      reads this
      ensures Sorted(r)
      ensures multiset(r) == multiset(SourceList(operations))
    {
      Sort(SourceList(operations))
    }

    /** Dsp#signals: the sources of the 'Signal' ops, each once. */
    function Signals(): (r: seq<string>)
      reads this
      ensures Distinct(r)
      ensures forall x :: x in r <==>
        exists i | 0 <= i < |operations| :: operations[i].srcType == SOURCE_SIG && operations[i].source == x
    {
      Uniq(SignalSources(operations))
    }
  }

  /** The listing of sources is the only sorted arrangement of them. */
  lemma SourcesUnique(d: Dsp, listing: seq<string>)
    requires Sorted(listing) && multiset(listing) == multiset(SourceList(d.operations))
    ensures d.Sources() == listing
  {
    SortedUnique(d.Sources(), listing);
  }

  /** Signals come in the order of their first 'Signal' op. */
  lemma SignalsOrder(d: Dsp)
    ensures var r := d.Signals(); var xs := SignalSources(d.operations);
      forall i, j | 0 <= i < j < |r| :: IndexOf(xs, r[i]).value < IndexOf(xs, r[j]).value
  {
    UniqOrder(SignalSources(d.operations));
  }
}
