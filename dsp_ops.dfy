/** The standard DSP operations (lib/mcg/signal_analysis/dsp_ops.rb): the
    constant group of each operation kind, the tables of standard symbols
    and names, and Dsp#create_std_ops, which appends the twelve standard
    operations for a pair of leads. */
module DspOps {
  import opened Results
  import opened Dsp
  import opened Lex

  /** One group of Op constants: <KIND>_NAME, _SYM, _DOMAIN, _LABEL,
      _X_AXIS and _Y_AXIS. */
  datatype Kind = Kind(name: string, sym: string, domain: string, labelText: string,
                       xAxis: string, yAxis: string)

  const QRS: Kind := Kind("qrs complex", "qrs", "time", "representative qrs complex",
                          "time in milliseconds (ms)", "amplitude in millivolts (mV)")
  const AMP: Kind := Kind("amplitude", "amp", "amplitude", "ratio of frequency to amplitude",
                          "amplitude in millivolts (mV)", "count")
  const APS: Kind := Kind("auto power spectrum", "aps", "frequency", "power peaks in signal",
                          "frequency in Hz", "power in watts")
  const CPS: Kind := Kind("cross power spectrum", "cps", "frequency", "power peaks in signal pair",
                          "frequency in Hz", "power in watts")
  const CCR: Kind := Kind("cross correlation", "ccr", "frequency", "r-wave correlation of signals",
                          "time in milliseconds (ms)", "amplitude in millivolts (mV)")
  const IMR: Kind := Kind("impulse response", "imr", "transfer", "ratio of latency to amplitude",
                          "latency", "amplitude in millivolts (mV)")
  const PSA: Kind := Kind("phase shift angle", "psa", "transfer",
                          "degree of synchronization between signals",
                          "frequency in Hz", "phase shift in degrees")
  const XAR: Kind := Kind("transfer amplitude ratio", "xar", "transfer",
                          "ratio of cross to auto power spectrum",
                          "frequency in Hz", "amplitude ratio of cps and aps")
  const COH: Kind := Kind("coherence", "coh", "correlation",
                          "ratio of square of cross to auto power spectrum",
                          "frequency in Hz", "amplitude ratio squared")

  /** The kinds in the order of the STD tables. */
  const STD_KINDS: seq<Kind> := [QRS, APS, CCR, CPS, AMP, XAR, IMR, PSA, COH]

  /** Dsp::STD_OPERATIONS */
  const STD_OPERATIONS: seq<string> := ["qrs", "aps", "ccr", "cps", "amp", "xar", "imr", "psa", "coh"]

  /** Dsp::STD_OPERATION_NAMES */
  const STD_OPERATION_NAMES: seq<string> :=
    ["qrs complex", "auto power spectrum", "cross correlation", "cross power spectrum",
     "amplitude", "transfer amplitude ratio", "impulse response", "phase shift angle", "coherence"]

  /** The two tables have nine entries each, and entry i of both comes
      from the same constant group. */
  lemma StdTablesAligned()
    ensures |STD_OPERATIONS| == |STD_OPERATION_NAMES| == |STD_KINDS| == 9
    ensures forall i | 0 <= i < 9 ::
      STD_OPERATIONS[i] == STD_KINDS[i].sym && STD_OPERATION_NAMES[i] == STD_KINDS[i].name
  {
  }

  /** No two kinds share a name or a symbol, so the tables pair each
      standard symbol with exactly one name. */
  lemma KindsDistinct()
    ensures forall i, j | 0 <= i < j < 9 :: STD_KINDS[i].name != STD_KINDS[j].name
    ensures forall i, j | 0 <= i < j < 9 :: STD_KINDS[i].sym != STD_KINDS[j].sym
  {
  }

  /** "(a,b)": the source of an operation on a pair of leads. */
  function PairName(a: string, b: string): (r: string)
    ensures |r| == |a| + |b| + 3 && r[0] == '(' && r[|r| - 1] == ')'
    ensures r[1..|a| + 1] == a && r[|a| + 1] == ',' && r[|a| + 2..|r| - 1] == b
  {
    "(" + a + "," + b + ")"
  }

  /** What create_std_ops makes one op from: its source, source type and
      constant group. */
  datatype StdOp = StdOp(source: string, srcType: string, kind: Kind)

  /** The twelve operations create_std_ops appends, in order. */
  function StdOps(a: string, b: string): (r: seq<StdOp>)
    ensures |r| == 12
  {
    var pair := PairName(a, b);
    [StdOp(a, SOURCE_SIG, QRS), StdOp(b, SOURCE_SIG, QRS),
     StdOp(a, SOURCE_SIG, APS), StdOp(b, SOURCE_SIG, APS),
     StdOp(a, SOURCE_SIG, AMP), StdOp(b, SOURCE_SIG, AMP),
     StdOp(pair, SOURCE_PAIR, CPS), StdOp(pair, SOURCE_PAIR, CCR),
     StdOp(pair, SOURCE_PAIR, IMR), StdOp(pair, SOURCE_PAIR, PSA),
     StdOp(pair, SOURCE_PAIR, XAR), StdOp(pair, SOURCE_PAIR, COH)]
  }

  /** The six per-lead operations are 'Signal' operations on a, b, a, b, a,
      b; the six pair operations are 'SigPair' operations on "(a,b)". */
  lemma StdOpsSources(a: string, b: string)
    ensures forall i | 0 <= i < 6 ::
      StdOps(a, b)[i].srcType == SOURCE_SIG && StdOps(a, b)[i].source == (if i % 2 == 0 then a else b)
    ensures forall i | 6 <= i < 12 ::
      StdOps(a, b)[i].srcType == SOURCE_PAIR && StdOps(a, b)[i].source == PairName(a, b)
  {
  }

  /** The positions in STD_KINDS of the per-lead kinds (QRS, APS, AMP)
      and of the pair kinds (CPS, CCR, IMR, PSA, XAR, COH). */
  const LEAD_KINDS: seq<nat> := [0, 1, 4]
  const PAIR_KINDS: seq<nat> := [3, 2, 6, 7, 5, 8]

  /** The position in STD_KINDS of the kind of standard operation i. */
  function KindAt(i: nat): (k: nat)
    requires i < 12
    ensures k < 9
  {
    if i < 6 then LEAD_KINDS[i / 2] else PAIR_KINDS[i - 6]
  }

  lemma StdOpsKinds(a: string, b: string)
    ensures forall i | 0 <= i < 12 :: StdOps(a, b)[i].kind == STD_KINDS[KindAt(i)]
  {
  }

  /** Only the two ops of one per-lead kind share a kind. */
  lemma SharedKind(i: nat, j: nat)
    requires i < 12 && j < 12 && i != j && KindAt(i) == KindAt(j)
    ensures i < 6 && j < 6 && i / 2 == j / 2
  {
    if i < 6 && j < 6 {
      assert LEAD_KINDS[i / 2] == LEAD_KINDS[j / 2];
    }
  }

  /** Every standard kind is created: QRS, APS and AMP once per lead, the
      pair kinds once; the tables' kinds are exactly those created. */
  lemma StdOpsCoverKinds(a: string, b: string)
    ensures forall i | 0 <= i < 12 :: StdOps(a, b)[i].kind in STD_KINDS
    ensures forall j | 0 <= j < 9 :: exists i | 0 <= i < 12 :: StdOps(a, b)[i].kind == STD_KINDS[j]
  {
    StdOpsKinds(a, b);
    hide StdOps;
    var first := [0, 2, 7, 6, 4, 10, 8, 9, 11];
    forall j | 0 <= j < 9
      ensures exists i | 0 <= i < 12 :: StdOps(a, b)[i].kind == STD_KINDS[j]
    {
      assert KindAt(first[j]) == j;
    }
  }

  /** op holds what the standard operation s describes. */
  predicate Describes(op: Op, s: StdOp)
  {
    && op.source == s.source && op.srcType == s.srcType
    && op.name == s.kind.name && op.sym == s.kind.sym && op.labelText == s.kind.labelText
    && op.domain == s.kind.domain && op.xAxis == s.kind.xAxis && op.yAxis == s.kind.yAxis
  }

  /** `@operations << Op.new(source, type, <KIND>_NAME, ...)`: one
      standard operation, with no data. */
  method AppendStd(dsp: Dsp, s: StdOp) returns (op: Op)
    requires s.srcType in SOURCE_TYPES
    modifies dsp
    ensures fresh(op) && op.Valid() && Describes(op, s) && op.data == []
    ensures dsp.operations == old(dsp.operations) + [op] && dsp.timestamp == old(dsp.timestamp)
  {
    op := new Op(s.source, s.srcType, s.kind.name, s.kind.sym, s.kind.labelText,
                 s.kind.domain, s.kind.xAxis, s.kind.yAxis, []);
    dsp.operations := dsp.operations + [op];
  }

  lemma DistinctAppend(xs: seq<Op>, x: Op)
    requires Distinct(xs) && x !in xs
    ensures Distinct(xs + [x])
  {
  }

  /** Dsp#create_std_ops: appends the twelve standard operations after the
      existing ones, which stay as they were. */
  method CreateStdOps(dsp: Dsp, a: string, b: string)
    modifies dsp
    ensures dsp.timestamp == old(dsp.timestamp)
    ensures |dsp.operations| == |old(dsp.operations)| + 12
    ensures dsp.operations[..|old(dsp.operations)|] == old(dsp.operations)
    ensures forall i | 0 <= i < 12 :: var op := dsp.operations[|old(dsp.operations)| + i];
      fresh(op) && op.Valid() && Describes(op, StdOps(a, b)[i]) && op.data == []
    ensures Distinct(dsp.operations[|old(dsp.operations)|..])
  {
    var specs := StdOps(a, b);
    assert forall i | 0 <= i < 12 :: specs[i].srcType in SOURCE_TYPES;
    hide StdOps;
    ghost var created: seq<Op> := [];
    for k := 0 to 12
      invariant dsp.timestamp == old(dsp.timestamp)
      invariant |created| == k && dsp.operations == old(dsp.operations) + created
      invariant forall i | 0 <= i < k ::
        fresh(created[i]) && created[i].Valid() && Describes(created[i], specs[i]) && created[i].data == []
      invariant Distinct(created)
    {
      var op := AppendStd(dsp, specs[k]);
      assert op !in created;
      DistinctAppend(created, op);
      created := created + [op];
    }
    assert forall i | 0 <= i < 12 :: dsp.operations[|old(dsp.operations)| + i] == created[i];
    assert dsp.operations[|old(dsp.operations)|..] == created;
  }

  /** An op that matches, with none before it matching, is the one found. */
  lemma FirstOpAt(ops: seq<Op>, bySym: bool, key: string, source: Option<string>, i: nat)
    requires i < |ops| && Matches(ops[i], bySym, key, source)
    requires forall j | 0 <= j < i :: !Matches(ops[j], bySym, key, source)
    ensures FirstOp(ops, bySym, key, source) == Some(i)
  {
  }

  /** With two different leads, no two standard operations have both
      the same name and the same source, and no other operation has the name
      of a pair operation. */
  lemma StdKeysDistinct(a: string, b: string, i: nat, j: nat)
    requires a != b && i < 12 && j < 12 && i != j
    ensures StdOps(a, b)[i].kind.name != StdOps(a, b)[j].kind.name
      || StdOps(a, b)[i].source != StdOps(a, b)[j].source
    ensures i >= 6 ==> StdOps(a, b)[i].kind.name != StdOps(a, b)[j].kind.name
  {
    StdOpsKinds(a, b);
    StdOpsSources(a, b);
    KindsDistinct();
    hide StdOps;
    var ki, kj := KindAt(i), KindAt(j);
    if ki < kj {
      assert STD_KINDS[ki].name != STD_KINDS[kj].name;
    } else if kj < ki {
      assert STD_KINDS[kj].name != STD_KINDS[ki].name;
    } else {
      SharedKind(i, j);
    }
  }

  /** After create_std_ops(a, b) on a Dsp with no operations, and with two
      different leads, looking an operation up by its name and source finds
      exactly the one created for them; a pair operation is also the one
      found by name alone. */
  lemma StdOpFound(ops: seq<Op>, a: string, b: string, i: nat)
    requires a != b && |ops| == 12 && i < 12
    requires forall j | 0 <= j < 12 :: Describes(ops[j], StdOps(a, b)[j])
    ensures FirstOp(ops, false, StdOps(a, b)[i].kind.name, Some(StdOps(a, b)[i].source)) == Some(i)
    ensures i >= 6 ==> FirstOp(ops, false, StdOps(a, b)[i].kind.name, None) == Some(i)
  {
    hide StdOps;
    var specs := StdOps(a, b);
    var key := specs[i].kind.name;
    var src := specs[i].source;
    forall j | 0 <= j < 12 && j != i
      ensures !Matches(ops[j], false, key, Some(src))
      ensures i >= 6 ==> !Matches(ops[j], false, key, None)
    {
      StdKeysDistinct(a, b, i, j);
    }
    FirstOpAt(ops, false, key, Some(src), i);
    if i >= 6 {
      FirstOpAt(ops, false, key, None, i);
    }
  }
}
