/** The built-in analyses and the legacy index vector
    (lib/mcg/signal_analysis/sar_indexes.rb): the tables of the 132 legacy
    indexes (their names, analyses and sources), Sar#create_std_analyses,
    and the three exports that walk the analyses of a lead pair:
    legacy_indexes (the Index objects), to_llo (their values truncated to
    integers) and to_llo_x (to_llo and 16 severity values).

    The exports are written in the source as 132 (and 16) successive
    `arr << op.index(NAME)` statements; here each statement is one entry of
    a lookup table (the analysis, which lead it is taken from, and the
    index name), and each export is a loop over that table. */
module SarIndexes {
  import opened Results
  import opened Float32
  import opened Sar
  import opened DspOps

  const HR_NAME: string := "heart rate"
  const HR_SYM: string := "hr"

  // ---------------------------------------------------------------------
  // The legacy tables
  // ---------------------------------------------------------------------

  /** n copies of x. */
  function Repeat(x: string, n: nat): (r: seq<string>)
    ensures |r| == n && forall i | 0 <= i < n :: r[i] == x
  {
    seq(n, _ => x)
  }

  /** Index::LEGACY_INDEXES, in the groups its comments name: the 26
      names of a lead (GXX for the primary, GYY for the secondary, the
      same names), QXY, RH, PIH, HA, VXY and Q. */
  const LEGACY_GXX: seq<string> :=
    ["1/2", "O", "U1", "U2", "U3", "U3xy", "U4", "N1", "N3", "S", "SS", "F", "FF",
     "A1", "A2", "A3", "A4", "A5", "A55", "N2", "AA12", "AA34", "AA123", "AA1", "AA4", "U5"]
  const LEGACY_QXY: seq<string> := ["P+", "P-", "WW", "PWW+", "PWW-", "L"]
  const LEGACY_RH: seq<string> := ["Q1", "Q2"]
  const LEGACY_PIH: seq<string> := ["D1", "D2", "f", "M1", "M3", "M2", "M4", "M5", "M6", "ff"]
  const LEGACY_HA: seq<string> := ["A+", "A+", "A-", "A-", "n+", "n+", "n-", "n-"]
  const LEGACY_VXY: seq<string> :=
    ["rrr", "RRR", "r", "R", "RR", "rr", "rR", "R+", "R-", "Rw+", "Rw-", "PT1", "PT2",
     "pt1", "pt2", "Rn", "RVV+", "RVV-", "R^", "!R", "R!", "r2", "R2", "r22", "RM"]
  const LEGACY_Q: seq<string> :=
    ["T+", "T-", "U+", "U-", "W+", "W-", "W", "P+10", "P+15", "P+>15", "P-10", "P-15", "P->15",
     "V+", "V-", "X++", "X+-", "X--", "X-+", "Y++", "Y--", "Y+-", "Y-+",
     "Z+1", "Z+2", "Z+3", "Z-1", "Z-2", "Z-3"]

  const LEGACY_INDEXES: seq<string> := LegacyIndexNames()

  function LegacyIndexNames(): (r: seq<string>)
    ensures |r| == 132
  {
    LEGACY_GXX + LEGACY_GXX + LEGACY_QXY + LEGACY_RH + LEGACY_PIH + LEGACY_HA + LEGACY_VXY + LEGACY_Q
  }

  /** Index::LEGACY_OPS: the analysis each legacy index comes from, as
      runs of one name. */
  const LEGACY_OPS: seq<string> := LegacyOpNames()

  function LegacyOpNames(): (r: seq<string>)
    ensures |r| == 132
  {
    OpsLead() + OpsLead() + (Repeat(PSA.name, 5) + [IMR.name]) + Repeat(COH.name, 2) + Repeat(IMR.name, 10)
    + Repeat(AMP.name, 8) + Repeat(CCR.name, 25) + Repeat(PSA.name, 29)
  }

  /** The analyses of the 26 indexes of a lead. */
  function OpsLead(): (r: seq<string>)
    ensures |r| == 26
  {
    Repeat(APS.name, 9) + Repeat(HR_NAME, 4) + Repeat(APS.name, 13)
  }

  /** Index::LEGACY_SOURCES: the lead each legacy index is documented to
      come from, for the leads V5 and II. */
  const LEGACY_SOURCES: seq<string> := LegacySourceNames()

  function LegacySourceNames(): (r: seq<string>)
    ensures |r| == 132
  {
    Repeat("V5", 26) + Repeat("II", 26) + Repeat("(V5,II)", 6) + Repeat("(V5,II)", 2) + Repeat("(V5,II)", 10)
    + ["V5", "II", "V5", "II", "V5", "II", "V5", "II"] + Repeat("(V5,II)", 25) + Repeat("(V5,II)", 29)
  }

  /** Index.legacy_name: `LEGACY_INDEXES[idx]`, nil outside the table. */
  function LegacyName(idx: int): (r: Option<string>)
    ensures r.Some? <==> -132 <= idx < 132
    ensures r.Some? && idx >= 0 ==> r.value == LEGACY_INDEXES[idx]
    ensures r.Some? && idx < 0 ==> r.value == LEGACY_INDEXES[132 + idx]
  {
    Bytes.RubyAt(LEGACY_INDEXES, idx)
  }

  // ---------------------------------------------------------------------
  // The lookups the exports make
  // ---------------------------------------------------------------------

  /** Which analysis source a lookup uses: primary_lead_name,
      secondary_lead_name or lead_pair_name. */
  datatype Lead = Primary | Secondary | Pair

  /** One `op.index(NAME)` of the exports: the analysis name, the lead of
      its source, and the index name. */
  datatype Lookup = Lookup(analysis: string, lead: Lead, index: string)

  /** The same analysis and lead for several index names. */
  function Run(analysis: string, lead: Lead, names: seq<string>): (r: seq<Lookup>)
    ensures |r| == |names| && forall i | 0 <= i < |names| :: r[i] == Lookup(analysis, lead, names[i])
  {
    seq(|names|, i requires 0 <= i < |names| => Lookup(analysis, lead, names[i]))
  }

  /** Positions 0-25 (primary lead) and 26-51 (secondary lead): the
      auto power spectrum of the lead, with the heart-rate indexes of the
      lead pair at 9-12 of the group. */
  function GroupLead(lead: Lead): (r: seq<Lookup>)
    ensures |r| == 26
  {
    Run(APS.name, lead, ["1/2", "O", "U1", "U2", "U3", "U3xy", "U4", "N1", "N3"])
    + Run(HR_NAME, Pair, ["S", "SS", "F", "FF"])
    + Run(APS.name, lead, ["A1", "A2", "A3", "A4", "A5", "A55", "N2", "AA12", "AA34", "AA123", "AA1", "AA4", "U5"])
  }

  /** Positions 52-57: phase shift angle, then the L of the impulse
      response. */
  function GroupQxy(): (r: seq<Lookup>)
    ensures |r| == 6
  {
    Run(PSA.name, Pair, ["P+", "P-", "WW", "PWW+", "PWW-"]) + [Lookup(IMR.name, Pair, "L")]
  }

  /** Positions 58-59: coherence. */
  function GroupRh(): (r: seq<Lookup>)
    ensures |r| == 2
  {
    Run(COH.name, Pair, ["Q1", "Q2"])
  }

  /** Positions 60-69: impulse response. */
  function GroupPih(): (r: seq<Lookup>)
    ensures |r| == 10
  {
    Run(IMR.name, Pair, ["D1", "D2", "f", "M1", "M3", "M2", "M4", "M5", "M6", "ff"])
  }

  /** Positions 70-77: amplitude, primary and secondary lead in turn. */
  function GroupHa(): (r: seq<Lookup>)
    ensures |r| == 8
  {
    [Lookup(AMP.name, Primary, "A+"), Lookup(AMP.name, Secondary, "A+"),
     Lookup(AMP.name, Primary, "A-"), Lookup(AMP.name, Secondary, "A-"),
     Lookup(AMP.name, Primary, "n+"), Lookup(AMP.name, Secondary, "n+"),
     Lookup(AMP.name, Primary, "n-"), Lookup(AMP.name, Secondary, "n-")]
  }

  /** Positions 78-102: cross correlation. */
  function GroupVxy(): (r: seq<Lookup>)
    ensures |r| == 25
  {
    Run(CCR.name, Pair, ["rrr", "RRR", "r", "R", "RR", "rr", "rR", "R+", "R-", "Rw+", "Rw-", "PT1", "PT2",
                         "pt1", "pt2", "Rn", "RVV+", "RVV-", "R^", "!R", "R!", "r2", "R2", "r22", "RM"])
  }

  /** Positions 103-131: phase shift angle. */
  function GroupQ(): (r: seq<Lookup>)
    ensures |r| == 29
  {
    Run(PSA.name, Pair, ["T+", "T-", "U+", "U-", "W+", "W-", "W", "P+10", "P+15", "P+>15", "P-10", "P-15",
                         "P->15", "V+", "V-", "X++", "X+-", "X--", "X-+", "Y++", "Y--", "Y+-", "Y-+",
                         "Z+1", "Z+2", "Z+3", "Z-1", "Z-2", "Z-3"])
  }

  /** The 132 lookups of legacy_indexes and to_llo, in order. */
  function LegacyLookups(): (r: seq<Lookup>)
    ensures |r| == 132
  {
    GroupLead(Primary) + GroupLead(Secondary) + GroupQxy() + GroupRh() + GroupPih() + GroupHa()
    + GroupVxy() + GroupQ()
  }

  /** The 16 lookups to_llo_x adds: the camel indexes of both leads' auto
      power spectra (kept as floats), then the dragon, bat and snail
      severities (truncated). */
  function ExtraReals(): (r: seq<Lookup>)
    ensures |r| == 6
  {
    [Lookup(APS.name, Primary, "Camel1"), Lookup(APS.name, Primary, "Camel2"), Lookup(APS.name, Primary, "Camel3"),
     Lookup(APS.name, Secondary, "Camel1"), Lookup(APS.name, Secondary, "Camel2"), Lookup(APS.name, Secondary, "Camel3")]
  }

  function ExtraWholes(): (r: seq<Lookup>)
    ensures |r| == 10
  {
    [Lookup(PSA.name, Pair, "Dragon1"), Lookup(PSA.name, Pair, "Dragon2"), Lookup(PSA.name, Pair, "Dragon3"),
     Lookup(IMR.name, Pair, "Bat1"), Lookup(IMR.name, Pair, "Bat2"),
     Lookup(CCR.name, Pair, "Snail1"), Lookup(CCR.name, Pair, "Snail2"), Lookup(CCR.name, Pair, "Snail3"),
     Lookup(CCR.name, Pair, "Snail4"), Lookup(CCR.name, Pair, "Snail5")]
  }

  /** The index names, analyses and documented sources of a list of
      lookups. */
  function Names(ls: seq<Lookup>): (r: seq<string>)
    ensures |r| == |ls| && forall i | 0 <= i < |ls| :: r[i] == ls[i].index
  {
    seq(|ls|, i requires 0 <= i < |ls| => ls[i].index)
  }

  lemma NamesAppend(x: seq<Lookup>, y: seq<Lookup>)
    ensures Names(x + y) == Names(x) + Names(y)
  {
  }

  /** The source a lead stands for when the leads are a and b. */
  function LeadName(lead: Lead, a: string, b: string): string
  {
    match lead
    case Primary => a
    case Secondary => b
    case Pair => PairName(a, b)
  }

  /** The lookups of each group name the indexes of the same group of
      LEGACY_INDEXES. */
  lemma GroupNames(lead: Lead)
    ensures Names(GroupLead(lead)) == LEGACY_GXX
    ensures Names(GroupQxy()) == LEGACY_QXY && Names(GroupRh()) == LEGACY_RH
    ensures Names(GroupPih()) == LEGACY_PIH && Names(GroupHa()) == LEGACY_HA
    ensures Names(GroupVxy()) == LEGACY_VXY && Names(GroupQ()) == LEGACY_Q
  {
    LeadGroupNames(lead);
    RunNames(PSA.name, Pair, LEGACY_QXY[..5]);
    NamesAppend(Run(PSA.name, Pair, LEGACY_QXY[..5]), [Lookup(IMR.name, Pair, "L")]);
    assert LEGACY_QXY == LEGACY_QXY[..5] + ["L"];
    RunNames(COH.name, Pair, LEGACY_RH);
    RunNames(IMR.name, Pair, LEGACY_PIH);
    RunNames(CCR.name, Pair, LEGACY_VXY);
    RunNames(PSA.name, Pair, LEGACY_Q);
  }

  /** The names of the lead group: the spectrum names, the heart-rate
      names, then the spectrum names again. */
  lemma LeadGroupNames(lead: Lead)
    ensures Names(GroupLead(lead)) == LEGACY_GXX
  {
    var a := ["1/2", "O", "U1", "U2", "U3", "U3xy", "U4", "N1", "N3"];
    var b := ["S", "SS", "F", "FF"];
    var c := ["A1", "A2", "A3", "A4", "A5", "A55", "N2", "AA12", "AA34", "AA123", "AA1", "AA4", "U5"];
    RunNames(APS.name, lead, a);
    RunNames(HR_NAME, Pair, b);
    RunNames(APS.name, lead, c);
    NamesAppend(Run(APS.name, lead, a), Run(HR_NAME, Pair, b));
    NamesAppend(Run(APS.name, lead, a) + Run(HR_NAME, Pair, b), Run(APS.name, lead, c));
    assert LEGACY_GXX == a + b + c;
    hide Names, Run;
  }

  /** A run of lookups names its indexes in order. */
  lemma RunNames(analysis: string, lead: Lead, names: seq<string>)
    ensures Names(Run(analysis, lead, names)) == names
  {
  }

  /** Lookup i of legacy_indexes and to_llo asks for the index named
      LEGACY_INDEXES[i]. */
  lemma LookupsFollowLegacyIndexes()
    ensures forall i | 0 <= i < 132 :: LegacyLookups()[i].index == LEGACY_INDEXES[i]
  {
    GroupNames(Primary);
    GroupNames(Secondary);
    var g1, g2, g3, g4 := GroupLead(Primary), GroupLead(Secondary), GroupQxy(), GroupRh();
    var g5, g6, g7, g8 := GroupPih(), GroupHa(), GroupVxy(), GroupQ();
    assert LegacyLookups() == g1 + g2 + g3 + g4 + g5 + g6 + g7 + g8;
    assert LEGACY_INDEXES == LEGACY_GXX + LEGACY_GXX + LEGACY_QXY + LEGACY_RH + LEGACY_PIH + LEGACY_HA
                             + LEGACY_VXY + LEGACY_Q;
    hide *;
    NamesAppend(g1, g2);
    NamesAppend(g1 + g2, g3);
    NamesAppend(g1 + g2 + g3, g4);
    NamesAppend(g1 + g2 + g3 + g4, g5);
    NamesAppend(g1 + g2 + g3 + g4 + g5, g6);
    NamesAppend(g1 + g2 + g3 + g4 + g5 + g6, g7);
    NamesAppend(g1 + g2 + g3 + g4 + g5 + g6 + g7, g8);
  }

  /** Position i of eight lists joined is position i - offset of the list
      it falls in. */
  lemma Eight<T>(a: seq<T>, b: seq<T>, c: seq<T>, d: seq<T>, e: seq<T>, f: seq<T>, g: seq<T>, h: seq<T>, i: nat)
    requires i < |a| + |b| + |c| + |d| + |e| + |f| + |g| + |h|
    ensures (a + b + c + d + e + f + g + h)[i] ==
      if i < |a| then a[i]
      else if i < |a| + |b| then b[i - |a|]
      else if i < |a| + |b| + |c| then c[i - |a| - |b|]
      else if i < |a| + |b| + |c| + |d| then d[i - |a| - |b| - |c|]
      else if i < |a| + |b| + |c| + |d| + |e| then e[i - |a| - |b| - |c| - |d|]
      else if i < |a| + |b| + |c| + |d| + |e| + |f| then f[i - |a| - |b| - |c| - |d| - |e|]
      else if i < |a| + |b| + |c| + |d| + |e| + |f| + |g| then g[i - |a| - |b| - |c| - |d| - |e| - |f|]
      else h[i - |a| - |b| - |c| - |d| - |e| - |f| - |g|]
  {
  }

  /** The analysis and lead of every lookup of each group. */
  lemma GroupShapes(lead: Lead)
    ensures forall j | 0 <= j < 26 :: GroupLead(lead)[j].analysis == (if 9 <= j < 13 then HR_NAME else APS.name)
    ensures forall j | 0 <= j < 26 :: GroupLead(lead)[j].lead == (if 9 <= j < 13 then Pair else lead)
    ensures forall j | 0 <= j < 6 :: GroupQxy()[j].lead == Pair && GroupQxy()[j].analysis == (if j < 5 then PSA.name else IMR.name)
    ensures forall j | 0 <= j < 2 :: GroupRh()[j].lead == Pair && GroupRh()[j].analysis == COH.name
    ensures forall j | 0 <= j < 10 :: GroupPih()[j].lead == Pair && GroupPih()[j].analysis == IMR.name
    ensures forall j | 0 <= j < 8 :: GroupHa()[j].lead == (if j % 2 == 0 then Primary else Secondary)
    ensures forall j | 0 <= j < 8 :: GroupHa()[j].analysis == AMP.name
    ensures forall j | 0 <= j < 25 :: GroupVxy()[j].lead == Pair && GroupVxy()[j].analysis == CCR.name
    ensures forall j | 0 <= j < 29 :: GroupQ()[j].lead == Pair && GroupQ()[j].analysis == PSA.name
  {
  }

  /** The lookups of legacy_indexes and to_llo are the groups, in order. */
  lemma LookupAt(i: nat)
    requires i < 132
    ensures LegacyLookups()[i] ==
      if i < 26 then GroupLead(Primary)[i]
      else if i < 52 then GroupLead(Secondary)[i - 26]
      else if i < 58 then GroupQxy()[i - 52]
      else if i < 60 then GroupRh()[i - 58]
      else if i < 70 then GroupPih()[i - 60]
      else if i < 78 then GroupHa()[i - 70]
      else if i < 103 then GroupVxy()[i - 78]
      else GroupQ()[i - 103]
  {
    var g1, g2, g3, g4 := GroupLead(Primary), GroupLead(Secondary), GroupQxy(), GroupRh();
    var g5, g6, g7, g8 := GroupPih(), GroupHa(), GroupVxy(), GroupQ();
    assert LegacyLookups() == g1 + g2 + g3 + g4 + g5 + g6 + g7 + g8;
    hide *;
    Eight(g1, g2, g3, g4, g5, g6, g7, g8, i);
  }

  lemma LegacyTableSizes()
    ensures |LEGACY_INDEXES| == 132 && |LEGACY_OPS| == 132 && |LEGACY_SOURCES| == 132
  {
  }

  /** Entry i of LEGACY_OPS, by group. */
  lemma LegacyOpAt(i: nat)
    requires i < 132
    ensures LEGACY_OPS[i] ==
      if i < 52 then (if 9 <= i % 26 < 13 then HR_NAME else APS.name)
      else if i < 57 then PSA.name
      else if i == 57 then IMR.name
      else if i < 60 then COH.name
      else if i < 70 then IMR.name
      else if i < 78 then AMP.name
      else if i < 103 then CCR.name
      else PSA.name
  {
    var lead := OpsLead();
    var qxy := Repeat(PSA.name, 5) + [IMR.name];
    assert LEGACY_OPS == lead + lead + qxy + Repeat(COH.name, 2) + Repeat(IMR.name, 10)
      + Repeat(AMP.name, 8) + Repeat(CCR.name, 25) + Repeat(PSA.name, 29);
    hide *;
    Eight(lead, lead, qxy, Repeat(COH.name, 2), Repeat(IMR.name, 10),
          Repeat(AMP.name, 8), Repeat(CCR.name, 25), Repeat(PSA.name, 29), i);
    if i < 26 {
      OpsLeadAt(i);
      assert i % 26 == i;
    } else if i < 52 {
      OpsLeadAt(i - 26);
      assert i % 26 == i - 26;
    } else if i < 58 {
      assert qxy[i - 52] == if i < 57 then PSA.name else IMR.name;
    }
  }

  /** The analysis of index j of a lead's group. */
  lemma OpsLeadAt(j: nat)
    requires j < 26
    ensures OpsLead()[j] == if 9 <= j < 13 then HR_NAME else APS.name
  {
  }

  /** The lead of lookup i: a single lead for the 48 auto-spectrum
      indexes and the 8 amplitude indexes, the pair everywhere else. */
  lemma LookupLeadAt(i: nat)
    requires i < 132
    ensures LegacyLookups()[i].lead ==
      if i < 52 then (if 9 <= i % 26 < 13 then Pair else if i < 26 then Primary else Secondary)
      else if 70 <= i < 78 then (if i % 2 == 0 then Primary else Secondary)
      else Pair
  {
    hide *;
    LookupAt(i);
    GroupShapes(Primary);
    GroupShapes(Secondary);
    if i < 26 {
      assert i % 26 == i;
    } else if i < 52 {
      assert i % 26 == i - 26;
    } else if 70 <= i < 78 {
      assert i % 2 == (i - 70) % 2;
    }
  }

  /** Entry i of LEGACY_SOURCES, by group. */
  lemma LegacySourceAt(i: nat)
    requires i < 132
    ensures LEGACY_SOURCES[i] ==
      if i < 26 then "V5"
      else if i < 52 then "II"
      else if 70 <= i < 78 then (if i % 2 == 0 then "V5" else "II")
      else "(V5,II)"
  {
    var pair := "(V5,II)";
    var alt := ["V5", "II", "V5", "II", "V5", "II", "V5", "II"];
    assert LEGACY_SOURCES == Repeat("V5", 26) + Repeat("II", 26) + Repeat(pair, 6) + Repeat(pair, 2) + Repeat(pair, 10)
      + alt + Repeat(pair, 25) + Repeat(pair, 29);
    assert forall j | 0 <= j < 8 :: alt[j] == (if j % 2 == 0 then "V5" else "II");
    hide *;
    Eight(Repeat("V5", 26), Repeat("II", 26), Repeat(pair, 6), Repeat(pair, 2), Repeat(pair, 10),
          alt, Repeat(pair, 25), Repeat(pair, 29), i);
  }

  /** Lookup i of the exports reads the analysis LEGACY_OPS[i]. */
  lemma LookupsFollowLegacyOps()
    ensures forall i | 0 <= i < 132 :: LegacyLookups()[i].analysis == LEGACY_OPS[i]
  {
    GroupShapes(Primary);
    GroupShapes(Secondary);
    LegacyTableSizes();
    hide *;
    forall i | 0 <= i < 132
      ensures LegacyLookups()[i].analysis == LEGACY_OPS[i]
    {
      LookupAt(i);
      LegacyOpAt(i);
    }
  }

  /** LEGACY_SOURCES gives the source lookup i uses, for the leads V5 and
      II, everywhere but at 9-12 and 35-38, where it names a single lead
      while the heart-rate indexes come from the analysis of the pair. */
  lemma LegacySourcesDiffer()
    ensures forall i | 0 <= i < 132 ::
      LEGACY_SOURCES[i] == LeadName(LegacyLookups()[i].lead, "V5", "II") <==> !(9 <= i < 13 || 35 <= i < 39)
  {
    GroupShapes(Primary);
    GroupShapes(Secondary);
    assert PairName("V5", "II") == "(V5,II)";
    LegacyTableSizes();
    hide *;
    forall i | 0 <= i < 132
      ensures LEGACY_SOURCES[i] == LeadName(LegacyLookups()[i].lead, "V5", "II") <==> !(9 <= i < 13 || 35 <= i < 39)
    {
      LookupAt(i);
      LegacySourceAt(i);
    }
  }

  // ---------------------------------------------------------------------
  // Resolving the lookups against a Sar
  // ---------------------------------------------------------------------

  /** The source a lead stands for in a Sar: lead_pair_name,
      primary_lead_name or secondary_lead_name. All three fail (`.source`
      on nil) when no analysis has a lead-pair source. */
  function SourceOf(s: Sar, lead: Lead): (r: Result<string>)
    reads s
    ensures r.Err? <==> s.LeadPairName().Err?
    ensures r.Err? ==> r.error == NoMethod
    ensures lead == Pair ==> r == s.LeadPairName()
    ensures r.Ok? && lead != Pair ==> (Leads(s.LeadPairName().value).Some? &&
      r.value == LeadName(lead, Leads(s.LeadPairName().value).value.0, Leads(s.LeadPairName().value).value.1))
  {
    match lead
    case Primary => s.PrimaryLeadName()
    case Secondary => s.SecondaryLeadName()
    case Pair => s.LeadPairName()
  }

  /** `analysis(ANALYSIS, <lead>).index(INDEX)`: the index (or NullIndex)
      of the first analysis with that name on the lead's source. No such
      analysis gives nil, and nil.index raises NoMethodError. */
  function Resolve(s: Sar, l: Lookup): (r: Result<IndexRef>)
    reads s, s.analyses
    ensures r.Err? ==> r.error == NoMethod
    ensures r.Ok? ==> r.value.Name() == l.index
  {
    var src :- SourceOf(s, l.lead);
    match s.AnalysisNamed(l.analysis, Some(src))
    case None => Err(NoMethod)
    case Some(a) => Ok(a.IndexByName(l.index))
  }

  /** A list of lookups in order; the first failure stops the export. */
  function ResolveAll(s: Sar, ls: seq<Lookup>): (r: Result<seq<IndexRef>>)
    reads s, s.analyses
    ensures r.Ok? ==> |r.value| == |ls|
    ensures r.Err? ==> r.error == NoMethod
    decreases |ls|
  {
    if ls == [] then Ok([])
    else
      var init :- ResolveAll(s, ls[..|ls| - 1]);
      var last :- Resolve(s, ls[|ls| - 1]);
      Ok(init + [last])
  }

  /** The list succeeds exactly when every lookup does, and then holds
      their results in order. */
  lemma {:induction false} ResolveAllPointwise(s: Sar, ls: seq<Lookup>)
    ensures ResolveAll(s, ls).Ok? <==> forall i | 0 <= i < |ls| :: Resolve(s, ls[i]).Ok?
    ensures ResolveAll(s, ls).Ok? ==> forall i | 0 <= i < |ls| :: ResolveAll(s, ls).value[i] == Resolve(s, ls[i]).value
  {
    hide Resolve;
    if ls != [] {
      var init := ls[..|ls| - 1];
      ResolveAllPointwise(s, init);
      assert forall i | 0 <= i < |init| :: init[i] == ls[i];
    }
  }

  /** `op.index(INDEX).value.to_i`: the value truncated toward zero;
      a NaN or infinite value raises FloatDomainError. */
  function Whole(s: Sar, l: Lookup): (r: Result<int>)
    reads s, s.analyses
    ensures Resolve(s, l).Err? ==> r == Err(NoMethod)
    ensures r.Err? ==> r.error == NoMethod || r.error == FloatDomain
  {
    var x :- Resolve(s, l);
    Truncate(Decode(x.Value()))
  }

  /** A found index (or NullIndex) gives its value truncated when the value
      is finite, and FloatDomainError otherwise; a NullIndex gives 0. */
  lemma WholeValue(s: Sar, l: Lookup)
    requires Resolve(s, l).Ok?
    ensures Whole(s, l).Ok? <==> Decode(Resolve(s, l).value.Value()).Finite?
    ensures Whole(s, l).Err? ==> Whole(s, l).error == FloatDomain
    ensures Whole(s, l).Ok? ==> Whole(s, l) == Truncate(Decode(Resolve(s, l).value.Value()))
    ensures Resolve(s, l).value.Missing? ==> Whole(s, l) == Ok(0)
  {
    if Resolve(s, l).value.Missing? {
      ZeroValue();
    }
  }

  /** A list of truncated lookups in order. */
  function WholeAll(s: Sar, ls: seq<Lookup>): (r: Result<seq<int>>)
    reads s, s.analyses
    ensures r.Ok? ==> |r.value| == |ls|
    decreases |ls|
  {
    if ls == [] then Ok([])
    else
      var init :- WholeAll(s, ls[..|ls| - 1]);
      var last :- Whole(s, ls[|ls| - 1]);
      Ok(init + [last])
  }

  /** The list succeeds exactly when every lookup does, and then holds
      their values in order. */
  lemma {:induction false} WholeAllPointwise(s: Sar, ls: seq<Lookup>)
    ensures WholeAll(s, ls).Ok? <==> forall i | 0 <= i < |ls| :: Whole(s, ls[i]).Ok?
    ensures WholeAll(s, ls).Ok? ==> forall i | 0 <= i < |ls| :: WholeAll(s, ls).value[i] == Whole(s, ls[i]).value
  {
    hide Whole, Resolve;
    if ls != [] {
      var init := ls[..|ls| - 1];
      WholeAllPointwise(s, init);
      assert forall i | 0 <= i < |init| :: init[i] == ls[i];
    }
  }

  /** A failing list fails with the error of its first failing lookup. */
  lemma {:induction false} WholeAllFirstFailure(s: Sar, ls: seq<Lookup>)
    requires WholeAll(s, ls).Err?
    ensures exists i | 0 <= i < |ls| ::
      Whole(s, ls[i]).Err? && WholeAll(s, ls).error == Whole(s, ls[i]).error && forall j | 0 <= j < i :: Whole(s, ls[j]).Ok?
  {
    hide Whole, Resolve;
    var init := ls[..|ls| - 1];
    assert forall i | 0 <= i < |init| :: init[i] == ls[i];
    if WholeAll(s, init).Err? {
      WholeAllFirstFailure(s, init);
      var i :| 0 <= i < |init| && Whole(s, init[i]).Err? && WholeAll(s, init).error == Whole(s, init[i]).error
        && forall j | 0 <= j < i :: Whole(s, init[j]).Ok?;
      assert Whole(s, ls[i]).Err?;
    } else {
      WholeAllPointwise(s, init);
      assert Whole(s, ls[|ls| - 1]).Err?;
    }
  }

  /** Sar#legacy_indexes: the 132 Index objects, NullIndex where an
      analysis lacks the index. */
  function LegacyIndexes(s: Sar): (r: Result<seq<IndexRef>>)
    reads s, s.analyses
    ensures r.Ok? ==> |r.value| == 132
  {
    ResolveAll(s, LegacyLookups())
  }

  /** Sar#to_llo: the 132 legacy index values, truncated. */
  function ToLlo(s: Sar): (r: Result<seq<int>>)
    reads s, s.analyses
    ensures r.Ok? ==> |r.value| == 132
  {
    WholeAll(s, LegacyLookups())
  }

  /** An entry of the extended vector: an integer (to_i) or a float
      (to_f, the stored word unchanged). */
  datatype Llo = Int(i: int) | Real(w: Word)

  function Ints(xs: seq<int>): (r: seq<Llo>)
    ensures |r| == |xs| && forall i | 0 <= i < |xs| :: r[i] == Int(xs[i])
  {
    seq(|xs|, i requires 0 <= i < |xs| => Int(xs[i]))
  }

  function Reals(xs: seq<IndexRef>): (r: seq<Llo>)
    ensures |r| == |xs| && forall i | 0 <= i < |xs| :: r[i] == Real(xs[i].Value())
  {
    seq(|xs|, i requires 0 <= i < |xs| => Real(xs[i].Value()))
  }

  /** Sar#to_llo_x: to_llo, then the camel indexes of the two leads' auto
      power spectra as floats, then the dragon, bat and snail indexes
      truncated. */
  function ToLloX(s: Sar): (r: Result<seq<Llo>>)
    reads s, s.analyses
    ensures r.Ok? ==> ToLlo(s).Ok? && |r.value| == 148
  {
    var llo :- ToLlo(s);
    var reals :- ResolveAll(s, ExtraReals());
    var wholes :- WholeAll(s, ExtraWholes());
    Ok(Ints(llo) + Reals(reals) + Ints(wholes))
  }

  // ---------------------------------------------------------------------
  // What the exports return
  // ---------------------------------------------------------------------

  /** A lookup succeeds exactly when the lead's source exists and some
      analysis has the lookup's name on it; it then reads the first such
      analysis. */
  lemma ResolveSpec(s: Sar, l: Lookup)
    ensures Resolve(s, l).Ok? <==> SourceOf(s, l.lead).Ok? && exists i | 0 <= i < |s.analyses| ::
      s.analyses[i].name == l.analysis && s.analyses[i].source == SourceOf(s, l.lead).value
    ensures Resolve(s, l).Ok? ==> exists i | 0 <= i < |s.analyses| ::
      s.analyses[i].name == l.analysis && s.analyses[i].source == SourceOf(s, l.lead).value
      && Resolve(s, l).value == s.analyses[i].IndexByName(l.index)
      && forall j | 0 <= j < i :: !(s.analyses[j].name == l.analysis && s.analyses[j].source == SourceOf(s, l.lead).value)
  {
    if SourceOf(s, l.lead).Ok? {
      var src := SourceOf(s, l.lead).value;
      if s.AnalysisNamed(l.analysis, Some(src)).None? {
        assert forall i | 0 <= i < |s.analyses| :: !AnalysisMatches(s.analyses[i], false, l.analysis, Some(src));
      }
    }
  }

  /** Entry i of legacy_indexes is named LEGACY_INDEXES[i]. */
  lemma LegacyIndexesNamed(s: Sar)
    requires LegacyIndexes(s).Ok?
    ensures forall i | 0 <= i < 132 :: LegacyIndexes(s).value[i].Name() == LEGACY_INDEXES[i]
  {
    var ls := LegacyLookups();
    ResolveAllPointwise(s, ls);
    LookupsFollowLegacyIndexes();
    LegacyTableSizes();
    assert LegacyIndexes(s) == ResolveAll(s, ls);
    hide *;
    forall i | 0 <= i < 132
      ensures LegacyIndexes(s).value[i].Name() == LEGACY_INDEXES[i]
    {
      assert LegacyIndexes(s).value[i] == Resolve(s, ls[i]).value;
    }
  }

  /** With no lead-pair analysis every export fails with NoMethodError
      (`.source` on nil, before any value is read). */
  lemma NoLeadPairFails(s: Sar)
    requires s.LeadPairName().Err?
    ensures LegacyIndexes(s) == Err(NoMethod)
    ensures ToLlo(s) == Err(NoMethod)
    ensures ToLloX(s) == Err(NoMethod)
  {
    var ls := LegacyLookups();
    assert forall l: Lookup :: Resolve(s, l).Err? && Whole(s, l) == Err(NoMethod);
    ResolveAllPointwise(s, ls);
    WholeAllPointwise(s, ls);
    assert Whole(s, ls[0]).Err?;
    WholeAllFirstFailure(s, ls);
  }

  /** For any list, the truncated values exist exactly when every lookup
      succeeds with a finite value, and they are those values truncated;
      a NullIndex gives 0. */
  lemma WholeAllOfResolveAll(s: Sar, ls: seq<Lookup>)
    ensures WholeAll(s, ls).Ok? <==> (ResolveAll(s, ls).Ok? &&
      forall i | 0 <= i < |ls| :: Decode(ResolveAll(s, ls).value[i].Value()).Finite?)
    ensures WholeAll(s, ls).Ok? ==> forall i | 0 <= i < |ls| ::
      WholeAll(s, ls).value[i] == Truncate(Decode(ResolveAll(s, ls).value[i].Value())).value
    ensures WholeAll(s, ls).Ok? ==> forall i | 0 <= i < |ls| ::
      ResolveAll(s, ls).value[i].Missing? ==> WholeAll(s, ls).value[i] == 0
  {
    ResolveAllPointwise(s, ls);
    WholeAllPointwise(s, ls);
    forall i | 0 <= i < |ls|
      ensures Whole(s, ls[i]).Ok? <==> Resolve(s, ls[i]).Ok? && Decode(Resolve(s, ls[i]).value.Value()).Finite?
      ensures Whole(s, ls[i]).Ok? ==> Whole(s, ls[i]) == Truncate(Decode(Resolve(s, ls[i]).value.Value()))
      ensures Whole(s, ls[i]).Ok? && Resolve(s, ls[i]).value.Missing? ==> Whole(s, ls[i]) == Ok(0)
    {
      if Resolve(s, ls[i]).Ok? {
        WholeValue(s, ls[i]);
      }
    }
  }

  /** to_llo succeeds exactly when legacy_indexes does and every value it
      returns is finite; entry i is then the truncation of the value of
      entry i of legacy_indexes, and 0 where that is a NullIndex. */
  lemma ToLloTruncatesIndexes(s: Sar)
    ensures ToLlo(s).Ok? <==> (LegacyIndexes(s).Ok? &&
      forall i | 0 <= i < 132 :: Decode(LegacyIndexes(s).value[i].Value()).Finite?)
    ensures ToLlo(s).Ok? ==> forall i | 0 <= i < 132 ::
      ToLlo(s).value[i] == Truncate(Decode(LegacyIndexes(s).value[i].Value())).value
    ensures ToLlo(s).Ok? ==> forall i | 0 <= i < 132 ::
      LegacyIndexes(s).value[i].Missing? ==> ToLlo(s).value[i] == 0
  {
    WholeAllOfResolveAll(s, LegacyLookups());
  }

  /** Positions 9-12 and 35-38 read the same indexes of the same
      heart-rate analysis of the lead pair. */
  lemma HeartRateShared(s: Sar)
    ensures LegacyIndexes(s).Ok? ==> forall k | 9 <= k < 13 :: LegacyIndexes(s).value[k] == LegacyIndexes(s).value[k + 26]
    ensures ToLlo(s).Ok? ==> forall k | 9 <= k < 13 :: ToLlo(s).value[k] == ToLlo(s).value[k + 26]
  {
    var ls := LegacyLookups();
    GroupShapes(Primary);
    GroupShapes(Secondary);
    GroupNames(Primary);
    GroupNames(Secondary);
    assert forall k | 9 <= k < 13 :: GroupLead(Primary)[k] == GroupLead(Secondary)[k] by {
      forall k | 9 <= k < 13
        ensures GroupLead(Primary)[k] == GroupLead(Secondary)[k]
      {
        assert Names(GroupLead(Primary))[k] == Names(GroupLead(Secondary))[k];
      }
    }
    ResolveAllPointwise(s, ls);
    WholeAllPointwise(s, ls);
    hide *;
    forall k | 9 <= k < 13
      ensures ls[k] == ls[k + 26]
    {
      LookupAt(k);
      LookupAt(k + 26);
    }
  }

  /** The layout of to_llo_x: to_llo, the six camel values as floats,
      the ten other values truncated; it fails with to_llo's error when
      to_llo fails. */
  lemma ToLloXLayout(s: Sar)
    ensures ToLlo(s).Err? ==> ToLloX(s) == Err(ToLlo(s).error)
    ensures ToLloX(s).Ok? <==> ToLlo(s).Ok? && ResolveAll(s, ExtraReals()).Ok? && WholeAll(s, ExtraWholes()).Ok?
    ensures ToLloX(s).Ok? ==> forall i | 0 <= i < 132 :: ToLloX(s).value[i] == Int(ToLlo(s).value[i])
    ensures ToLloX(s).Ok? ==> forall i | 132 <= i < 138 ::
      ToLloX(s).value[i] == Real(ResolveAll(s, ExtraReals()).value[i - 132].Value())
    ensures ToLloX(s).Ok? ==> forall i | 138 <= i < 148 ::
      ToLloX(s).value[i] == Int(WholeAll(s, ExtraWholes()).value[i - 138])
  {
  }

  /** Whether a lookup succeeds depends on its analysis and lead, not on
      the index it asks for. */
  lemma SameAnalysisSameOutcome(s: Sar, l1: Lookup, l2: Lookup)
    requires l1.analysis == l2.analysis && l1.lead == l2.lead
    ensures Resolve(s, l1).Ok? == Resolve(s, l2).Ok?
  {
  }

  lemma ExtraRealsShape()
    ensures forall i | 0 <= i < 6 :: ExtraReals()[i].analysis == APS.name
    ensures forall i | 0 <= i < 6 :: ExtraReals()[i].lead == if i < 3 then Primary else Secondary
  {
  }

  /** Once to_llo succeeds, the camel lookups of to_llo_x find their
      analyses too: to_llo_x can only fail on its ten truncated values. */
  lemma ToLloXRealsFound(s: Sar)
    requires ToLlo(s).Ok?
    ensures ResolveAll(s, ExtraReals()).Ok?
  {
    var ls := LegacyLookups();
    var extras := ExtraReals();
    WholeAllPointwise(s, ls);
    LookupAt(0);
    LookupAt(26);
    GroupShapes(Primary);
    GroupShapes(Secondary);
    assert ToLlo(s) == WholeAll(s, ls);
    ExtraRealsShape();
    hide *;
    assert Whole(s, ls[0]).Ok? && Whole(s, ls[26]).Ok?;
    forall i | 0 <= i < 6
      ensures Resolve(s, extras[i]).Ok?
    {
      SameAnalysisSameOutcome(s, extras[i], if i < 3 then ls[0] else ls[26]);
    }
    ResolveAllPointwise(s, extras);
  }

  // ---------------------------------------------------------------------
  // The exports do not depend on the order of the analyses
  // ---------------------------------------------------------------------

  /** No two analyses have both the same name and the same source. */
  predicate UniqueKeys(images: seq<AnalysisImage>)
  {
    forall i, j | 0 <= i < j < |images| :: images[i].name != images[j].name || images[i].source != images[j].source
  }

  /** Every analysis on a lead pair is on the same pair. */
  predicate OnePair(images: seq<AnalysisImage>)
  {
    forall i, j | 0 <= i < |images| && 0 <= j < |images| ::
      HasPair(images[i].source) && HasPair(images[j].source) ==> images[i].source == images[j].source
  }

  /** Two Sars holding the same analyses, perhaps in another order. */
  predicate Reordered(s1: Sar, s2: Sar)
    reads s1, s1.analyses, s2, s2.analyses
  {
    && multiset(Images(s1.analyses)) == multiset(Images(s2.analyses))
    && UniqueKeys(Images(s1.analyses)) && UniqueKeys(Images(s2.analyses))
    && OnePair(Images(s1.analyses))
  }

  /** Each analysis of one Sar has its image among the other's. */
  lemma ImageInOther(s1: Sar, s2: Sar, i: nat) returns (k: nat)
    requires multiset(Images(s1.analyses)) == multiset(Images(s2.analyses)) && i < |s1.analyses|
    ensures k < |s2.analyses| && s2.analyses[k].Image() == s1.analyses[i].Image()
    ensures s2.analyses[k].name == s1.analyses[i].name && s2.analyses[k].source == s1.analyses[i].source
  {
    var im1, im2 := Images(s1.analyses), Images(s2.analyses);
    assert im1[i] in multiset(im1);
    assert im1[i] in im2;
    k :| 0 <= k < |im2| && im2[k] == im1[i];
  }

  lemma OnePairAt(analyses: seq<Analysis>, i: nat, j: nat)
    requires OnePair(Images(analyses)) && i < |analyses| && j < |analyses|
    requires HasPair(analyses[i].source) && HasPair(analyses[j].source)
    ensures analyses[i].source == analyses[j].source
  {
    hide Images, HasPair;
    assert Images(analyses)[i].source == analyses[i].source;
    assert Images(analyses)[j].source == analyses[j].source;
  }

  lemma UniqueAt(analyses: seq<Analysis>, i: nat, j: nat)
    requires UniqueKeys(Images(analyses)) && i < |analyses| && j < |analyses| && i != j
    ensures analyses[i].name != analyses[j].name || analyses[i].source != analyses[j].source
  {
    hide Images;
    var images := Images(analyses);
    assert images[i].name == analyses[i].name && images[i].source == analyses[i].source;
    assert images[j].name == analyses[j].name && images[j].source == analyses[j].source;
    if j < i {
      assert images[j].name != images[i].name || images[j].source != images[i].source;
    } else {
      assert images[i].name != images[j].name || images[i].source != images[j].source;
    }
  }

  lemma SameImageSameIndex(a1: Analysis, a2: Analysis, key: string)
    requires a1.Image() == a2.Image()
    ensures a1.IndexByName(key) == a2.IndexByName(key)
  {
  }

  lemma ReorderedParts(s1: Sar, s2: Sar)
    requires Reordered(s1, s2)
    ensures multiset(Images(s1.analyses)) == multiset(Images(s2.analyses))
    ensures UniqueKeys(Images(s2.analyses)) && OnePair(Images(s1.analyses))
  {
  }

  /** The lead names depend on the lead-pair name only. */
  lemma SourceOfLeadPair(s1: Sar, s2: Sar, lead: Lead)
    requires s1.LeadPairName() == s2.LeadPairName()
    ensures SourceOf(s1, lead) == SourceOf(s2, lead)
  {
  }

  /** With one lead pair, reordering keeps the lead-pair name. */
  lemma LeadPairIgnoresOrder(s1: Sar, s2: Sar)
    requires Reordered(s1, s2)
    ensures s1.LeadPairName() == s2.LeadPairName()
  {
    hide *;
    ReorderedParts(s1, s2);
    if s1.LeadPairName().Ok? {
      var i1 :| 0 <= i1 < |s1.analyses| && s1.analyses[i1].source == s1.LeadPairName().value;
      var k := ImageInOther(s1, s2, i1);
      assert HasPair(s2.analyses[k].source);
      assert s2.LeadPairName().Ok? && HasPair(s2.LeadPairName().value);
      var i2 :| 0 <= i2 < |s2.analyses| && s2.analyses[i2].source == s2.LeadPairName().value;
      var k2 := ImageInOther(s2, s1, i2);
      assert HasPair(s1.analyses[k2].source);
      OnePairAt(s1.analyses, k2, i1);
    } else if s2.LeadPairName().Ok? {
      var i2 :| 0 <= i2 < |s2.analyses| && s2.analyses[i2].source == s2.LeadPairName().value;
      var k2 := ImageInOther(s2, s1, i2);
      assert HasPair(s1.analyses[k2].source);
    }
  }

  /** The analysis a lookup reads in one Sar has the same image as the
      one it reads in the other. */
  lemma ResolveIgnoresOrder(s1: Sar, s2: Sar, l: Lookup)
    requires Reordered(s1, s2)
    ensures Resolve(s1, l) == Resolve(s2, l)
  {
    hide *;
    LeadPairIgnoresOrder(s1, s2);
    SourceOfLeadPair(s1, s2, l.lead);
    ResolveSpec(s1, l);
    ResolveSpec(s2, l);
    var im2 := Images(s2.analyses);
    ReorderedParts(s1, s2);
    if Resolve(s1, l).Ok? {
      var src := SourceOf(s1, l.lead).value;
      var i :| 0 <= i < |s1.analyses| && s1.analyses[i].name == l.analysis && s1.analyses[i].source == src
        && Resolve(s1, l).value == s1.analyses[i].IndexByName(l.index);
      var k := ImageInOther(s1, s2, i);
      var i2 :| 0 <= i2 < |s2.analyses| && s2.analyses[i2].name == l.analysis && s2.analyses[i2].source == src
        && Resolve(s2, l).value == s2.analyses[i2].IndexByName(l.index);
      if i2 != k {
        UniqueAt(s2.analyses, i2, k);
      }
      SameImageSameIndex(s1.analyses[i], s2.analyses[k], l.index);
    } else if Resolve(s2, l).Ok? {
      var src := SourceOf(s2, l.lead).value;
      var i :| 0 <= i < |s2.analyses| && s2.analyses[i].name == l.analysis && s2.analyses[i].source == src;
      var k := ImageInOther(s2, s1, i);
    }
  }

  lemma {:induction false} ResolveAllIgnoresOrder(s1: Sar, s2: Sar, ls: seq<Lookup>)
    requires Reordered(s1, s2)
    ensures ResolveAll(s1, ls) == ResolveAll(s2, ls)
  {
    if ls != [] {
      ResolveAllIgnoresOrder(s1, s2, ls[..|ls| - 1]);
      ResolveIgnoresOrder(s1, s2, ls[|ls| - 1]);
    }
  }

  lemma {:induction false} WholeAllIgnoresOrder(s1: Sar, s2: Sar, ls: seq<Lookup>)
    requires Reordered(s1, s2)
    ensures WholeAll(s1, ls) == WholeAll(s2, ls)
  {
    if ls != [] {
      WholeAllIgnoresOrder(s1, s2, ls[..|ls| - 1]);
      ResolveIgnoresOrder(s1, s2, ls[|ls| - 1]);
    }
  }

  /** Analyses are found by name and source, so with unique keys and one
      lead pair the three exports do not depend on the order in which the
      analyses were added. */
  lemma ExportsIgnoreOrder(s1: Sar, s2: Sar)
    requires Reordered(s1, s2)
    ensures LegacyIndexes(s1) == LegacyIndexes(s2)
    ensures ToLlo(s1) == ToLlo(s2)
    ensures ToLloX(s1) == ToLloX(s2)
  {
    ResolveAllIgnoresOrder(s1, s2, LegacyLookups());
    WholeAllIgnoresOrder(s1, s2, LegacyLookups());
    ResolveAllIgnoresOrder(s1, s2, ExtraReals());
    WholeAllIgnoresOrder(s1, s2, ExtraWholes());
  }

  // ---------------------------------------------------------------------
  // The standard analyses
  // ---------------------------------------------------------------------

  /** Sar::STD_ANALYSES and Sar::STD_ANALYSIS_NAMES: the symbols and the
      names of the nine standard analyses, position by position. */
  const STD_ANALYSES: seq<string> := [HR_SYM, APS.sym, CCR.sym, CPS.sym, AMP.sym, XAR.sym, IMR.sym, PSA.sym, COH.sym]
  const STD_ANALYSIS_NAMES: seq<string> :=
    [HR_NAME, APS.name, CCR.name, CPS.name, AMP.name, XAR.name, IMR.name, PSA.name, COH.name]

  /** `Analysis.new(source, NAME, SYM)`: no indexes, no intermediate data. */
  function NewAnalysis(source: string, name: string, sym: string): (r: AnalysisImage)
    ensures r.source == source && r.name == name && r.sym == sym && r.indexes == [] && r.idata == []
  {
    AnalysisImage(source, name, sym, [], [])
  }

  /** What create_std_analyses(a, b) appends, in order: heart rate on the
      pair, auto power spectrum and amplitude on each lead, then cross
      correlation, phase shift angle, impulse response, transfer
      amplitude ratio and coherence on the pair. */
  function StdAnalyses(a: string, b: string): (r: seq<AnalysisImage>)
    ensures |r| == 10
  {
    var pair := PairName(a, b);
    [NewAnalysis(pair, HR_NAME, HR_SYM),
     NewAnalysis(a, APS.name, APS.sym), NewAnalysis(b, APS.name, APS.sym),
     NewAnalysis(a, AMP.name, AMP.sym), NewAnalysis(b, AMP.name, AMP.sym),
     NewAnalysis(pair, CCR.name, CCR.sym), NewAnalysis(pair, PSA.name, PSA.sym),
     NewAnalysis(pair, IMR.name, IMR.sym), NewAnalysis(pair, XAR.name, XAR.sym),
     NewAnalysis(pair, COH.name, COH.sym)]
  }

  /** The position in the tables of each analysis create_std_analyses
      appends. */
  function StdRow(k: nat): nat
    requires k < 10
  {
    [0, 1, 1, 4, 4, 2, 7, 6, 5, 8][k]
  }

  /** Every appended analysis is empty, and its name and symbol are those
      of one row of the tables other than CPS's (row 3). */
  lemma StdAnalysesFollowTables(a: string, b: string)
    ensures |STD_ANALYSES| == 9 && |STD_ANALYSIS_NAMES| == 9 && STD_ANALYSIS_NAMES[3] == CPS.name
    ensures forall k | 0 <= k < 10 :: (StdRow(k) != 3 &&
      StdAnalyses(a, b)[k].name == STD_ANALYSIS_NAMES[StdRow(k)] && StdAnalyses(a, b)[k].sym == STD_ANALYSES[StdRow(k)])
    ensures forall k | 0 <= k < 10 :: StdAnalyses(a, b)[k].indexes == [] && StdAnalyses(a, b)[k].idata == []
  {
  }

  /** Every row of the tables but CPS's is appended. */
  lemma StdRowsCovered(a: string, b: string)
    ensures forall j | 0 <= j < 9 && j != 3 :: exists k | 0 <= k < 10 :: StdAnalyses(a, b)[k].name == STD_ANALYSIS_NAMES[j]
  {
    var r := StdAnalyses(a, b);
    hide StdAnalyses;
    StdAnalysesFollowTables(a, b);
    assert r[0].name == STD_ANALYSIS_NAMES[0] && r[1].name == STD_ANALYSIS_NAMES[1];
    assert r[5].name == STD_ANALYSIS_NAMES[2] && r[3].name == STD_ANALYSIS_NAMES[4];
    assert r[8].name == STD_ANALYSIS_NAMES[5] && r[7].name == STD_ANALYSIS_NAMES[6];
    assert r[6].name == STD_ANALYSIS_NAMES[7] && r[9].name == STD_ANALYSIS_NAMES[8];
  }

  /** No cross power spectrum analysis is created, though the tables list
      one. */
  lemma StdNoCrossPowerSpectrum(a: string, b: string)
    ensures forall k | 0 <= k < 10 :: StdAnalyses(a, b)[k].name != CPS.name
  {
    KindsDistinct();
    assert STD_KINDS[3] == CPS;
    assert HR_NAME != CPS.name;
    var r := StdAnalyses(a, b);
    hide StdAnalyses;
    StdAnalysesFollowTables(a, b);
    forall k | 0 <= k < 10
      ensures r[k].name != CPS.name
    {
      var j := StdRow(k);
      if j == 0 {
      } else if j < 3 {
        assert STD_ANALYSIS_NAMES[j] == STD_KINDS[j].name;
      } else {
        assert STD_ANALYSIS_NAMES[j] == STD_KINDS[j].name;
      }
    }
  }

  /** The source of each appended analysis. */
  lemma StdSources(a: string, b: string)
    ensures forall k | 0 <= k < 10 ::
      StdAnalyses(a, b)[k].source == (if k == 1 || k == 3 then a else if k == 2 || k == 4 then b else PairName(a, b))
  {
  }

  /** `@analyses << Analysis.new(source, NAME, SYM)` */
  method AppendAnalysis(s: Sar, spec: AnalysisImage) returns (x: Analysis)
    modifies s
    ensures fresh(x) && x.Image() == spec
    ensures s.analyses == old(s.analyses) + [x]
  {
    x := new Analysis(spec.source, spec.name, spec.sym, spec.indexes, spec.idata);
    s.analyses := s.analyses + [x];
  }

  /** Sar#create_std_analyses: appends the ten standard analyses after the
      existing ones, which stay as they were. */
  method CreateStdAnalyses(s: Sar, a: string, b: string)
    modifies s
    ensures |s.analyses| == |old(s.analyses)| + 10
    ensures s.analyses[..|old(s.analyses)|] == old(s.analyses)
    ensures forall i | |old(s.analyses)| <= i < |s.analyses| :: fresh(s.analyses[i])
    ensures Images(s.analyses) == old(Images(s.analyses)) + StdAnalyses(a, b)
  {
    var specs := StdAnalyses(a, b);
    hide *;
    ghost var created: seq<Analysis> := [];
    for k := 0 to 10
      invariant |created| == k && s.analyses == old(s.analyses) + created
      invariant forall i | 0 <= i < k :: fresh(created[i])
      invariant Images(s.analyses) == old(Images(s.analyses)) + specs[..k]
    {
      var before := s.analyses;
      var x := AppendAnalysis(s, specs[k]);
      ImagesAppend(before, x);
      assert specs[..k + 1] == specs[..k] + [specs[k]];
      created := created + [x];
    }
    assert specs[..10] == specs;
    assert forall i | |old(s.analyses)| <= i < |s.analyses| :: s.analyses[i] == created[i - |old(s.analyses)|];
  }

  // ---------------------------------------------------------------------
  // The exports of a Sar holding only the standard analyses
  // ---------------------------------------------------------------------

  lemma StdNames(a: string, b: string)
    ensures StdAnalyses(a, b)[0].name == HR_NAME
    ensures StdAnalyses(a, b)[1].name == APS.name && StdAnalyses(a, b)[2].name == APS.name
    ensures StdAnalyses(a, b)[3].name == AMP.name && StdAnalyses(a, b)[4].name == AMP.name
    ensures StdAnalyses(a, b)[5].name == CCR.name && StdAnalyses(a, b)[6].name == PSA.name
    ensures StdAnalyses(a, b)[7].name == IMR.name && StdAnalyses(a, b)[9].name == COH.name
  {
  }

  /** The standard analysis that lookup i of the exports reads. */
  function StdSlot(i: nat): (k: nat)
    ensures k < 10
  {
    if i < 52 then (if 9 <= i % 26 < 13 then 0 else if i < 26 then 1 else 2)
    else if i < 57 then 6
    else if i == 57 then 7
    else if i < 60 then 9
    else if i < 70 then 7
    else if i < 78 then (if i % 2 == 0 then 3 else 4)
    else if i < 103 then 5
    else 6
  }

  /** Every lookup of the exports names an analysis that
      create_std_analyses(a, b) appends, on the source its lead stands for. */
  lemma StdCovers(a: string, b: string, i: nat)
    requires i < 132
    ensures StdAnalyses(a, b)[StdSlot(i)].name == LegacyLookups()[i].analysis
    ensures StdAnalyses(a, b)[StdSlot(i)].source == LeadName(LegacyLookups()[i].lead, a, b)
  {
    LookupsFollowLegacyOps();
    LegacyOpAt(i);
    LookupLeadAt(i);
    StdSources(a, b);
    StdNames(a, b);
    assert LeadName(Primary, a, b) == a && LeadName(Secondary, a, b) == b && LeadName(Pair, a, b) == PairName(a, b);
    hide *;
  }

  /** In a Sar whose analyses are the standard ones for leads a and b, the
      lead-pair name is "(a,b)" and the lead names are a and b. */
  lemma StdLeadNames(s: Sar, a: string, b: string)
    requires a != [] && ',' !in a && b != [] && ')' !in b
    requires Images(s.analyses) == StdAnalyses(a, b)
    ensures forall lead: Lead :: SourceOf(s, lead) == Ok(LeadName(lead, a, b))
  {
    LeadsOfPairName(a, b);
    var pair := PairName(a, b);
    assert StdAnalyses(a, b)[0].source == pair;
    assert s.analyses[0].source == Images(s.analyses)[0].source == pair;
    assert HasPair(pair);
    FirstPairName(s);
    hide *;
    forall lead: Lead
      ensures SourceOf(s, lead) == Ok(LeadName(lead, a, b))
    {
    }
  }

  /** When the first analysis is of a lead pair, its source is the pair
      name. */
  lemma FirstPairName(s: Sar)
    requires |s.analyses| > 0 && HasPair(s.analyses[0].source)
    ensures s.LeadPairName() == Ok(s.analyses[0].source)
  {
    var i :| 0 <= i < |s.analyses| && s.analyses[i].source == s.LeadPairName().value
      && forall j | 0 <= j < i :: !HasPair(s.analyses[j].source);
    assert i == 0;
  }

  /** Each lookup finds its analysis and, the analysis being empty, gets
      a NullIndex: the value 0. */
  lemma StdLookupEmpty(s: Sar, a: string, b: string, i: nat)
    requires a != [] && ',' !in a && b != [] && ')' !in b
    requires Images(s.analyses) == StdAnalyses(a, b) && i < 132
    ensures Resolve(s, LegacyLookups()[i]) == Ok(Missing(LegacyLookups()[i].index))
    ensures Whole(s, LegacyLookups()[i]) == Ok(0)
  {
    hide StdAnalyses, LegacyLookups, StdSlot, LeadName, PairName;
    var l := LegacyLookups()[i];
    StdLeadNames(s, a, b);
    StdCovers(a, b, i);
    StdAnalysesFollowTables(a, b);
    var k := StdSlot(i);
    assert s.analyses[k].Image() == StdAnalyses(a, b)[k];
    assert forall j | 0 <= j < |s.analyses| :: s.analyses[j].indexes == [] by {
      forall j | 0 <= j < |s.analyses|
        ensures s.analyses[j].indexes == []
      {
        assert s.analyses[j].Image() == StdAnalyses(a, b)[j];
      }
    }
    hide *;
    ResolveSpec(s, l);
    assert Resolve(s, l).Ok?;
    WholeValue(s, l);
  }

  lemma StdAllEmpty(s: Sar, a: string, b: string)
    requires a != [] && ',' !in a && b != [] && ')' !in b
    requires Images(s.analyses) == StdAnalyses(a, b)
    ensures forall i | 0 <= i < 132 ::
      Resolve(s, LegacyLookups()[i]) == Ok(Missing(LegacyLookups()[i].index)) && Whole(s, LegacyLookups()[i]) == Ok(0)
  {
    hide *;
    forall i | 0 <= i < 132
      ensures Resolve(s, LegacyLookups()[i]) == Ok(Missing(LegacyLookups()[i].index))
      ensures Whole(s, LegacyLookups()[i]) == Ok(0)
    {
      StdLookupEmpty(s, a, b, i);
    }
  }

  /** After create_std_analyses(a, b) on a Sar with no analyses,
      legacy_indexes holds 132 NullIndexes named after LEGACY_INDEXES, and
      to_llo is 132 zeros. */
  lemma StdSarExports(s: Sar, a: string, b: string)
    requires a != [] && ',' !in a && b != [] && ')' !in b
    requires Images(s.analyses) == StdAnalyses(a, b)
    ensures LegacyIndexes(s).Ok?
    ensures forall i | 0 <= i < 132 :: LegacyIndexes(s).value[i] == Missing(LEGACY_INDEXES[i])
    ensures ToLlo(s) == Ok(seq(132, i => 0))
  {
    hide StdAnalyses, Resolve, Whole;
    var ls := LegacyLookups();
    LookupsFollowLegacyIndexes();
    LegacyTableSizes();
    StdAllEmpty(s, a, b);
    ResolveAllPointwise(s, ls);
    WholeAllPointwise(s, ls);
    assert LegacyIndexes(s) == ResolveAll(s, ls);
    assert ToLlo(s) == WholeAll(s, ls);
    hide *;
    assert ToLlo(s).value == seq(132, i => 0);
  }

  // ---------------------------------------------------------------------
  // Building the vectors entry by entry, as the Ruby methods do
  // ---------------------------------------------------------------------

  /** Once a prefix of the lookups fails, the whole list fails with the
      same error. */
  lemma {:induction false} ResolveAllPrefixFails(s: Sar, ls: seq<Lookup>, k: nat)
    requires k <= |ls| && ResolveAll(s, ls[..k]).Err?
    ensures ResolveAll(s, ls) == ResolveAll(s, ls[..k])
    decreases |ls|
  {
    if k < |ls| {
      var init := ls[..|ls| - 1];
      assert init[..k] == ls[..k];
      ResolveAllPrefixFails(s, init, k);
    } else {
      assert ls[..k] == ls;
    }
  }

  lemma {:induction false} WholeAllPrefixFails(s: Sar, ls: seq<Lookup>, k: nat)
    requires k <= |ls| && WholeAll(s, ls[..k]).Err?
    ensures WholeAll(s, ls) == WholeAll(s, ls[..k])
    decreases |ls|
  {
    if k < |ls| {
      var init := ls[..|ls| - 1];
      assert init[..k] == ls[..k];
      WholeAllPrefixFails(s, init, k);
    } else {
      assert ls[..k] == ls;
    }
  }

  /** `arr << op.index(name)` for each lookup in turn, stopping at the
      first lookup whose analysis is nil. */
  method ResolveEach(s: Sar, ls: seq<Lookup>) returns (r: Result<seq<IndexRef>>)
    ensures r == ResolveAll(s, ls)
  {
    var arr: seq<IndexRef> := [];
    for k := 0 to |ls|
      invariant ResolveAll(s, ls[..k]) == Ok(arr)
    {
      var x := Resolve(s, ls[k]);
      assert ls[..k + 1][..k] == ls[..k];
      if x.Err? {
        ResolveAllPrefixFails(s, ls, k + 1);
        return Err(x.error);
      }
      arr := arr + [x.value];
    }
    assert ls[..|ls|] == ls;
    return Ok(arr);
  }

  /** One more lookup extends a successful list by its value, or fails
      with its error. */
  lemma WholeAllStep(s: Sar, ls: seq<Lookup>, k: nat)
    requires k < |ls| && WholeAll(s, ls[..k]).Ok?
    ensures Whole(s, ls[k]).Err? ==> WholeAll(s, ls[..k + 1]) == Err(Whole(s, ls[k]).error)
    ensures Whole(s, ls[k]).Ok? ==> WholeAll(s, ls[..k + 1]) == Ok(WholeAll(s, ls[..k]).value + [Whole(s, ls[k]).value])
  {
    assert ls[..k + 1][..k] == ls[..k];
  }

  /** `llo << op.index(name).value.to_i` for each lookup in turn, stopping
      at the first nil analysis or non-finite value. */
  method WholeEach(s: Sar, ls: seq<Lookup>) returns (r: Result<seq<int>>)
    ensures r == WholeAll(s, ls)
  {
    assert WholeAll(s, ls[..0]) == Ok([]);
    hide Whole, WholeAll;
    var llo: seq<int> := [];
    for k := 0 to |ls|
      invariant WholeAll(s, ls[..k]) == Ok(llo)
    {
      var x := Whole(s, ls[k]);
      WholeAllStep(s, ls, k);
      if x.Err? {
        WholeAllPrefixFails(s, ls, k + 1);
        return Err(x.error);
      }
      llo := llo + [x.value];
    }
    assert ls[..|ls|] == ls;
    return Ok(llo);
  }

  /** Sar#legacy_indexes. */
  method ExportLegacyIndexes(s: Sar) returns (r: Result<seq<IndexRef>>)
    ensures r == LegacyIndexes(s)
  {
    r := ResolveEach(s, LegacyLookups());
  }

  /** Sar#to_llo. */
  method ExportLlo(s: Sar) returns (r: Result<seq<int>>)
    ensures r == ToLlo(s)
  {
    r := WholeEach(s, LegacyLookups());
  }

  /** Sar#to_llo_x: to_llo, then the camel values as floats, then the
      dragon, bat and snail values truncated. */
  method ExportLloX(s: Sar) returns (r: Result<seq<Llo>>)
    ensures r == ToLloX(s)
  {
    hide LegacyLookups, ExtraReals, ExtraWholes, ToLlo, ResolveAll, WholeAll;
    var llo := ExportLlo(s);
    if llo.Err? {
      return Err(llo.error);
    }
    var reals := ResolveEach(s, ExtraReals());
    if reals.Err? {
      return Err(reals.error);
    }
    var wholes := WholeEach(s, ExtraWholes());
    if wholes.Err? {
      return Err(wholes.error);
    }
    return Ok(Ints(llo.value) + Reals(reals.value) + Ints(wholes.value));
  }
}
