/** The built-in DGO diagnoses (lib/mcg/diagnosis/dgo_diagnoses.rb):
    the name and symbol constants of the Diagnosis class, the standard MCG
    output list, the legacy symbol and comment tables, and the conversions
    between a diagnosis name and its symbol.

    name_to_sym and sym_to_name find a constant by value through Ruby's
    reflection (`constants`, `const_get`). Here the class's constants are an
    explicit table of (constant name, value) pairs in definition order,
    kept as the six groups the class defines them in. */
module DgoDiagnoses {
  import opened Results

  /** The value of a class constant: a string, an integer, or one of the
      array and hash constants, which no string equals. */
  datatype Constant = Text(s: string) | Number(n: int) | Collection

  /** The impression constants. */
  function ImpressionConstants(): (r: seq<(string, Constant)>)
    ensures |r| == 10
  {
    [
      ("NORM_NAME", Text("Normal")),
      ("NORM_SYM", Text("NORM")),
      ("ABNO_NAME", Text("Abnormal")),
      ("ABNO_SYM", Text("ABNORM")),
      ("BORD_NAME", Text("Borderline")),
      ("BORD_SYM", Text("BORD")),
      ("BL_ARRY_NAME", Text("Borderline (arrhythmia)")),
      ("BL_ARRY_SYM", Text("BLARRY")),
      ("BL_AUTO_NAME", Text("Borderline (autonomic)")),
      ("BL_AUTO_SYM", Text("BLAUTO"))
    ]
  }

  /** The primary diagnoses. */
  function PrimaryConstants(): (r: seq<(string, Constant)>)
    ensures |r| == 20
  {
    [
      ("LISCH_NAME", Text("Local Ischemia")),
      ("LISCH_SYM", Text("CAD")),
      ("BL_LISCH_NAME", Text("Local Ischemia (borderline)")),
      ("BL_LISCH_SYM", Text("BLCAD")),
      ("GISCH_NAME", Text("Global Ischemia")),
      ("GISCH_SYM", Text("NCI")),
      ("BL_GISCH_NAME", Text("Global Ischemia (borderline)")),
      ("BL_GISCH_SYM", Text("BLNCI")),
      ("SEV_RAW_NAME", Text("Raw Disease Severity")),
      ("SEV_RAW_SYM", Text("RSEV")),
      ("SEVERITY_NAME", Text("Disease Severity")),
      ("SEVERITY_SYM", Text("SEV")),
      ("SEV_SCORE_NAME", Text("Disease Severity Score")),
      ("SEV_SCORE_SYM", Text("DS")),
      ("SEV_SUM_NAME", Text("Disease Severity Sum")),
      ("SEV_SUM_SYM", Text("DSSum")),
      ("SEV_COUNT_NAME", Text("Disease Severity Count")),
      ("SEV_COUNT_SYM", Text("DSCount")),
      ("SEV_OLD_NAME", Text("Disease Severity Legacy Score")),
      ("SEV_OLD_SYM", Text("DSOld"))
    ]
  }

  /** The secondary diagnoses, with the two alternative symbols. */
  function SecondaryConstants(): (r: seq<(string, Constant)>)
    ensures |r| == 38
  {
    [
      ("VH_NAME", Text("Ventricular Hypertrophy")),
      ("VH_SYM", Text("A")),
      ("VH_ALT_SYM", Text("H")),
      ("BIVH_NAME", Text("Biventricular Hypertrophy")),
      ("BIVH_SYM", Text("BVH")),
      ("LVH_NAME", Text("Left Ventricular Hypertrophy")),
      ("LVH_SYM", Text("LVH")),
      ("RVH_NAME", Text("Right Ventricular Hypertrophy")),
      ("RVH_SYM", Text("RVH")),
      ("ISCHEMIA_NAME", Text("Ischemia")),
      ("ISCHEMIA_SYM", Text("C")),
      ("RHD_NAME", Text("Rheumatic HD")),
      ("RHD_SYM", Text("F")),
      ("CHD_NAME", Text("Congenital HD")),
      ("CHD_SYM", Text("G")),
      ("MI_NAME", Text("Myocardial Infarct")),
      ("MI_SYM", Text("I")),
      ("MI_ALT_SYM", Text("C(I)")),
      ("MYOCARD_NAME", Text("Myocarditis")),
      ("MYOCARD_SYM", Text("K")),
      ("CARDMYO_NAME", Text("Cardio Myopathy")),
      ("CARDMYO_SYM", Text("M")),
      ("AFIB_NAME", Text("Atrial Fibrillation")),
      ("AFIB_SYM", Text("N")),
      ("VFIB_NAME", Text("Ventricular Fibrillation")),
      ("VFIB_SYM", Text("VFIB")),
      ("PFIB_NAME", Text("Potential Fibrillation")),
      ("PFIB_SYM", Text("PFIB")),
      ("PHD_NAME", Text("Pulmonary HD")),
      ("PHD_SYM", Text("U")),
      ("ARRY_NAME", Text("Arrhythmia")),
      ("ARRY_SYM", Text("T")),
      ("VARRY_NAME", Text("Ventricular Arrhythmia")),
      ("VARRY_SYM", Text("V")),
      ("IARRY_NAME", Text("Incipient Arrhythmia")),
      ("IARRY_SYM", Text("IARRY")),
      ("TARRY_NAME", Text("Intermittent Arrhythmia")),
      ("TARRY_SYM", Text("TARRY"))
    ]
  }

  /** The tertiary diagnoses. */
  function TertiaryConstants(): (r: seq<(string, Constant)>)
    ensures |r| == 28
  {
    [
      ("EF_NAME", Text("Ejection Fraction")),
      ("EF_SYM", Text("EF")),
      ("REMOD_NAME", Text("Myocardial Remodelling")),
      ("REMOD_SYM", Text("MR")),
      ("DECOMP_NAME", Text("Decreased Myocardial Compliance")),
      ("DECOMP_SYM", Text("DMC")),
      ("INCOMP_NAME", Text("Increased Myocardial Compliance")),
      ("INCOMP_SYM", Text("IMC")),
      ("LASYNC_NAME", Text("Local Asynchrony")),
      ("LASYNC_SYM", Text("LA")),
      ("LASYNC_AB_NAME", Text("Signal B lags behind signal A (local)")),
      ("LASYNC_AB_SYM", Text("LAV5II")),
      ("LASYNC_BA_NAME", Text("Signal A lags behind signal B (local)")),
      ("LASYNC_BA_SYM", Text("LAIIV5")),
      ("FIB_NAME", Text("Fibrillation")),
      ("FIB_SYM", Text("FIB")),
      ("GASYNC_NAME", Text("Global Asynchrony")),
      ("GASYNC_SYM", Text("GA")),
      ("GASYNC_AB_NAME", Text("Signal B lags behind signal A (global)")),
      ("GASYNC_AB_SYM", Text("GAV5II")),
      ("GASYNC_BA_NAME", Text("Signal A lags behind signal B (global)")),
      ("GASYNC_BA_SYM", Text("GAIIV5")),
      ("TACHY_NAME", Text("Tachycardia")),
      ("TACHY_SYM", Text("TC")),
      ("BRADY_NAME", Text("Bradycardia")),
      ("BRADY_SYM", Text("BC")),
      ("PF_NAME", Text("Power Failure")),
      ("PF_SYM", Text("PF"))
    ]
  }

  /** The meta-diagnoses of the legacy DIA filtering. */
  function MetaConstants(): (r: seq<(string, Constant)>)
    ensures |r| == 38
  {
    [
      ("IMP_NAME", Text("Impression")),
      ("IMP_SYM", Text("IMP")),
      ("IMPSTR_NAME", Text("Impression (text)")),
      ("IMPSTR_SYM", Text("IMPSTR")),
      ("SUGG1_NAME", Text("Suggestion (1)")),
      ("SUGG1_SYM", Text("SUGG1")),
      ("SUGG2_NAME", Text("Suggestion (2)")),
      ("SUGG2_SYM", Text("SUGG2")),
      ("SUGG3_NAME", Text("Suggestion (3)")),
      ("SUGG3_SYM", Text("SUGG3")),
      ("SUGG4_NAME", Text("Suggestion (4)")),
      ("SUGG4_SYM", Text("SUGG4")),
      ("FINAL1_NAME", Text("Final Suggestion")),
      ("FINAL1_SYM", Text("FIN1")),
      ("FINAL2_NAME", Text("Final Suggestion (secondary)")),
      ("FINAL2_SYM", Text("FIN2")),
      ("FINAL3_NAME", Text("Final Suggestion (tertiary)")),
      ("FINAL3_SYM", Text("FIN3")),
      ("FINAL4_NAME", Text("Final Suggestion (quaternary)")),
      ("FINAL4_SYM", Text("FIN4")),
      ("REL_FACTOR1_NAME", Text("Relative Factor")),
      ("REL_FACTOR1_SYM", Text("RF1")),
      ("REL_FACTOR2_NAME", Text("Relative Factor (secondary)")),
      ("REL_FACTOR2_SYM", Text("RF2")),
      ("REL_FACTOR3_NAME", Text("Relative Factor (tertiary)")),
      ("REL_FACTOR3_SYM", Text("RF3")),
      ("REL_FACTOR4_NAME", Text("Relative Factor (quaternary)")),
      ("REL_FACTOR4_SYM", Text("RF4")),
      ("DVBT_NAME", Text("DVBT")),
      ("DVBT_SYM", Text("DVBT")),
      ("DKIC_NAME", Text("DKIC")),
      ("DKIC_SYM", Text("DKIC")),
      ("AGEGRP_NAME", Text("Age Group")),
      ("AGEGRP_SYM", Text("AGRP")),
      ("HR_NAME", Text("Heart Rate")),
      ("HR_SYM", Text("HR")),
      ("CIM_NAME", Text("Has CIM")),
      ("CIM_SYM", Text("CIM"))
    ]
  }

  /** The list and table constants and the legacy comment ids, which no string equals. */
  function TableConstants(): (r: seq<(string, Constant)>)
    ensures |r| == 32
  {
    [
      ("MCG_DIAGS", Collection),
      ("DIA_DIAG_MAP", Collection),
      ("CMT_ID_EF", Number(139)),
      ("CMT_ID_INFARCT", Number(140)),
      ("CMT_ID_BVH", Number(141)),
      ("CMT_ID_LVH", Number(142)),
      ("CMT_ID_RVH", Number(143)),
      ("CMT_ID_VARR", Number(144)),
      ("CMT_ID_ARR", Number(145)),
      ("CMT_ID_MYOREMOD", Number(146)),
      ("CMT_ID_DECMYO", Number(147)),
      ("CMT_ID_INCMYO", Number(148)),
      ("CMT_ID_LASYNCV5", Number(149)),
      ("CMT_ID_LASYNCII", Number(150)),
      ("CMT_ID_GASYNCV5", Number(151)),
      ("CMT_ID_GASYNCII", Number(152)),
      ("CMT_ID_TACHY", Number(153)),
      ("CMT_ID_BRADY", Number(154)),
      ("CMT_ID_POWFAIL", Number(155)),
      ("CMT_ID_MYOINFARCT", Number(156)),
      ("CMT_ID_CONGENITAL", Number(157)),
      ("CMT_ID_MYOCARD", Number(158)),
      ("CMT_ID_RHEUMATIC", Number(159)),
      ("CMT_ID_CARDIOMYO", Number(162)),
      ("CMT_ID_PULMONARY", Number(163)),
      ("CMT_ID_VENTHYPER", Number(164)),
      ("CMT_ID_PFIB", Number(165)),
      ("CMT_ID_AFIB", Number(166)),
      ("CMT_ID_VFIB", Number(167)),
      ("CMT_ID_AVFIB", Number(168)),
      ("CMT_ID_IARRY", Number(169)),
      ("DIAG_COMMENT", Collection)
    ]
  }

  /** The constants of Dgo::Diagnosis, in definition order. */
  function DiagnosisConstants(): seq<(string, Constant)>
  {
    ImpressionConstants() + (PrimaryConstants() + (SecondaryConstants() + (TertiaryConstants()
      + (MetaConstants() + TableConstants()))))
  }

  /** The diagnoses a standard MCG analysis reports, in report order. */
  const MCG_DIAGS: seq<string> := [
    "Local Ischemia",
    "Local Ischemia (borderline)",
    "Global Ischemia",
    "Global Ischemia (borderline)",
    "Ventricular Hypertrophy",
    "Biventricular Hypertrophy",
    "Left Ventricular Hypertrophy",
    "Right Ventricular Hypertrophy",
    "Ischemia",
    "Rheumatic HD",
    "Congenital HD",
    "Myocardial Infarct",
    "Myocarditis",
    "Cardio Myopathy",
    "Atrial Fibrillation",
    "Ventricular Fibrillation",
    "Potential Fibrillation",
    "Pulmonary HD",
    "Arrhythmia",
    "Ventricular Arrhythmia",
    "Incipient Arrhythmia",
    "Intermittent Arrhythmia",
    "Ejection Fraction",
    "Myocardial Remodelling",
    "Decreased Myocardial Compliance",
    "Increased Myocardial Compliance",
    "Local Asynchrony",
    "Signal B lags behind signal A (local)",
    "Signal A lags behind signal B (local)",
    "Fibrillation",
    "Global Asynchrony",
    "Signal B lags behind signal A (global)",
    "Signal A lags behind signal B (global)",
    "Tachycardia",
    "Bradycardia",
    "Power Failure"
  ]

  /** Symbol to name, for reading legacy ABC files; a Ruby hash, kept as
      its entries in insertion order. */
  const DIA_DIAG_MAP: seq<(string, string)> := [
    ("A", "Ventricular Hypertrophy"),
    ("C", "Ischemia"),
    ("F", "Rheumatic HD"),
    ("G", "Congenital HD"),
    ("I", "Myocardial Infarct"),
    ("C(I)", "Myocardial Infarct"),
    ("K", "Myocarditis"),
    ("M", "Cardio Myopathy"),
    ("N", "Atrial Fibrillation"),
    ("U", "Pulmonary HD"),
    ("V", "Ventricular Arrhythmia"),
    ("T", "Arrhythmia"),
    ("AGRP", "Age Group")
  ]

  /** Legacy results_comment ids to comment keys, in insertion order. */
  const DIAG_COMMENT: seq<(int, string)> := [
    (139, "ejection_fraction"),
    (141, "biventricular_hypertrophy"),
    (142, "left_ventricular_hypertrophy"),
    (143, "right_ventricular_hypertrophy"),
    (144, "ventricular_arrhythmia"),
    (145, "atrial_fibrillation"),
    (146, "myocardial_remodelling"),
    (147, "decreased_myocardial_compliance"),
    (148, "increased_myocardial_compliance"),
    (149, "local_asynchrony_lead_v5_behind_lead_ii"),
    (150, "local_asynchrony_lead_ii_behind_lead_v5"),
    (151, "global_asynchrony_lead_v5_behind_lead_ii"),
    (152, "global_asynchrony_lead_ii_behind_lead_v5"),
    (153, "tachycardia"),
    (154, "bradycardia"),
    (155, "power_failure"),
    (156, "myocardial_infarct"),
    (157, "congenital_hd"),
    (158, "myocarditis"),
    (159, "rheumatic_hd"),
    (162, "cardio_myopathy"),
    (163, "pulmonary_hd"),
    (164, "ventricular_hypertrophy"),
    (165, "potential_fibrillation"),
    (166, "atrial_fibrillation"),
    (167, "ventricular_fibrillation"),
    (168, "atrial_ventricular_fibrillation"),
    (169, "incipient_arrhythmia"),
    (140, "_INFARCT")
  ]

  /** The constants of Dgo::Algorithm, in definition order. */
  const ALGORITHM_CONSTANTS: seq<(string, Constant)> := [
    ("PRELIM_NAME", Text("MCG Preliminary Analysis")),
    ("PRELIM_SYM", Text("mcg-pre")),
    ("IMPRESSION_NAME", Text("MCG Impression Analysis")),
    ("IMPRESSION_SYM", Text("mcg-imp")),
    ("PRIMARY_NAME", Text("MCG Primary Analysis")),
    ("PRIMARY_SYM", Text("mcg-1")),
    ("ISCHEMIA_NAME", Text("MCG Ischemia Analysis")),
    ("ISCHEMIA_SYM", Text("mcg-cad")),
    ("SEVERITY_NAME", Text("MCG Disease Severity Analysis")),
    ("SEVERITY_SYM", Text("mcg-sev")),
    ("SECONDARY_NAME", Text("MCG Secondary Analysis")),
    ("SECONDARY_SYM", Text("mcg-2")),
    ("TERTIARY_NAME", Text("MCG Tertiary Analysis")),
    ("TERTIARY_SYM", Text("mcg-3")),
    ("FINAL_NAME", Text("MCG Final Analysis")),
    ("FINAL_SYM", Text("mcg-fin")),
    ("CLINICAL_NAME", Text("Clinical Review")),
    ("CLINICAL_SYM", Text("clinic"))
  ]

  // ---------------------------------------------------------------------
  // Reflection
  // ---------------------------------------------------------------------

  /** The first constant from index i on whose value is the string str
      (`constants.select { |s| const_get(s) == str }.first`). */
  function FirstWithValue(table: seq<(string, Constant)>, str: string, i: nat): (r: Option<nat>)
    requires i <= |table|
    ensures r.Some? ==> i <= r.value < |table| && table[r.value].1 == Text(str)
    ensures r.Some? ==> forall j | i <= j < r.value :: table[j].1 != Text(str)
    ensures r.None? <==> forall j | i <= j < |table| :: table[j].1 != Text(str)
    decreases |table| - i
  {
    if i == |table| then None
    else if table[i].1 == Text(str) then Some(i)
    else FirstWithValue(table, str, i + 1)
  }

  /** The first constant holding str, if any. */
  function FirstValue(table: seq<(string, Constant)>, str: string): (r: Option<nat>)
  {
    FirstWithValue(table, str, 0)
  }

  /** The first constant from index i on with the given name. */
  function FirstWithName(table: seq<(string, Constant)>, name: string, i: nat): (r: Option<nat>)
    requires i <= |table|
    ensures r.Some? ==> i <= r.value < |table| && table[r.value].0 == name
    ensures r.Some? ==> forall j | i <= j < r.value :: table[j].0 != name
    ensures r.None? <==> forall j | i <= j < |table| :: table[j].0 != name
    decreases |table| - i
  {
    if i == |table| then None
    else if table[i].0 == name then Some(i)
    else FirstWithName(table, name, i + 1)
  }

  predicate EndsWith(s: string, suffix: string)
  {
    |suffix| <= |s| && s[|s| - |suffix|..] == suffix
  }

  /** `name.sub(/<suffix>$/, replacement)`: the suffix at the end of the
      name replaced, or the name unchanged. */
  function SubSuffix(name: string, suffix: string, replacement: string): string
  {
    if EndsWith(name, suffix) then name[..|name| - |suffix|] + replacement else name
  }

  /** No key occurs twice among a hash's entries. */
  predicate DistinctKeys<K(==), V>(pairs: seq<(K, V)>)
  {
    forall i, j | 0 <= i < j < |pairs| :: pairs[i].0 != pairs[j].0
  }

  /** The first entry from index i on stored under key. */
  function FirstWithKey<K(==), V>(pairs: seq<(K, V)>, key: K, i: nat): (r: Option<nat>)
    requires i <= |pairs|
    ensures r.Some? ==> i <= r.value < |pairs| && pairs[r.value].0 == key
    ensures r.None? <==> forall j | i <= j < |pairs| :: pairs[j].0 != key
    decreases |pairs| - i
  {
    if i == |pairs| then None
    else if pairs[i].0 == key then Some(i)
    else FirstWithKey(pairs, key, i + 1)
  }

  /** `hash[key]`: the value stored under key, or nil. */
  function HashGet<K(==), V>(pairs: seq<(K, V)>, key: K): (r: Option<V>)
    ensures r.None? <==> forall i | 0 <= i < |pairs| :: pairs[i].0 != key
    ensures r.Some? ==> exists i | 0 <= i < |pairs| :: pairs[i] == (key, r.value)
  {
    match FirstWithKey(pairs, key, 0)
    case Some(i) => Some(pairs[i].1)
    case None => None
  }

  /** With distinct keys, every entry is what its key reads. */
  lemma HashGetEntry<K, V>(pairs: seq<(K, V)>, k: nat)
    requires DistinctKeys(pairs) && k < |pairs|
    ensures HashGet(pairs, pairs[k].0) == Some(pairs[k].1)
  {
  }

  /** `const_get(name)`; a constant that does not exist is a NameError. */
  function ConstGet(table: seq<(string, Constant)>, name: string): (r: Result<Constant>)
    ensures r.Ok? <==> exists i | 0 <= i < |table| :: table[i].0 == name
    ensures r.Ok? ==> exists i | 0 <= i < |table| :: table[i] == (name, r.value)
  {
    match FirstWithName(table, name, 0)
    case Some(i) => Ok(table[i].1)
    case None => Err(MissingConstant)
  }

  /** The conversion both methods share: the value of the constant named
      like the first constant holding str, with the suffix rewritten; nil
      when no constant holds str, a NameError when the rewritten name is
      not a constant. */
  function Convert(table: seq<(string, Constant)>, str: string, suffix: string, replacement: string)
    : (r: Result<Option<Constant>>)
    ensures r == Ok(None) <==> forall i | 0 <= i < |table| :: table[i].1 != Text(str)
    ensures r.Err? ==> r.error == MissingConstant && exists i | 0 <= i < |table| :: table[i].1 == Text(str)
  {
    match FirstValue(table, str)
    case None => Ok(None)
    case Some(i) =>
      var c :- ConstGet(table, SubSuffix(table[i].0, suffix, replacement));
      Ok(Some(c))
  }

  /** Diagnosis.name_to_sym */
  function NameToSym(str: string): (r: Result<Option<Constant>>)
    ensures hide DiagnosisConstants; r == Ok(None) <==> forall i | 0 <= i < |DiagnosisConstants()| :: DiagnosisConstants()[i].1 != Text(str)
    ensures r.Err? ==> r.error == MissingConstant
  {
    hide DiagnosisConstants; Convert(DiagnosisConstants(), str, "_NAME", "_SYM")
  }

  /** Diagnosis.sym_to_name */
  function SymToName(str: string): (r: Result<Option<Constant>>)
    ensures hide DiagnosisConstants; r == Ok(None) <==> forall i | 0 <= i < |DiagnosisConstants()| :: DiagnosisConstants()[i].1 != Text(str)
    ensures r.Err? ==> r.error == MissingConstant
  {
    hide DiagnosisConstants; Convert(DiagnosisConstants(), str, "_SYM", "_NAME")
  }

  // ---------------------------------------------------------------------
  // Searching a table group by group
  // ---------------------------------------------------------------------

  predicate NoValue(table: seq<(string, Constant)>, str: string)
  {
    forall j | 0 <= j < |table| :: table[j].1 != Text(str)
  }

  predicate NoName(table: seq<(string, Constant)>, name: string)
  {
    forall j | 0 <= j < |table| :: table[j].0 != name
  }

  /** The constant at k is the first to hold str. */
  lemma FirstValueAt(table: seq<(string, Constant)>, str: string, k: nat)
    requires k < |table| && table[k].1 == Text(str)
    requires forall j | 0 <= j < k :: table[j].1 != Text(str)
    ensures FirstWithValue(table, str, 0) == Some(k)
  {
  }

  /** The constant at k is the first of its name. */
  lemma FirstNameAt(table: seq<(string, Constant)>, name: string, k: nat)
    requires k < |table| && table[k].0 == name
    requires forall j | 0 <= j < k :: table[j].0 != name
    ensures ConstGet(table, name) == Ok(table[k].1)
  {
  }

  /** A first match in one group is the first match once more constants
      follow it. */
  lemma FirstValueWithin(a: seq<(string, Constant)>, b: seq<(string, Constant)>, str: string)
    requires FirstWithValue(a, str, 0).Some?
    ensures FirstWithValue(a + b, str, 0) == FirstWithValue(a, str, 0)
  {
    var k := FirstWithValue(a, str, 0).value;
    FirstValueAt(a + b, str, k);
  }

  /** A search passes over a group holding no constant of the value. */
  lemma FirstValueAfter(a: seq<(string, Constant)>, b: seq<(string, Constant)>, str: string)
    requires NoValue(a, str)
    ensures FirstWithValue(a + b, str, 0)
         == match FirstWithValue(b, str, 0) case Some(k) => Some(|a| + k) case None => None
  {
    var c := a + b;
    match FirstWithValue(b, str, 0)
    case Some(k) =>
      forall j | 0 <= j < |a| + k
        ensures c[j].1 != Text(str)
      {
        if j >= |a| {
          assert c[j] == b[j - |a|];
        }
      }
      FirstValueAt(c, str, |a| + k);
    case None =>
      forall j | 0 <= j < |c|
        ensures c[j].1 != Text(str)
      {
        if j >= |a| {
          assert c[j] == b[j - |a|];
        }
      }
  }

  /** A constant defined in one group is found there once more constants
      follow it. */
  lemma ConstGetWithin(a: seq<(string, Constant)>, b: seq<(string, Constant)>, name: string)
    requires ConstGet(a, name).Ok?
    ensures ConstGet(a + b, name) == ConstGet(a, name)
  {
    var k := FirstWithName(a, name, 0).value;
    FirstNameAt(a + b, name, k);
  }

  /** const_get passes over a group with no constant of that name. */
  lemma ConstGetAfter(a: seq<(string, Constant)>, b: seq<(string, Constant)>, name: string)
    requires NoName(a, name)
    ensures ConstGet(a + b, name) == ConstGet(b, name)
  {
    var c := a + b;
    match FirstWithName(b, name, 0)
    case Some(k) =>
      forall j | 0 <= j < |a| + k
        ensures c[j].0 != name
      {
        if j >= |a| {
          assert c[j] == b[j - |a|];
        }
      }
      FirstNameAt(c, name, |a| + k);
    case None =>
      forall j | 0 <= j < |c|
        ensures c[j].0 != name
      {
        if j >= |a| {
          assert c[j] == b[j - |a|];
        }
      }
  }

  /** Convert's result once the value's first constant and the rewritten
      name's constant are known. */
  lemma ConvertFound(table: seq<(string, Constant)>, str: string, suffix: string, replacement: string,
                     k: nat, name: string, c: Constant)
    requires FirstValue(table, str) == Some(k)
    requires SubSuffix(table[k].0, suffix, replacement) == name
    requires ConstGet(table, name) == Ok(c)
    ensures Convert(table, str, suffix, replacement) == Ok(Some(c))
  {
  }

  /** Convert's NameError once the value's first constant is known and the
      rewritten name is not a constant. */
  lemma ConvertMissing(table: seq<(string, Constant)>, str: string, suffix: string, replacement: string,
                       k: nat, name: string)
    requires FirstValue(table, str) == Some(k)
    requires SubSuffix(table[k].0, suffix, replacement) == name
    requires ConstGet(table, name) == Err(MissingConstant)
    ensures Convert(table, str, suffix, replacement) == Err(MissingConstant)
  {
  }

  /** Rewriting `_NAME` to `_SYM` and back restores the name. */
  lemma {:induction false} SubSuffixRoundTrip(name: string)
    requires EndsWith(name, "_NAME")
    ensures EndsWith(SubSuffix(name, "_NAME", "_SYM"), "_SYM")
    ensures SubSuffix(SubSuffix(name, "_NAME", "_SYM"), "_SYM", "_NAME") == name
  {
    var stem := name[..|name| - 5];
    var sym := stem + "_SYM";
    assert sym[|sym| - 4..] == "_SYM";
    assert sym[..|sym| - 4] == stem;
    assert stem + "_NAME" == name by {
      assert name == name[..|name| - 5] + name[|name| - 5..];
    }
  }

  // ---------------------------------------------------------------------
  // What each group holds, for the lookups below
  // ---------------------------------------------------------------------

  /** No constant of the group has one of these names. */
  predicate NamesAbsent(table: seq<(string, Constant)>, names: seq<string>)
  {
    forall j | 0 <= j < |table| :: table[j].0 !in names
  }

  /** No constant of the group holds one of these strings. */
  predicate ValuesAbsent(table: seq<(string, Constant)>, strs: seq<string>)
  {
    forall j | 0 <= j < |table| :: !table[j].1.Text? || table[j].1.s !in strs
  }

  lemma NoNameOf(table: seq<(string, Constant)>, names: seq<string>, k: nat)
    requires NamesAbsent(table, names) && k < |names|
    ensures NoName(table, names[k])
  {
  }

  lemma NoValueOf(table: seq<(string, Constant)>, strs: seq<string>, k: nat)
    requires ValuesAbsent(table, strs) && k < |strs|
    ensures NoValue(table, strs[k])
  {
  }

  lemma ImpressionNames()
    ensures NamesAbsent(ImpressionConstants(), ["LISCH_SYM", "GISCH_NAME", "VH_ALT_NAME", "MI_ALT_NAME", "MI_NAME"])
  {
  }

  lemma ImpressionValues()
    ensures ValuesAbsent(ImpressionConstants(), ["Local Ischemia", "NCI", "H", "C(I)", "I"])
  {
  }

  lemma PrimaryRows()
    ensures var g := PrimaryConstants();
      g[0] == ("LISCH_NAME", Text("Local Ischemia")) && g[1] == ("LISCH_SYM", Text("CAD"))
      && g[4] == ("GISCH_NAME", Text("Global Ischemia")) && g[5] == ("GISCH_SYM", Text("NCI"))
  {
  }

  lemma PrimaryBefore()
    ensures var g := PrimaryConstants();
      (forall j | 0 <= j < 5 :: g[j].1 != Text("NCI")) && (forall j | 0 <= j < 4 :: g[j].0 != "GISCH_NAME")
  {
  }

  lemma PrimaryNames()
    ensures NamesAbsent(PrimaryConstants(), ["VH_ALT_NAME", "MI_ALT_NAME", "MI_NAME"])
  {
  }

  lemma PrimaryValues()
    ensures ValuesAbsent(PrimaryConstants(), ["H", "C(I)", "I"])
  {
  }

  lemma SecondaryRows()
    ensures var g := SecondaryConstants();
      g[2] == ("VH_ALT_SYM", Text("H")) && g[15] == ("MI_NAME", Text("Myocardial Infarct"))
      && g[16] == ("MI_SYM", Text("I")) && g[17] == ("MI_ALT_SYM", Text("C(I)"))
  {
  }

  lemma SecondaryBefore()
    ensures var g := SecondaryConstants();
      (forall j | 0 <= j < 2 :: g[j].1 != Text("H"))
      && (forall j | 0 <= j < 16 :: g[j].1 != Text("I"))
  {
  }

  lemma SecondaryBeforeAlt()
    ensures var g := SecondaryConstants();
      (forall j | 0 <= j < 17 :: g[j].1 != Text("C(I)"))
      && (forall j | 0 <= j < 15 :: g[j].0 != "MI_NAME")
  {
  }

  lemma SecondaryNames()
    ensures NamesAbsent(SecondaryConstants(), ["VH_ALT_NAME", "MI_ALT_NAME"])
  {
  }

  lemma TertiaryNames()
    ensures NamesAbsent(TertiaryConstants(), ["VH_ALT_NAME", "MI_ALT_NAME"])
  {
  }

  lemma MetaNames()
    ensures NamesAbsent(MetaConstants(), ["VH_ALT_NAME", "MI_ALT_NAME"])
  {
  }

  lemma TableNames()
    ensures NamesAbsent(TableConstants(), ["VH_ALT_NAME", "MI_ALT_NAME"])
  {
  }

  // ---------------------------------------------------------------------
  // The lookups the class documents
  // ---------------------------------------------------------------------

  /** The name of the constant at k, or "" past the end. */
  function NameAt(table: seq<(string, Constant)>, k: int): string
  {
    if 0 <= k < |table| then table[k].0 else ""
  }

  /** The suffix rewrites of the constants looked up below. */
  lemma SiblingNames()
    ensures SubSuffix("LISCH_NAME", "_NAME", "_SYM") == "LISCH_SYM"
    ensures SubSuffix("GISCH_SYM", "_SYM", "_NAME") == "GISCH_NAME"
    ensures SubSuffix("MI_SYM", "_SYM", "_NAME") == "MI_NAME"
    ensures SubSuffix("VH_ALT_SYM", "_SYM", "_NAME") == "VH_ALT_NAME"
    ensures SubSuffix("MI_ALT_SYM", "_SYM", "_NAME") == "MI_ALT_NAME"
  {
    SuffixReplaced("LISCH", "_NAME", "_SYM");
    SuffixReplaced("GISCH", "_SYM", "_NAME");
    SuffixReplaced("MI", "_SYM", "_NAME");
    SuffixReplaced("VH_ALT", "_SYM", "_NAME");
    SuffixReplaced("MI_ALT", "_SYM", "_NAME");
  }

  /** A name made of a stem and the suffix has the suffix replaced. */
  lemma SuffixReplaced(stem: string, suffix: string, replacement: string)
    ensures SubSuffix(stem + suffix, suffix, replacement) == stem + replacement
  {
    var name := stem + suffix;
    assert name[|name| - |suffix|..] == suffix;
    assert name[..|name| - |suffix|] == stem;
  }

  /** Regrouping the constants before a group. */
  lemma Regrouped(a: seq<(string, Constant)>, b: seq<(string, Constant)>, rest: seq<(string, Constant)>)
    ensures a + (b + rest) == (a + b) + rest
  {
  }

  lemma NoValueJoin(a: seq<(string, Constant)>, b: seq<(string, Constant)>, str: string)
    requires NoValue(a, str) && NoValue(b, str)
    ensures NoValue(a + b, str)
  {
    forall j | 0 <= j < |a + b|
      ensures (a + b)[j].1 != Text(str)
    {
      if j >= |a| {
        assert (a + b)[j] == b[j - |a|];
      }
    }
  }

  lemma NoNameJoin(a: seq<(string, Constant)>, b: seq<(string, Constant)>, name: string)
    requires NoName(a, name) && NoName(b, name)
    ensures NoName(a + b, name)
  {
    forall j | 0 <= j < |a + b|
      ensures (a + b)[j].0 != name
    {
      if j >= |a| {
        assert (a + b)[j] == b[j - |a|];
      }
    }
  }

  /** The first constant holding str is the k-th of a group when no earlier
      constant holds it. */
  lemma ValueInGroup(before: seq<(string, Constant)>, g: seq<(string, Constant)>, after: seq<(string, Constant)>,
                     str: string, k: nat)
    requires NoValue(before, str)
    requires k < |g| && g[k].1 == Text(str) && forall j | 0 <= j < k :: g[j].1 != Text(str)
    ensures FirstWithValue(before + (g + after), str, 0) == Some(|before| + k)
    ensures (before + (g + after))[|before| + k] == g[k]
  {
    FirstValueAt(g, str, k);
    FirstValueWithin(g, after, str);
    FirstValueAfter(before, g + after, str);
  }

  /** const_get finds the k-th constant of a group when no earlier constant
      has its name. */
  lemma NameInGroup(before: seq<(string, Constant)>, g: seq<(string, Constant)>, after: seq<(string, Constant)>,
                    name: string, k: nat)
    requires NoName(before, name)
    requires k < |g| && g[k].0 == name && forall j | 0 <= j < k :: g[j].0 != name
    ensures ConstGet(before + (g + after), name) == Ok(g[k].1)
  {
    FirstNameAt(g, name, k);
    ConstGetWithin(g, after, name);
    ConstGetAfter(before, g + after, name);
  }

  /** A name no group defines is not a constant of the class. */
  lemma NameNowhere(name: string)
    requires NoName(ImpressionConstants(), name) && NoName(PrimaryConstants(), name)
    requires NoName(SecondaryConstants(), name) && NoName(TertiaryConstants(), name)
    requires NoName(MetaConstants(), name) && NoName(TableConstants(), name)
    ensures ConstGet(DiagnosisConstants(), name) == Err(MissingConstant)
  {
    hide ImpressionConstants, PrimaryConstants, SecondaryConstants, TertiaryConstants, MetaConstants, TableConstants;
    NoNameJoin(MetaConstants(), TableConstants(), name);
    NoNameJoin(TertiaryConstants(), MetaConstants() + TableConstants(), name);
    NoNameJoin(SecondaryConstants(), TertiaryConstants() + (MetaConstants() + TableConstants()), name);
    NoNameJoin(PrimaryConstants(), SecondaryConstants() + (TertiaryConstants() + (MetaConstants() + TableConstants())), name);
    NoNameJoin(ImpressionConstants(),
      PrimaryConstants() + (SecondaryConstants() + (TertiaryConstants() + (MetaConstants() + TableConstants()))), name);
  }

  /** VH_ALT_NAME and MI_ALT_NAME are not constants of the class. */
  lemma AltNamesMissing()
    ensures ConstGet(DiagnosisConstants(), "VH_ALT_NAME") == Err(MissingConstant)
    ensures ConstGet(DiagnosisConstants(), "MI_ALT_NAME") == Err(MissingConstant)
  {
    hide ImpressionConstants, PrimaryConstants, SecondaryConstants, TertiaryConstants, MetaConstants, TableConstants, DiagnosisConstants;
    var names := ["VH_ALT_NAME", "MI_ALT_NAME"];
    ImpressionNames();
    PrimaryNames();
    SecondaryNames();
    TertiaryNames();
    MetaNames();
    TableNames();
    NoNameOf(ImpressionConstants(), ["LISCH_SYM", "GISCH_NAME", "VH_ALT_NAME", "MI_ALT_NAME", "MI_NAME"], 2);
    NoNameOf(ImpressionConstants(), ["LISCH_SYM", "GISCH_NAME", "VH_ALT_NAME", "MI_ALT_NAME", "MI_NAME"], 3);
    NoNameOf(PrimaryConstants(), ["VH_ALT_NAME", "MI_ALT_NAME", "MI_NAME"], 0);
    NoNameOf(PrimaryConstants(), ["VH_ALT_NAME", "MI_ALT_NAME", "MI_NAME"], 1);
    NoNameOf(SecondaryConstants(), names, 0);
    NoNameOf(SecondaryConstants(), names, 1);
    NoNameOf(TertiaryConstants(), names, 0);
    NoNameOf(TertiaryConstants(), names, 1);
    NoNameOf(MetaConstants(), names, 0);
    NoNameOf(MetaConstants(), names, 1);
    NoNameOf(TableConstants(), names, 0);
    NoNameOf(TableConstants(), names, 1);
    NameNowhere("VH_ALT_NAME");
    NameNowhere("MI_ALT_NAME");
  }

  lemma LocalIschemiaFound()
    ensures FirstValue(DiagnosisConstants(), "Local Ischemia") == Some(10) && NameAt(DiagnosisConstants(), 10) == "LISCH_NAME"
  {
    hide ImpressionConstants, PrimaryConstants, SecondaryConstants, TertiaryConstants, MetaConstants, TableConstants,
      FirstWithValue, FirstWithName, ConstGet;
    var i, p := ImpressionConstants(), PrimaryConstants();
    var after := SecondaryConstants() + (TertiaryConstants() + (MetaConstants() + TableConstants()));
    ImpressionValues();
    PrimaryRows();
    NoValueOf(i, ["Local Ischemia", "NCI", "H", "C(I)", "I"], 0);
    ValueInGroup(i, p, after, "Local Ischemia", 0);
  }

  lemma LocalIschemiaSymbol()
    ensures ConstGet(DiagnosisConstants(), "LISCH_SYM") == Ok(Text("CAD"))
  {
    hide ImpressionConstants, PrimaryConstants, SecondaryConstants, TertiaryConstants, MetaConstants, TableConstants,
      FirstWithValue, FirstWithName, ConstGet;
    var i, p := ImpressionConstants(), PrimaryConstants();
    var after := SecondaryConstants() + (TertiaryConstants() + (MetaConstants() + TableConstants()));
    ImpressionNames();
    PrimaryRows();
    NoNameOf(i, ["LISCH_SYM", "GISCH_NAME", "VH_ALT_NAME", "MI_ALT_NAME", "MI_NAME"], 0);
    NameInGroup(i, p, after, "LISCH_SYM", 1);
  }

  /** 'Local Ischemia' is LISCH_NAME, whose sibling LISCH_SYM is 'CAD'. */
  lemma LocalIschemiaSym()
    ensures NameToSym("Local Ischemia") == Ok(Some(Text("CAD")))
  {
    hide ImpressionConstants, PrimaryConstants, SecondaryConstants, TertiaryConstants, MetaConstants, TableConstants,
      FirstWithValue, FirstWithName, ConstGet;
    SiblingNames();
    LocalIschemiaFound();
    LocalIschemiaSymbol();
    ConvertFound(DiagnosisConstants(), "Local Ischemia", "_NAME", "_SYM", 10, "LISCH_SYM", Text("CAD"));
  }

  lemma GlobalIschemiaFound()
    ensures FirstValue(DiagnosisConstants(), "NCI") == Some(15) && NameAt(DiagnosisConstants(), 15) == "GISCH_SYM"
  {
    hide ImpressionConstants, PrimaryConstants, SecondaryConstants, TertiaryConstants, MetaConstants, TableConstants,
      FirstWithValue, FirstWithName, ConstGet;
    var i, p := ImpressionConstants(), PrimaryConstants();
    var after := SecondaryConstants() + (TertiaryConstants() + (MetaConstants() + TableConstants()));
    ImpressionValues();
    PrimaryRows();
    PrimaryBefore();
    NoValueOf(i, ["Local Ischemia", "NCI", "H", "C(I)", "I"], 1);
    ValueInGroup(i, p, after, "NCI", 5);
  }

  lemma GlobalIschemiaNamed()
    ensures ConstGet(DiagnosisConstants(), "GISCH_NAME") == Ok(Text("Global Ischemia"))
  {
    hide ImpressionConstants, PrimaryConstants, SecondaryConstants, TertiaryConstants, MetaConstants, TableConstants,
      FirstWithValue, FirstWithName, ConstGet;
    var i, p := ImpressionConstants(), PrimaryConstants();
    var after := SecondaryConstants() + (TertiaryConstants() + (MetaConstants() + TableConstants()));
    ImpressionNames();
    PrimaryRows();
    PrimaryBefore();
    NoNameOf(i, ["LISCH_SYM", "GISCH_NAME", "VH_ALT_NAME", "MI_ALT_NAME", "MI_NAME"], 1);
    NameInGroup(i, p, after, "GISCH_NAME", 4);
  }

  /** 'NCI' is GISCH_SYM, whose sibling GISCH_NAME is 'Global Ischemia'. */
  lemma GlobalIschemiaName()
    ensures SymToName("NCI") == Ok(Some(Text("Global Ischemia")))
  {
    hide ImpressionConstants, PrimaryConstants, SecondaryConstants, TertiaryConstants, MetaConstants, TableConstants,
      FirstWithValue, FirstWithName, ConstGet;
    SiblingNames();
    GlobalIschemiaFound();
    GlobalIschemiaNamed();
    ConvertFound(DiagnosisConstants(), "NCI", "_SYM", "_NAME", 15, "GISCH_NAME", Text("Global Ischemia"));
  }

  lemma InfarctFound()
    ensures FirstValue(DiagnosisConstants(), "I") == Some(46) && NameAt(DiagnosisConstants(), 46) == "MI_SYM"
  {
    hide ImpressionConstants, PrimaryConstants, SecondaryConstants, TertiaryConstants, MetaConstants, TableConstants,
      FirstWithValue, FirstWithName, ConstGet;
    var i, p, g := ImpressionConstants(), PrimaryConstants(), SecondaryConstants();
    var after := TertiaryConstants() + (MetaConstants() + TableConstants());
    Regrouped(i, p, g + after);
    ImpressionValues();
    PrimaryValues();
    SecondaryRows();
    SecondaryBefore();
    NoValueOf(i, ["Local Ischemia", "NCI", "H", "C(I)", "I"], 4);
    NoValueOf(p, ["H", "C(I)", "I"], 2);
    NoValueJoin(i, p, "I");
    ValueInGroup(i + p, g, after, "I", 16);
  }

  lemma InfarctNamed()
    ensures ConstGet(DiagnosisConstants(), "MI_NAME") == Ok(Text("Myocardial Infarct"))
  {
    hide ImpressionConstants, PrimaryConstants, SecondaryConstants, TertiaryConstants, MetaConstants, TableConstants,
      FirstWithValue, FirstWithName, ConstGet;
    var i, p, g := ImpressionConstants(), PrimaryConstants(), SecondaryConstants();
    var after := TertiaryConstants() + (MetaConstants() + TableConstants());
    Regrouped(i, p, g + after);
    ImpressionNames();
    PrimaryNames();
    SecondaryRows();
    SecondaryBeforeAlt();
    NoNameOf(i, ["LISCH_SYM", "GISCH_NAME", "VH_ALT_NAME", "MI_ALT_NAME", "MI_NAME"], 4);
    NoNameOf(p, ["VH_ALT_NAME", "MI_ALT_NAME", "MI_NAME"], 2);
    NoNameJoin(i, p, "MI_NAME");
    NameInGroup(i + p, g, after, "MI_NAME", 15);
  }

  /** 'I' is MI_SYM, whose sibling MI_NAME is 'Myocardial Infarct'. */
  lemma InfarctName()
    ensures SymToName("I") == Ok(Some(Text("Myocardial Infarct")))
  {
    hide ImpressionConstants, PrimaryConstants, SecondaryConstants, TertiaryConstants, MetaConstants, TableConstants,
      FirstWithValue, FirstWithName, ConstGet;
    SiblingNames();
    InfarctFound();
    InfarctNamed();
    ConvertFound(DiagnosisConstants(), "I", "_SYM", "_NAME", 46, "MI_NAME", Text("Myocardial Infarct"));
  }

  lemma HypertrophyAltFound()
    ensures FirstValue(DiagnosisConstants(), "H") == Some(32) && NameAt(DiagnosisConstants(), 32) == "VH_ALT_SYM"
  {
    hide ImpressionConstants, PrimaryConstants, SecondaryConstants, TertiaryConstants, MetaConstants, TableConstants,
      FirstWithValue, FirstWithName, ConstGet;
    var i, p, g := ImpressionConstants(), PrimaryConstants(), SecondaryConstants();
    var after := TertiaryConstants() + (MetaConstants() + TableConstants());
    Regrouped(i, p, g + after);
    ImpressionValues();
    PrimaryValues();
    SecondaryRows();
    SecondaryBefore();
    NoValueOf(i, ["Local Ischemia", "NCI", "H", "C(I)", "I"], 2);
    NoValueOf(p, ["H", "C(I)", "I"], 0);
    NoValueJoin(i, p, "H");
    ValueInGroup(i + p, g, after, "H", 2);
  }

  lemma InfarctAltFound()
    ensures FirstValue(DiagnosisConstants(), "C(I)") == Some(47) && NameAt(DiagnosisConstants(), 47) == "MI_ALT_SYM"
  {
    hide ImpressionConstants, PrimaryConstants, SecondaryConstants, TertiaryConstants, MetaConstants, TableConstants,
      FirstWithValue, FirstWithName, ConstGet;
    var i, p, g := ImpressionConstants(), PrimaryConstants(), SecondaryConstants();
    var after := TertiaryConstants() + (MetaConstants() + TableConstants());
    Regrouped(i, p, g + after);
    ImpressionValues();
    PrimaryValues();
    SecondaryRows();
    SecondaryBeforeAlt();
    NoValueOf(i, ["Local Ischemia", "NCI", "H", "C(I)", "I"], 3);
    NoValueOf(p, ["H", "C(I)", "I"], 1);
    NoValueJoin(i, p, "C(I)");
    ValueInGroup(i + p, g, after, "C(I)", 17);
  }

  /** The alternative symbols 'H' (ventricular hypertrophy) and 'C(I)'
      (myocardial infarct) have no _NAME sibling, so sym_to_name raises a
      NameError for them. */
  lemma AltSymbolsFail()
    ensures SymToName("H") == Err(MissingConstant)
    ensures SymToName("C(I)") == Err(MissingConstant)
  {
    hide ImpressionConstants, PrimaryConstants, SecondaryConstants, TertiaryConstants, MetaConstants, TableConstants,
      FirstWithValue, FirstWithName, ConstGet;
    SiblingNames();
    HypertrophyAltFound();
    InfarctAltFound();
    AltNamesMissing();
    ConvertMissing(DiagnosisConstants(), "H", "_SYM", "_NAME", 32, "VH_ALT_NAME");
    ConvertMissing(DiagnosisConstants(), "C(I)", "_SYM", "_NAME", 47, "MI_ALT_NAME");
  }

  // ---------------------------------------------------------------------
  // The legacy tables
  // ---------------------------------------------------------------------

  /** The standard MCG output lists 36 names, local ischemia first and
      power failure last. */
  lemma McgDiagsShape()
    ensures |MCG_DIAGS| == 36
    ensures MCG_DIAGS[0] == "Local Ischemia" && MCG_DIAGS[35] == "Power Failure"
  {
  }

  lemma DiaDiagMapDistinct()
    ensures |DIA_DIAG_MAP| == 13 && DistinctKeys(DIA_DIAG_MAP)
  {
  }

  lemma DiaDiagMapRows()
    ensures |DIA_DIAG_MAP| == 13
    ensures DIA_DIAG_MAP[4] == ("I", "Myocardial Infarct") && DIA_DIAG_MAP[5] == ("C(I)", "Myocardial Infarct")
  {
  }

  /** The symbol table has 13 distinct symbols and sends both infarct
      symbols to the same name. */
  lemma DiaDiagMapShape()
    ensures |DIA_DIAG_MAP| == 13 && DistinctKeys(DIA_DIAG_MAP)
    ensures HashGet(DIA_DIAG_MAP, "I") == HashGet(DIA_DIAG_MAP, "C(I)") == Some("Myocardial Infarct")
  {
    DiaDiagMapDistinct();
    DiaDiagMapRows();
    HashGetEntry(DIA_DIAG_MAP, 4);
    HashGetEntry(DIA_DIAG_MAP, 5);
  }

  /** The symbol table reads the alternative infarct symbol that
      sym_to_name rejects, and agrees with sym_to_name on the other. */
  lemma LegacySymbolsAgree()
    ensures SymToName("I") == Ok(Some(Text("Myocardial Infarct"))) && HashGet(DIA_DIAG_MAP, "I") == Some("Myocardial Infarct")
    ensures SymToName("C(I)").Err? && HashGet(DIA_DIAG_MAP, "C(I)") == Some("Myocardial Infarct")
  {
    DiaDiagMapShape();
    hide ImpressionConstants, PrimaryConstants, SecondaryConstants, TertiaryConstants, MetaConstants, TableConstants,
      FirstWithValue, FirstWithName, ConstGet;
    InfarctName();
    AltSymbolsFail();
  }

  /** Keys ascending up to the last entry, and a last key unlike the
      others, make the keys distinct. */
  lemma {:induction false} AscendingThenNew(pairs: seq<(int, string)>)
    requires |pairs| >= 1
    requires forall i | 0 <= i < |pairs| - 2 :: pairs[i].0 < pairs[i + 1].0
    requires forall i | 0 <= i < |pairs| - 1 :: pairs[i].0 != pairs[|pairs| - 1].0
    ensures DistinctKeys(pairs)
  {
    forall i, j | 0 <= i < j < |pairs|
      ensures pairs[i].0 != pairs[j].0
    {
      if j < |pairs| - 1 {
        var k := i;
        while k < j
          invariant i <= k <= j
          invariant pairs[i].0 <= pairs[k].0 && (k > i ==> pairs[i].0 < pairs[k].0)
        {
          k := k + 1;
        }
      }
    }
  }

  lemma CommentIdsOrdered()
    ensures |DIAG_COMMENT| == 29
    ensures forall i | 0 <= i < 27 :: DIAG_COMMENT[i].0 < DIAG_COMMENT[i + 1].0
    ensures forall i | 0 <= i < 28 :: DIAG_COMMENT[i].0 != DIAG_COMMENT[28].0
  {
  }

  lemma CommentRows()
    ensures |DIAG_COMMENT| == 29
    ensures DIAG_COMMENT[5] == (145, "atrial_fibrillation") && DIAG_COMMENT[24] == (166, "atrial_fibrillation")
  {
  }

  /** The comment table has 29 distinct ids, and it is not injective: ids
      145 and 166 both name atrial fibrillation. */
  lemma DiagCommentShape()
    ensures |DIAG_COMMENT| == 29 && DistinctKeys(DIAG_COMMENT)
    ensures HashGet(DIAG_COMMENT, 145) == HashGet(DIAG_COMMENT, 166) == Some("atrial_fibrillation")
  {
    CommentIdsOrdered();
    CommentRows();
    AscendingThenNew(DIAG_COMMENT);
    HashGetEntry(DIAG_COMMENT, 5);
    HashGetEntry(DIAG_COMMENT, 24);
  }
}
