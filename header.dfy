/** The 8-byte prefix every container file starts with ("A4f" on read,
    "a4f" on write): a 4-byte magic and a binary32 version, and the version
    test each family uses to choose between its two body-header layouts. */
module Header {
  import opened Results
  import opened Bytes
  import opened Float32
  import opened Stream

  /** The binary64 value of the literal 0.1. */
  const TENTH: real := 3602879701896397.0 / 36028797018963968.0

  /** The binary64 values of the other literals the version tests use. */
  const TWO_POINT_ONE: real := 4728779608739021.0 / 2251799813685248.0
  const ONE_POINT_ONE_D: real := 2476979795053773.0 / 2251799813685248.0

  function Abs(x: real): (r: real)
    ensures r >= 0.0 && (r == x || r == -x)
  {
    if x >= 0.0 then x else -x
  }

  /** `(version - c).abs <= tol`, or `< tol` when strict, on the stored
      version word. A NaN or infinite version compares false. The binary64
      subtraction is taken exactly. */
  predicate Near(version: Bytes, c: real, tol: real, strict: bool)
    requires |version| == 4
  {
    match Decode(version)
    case Finite(v) => if strict then Abs(v - c) < tol else Abs(v - c) <= tol
    case _ => false
  }

  lemma NearNegativeNever(version: Bytes, c: real, tol: real, strict: bool)
    requires |version| == 4 && tol < 0.0
    ensures !Near(version, c, tol, strict)
  {
  }

  datatype Prefix = Prefix(magic: string, version: Bytes)

  /** Reads the magic (trailing NUL and space stripped) and the version
      word. */
  function ReadPrefix(s: Bytes): (r: Result<(Prefix, Bytes)>)
    ensures r.Ok? <==> |s| >= 8
    ensures r.Ok? ==> |r.value.0.version| == 4 && r.value.1 == s[8..]
  {
    var (buf, rest) :- Take(s, 8);
    Ok((Prefix(StripA(buf[..4]), buf[4..8]), rest))
  }

  /** The prefix a writer emits for a magic and version word. */
  function WritePrefix(magic: string, version: Bytes): (r: Bytes)
    requires |version| == 4
    ensures |r| == 8
  {
    PadA(magic, 4) + version
  }

  /** The magics are four plain characters. */
  predicate IsMagic(m: string)
  {
    |m| == 4 && FitsField(m, 4)
  }

  /** A prefix read back from what was written gives the magic and version. */
  lemma PrefixRoundTrip(magic: string, version: Bytes, rest: Bytes)
    requires IsMagic(magic) && |version| == 4
    ensures ReadPrefix(WritePrefix(magic, version) + rest) == Ok((Prefix(magic, version), rest))
  {
    var b := WritePrefix(magic, version) + rest;
    assert b[..8][..4] == PadA(magic, 4);
    assert b[..8][4..8] == version;
    assert b[8..] == rest;
    FixedFieldRoundTrip(magic, 4);
  }

  /** The magic read equals a four-character magic exactly when the first
      four bytes are that magic's bytes. */
  lemma MagicExact(s: Bytes, magic: string)
    requires |s| >= 8 && IsMagic(magic)
    ensures ReadPrefix(s).value.0.magic == magic <==> s[..4] == PadA(magic, 4)
  {
    FixedFieldRoundTrip(magic, 4);
    assert s[..8][..4] == s[..4];
    var m := StripA(s[..4]);
    if m == magic {
      assert |m| == 4;
      assert s[..4] == s[..4][..|m|];
      forall i | 0 <= i < 4
        ensures s[..4][i] == PadA(magic, 4)[i]
      {
        assert m[i] == s[..4][i] as char;
      }
    }
  }
}
