/** Byte strings and the fixed-layout fields every record is built from:
    little-endian integers (Ruby pack directives c/C, s/S, i/I/l/L, q/Q on a
    little-endian host) and fixed-width NUL-padded text fields (pack "aN",
    unpack "AN"). */
module Bytes {
  import opened Results

  type Byte = b: int | 0 <= b < 256
  type Bytes = seq<Byte>

  /** 256 to the power n. */
  function Pow256(n: nat): (r: nat)
    ensures r > 0
  {
    if n == 0 then 1 else 256 * Pow256(n - 1)
  }

  lemma Pow256Values()
    ensures Pow256(1) == 0x100 && Pow256(2) == 0x1_0000
    ensures Pow256(4) == 0x1_0000_0000 && Pow256(8) == 0x1_0000_0000_0000_0000
  {
    assert Pow256(1) == 256 * Pow256(0);
    assert Pow256(2) == 256 * Pow256(1);
    assert Pow256(3) == 256 * Pow256(2);
    assert Pow256(4) == 256 * Pow256(3);
    assert Pow256(8) == 256 * 256 * 256 * 256 * Pow256(4);
  }

  // ---------------------------------------------------------------------
  // Little-endian integers
  // ---------------------------------------------------------------------

  /** The unsigned value of a little-endian byte string. */
  function LeValue(b: Bytes): (v: nat)
    ensures v < Pow256(|b|)
  {
    if b == [] then 0 else b[0] + 256 * LeValue(b[1..])
  }

  /** Half the range of an n-byte field: the bound of its signed values. */
  function Half(n: nat): int
  {
    Pow256(n) / 2
  }

  /** A field of at least one byte has as many negative values as
      non-negative ones. */
  lemma HalfEven(n: nat)
    ensures n > 0 ==> Pow256(n) == 2 * Half(n)
  {
    if n > 0 {
      var p := Pow256(n - 1);
      assert Pow256(n) == 2 * (128 * p);
    }
  }

  /** The two's-complement (signed) value of a little-endian byte string. */
  function LeSigned(b: Bytes): (v: int)
    ensures -Half(|b|) <= v < Half(|b|) || b == []
  {
    var u := LeValue(b);
    HalfEven(|b|);
    if u >= Half(|b|) then u - Pow256(|b|) else u
  }

  /** The n bytes Ruby's integer pack directives write for x: x reduced
      modulo 256^n, least significant byte first. */
  function LeBytes(x: int, n: nat): (r: Bytes)
    ensures |r| == n
    decreases n
  {
    if n == 0 then [] else [x % 256] + LeBytes(x / 256, n - 1)
  }

  /** An unsigned field round-trips every value it can hold. */
  lemma {:induction false} UnsignedRoundTrip(x: int, n: nat)
    requires 0 <= x < Pow256(n)
    ensures LeValue(LeBytes(x, n)) == x
  {
    if n > 0 {
      UnsignedRoundTrip(x / 256, n - 1);
      assert LeBytes(x, n)[1..] == LeBytes(x / 256, n - 1);
    }
  }

  /** Adding 256^n does not change the n bytes written: integer fields wrap. */
  lemma {:induction false} LeBytesWrap(x: int, n: nat)
    ensures LeBytes(x + Pow256(n), n) == LeBytes(x, n)
    decreases n
  {
    if n > 0 {
      var p := Pow256(n - 1);
      assert (x + 256 * p) % 256 == x % 256;
      assert (x + 256 * p) / 256 == x / 256 + p;
      LeBytesWrap(x / 256, n - 1);
    }
  }

  /** A signed field round-trips every value it can hold. */
  lemma SignedRoundTrip(x: int, n: nat)
    requires n > 0
    requires -Half(n) <= x < Half(n)
    ensures LeSigned(LeBytes(x, n)) == x
  {
    if x < 0 {
      LeBytesWrap(x, n);
      UnsignedRoundTrip(x + Pow256(n), n);
    } else {
      UnsignedRoundTrip(x, n);
    }
  }

  /** Writing x and writing x reduced modulo 256^n give the same bytes. */
  lemma {:induction false} LeBytesInjective(b: Bytes)
    ensures LeBytes(LeValue(b), |b|) == b
  {
    if b != [] {
      LeBytesInjective(b[1..]);
      assert LeValue(b) % 256 == b[0];
      assert LeValue(b) / 256 == LeValue(b[1..]);
    }
  }

  // ---------------------------------------------------------------------
  // Fixed-width text fields
  // ---------------------------------------------------------------------

  /** A character is stored as one byte. */
  function CharByte(c: char): Byte
  {
    (c as int) % 256
  }

  /** The bytes of a string, one per character. */
  function StringBytes(s: string): (r: Bytes)
    ensures |r| == |s|
  {
    seq(|s|, i requires 0 <= i < |s| => CharByte(s[i]))
  }

  /** Ruby unpack "a": the bytes as characters, nothing removed. */
  function RawString(b: Bytes): (s: string)
    ensures |s| == |b|
  {
    seq(|b|, i requires 0 <= i < |b| => b[i] as char)
  }

  /** Ruby pack "aN": the string cut to n bytes, then padded with NUL
      bytes to exactly n. */
  function PadA(s: string, n: nat): (r: Bytes)
    ensures |r| == n
  {
    seq(n, i requires 0 <= i < n => if i < |s| then CharByte(s[i]) else 0)
  }

  /** True of the bytes unpack "A" removes from the end of a field. */
  predicate IsPadByte(b: int)
  {
    b == 0 || b == 32
  }

  /** Ruby unpack "AN": the field with trailing NUL and space bytes removed. */
  function StripA(b: Bytes): (s: string)
    ensures |s| <= |b|
    ensures s == RawString(b[..|s|])
    ensures forall i | |s| <= i < |b| :: IsPadByte(b[i])
    ensures s == [] || !IsPadByte(s[|s| - 1] as int)
  {
    if b == [] then []
    else if IsPadByte(b[|b| - 1]) then StripA(b[..|b| - 1])
    else RawString(b)
  }

  /** The strings a fixed field of width n stores exactly: at most n
      characters, each a single byte, not ending in NUL or space. */
  predicate FitsField(s: string, n: nat)
  {
    && |s| <= n
    && (forall i | 0 <= i < |s| :: s[i] as int < 256)
    && (s == [] || !IsPadByte(s[|s| - 1] as int))
  }

  /** k NUL bytes. */
  function Zeros(k: nat): (r: Bytes)
    ensures |r| == k && forall i | 0 <= i < k :: r[i] == 0
  {
    seq(k, i => 0)
  }

  /** Stripping a field removes exactly the NUL padding behind content that
      does not itself end in a pad byte. */
  lemma {:induction false} StripPadding(b: Bytes, k: nat)
    requires b == [] || !IsPadByte(b[|b| - 1])
    ensures StripA(b + Zeros(k)) == RawString(b)
    decreases k
  {
    hide StripA;
    if k == 0 {
      assert b + Zeros(0) == b;
      StripKept(b);
    } else {
      ZerosShorter(b, k);
      StripDrops(b + Zeros(k));
      StripPadding(b, k - 1);
    }
  }

  /** Dropping the last byte of some padding leaves one NUL fewer. */
  lemma ZerosShorter(b: Bytes, k: nat)
    requires k > 0
    ensures var c := b + Zeros(k); c != [] && c[|c| - 1] == 0 && c[..|c| - 1] == b + Zeros(k - 1)
  {
    var c := b + Zeros(k);
    assert c[|c| - 1] == Zeros(k)[k - 1];
    assert c[..|c| - 1] == b + Zeros(k - 1);
  }

  /** A field ending in a pad byte strips as the field without it. */
  lemma StripDrops(b: Bytes)
    requires b != [] && IsPadByte(b[|b| - 1])
    ensures StripA(b) == StripA(b[..|b| - 1])
  {
  }

  /** A field not ending in a pad byte strips to all of it. */
  lemma StripKept(b: Bytes)
    requires b == [] || !IsPadByte(b[|b| - 1])
    ensures StripA(b) == RawString(b)
  {
  }

  /** A string that fits a field is packed as its bytes, then NULs. */
  lemma PaddedBytes(s: string, n: nat)
    requires |s| <= n
    ensures PadA(s, n) == StringBytes(s) + Zeros(n - |s|)
  {
    var b := StringBytes(s);
    var p := PadA(s, n);
    forall i | 0 <= i < n
      ensures p[i] == (b + Zeros(n - |s|))[i]
    {
    }
  }

  /** Single-byte characters read back from their bytes. */
  lemma RawStringBytes(s: string)
    requires forall i | 0 <= i < |s| :: s[i] as int < 256
    ensures RawString(StringBytes(s)) == s
  {
    var b := StringBytes(s);
    forall i | 0 <= i < |s|
      ensures RawString(b)[i] == s[i]
    {
      assert b[i] == s[i] as int;
    }
  }

  /** Round trip of a fixed text field: unpack "AN" of pack "aN" gives back
      every string that fits the field. */
  lemma FixedFieldRoundTrip(s: string, n: nat)
    requires FitsField(s, n)
    ensures StripA(PadA(s, n)) == s
  {
    var b := StringBytes(s);
    PaddedBytes(s, n);
    RawStringBytes(s);
    assert b == [] || b[|b| - 1] == s[|s| - 1] as int;
    hide StripA, PadA, RawString, StringBytes;
    StripPadding(b, n - |s|);
  }

  /** Round trip of a raw field (unpack "aN") for strings of exactly n bytes. */
  lemma RawFieldRoundTrip(s: string)
    requires forall i | 0 <= i < |s| :: s[i] as int < 256
    ensures RawString(PadA(s, |s|)) == s
  {
  }

  // ---------------------------------------------------------------------
  // Ruby Array#[] with an index read from a file
  // ---------------------------------------------------------------------

  /** Ruby's array indexing: a negative index counts from the end, and an
      index outside the array gives nil. */
  function RubyAt<T>(a: seq<T>, i: int): (r: Option<T>)
    ensures r.Some? <==> -|a| <= i < |a|
    ensures 0 <= i < |a| ==> r == Some(a[i])
  {
    if 0 <= i < |a| then Some(a[i])
    else if -|a| <= i < 0 then Some(a[|a| + i])
    else None
  }

  /** The position Ruby's Array#[] reads for index i of an array of
      length n; an index with no entry is a failure. */
  function RubyIndex(n: nat, i: int): (r: Result<nat>)
    ensures r.Ok? <==> -(n as int) <= i < n
    ensures r.Ok? ==> r.value < n && r.value == (if i >= 0 then i else n + i)
  {
    if 0 <= i < n then Ok(i)
    else if -(n as int) <= i < 0 then Ok(n + i)
    else Err(UnknownTypeTag)
  }

  /** Ruby Array#index: the position of the first element equal to x. */
  function IndexOf<T(==)>(a: seq<T>, x: T): (r: Option<nat>)
    ensures r.Some? <==> x in a
    ensures r.Some? ==> r.value < |a| && a[r.value] == x
    ensures r.Some? ==> forall j | 0 <= j < r.value :: a[j] != x
  {
    if |a| == 0 then None
    else if a[0] == x then Some(0)
    else match IndexOf(a[1..], x)
      case None => None
      case Some(k) => Some(k + 1)
  }

  /** Array#index finds position k when no earlier element equals a[k]. */
  lemma {:induction false} IndexOfAt<T>(a: seq<T>, k: nat)
    requires k < |a|
    requires forall j | 0 <= j < k :: a[j] != a[k]
    ensures IndexOf(a, a[k]) == Some(k)
  {
    if k > 0 {
      assert a[1..][k - 1] == a[k];
      IndexOfAt(a[1..], k - 1);
    }
  }
}
