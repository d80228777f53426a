/** Arrays of signed little-endian integers of one element width: the
    counted numeric directives the sample and DSP records pack their data
    with ("c8192", "s128", "i512"). */
module IntArrays {
  import opened Results
  import opened Bytes

  /** Array#pack with a signed directive of width w: each element reduced
      to w bytes, in order. */
  function PackInts(xs: seq<int>, w: nat): (r: Bytes)
    ensures |r| == |xs| * w
  {
    if xs == [] then []
    else
      assert |xs| * w == w + (|xs| - 1) * w;
      LeBytes(xs[0], w) + PackInts(xs[1..], w)
  }

  /** String#unpack of n signed elements of width w from the front of b.
      Ruby gives nil for the elements whose bytes are missing; here a
      short buffer is ShortRead. */
  function UnpackInts(b: Bytes, w: nat, n: nat): (r: Result<seq<int>>)
    requires w > 0
    ensures r.Ok? ==> |r.value| == n
    ensures r.Err? ==> r.error == ShortRead
  {
    if n == 0 then Ok([])
    else if |b| < w then Err(ShortRead)
    else
      var rest :- UnpackInts(b[w..], w, n - 1);
      Ok([LeSigned(b[..w])] + rest)
  }

  /** Reading n elements fails exactly when fewer than n * w bytes are
      there; the bytes after them are never looked at. */
  lemma {:induction false} UnpackIntsShort(b: Bytes, w: nat, n: nat)
    requires w > 0
    ensures UnpackInts(b, w, n).Err? <==> |b| < n * w
  {
    if n > 0 {
      assert n * w == w + (n - 1) * w;
      if |b| >= w {
        UnpackIntsShort(b[w..], w, n - 1);
      }
    }
  }

  /** The elements that survive a round trip through width w. */
  predicate FitsWidth(xs: seq<int>, w: nat)
  {
    forall i | 0 <= i < |xs| :: -Half(w) <= xs[i] < Half(w)
  }

  /** Reading back what was packed gives the same elements, and leaves
      whatever followed. */
  lemma {:induction false} IntsRoundTrip(xs: seq<int>, w: nat, rest: Bytes)
    requires w > 0 && FitsWidth(xs, w)
    ensures UnpackInts(PackInts(xs, w) + rest, w, |xs|) == Ok(xs)
  {
    if xs != [] {
      var head := LeBytes(xs[0], w);
      var b := PackInts(xs, w) + rest;
      assert FitsWidth(xs[1..], w) by {
        forall i | 0 <= i < |xs| - 1
          ensures -Half(w) <= xs[1..][i] < Half(w)
        {
          assert xs[1..][i] == xs[i + 1];
        }
      }
      IntsRoundTrip(xs[1..], w, rest);
      assert b == head + (PackInts(xs[1..], w) + rest);
      assert b[..w] == head && b[w..] == PackInts(xs[1..], w) + rest;
      SignedRoundTrip(xs[0], w);
      assert [xs[0]] + xs[1..] == xs;
    }
  }

  /** Reading zero elements reads nothing. */
  lemma UnpackNone(b: Bytes, w: nat)
    requires w > 0
    ensures UnpackInts(b, w, 0) == Ok([])
  {
  }
}
