/** The file streams the codecs read from and write to.

    A Reader is the bytes of a file and a read position (Ruby's IO#read,
    IO#seek relative to the current position, and the remaining length the
    legacy readers measure with IO::SEEK_END); a Writer is the bytes written
    so far (IO#write). Every reading method is specified by a parser
    function from the remaining bytes to a value and the bytes left after
    it, every writing method by an encoder function. */
module Stream {
  import opened Results
  import opened Bytes

  /** The first n bytes and the rest; a short read is a failure. */
  function Take(s: Bytes, n: nat): (r: Result<(Bytes, Bytes)>)
    ensures r.Ok? <==> n <= |s|
    ensures r.Ok? ==> |r.value.0| == n && r.value.0 + r.value.1 == s
  {
    if n <= |s| then Ok((s[..n], s[n..])) else Err(ShortRead)
  }

  /** `n.times { list << read }`: n values parsed one after the other,
      collected in file order. */
  function Many<T>(n: nat, p: Bytes -> Result<(T, Bytes)>, s: Bytes): (r: Result<(seq<T>, Bytes)>)
    ensures r.Ok? ==> |r.value.0| == n
  {
    if n == 0 then Ok(([], s))
    else
      var (front, rest) :- Many(n - 1, p, s);
      var (x, rest') :- p(rest);
      Ok((front + [x], rest'))
  }

  /** `list.each { |x| x.to_file(f) }`: every encoding, in list order; the
      first failure stops the writing. */
  function EncodeAll<T>(xs: seq<T>, e: T -> Result<Bytes>): (r: Result<Bytes>)
    ensures r.Ok? <==> forall i | 0 <= i < |xs| :: e(xs[i]).Ok?
  {
    if xs == [] then Ok([])
    else
      var front :- EncodeAll(xs[..|xs| - 1], e);
      var last :- e(xs[|xs| - 1]);
      Ok(front + last)
  }

  /** Parsing n values from what encoding n values wrote gives back, for
      each value, what the parser makes of its encoding, and leaves the
      bytes after. */
  lemma {:induction false} ManyRoundTrip<T>(xs: seq<T>, ys: seq<T>, e: T -> Result<Bytes>,
                                          p: Bytes -> Result<(T, Bytes)>, rest: Bytes)
    requires |ys| == |xs|
    requires forall i | 0 <= i < |xs| :: e(xs[i]).Ok?
    requires forall i, tail | 0 <= i < |xs| :: p(e(xs[i]).value + tail) == Ok((ys[i], tail))
    ensures EncodeAll(xs, e).Ok?
    ensures Many(|xs|, p, EncodeAll(xs, e).value + rest) == Ok((ys, rest))
  {
    if xs != [] {
      var n := |xs|;
      var front := xs[..n - 1];
      var last := e(xs[n - 1]).value;
      ManyRoundTrip(front, ys[..n - 1], e, p, last + rest);
      var fb := EncodeAll(front, e).value;
      assert EncodeAll(xs, e).value == fb + last;
      assert EncodeAll(xs, e).value + rest == fb + (last + rest);
      assert p(last + rest) == Ok((ys[n - 1], rest));
      assert ys == ys[..n - 1] + [ys[n - 1]];
    } else {
      assert EncodeAll(xs, e).value + rest == rest;
    }
  }

  /** When every successful parse consumes exactly w bytes, parsing n
      values consumes exactly n * w. */
  lemma {:induction false} ManyConsumes<T>(n: nat, p: Bytes -> Result<(T, Bytes)>, s: Bytes, w: nat)
    requires forall x :: p(x).Ok? ==> |x| == w + |p(x).value.1|
    ensures Many(n, p, s).Ok? ==> |s| == n * w + |Many(n, p, s).value.1|
  {
    if n > 0 && Many(n, p, s).Ok? {
      ManyConsumes(n - 1, p, s, w);
      assert n * w == (n - 1) * w + w;
    }
  }

  /** Once a parse of m values fails, parsing more values fails the same
      way: the first failing read ends the loop. */
  lemma {:induction false} ManyErrPersists<T>(m: nat, n: nat, p: Bytes -> Result<(T, Bytes)>, s: Bytes)
    requires m <= n && Many(m, p, s).Err?
    ensures Many(n, p, s) == Err(Many(m, p, s).error)
    decreases n
  {
    if m < n {
      ManyErrPersists(m, n - 1, p, s);
    }
  }

  /** Parsing one value more extends a successful parse by that value. */
  lemma ManyStep<T>(i: nat, p: Bytes -> Result<(T, Bytes)>, s: Bytes)
    requires Many(i, p, s).Ok?
    ensures p(Many(i, p, s).value.1).Err? ==> Many(i + 1, p, s) == Err(p(Many(i, p, s).value.1).error)
    ensures p(Many(i, p, s).value.1).Ok? ==>
      Many(i + 1, p, s) == Ok((Many(i, p, s).value.0 + [p(Many(i, p, s).value.1).value.0],
                               p(Many(i, p, s).value.1).value.1))
  {
  }

  /** Nothing written before the first element. */
  lemma EncodeAllNone<T>(xs: seq<T>, e: T -> Result<Bytes>)
    ensures EncodeAll(xs[..0], e) == Ok([])
  {
    assert xs[..0] == [];
  }

  /** Encoding the first i+1 values extends the encoding of the first i
      by the encoding of value i, or fails as value i does. */
  lemma EncodeAllStep<T>(xs: seq<T>, e: T -> Result<Bytes>, i: nat)
    requires i < |xs| && EncodeAll(xs[..i], e).Ok?
    ensures e(xs[i]).Err? ==> EncodeAll(xs[..i + 1], e) == Err(e(xs[i]).error)
    ensures e(xs[i]).Ok? ==> EncodeAll(xs[..i + 1], e) == Ok(EncodeAll(xs[..i], e).value + e(xs[i]).value)
  {
    assert xs[..i + 1][..i] == xs[..i];
  }

  /** A writer that has written the encodings of the first i values after
      `start` and then the encoding of value i has written the first i+1. */
  lemma WroteNext<T>(xs: seq<T>, e: T -> Result<Bytes>, i: nat, start: Bytes, before: Bytes, after: Bytes)
    requires i < |xs| && EncodeAll(xs[..i], e).Ok? && e(xs[i]).Ok?
    requires before == start + EncodeAll(xs[..i], e).value
    requires after == before + e(xs[i]).value
    ensures EncodeAll(xs[..i + 1], e).Ok?
    ensures after == start + EncodeAll(xs[..i + 1], e).value
  {
    EncodeAllStep(xs, e, i);
  }

  /** Two writes in a row append their concatenation. */
  lemma AppendedTwo(start: Bytes, a: Bytes, b: Bytes)
    ensures start + a + b == start + (a + b)
  {
  }

  /** Three writes in a row append their concatenation. */
  lemma AppendedThree(start: Bytes, a: Bytes, b: Bytes, c: Bytes)
    ensures start + a + b + c == start + (a + b + c)
  {
  }

  /** When value i is the first that cannot be encoded, encoding the whole
      list fails as it does. */
  lemma {:induction false} EncodeAllStops<T>(xs: seq<T>, e: T -> Result<Bytes>, i: nat)
    requires i < |xs| && EncodeAll(xs[..i], e).Ok? && e(xs[i]).Err?
    ensures EncodeAll(xs, e) == Err(e(xs[i]).error)
    decreases |xs|
  {
    if i == |xs| - 1 {
      EncodeAllStep(xs, e, i);
      assert xs[..i + 1] == xs;
    } else {
      var front := xs[..|xs| - 1];
      assert front[..i] == xs[..i];
      EncodeAllStops(front, e, i);
    }
  }

  /** A reading method followed its parser: the same value with the
      position after the parsed bytes, or the same failure. */
  ghost predicate ReadAs<T>(res: Result<T>, spec: Result<(T, Bytes)>, after: Bytes)
  {
    match spec
    case Ok((v, rest)) => res == Ok(v) && after == rest
    case Err(e) => res == Err(e)
  }

  /** A writing method followed its encoder: it appended exactly the
      encoding, or it failed as the encoder does, having appended a part
      of the output and left what was there before untouched. */
  ghost predicate Wrote(res: Result<()>, spec: Result<Bytes>, before: Bytes, after: Bytes)
  {
    match spec
    case Ok(b) => res == Ok(()) && after == before + b
    case Err(e) => res == Err(e) && before <= after
  }

  /** Output kept by one step and then by the next is kept by both. */
  lemma KeptPrefix(a: Bytes, b: Bytes, c: Bytes)
    requires a <= b && b <= c
    ensures a <= c
  {
  }

  /** A parse either fails, or yields a value and a suffix of its input. */
  predicate Parsed<T>(res: Result<(T, Bytes)>, s: Bytes)
  {
    res.Ok? ==> |res.value.1| <= |s| && res.value.1 == s[|s| - |res.value.1|..]
  }

  lemma TakeParsed(s: Bytes, n: nat)
    ensures Parsed(Take(s, n), s)
  {
  }

  class Reader {
    const data: Bytes
    var pos: nat

    ghost predicate Valid()
      reads this
    {
      pos <= |data|
    }

    /** The bytes not yet read. */
    function Rest(): (r: Bytes)
      reads this
      requires Valid()
    {
      data[pos..]
    }

    constructor (file: Bytes)
      ensures Valid() && data == file && Rest() == file
    {
      data := file;
      pos := 0;
    }

    /** IO#read(n) that must deliver n bytes. */
    method Read(n: nat) returns (r: Result<Bytes>)
      requires Valid()
      modifies this
      ensures Valid()
      ensures Take(old(Rest()), n).Ok? ==>
        r == Ok(Take(old(Rest()), n).value.0) && Rest() == Take(old(Rest()), n).value.1
      ensures Take(old(Rest()), n).Err? ==> r == Err(ShortRead)
    {
      if pos + n <= |data| {
        assert data[pos..][n..] == data[pos + n..];
        assert data[pos..][..n] == data[pos..pos + n];
        r := Ok(data[pos..pos + n]);
        pos := pos + n;
      } else {
        r := Err(ShortRead);
      }
    }

    /** The length from the read position to the end of the file. */
    method Remaining() returns (n: nat)
      requires Valid()
      ensures n == |Rest()|
    {
      n := |data| - pos;
    }

    /** IO#seek(-n, IO::SEEK_CUR): moves the position back over bytes
        already read. */
    method Rewind(n: nat)
      requires Valid() && n <= pos
      modifies this
      ensures Valid() && pos == old(pos) - n
      ensures Rest() == data[old(pos) - n..old(pos)] + old(Rest())
    {
      pos := pos - n;
    }

    /** IO#seek(n, IO::SEEK_CUR) forwards; a seek past the end leaves
        nothing to read. */
    method Skip(n: nat)
      requires Valid()
      modifies this
      ensures Valid()
      ensures Rest() == if n <= |old(Rest())| then old(Rest())[n..] else []
    {
      pos := if pos + n <= |data| then pos + n else |data|;
    }
  }

  class Writer {
    var out: Bytes

    constructor ()
      ensures out == []
    {
      out := [];
    }

    /** IO#write: appends the bytes. */
    method Write(b: Bytes)
      modifies this
      ensures out == old(out) + b
    {
      out := out + b;
    }
  }
}
