/** The in-memory waveform containers (lib/mcg/signal_analysis/signal_sample.rb):
    Signal descriptors, the SignalSample recording of one signal with its
    block count, SignalPairs, the sample Config and the Sample that keys
    the recordings by signal name. The clock `append` reads is the
    parameter `now`. A Ruby hash keyed by signal name is held as the list
    of its values in insertion order: the key of each value is the name of
    its signal, so the list determines the hash. */
module Signals {
  import opened Results
  import DspOps
  import Sar

  type Word = Sar.Word

  /** Signal: name, element size in bytes, block size in elements, and the
      gain as its stored binary32 word. */
  datatype Signal = Signal(name: string, elemSize: nat, blockSize: nat, gain: Word)

  /** The state of a SignalSample. */
  datatype Recording = Recording(signal: Signal, data: seq<int>, numBlocks: nat, checksum: int, timestamp: int)

  // ---------------------------------------------------------------------
  // SignalSample
  // ---------------------------------------------------------------------

  /** SignalSample#clear: no data, no blocks, checksum and timestamp 0. */
  function Cleared(signal: Signal): (r: Recording)
    ensures Consistent(r) && r.signal == signal && r.data == []
  {
    Recording(signal, [], 0, 0, 0)
  }

  /** SignalSample#append: the data grows by `more` and the block count
      becomes the number of whole blocks in it; a block size of 0 raises
      ZeroDivisionError once the data has grown. The timestamp becomes the
      current time; the checksum is left alone. */
  function Appended(r: Recording, more: seq<int>, now: int): (x: Result<Recording>)
    ensures x.Ok? <==> r.signal.blockSize > 0
    ensures x.Err? ==> x.error == DivisionByZero
    ensures x.Ok? ==>
      && x.value.signal == r.signal && x.value.data == r.data + more
      && x.value.numBlocks * r.signal.blockSize <= |x.value.data| < (x.value.numBlocks + 1) * r.signal.blockSize
      && x.value.checksum == r.checksum && x.value.timestamp == now
  {
    var data := r.data + more;
    if r.signal.blockSize == 0 then Err(DivisionByZero)
    else Ok(r.(data := data, numBlocks := BlockCount(|data|, r.signal.blockSize), timestamp := now))
  }

  /** `length / block_size`: the number of whole blocks of b in n. */
  function BlockCount(n: nat, b: nat): (k: nat)
    requires b > 0
    ensures k * b <= n < (k + 1) * b
  {
    n / b
  }

  /** SignalSample#<<: the elements go at the end; the block count, the
      checksum and the timestamp stay as they were. */
  function Pushed(r: Recording, stuff: seq<int>): (x: Recording)
    ensures Consistent(r) ==> Consistent(x)
    ensures |x.data| == |r.data| + |stuff| && x.data[..|r.data|] == r.data
    ensures x.numBlocks == r.numBlocks
  {
    r.(data := r.data + stuff)
  }

  /** SignalSample.new(signal, data, ts): cleared, then appended when data
      is given, then stamped ts when ts is given. */
  function Created(signal: Signal, data: Option<seq<int>>, ts: Option<int>, now: int): (x: Result<Recording>)
    ensures x.Ok? <==> data.None? || signal.blockSize > 0
    ensures x.Err? ==> x.error == DivisionByZero
    ensures x.Ok? ==> x.value.signal == signal && x.value.checksum == 0
    ensures x.Ok? ==> x.value.data == (if data.Some? then data.value else [])
    ensures x.Ok? ==> x.value.timestamp == (if ts.Some? then ts.value else if data.Some? then now else 0)
  {
    var r := Cleared(signal);
    var r' :- if data.Some? then Appended(r, data.value, now) else Ok(r);
    Ok(if ts.Some? then r'.(timestamp := ts.value) else r')
  }

  /** What every SignalSample keeps: a checksum of 0 (it is never
      computed), and no more blocks than the data holds whole. */
  predicate Consistent(r: Recording)
  {
    r.checksum == 0 && r.numBlocks * r.signal.blockSize <= |r.data|
  }

  /** clear, append, << and new keep a SignalSample consistent. */
  lemma ConsistentKept(r: Recording, more: seq<int>, now: int)
    requires Consistent(r)
    ensures Consistent(Cleared(r.signal))
    ensures Consistent(Pushed(r, more))
    ensures Appended(r, more, now).Ok? ==> Consistent(Appended(r, more, now).value)
    ensures forall data, ts | Created(r.signal, data, ts, now).Ok? :: Consistent(Created(r.signal, data, ts, now).value)
  {
    forall data, ts | Created(r.signal, data, ts, now).Ok?
      ensures Consistent(Created(r.signal, data, ts, now).value)
    {
      var c := Created(r.signal, data, ts, now).value;
      if data.Some? {
        var a := Appended(Cleared(r.signal), data.value, now).value;
        assert c.numBlocks == a.numBlocks && c.data == a.data;
      }
    }
  }

  /** Two appends are one append of both lists, stamped with the second
      time. */
  lemma {:induction false} AppendTwice(r: Recording, x: seq<int>, y: seq<int>, t1: int, t2: int)
    requires r.signal.blockSize > 0
    ensures Appended(Appended(r, x, t1).value, y, t2) == Appended(r, x + y, t2)
  {
    assert r.data + x + y == r.data + (x + y);
  }

  /** << leaves the block count stale; the next append counts the pushed
      elements too. */
  lemma PushThenAppend(r: Recording, x: seq<int>, y: seq<int>, now: int)
    ensures Pushed(r, x).numBlocks == r.numBlocks
    ensures Appended(Pushed(r, x), y, now) == Appended(r, x + y, now)
  {
    assert r.data + x + y == r.data + (x + y);
  }

  /** 2048 elements in blocks of 512 are 4 blocks, and 8 after a second
      2048; clearing leaves no data and no blocks. */
  lemma AppendBlocksExample(signal: Signal, d: seq<int>, t1: int, t2: int)
    requires signal.blockSize == 512 && |d| == 2048
    ensures Created(signal, None, None, t1) == Ok(Cleared(signal))
    ensures var r1 := Appended(Cleared(signal), d, t1).value;
      && |r1.data| == 2048 && r1.numBlocks == 4
      && var r2 := Appended(r1, d, t2).value;
      && |r2.data| == 4096 && r2.numBlocks == 8
      && Cleared(r2.signal).data == [] && Cleared(r2.signal).numBlocks == 0
  {
  }

  /** A SignalSample: its signal is fixed, the rest changes. */
  class SignalSample {
    const signal: Signal
    var data: seq<int>
    var numBlocks: nat
    var checksum: int
    var timestamp: int

    function Image(): Recording
      reads this
    {
      Recording(signal, data, numBlocks, checksum, timestamp)
    }

    /** SignalSample.new(signal) */
    constructor (signal: Signal)
      ensures Image() == Cleared(signal)
    {
      this.signal := signal;
      data := [];
      numBlocks := 0;
      checksum := 0;
      timestamp := 0;
    }

    /** SignalSample#clear */
    method Clear()
      modifies this
      ensures Image() == Cleared(signal)
    {
      data := [];
      numBlocks := 0;
      checksum := 0;
      timestamp := 0;
    }

    /** SignalSample#append; on ZeroDivisionError the data has grown and
        nothing else has changed. */
    method Append(more: seq<int>, now: int) returns (r: Result<()>)
      modifies this
      ensures match Appended(old(Image()), more, now)
        case Ok(x) => r == Ok(()) && Image() == x
        case Err(e) => r == Err(e) && Image() == Pushed(old(Image()), more)
    {
      data := data + more;
      if signal.blockSize == 0 {
        return Err(DivisionByZero);
      }
      numBlocks := BlockCount(|data|, signal.blockSize);
      timestamp := now;
      return Ok(());
    }

    /** SignalSample#<< with an Array: `stuff.each { |x| @data << x }`. */
    method Push(stuff: seq<int>)
      modifies this
      ensures Image() == Pushed(old(Image()), stuff)
    {
      for k := 0 to |stuff|
        invariant Image() == Pushed(old(Image()), stuff[..k])
      {
        assert stuff[..k + 1] == stuff[..k] + [stuff[k]];
        data := data + [stuff[k]];
      }
      assert stuff[..|stuff|] == stuff;
    }

    /** SignalSample#<< with one element. */
    method PushOne(x: int)
      modifies this
      ensures Image() == Pushed(old(Image()), [x])
    {
      data := data + [x];
    }
  }

  /** SignalSample.new(signal, data, ts) */
  method NewSignalSample(signal: Signal, data: Option<seq<int>>, ts: Option<int>, now: int)
    returns (r: Result<SignalSample>)
    ensures match Created(signal, data, ts, now)
      case Ok(x) => r.Ok? && fresh(r.value) && r.value.Image() == x
      case Err(e) => r == Err(e)
  {
    var s := new SignalSample(signal);
    if data.Some? {
      var ok := s.Append(data.value, now);
      if ok.Err? {
        return Err(ok.error);
      }
    }
    if ts.Some? {
      s.timestamp := ts.value;
    }
    return Ok(s);
  }

  // ---------------------------------------------------------------------
  // SignalPair and Config
  // ---------------------------------------------------------------------

  /** SignalPair: the dominant signal 'a', the subordinate signal 'b' and
      the ratio word. A pair read from a file holds nil for a name no
      signal has. */
  datatype SignalPair = SignalPair(a: Option<Signal>, b: Option<Signal>, ratio: Word)

  /** SignalPair#name: "(a,b)"; nil.name raises. */
  function PairLabel(p: SignalPair): (r: Result<string>)
    ensures r.Ok? <==> p.a.Some? && p.b.Some?
    ensures r.Err? ==> r.error == NoMethod
  {
    if p.a.None? || p.b.None? then Err(NoMethod)
    else Ok(DspOps.PairName(p.a.value.name, p.b.value.name))
  }

  /** The name of a pair is "(" a "," b ")", and the lead-name parsing of
      the analyses gives the two signal names back. */
  lemma PairLabelLeads(p: SignalPair)
    requires p.a.Some? && p.b.Some?
    requires p.a.value.name != [] && ',' !in p.a.value.name
    requires p.b.value.name != [] && ')' !in p.b.value.name
    ensures PairLabel(p).Ok?
    ensures PairLabel(p).value == "(" + p.a.value.name + "," + p.b.value.name + ")"
    ensures Sar.Leads(PairLabel(p).value) == Some((p.a.value.name, p.b.value.name))
  {
    Sar.LeadsOfPairName(p.a.value.name, p.b.value.name);
  }

  /** Config: the signals and the pairs (copies of the given lists). */
  datatype Config = Config(signals: seq<Signal>, pairs: seq<SignalPair>)

  // ---------------------------------------------------------------------
  // Hashes keyed by signal name
  // ---------------------------------------------------------------------

  /** The position of the entry whose key is k. */
  function KeyIndex<T>(entries: seq<T>, key: T -> string, k: string): (r: Option<nat>)
    ensures r.Some? ==> r.value < |entries| && key(entries[r.value]) == k
    ensures r.Some? ==> forall j | 0 <= j < r.value :: key(entries[j]) != k
    ensures r.None? ==> forall j | 0 <= j < |entries| :: key(entries[j]) != k
  {
    if entries == [] then None
    else if key(entries[0]) == k then Some(0)
    else
      match KeyIndex(entries[1..], key, k)
      case None => None
      case Some(i) => Some(i + 1)
  }

  /** Hash#[]: the entry whose key is k, or nil. */
  function Find<T>(entries: seq<T>, key: T -> string, k: string): (r: Option<T>)
  {
    match KeyIndex(entries, key, k)
    case None => None
    case Some(i) => Some(entries[i])
  }

  /** `hash[key(x)] = x`: the entry with x's key is replaced where it
      stands, or x is added at the end. */
  function Put<T>(entries: seq<T>, key: T -> string, x: T): (r: seq<T>)
    ensures |entries| <= |r| <= |entries| + 1
  {
    match KeyIndex(entries, key, key(x))
    case Some(i) => entries[i := x]
    case None => entries + [x]
  }

  /** `xs.each { |x| hash[key(x)] = x }` on a hash holding `entries`. */
  function PutAll<T>(entries: seq<T>, key: T -> string, xs: seq<T>): (r: seq<T>)
    decreases |xs|
  {
    if xs == [] then entries else Put(PutAll(entries, key, xs[..|xs| - 1]), key, xs[|xs| - 1])
  }

  /** No two entries share a key. */
  predicate DistinctKeys<T>(entries: seq<T>, key: T -> string)
  {
    forall i, j | 0 <= i < j < |entries| :: key(entries[i]) != key(entries[j])
  }

  /** The last of xs whose key is k: the reference meaning of a hash
      filled from xs. */
  function LastWithKey<T>(xs: seq<T>, key: T -> string, k: string): (r: Option<T>)
    ensures r.Some? ==> r.value in xs && key(r.value) == k
    ensures r.None? <==> forall j | 0 <= j < |xs| :: key(xs[j]) != k
    decreases |xs|
  {
    if xs == [] then None
    else if key(xs[|xs| - 1]) == k then Some(xs[|xs| - 1])
    else LastWithKey(xs[..|xs| - 1], key, k)
  }

  /** After a Put, x is found under its key and every other key finds
      what it found before; no two entries come to share a key. */
  lemma FindPut<T>(entries: seq<T>, key: T -> string, x: T, k: string)
    ensures Find(Put(entries, key, x), key, k) == if k == key(x) then Some(x) else Find(entries, key, k)
    ensures DistinctKeys(entries, key) ==> DistinctKeys(Put(entries, key, x), key)
  {
    var r := Put(entries, key, x);
    match KeyIndex(entries, key, key(x))
    case Some(i) =>
      assert forall j | 0 <= j < |r| :: key(r[j]) == key(entries[j]);
      KeyIndexSameKeys(entries, r, key, k);
    case None =>
      KeyIndexAppend(entries, key, x, k);
  }

  /** Lists with the same keys position by position find each key at the
      same place. */
  lemma {:induction false} KeyIndexSameKeys<T>(e1: seq<T>, e2: seq<T>, key: T -> string, k: string)
    requires |e1| == |e2| && forall j | 0 <= j < |e1| :: key(e1[j]) == key(e2[j])
    ensures KeyIndex(e1, key, k) == KeyIndex(e2, key, k)
  {
    if e1 != [] && key(e1[0]) != k {
      KeyIndexSameKeys(e1[1..], e2[1..], key, k);
    }
  }

  /** Adding an entry at the end does not move the entries already there. */
  lemma {:induction false} KeyIndexAppend<T>(entries: seq<T>, key: T -> string, x: T, k: string)
    ensures KeyIndex(entries + [x], key, k)
         == if KeyIndex(entries, key, k).Some? then KeyIndex(entries, key, k)
            else if key(x) == k then Some(|entries|) else None
  {
    if entries != [] {
      if key(entries[0]) != k {
        assert (entries + [x])[1..] == entries[1..] + [x];
        KeyIndexAppend(entries[1..], key, x, k);
      }
    }
  }

  /** Filling an empty hash from xs keeps, under each key, the last x with
      that key, and one entry per key. */
  lemma {:induction false} PutAllFind<T>(xs: seq<T>, key: T -> string, k: string)
    ensures Find(PutAll([], key, xs), key, k) == LastWithKey(xs, key, k)
    ensures DistinctKeys(PutAll([], key, xs), key)
    decreases |xs|
  {
    if xs != [] {
      var front := xs[..|xs| - 1];
      PutAllFind(front, key, k);
      FindPut(PutAll([], key, front), key, xs[|xs| - 1], k);
    }
  }

  /** Filling an empty hash from values with distinct keys keeps them
      all, in order. */
  lemma {:induction false} PutAllDistinct<T>(xs: seq<T>, key: T -> string)
    requires DistinctKeys(xs, key)
    ensures PutAll([], key, xs) == xs
    decreases |xs|
  {
    if xs != [] {
      var front := xs[..|xs| - 1];
      var last := xs[|xs| - 1];
      assert DistinctKeys(front, key);
      PutAllDistinct(front, key);
      assert forall j | 0 <= j < |front| :: key(front[j]) != key(last);
      assert KeyIndex(front, key, key(last)).None?;
      assert front + [last] == xs;
    }
  }

  /** The hash filled from xs has exactly the keys of xs. */
  lemma {:induction false} PutAllKeys<T>(xs: seq<T>, key: T -> string, k: string)
    ensures KeyIndex(PutAll([], key, xs), key, k).Some? <==> exists j | 0 <= j < |xs| :: key(xs[j]) == k
  {
    PutAllFind(xs, key, k);
  }

  /** The names of some signals. */
  function SignalNames(signals: seq<Signal>): (r: seq<string>)
    ensures |r| == |signals| && forall i | 0 <= i < |signals| :: r[i] == signals[i].name
  {
    seq(|signals|, i requires 0 <= i < |signals| => signals[i].name)
  }

  /** The config signals `Sample.new` gives a new empty SignalSample: each
      one whose name is not yet a key, in config order. */
  function MissingSignals(names: seq<string>, config: seq<Signal>): (r: seq<Signal>)
    decreases |config|
  {
    if config == [] then []
    else
      var prev := MissingSignals(names, config[..|config| - 1]);
      var c := config[|config| - 1];
      if c.name in names || c.name in SignalNames(prev) then prev else prev + [c]
  }

  /** The signals added are config signals, named by no existing key and
      by no other signal added, and after them every config signal's name
      is a key. */
  lemma {:induction false} MissingSignalsSpec(names: seq<string>, config: seq<Signal>)
    ensures forall s | s in MissingSignals(names, config) :: s in config && s.name !in names
    ensures forall i, j | 0 <= i < j < |MissingSignals(names, config)| ::
      MissingSignals(names, config)[i].name != MissingSignals(names, config)[j].name
    ensures forall c | c in config :: c.name in names || c.name in SignalNames(MissingSignals(names, config))
    decreases |config|
  {
    if config != [] {
      var front := config[..|config| - 1];
      var last := config[|config| - 1];
      var prev := MissingSignals(names, front);
      MissingSignalsSpec(names, front);
      assert config == front + [last];
      if !(last.name in names || last.name in SignalNames(prev)) {
        assert MissingSignals(names, config) == prev + [last];
        assert SignalNames(prev + [last]) == SignalNames(prev) + [last.name];
      }
    }
  }

  /** When every config signal already has a key, nothing is added. */
  lemma {:induction false} NothingMissing(names: seq<string>, config: seq<Signal>)
    requires forall c | c in config :: c.name in names
    ensures MissingSignals(names, config) == []
    decreases |config|
  {
    if config != [] {
      var front := config[..|config| - 1];
      assert forall c | c in front :: c in config;
      NothingMissing(names, front);
    }
  }

  /** With no keys yet and distinct names, every config signal is added,
      in order. */
  lemma {:induction false} AllMissing(config: seq<Signal>)
    requires forall i, j | 0 <= i < j < |config| :: config[i].name != config[j].name
    ensures MissingSignals([], config) == config
    decreases |config|
  {
    if config != [] {
      var front := config[..|config| - 1];
      AllMissing(front);
      assert config[|config| - 1].name !in SignalNames(front);
      assert front + [config[|config| - 1]] == config;
    }
  }

  // ---------------------------------------------------------------------
  // Sample
  // ---------------------------------------------------------------------

  function RecordingName(r: Recording): string
  {
    r.signal.name
  }

  function SampleName(s: SignalSample): string
  {
    s.signal.name
  }

  /** The contents of a Sample: the recordings in key order, and the pairs. */
  datatype SampleImage = SampleImage(recordings: seq<Recording>, pairs: seq<SignalPair>)

  /** The names the recordings are keyed by. */
  function RecordingNames(rs: seq<Recording>): (r: seq<string>)
    ensures |r| == |rs| && forall i | 0 <= i < |rs| :: r[i] == rs[i].signal.name
  {
    seq(|rs|, i requires 0 <= i < |rs| => rs[i].signal.name)
  }

  /** Sample.new(config, samples): the samples keyed by signal name (a
      later sample replacing an earlier one of the same name), then an
      empty recording for each config signal without one; the pairs are
      the config's. */
  function Assembled(config: Config, samples: seq<Recording>): (r: SampleImage)
    ensures r.pairs == config.pairs
  {
    var kept := PutAll([], RecordingName, samples);
    var missing := MissingSignals(RecordingNames(kept), config.signals);
    SampleImage(kept + ClearedAll(missing), config.pairs)
  }

  /** An empty recording for each of the signals, in order. */
  function ClearedAll(signals: seq<Signal>): (r: seq<Recording>)
    ensures |r| == |signals| && forall i | 0 <= i < |signals| :: r[i] == Cleared(signals[i])
  {
    seq(|signals|, i requires 0 <= i < |signals| => Cleared(signals[i]))
  }

  /** A Sample has one recording per name. */
  lemma AssembledDistinct(config: Config, samples: seq<Recording>)
    ensures DistinctKeys(Assembled(config, samples).recordings, RecordingName)
  {
    var kept := PutAll([], RecordingName, samples);
    var missing := MissingSignals(RecordingNames(kept), config.signals);
    assert Assembled(config, samples).recordings == kept + ClearedAll(missing);
    hide *;
    PutAllFind(samples, RecordingName, "");
    MissingSignalsSpec(RecordingNames(kept), config.signals);
    CombinedDistinct(kept, missing);
  }

  /** Kept samples with distinct names, followed by empty recordings for
      signals of distinct names none of them has, have distinct names. */
  lemma CombinedDistinct(kept: seq<Recording>, missing: seq<Signal>)
    requires DistinctKeys(kept, RecordingName)
    requires forall s | s in missing :: s.name !in RecordingNames(kept)
    requires forall i, j | 0 <= i < j < |missing| :: missing[i].name != missing[j].name
    ensures DistinctKeys(kept + ClearedAll(missing), RecordingName)
  {
    var rs := kept + ClearedAll(missing);
    forall i, j | 0 <= i < j < |rs|
      ensures RecordingName(rs[i]) != RecordingName(rs[j])
    {
      if j < |kept| {
        assert rs[i] == kept[i] && rs[j] == kept[j];
      } else {
        var m := j - |kept|;
        assert rs[j] == Cleared(missing[m]) && RecordingName(rs[j]) == missing[m].name;
        assert missing[m] in missing;
        if i < |kept| {
          assert rs[i] == kept[i] && RecordingNames(kept)[i] == RecordingName(rs[i]);
        } else {
          assert rs[i] == Cleared(missing[i - |kept|]);
        }
      }
    }
  }

  /** Under the name of a given sample, a Sample holds the last sample of
      that name. */
  lemma AssembledKeepsLast(config: Config, samples: seq<Recording>, k: string)
    requires exists j | 0 <= j < |samples| :: samples[j].signal.name == k
    ensures Find(Assembled(config, samples).recordings, RecordingName, k) == LastWithKey(samples, RecordingName, k)
  {
    var kept := PutAll([], RecordingName, samples);
    var missing := MissingSignals(RecordingNames(kept), config.signals);
    assert Assembled(config, samples).recordings == kept + ClearedAll(missing);
    hide *;
    PutAllFind(samples, RecordingName, k);
    FindPrefix(kept, ClearedAll(missing), RecordingName, k);
  }

  /** Every config signal has a recording in the Sample; the pairs are the
      config's. */
  lemma AssembledCoversConfig(config: Config, samples: seq<Recording>)
    ensures forall c | c in config.signals :: Find(Assembled(config, samples).recordings, RecordingName, c.name).Some?
    ensures Assembled(config, samples).pairs == config.pairs
  {
    var kept := PutAll([], RecordingName, samples);
    var missing := MissingSignals(RecordingNames(kept), config.signals);
    assert Assembled(config, samples) == SampleImage(kept + ClearedAll(missing), config.pairs);
    hide *;
    MissingSignalsSpec(RecordingNames(kept), config.signals);
    forall c | c in config.signals
      ensures Find(kept + ClearedAll(missing), RecordingName, c.name).Some?
    {
      NameCovered(kept, missing, c.name);
    }
  }

  /** A name of a kept sample or of a missing signal is found among the
      kept samples followed by the empty recordings of the missing signals. */
  lemma NameCovered(kept: seq<Recording>, missing: seq<Signal>, name: string)
    requires name in RecordingNames(kept) || name in SignalNames(missing)
    ensures Find(kept + ClearedAll(missing), RecordingName, name).Some?
  {
    var rs := kept + ClearedAll(missing);
    if name in RecordingNames(kept) {
      var m :| 0 <= m < |kept| && RecordingNames(kept)[m] == name;
      assert rs[m] == kept[m];
      KeyFound(rs, RecordingName, m);
    } else {
      var m :| 0 <= m < |missing| && SignalNames(missing)[m] == name;
      assert RecordingName(rs[|kept| + m]) == name;
      KeyFound(rs, RecordingName, |kept| + m);
    }
  }

  /** An entry with key k means the key is found. */
  lemma KeyFound<T>(entries: seq<T>, key: T -> string, j: nat)
    requires j < |entries|
    ensures KeyIndex(entries, key, key(entries[j])).Some?
    ensures Find(entries, key, key(entries[j])).Some?
  {
  }

  /** A key found in the front of a list is found there in the whole list. */
  lemma {:induction false} FindPrefix<T>(front: seq<T>, back: seq<T>, key: T -> string, k: string)
    ensures KeyIndex(front, key, k).Some? ==> KeyIndex(front + back, key, k) == KeyIndex(front, key, k)
    ensures Find(front, key, k).Some? ==> Find(front + back, key, k) == Find(front, key, k)
    decreases |front|
  {
    if front != [] && key(front[0]) != k {
      assert (front + back)[1..] == front[1..] + back;
      FindPrefix(front[1..], back, key, k);
    }
  }

  /** The states of some SignalSamples, in order. */
  function Images(xs: seq<SignalSample>): (r: seq<Recording>)
    reads xs
    ensures |r| == |xs| && forall i | 0 <= i < |xs| :: r[i] == xs[i].Image()
  {
    seq(|xs|, i requires 0 <= i < |xs| reads xs => xs[i].Image())
  }

  /** Keying SignalSamples by name and taking their states commute. */
  lemma {:induction false} ImagesPutAll(entries: seq<SignalSample>, xs: seq<SignalSample>)
    ensures Images(PutAll(entries, SampleName, xs)) == PutAll(Images(entries), RecordingName, Images(xs))
    decreases |xs|
  {
    if xs != [] {
      var front := xs[..|xs| - 1];
      var x := xs[|xs| - 1];
      ImagesPutAll(entries, front);
      assert Images(xs)[..|xs| - 1] == Images(front);
      var e := PutAll(entries, SampleName, front);
      KeyIndexImages(e, x.signal.name);
    }
  }

  /** A name is at the same place among SignalSamples and among their states. */
  lemma KeyIndexImages(e: seq<SignalSample>, k: string)
    ensures KeyIndex(e, SampleName, k) == KeyIndex(Images(e), RecordingName, k)
  {
    assert forall j | 0 <= j < |e| :: SampleName(e[j]) == RecordingName(Images(e)[j]);
    KeyIndexMapped(e, Images(e), k);
  }

  lemma {:induction false} KeyIndexMapped(e: seq<SignalSample>, r: seq<Recording>, k: string)
    requires |e| == |r| && forall j | 0 <= j < |e| :: SampleName(e[j]) == RecordingName(r[j])
    ensures KeyIndex(e, SampleName, k) == KeyIndex(r, RecordingName, k)
  {
    if e != [] && SampleName(e[0]) != k {
      KeyIndexMapped(e[1..], r[1..], k);
    }
  }

  /** One more config signal: added exactly when its name is new. */
  lemma MissingStep(names: seq<string>, cfg: seq<Signal>, k: nat)
    requires k < |cfg|
    ensures MissingSignals(names, cfg[..k + 1])
         == if cfg[k].name in names || cfg[k].name in SignalNames(MissingSignals(names, cfg[..k]))
            then MissingSignals(names, cfg[..k])
            else MissingSignals(names, cfg[..k]) + [cfg[k]]
  {
    assert cfg[..k + 1][..k] == cfg[..k];
  }

  lemma MissingAll(names: seq<string>, cfg: seq<Signal>)
    ensures MissingSignals(names, cfg[..|cfg|]) == MissingSignals(names, cfg)
  {
    assert cfg[..|cfg|] == cfg;
  }

  /** The names SignalSamples are keyed by. */
  function KeyNames(xs: seq<SignalSample>): (r: seq<string>)
    ensures |r| == |xs| && forall i | 0 <= i < |xs| :: r[i] == xs[i].signal.name
  {
    seq(|xs|, i requires 0 <= i < |xs| => xs[i].signal.name)
  }

  lemma KeyNamesImages(xs: seq<SignalSample>)
    ensures RecordingNames(Images(xs)) == KeyNames(xs)
  {
  }

  /** In the hash being filled, a name is absent exactly when no kept
      sample and no signal added so far has it. */
  lemma AbsentKey(kept: seq<SignalSample>, added: seq<SignalSample>, missing: seq<Signal>, n: string)
    requires |added| == |missing| && forall i | 0 <= i < |added| :: added[i].signal == missing[i]
    ensures KeyIndex(kept + added, SampleName, n).None? <==> !(n in KeyNames(kept) || n in SignalNames(missing))
  {
    var vals := kept + added;
    var names := KeyNames(kept);
    if n in names {
      var m :| 0 <= m < |names| && names[m] == n;
      assert vals[m] == kept[m] && SampleName(vals[m]) == n;
    }
    if n in SignalNames(missing) {
      var m :| 0 <= m < |missing| && SignalNames(missing)[m] == n;
      assert vals[|kept| + m] == added[m];
      assert SampleName(vals[|kept| + m]) == n;
    }
    if KeyIndex(vals, SampleName, n).Some? {
      var m := KeyIndex(vals, SampleName, n).value;
      if m < |kept| {
        assert vals[m] == kept[m] && names[m] == n;
      } else {
        assert vals[m] == added[m - |kept|];
        assert SignalNames(missing)[m - |kept|] == n;
      }
    }
  }

  /** The recordings the constructor ends with are the assembled ones. */
  lemma AssembledImages(config: Config, samples: seq<SignalSample>, kept: seq<SignalSample>, vals: seq<SignalSample>)
    requires kept == PutAll([], SampleName, samples)
    requires var missing := MissingSignals(KeyNames(kept), config.signals);
      && |vals| == |kept| + |missing| && vals[..|kept|] == kept
      && forall i | 0 <= i < |missing| :: vals[|kept| + i].Image() == Cleared(missing[i])
    ensures Images(vals) == Assembled(config, Images(samples)).recordings
  {
    var missing := MissingSignals(KeyNames(kept), config.signals);
    var empties := seq(|missing|, i requires 0 <= i < |missing| => Cleared(missing[i]));
    AssembledSplit(config, samples, kept);
    ImagesConcat(vals, kept, empties);
  }

  /** The assembled recordings are the states of the kept samples, then the empty ones. */
  lemma AssembledSplit(config: Config, samples: seq<SignalSample>, kept: seq<SignalSample>)
    requires kept == PutAll([], SampleName, samples)
    ensures var missing := MissingSignals(KeyNames(kept), config.signals);
      Assembled(config, Images(samples)).recordings
        == Images(kept) + seq(|missing|, i requires 0 <= i < |missing| => Cleared(missing[i]))
  {
    ImagesPutAll([], samples);
    KeyNamesImages(kept);
    assert Images([]) == [];
  }

  lemma ImagesConcat(vals: seq<SignalSample>, kept: seq<SignalSample>, tail: seq<Recording>)
    requires |vals| == |kept| + |tail| && vals[..|kept|] == kept
    requires forall i | 0 <= i < |tail| :: vals[|kept| + i].Image() == tail[i]
    ensures Images(vals) == Images(kept) + tail
  {
    forall i | 0 <= i < |vals|
      ensures Images(vals)[i] == (Images(kept) + tail)[i]
    {
      if i < |kept| {
        assert vals[i] == vals[..|kept|][i];
      } else {
        assert vals[i] == vals[|kept| + (i - |kept|)];
      }
    }
  }

  /** `samples.each { |s| @signals[s.signal.name] = s }` on an empty hash. */
  method KeyBySignal(samples: seq<SignalSample>) returns (vals: seq<SignalSample>)
    ensures vals == PutAll([], SampleName, samples)
  {
    vals := [];
    for k := 0 to |samples|
      invariant vals == PutAll([], SampleName, samples[..k])
    {
      assert samples[..k + 1][..k] == samples[..k];
      vals := Put(vals, SampleName, samples[k]);
    }
    assert samples[..|samples|] == samples;
  }

  /** `config.signals.each { |s| @signals[s.name] = SignalSample.new(s) if not @signals[s.name] }`
      on a hash holding `kept`: a new empty recording is added for each
      signal whose name is missing. */
  method AddMissing(kept: seq<SignalSample>, cfg: seq<Signal>) returns (vals: seq<SignalSample>)
    ensures var missing := MissingSignals(KeyNames(kept), cfg);
      && |vals| == |kept| + |missing| && vals[..|kept|] == kept
      && forall i | 0 <= i < |missing| :: vals[|kept| + i].Image() == Cleared(missing[i])
    ensures forall i | |kept| <= i < |vals| :: fresh(vals[i])
  {
    vals := kept;
    ghost var added: seq<SignalSample> := [];
    ghost var names := KeyNames(kept);
    assert cfg[..0] == [] && MissingSignals(names, cfg[..0]) == [];
    ghost var missing: seq<Signal> := [];
    hide MissingSignals, KeyNames, KeyIndex, SignalNames, Cleared, Consistent;
    for k := 0 to |cfg|
      invariant missing == MissingSignals(names, cfg[..k])
      invariant vals == kept + added && |added| == |missing|
      invariant forall i | 0 <= i < |added| ::
        added[i].signal == missing[i] && fresh(added[i]) && added[i].Image() == Cleared(missing[i])
    {
      var c := cfg[k];
      MissingStep(names, cfg, k);
      AbsentKey(kept, added, missing, c.name);
      if KeyIndex(vals, SampleName, c.name).None? {
        var s := new SignalSample(c);
        vals := vals + [s];
        added := added + [s];
        missing := missing + [c];
      }
    }
    MissingAll(names, cfg);
    assert missing == MissingSignals(KeyNames(kept), cfg) && vals[..|kept|] == kept;
    assert forall i | 0 <= i < |added| :: vals[|kept| + i] == added[i];
    assert forall i | |kept| <= i < |vals| :: vals[i] == added[i - |kept|];
  }

  /** Sample: `@signals.values` in insertion order, and the pairs. */
  class Sample {
    const leads: seq<SignalSample>
    const pairs: seq<SignalPair>

    function Image(): SampleImage
      reads leads
    {
      SampleImage(Images(leads), pairs)
    }

    /** Sample#[]: the recording of the named signal, or nil. */
    function Get(name: string): (r: Option<SignalSample>)
      ensures r.Some? ==> r.value in leads && r.value.signal.name == name
      ensures r.None? ==> forall i | 0 <= i < |leads| :: leads[i].signal.name != name
    {
      Find(leads, SampleName, name)
    }

    /** Sample.new(config, samples): `samples.each { |s| @signals[s.signal.name] = s }`,
        then `config.signals.each { |s| @signals[s.name] = SignalSample.new(s) if not @signals[s.name] }`.
        The given samples are kept, not copied. */
    constructor (config: Config, samples: seq<SignalSample>)
      ensures pairs == config.pairs
      ensures |leads| >= |PutAll([], SampleName, samples)|
      ensures leads[..|PutAll([], SampleName, samples)|] == PutAll([], SampleName, samples)
      ensures forall i | |PutAll([], SampleName, samples)| <= i < |leads| :: fresh(leads[i])
      ensures Image() == Assembled(config, Images(samples))
    {
      hide PutAll, MissingSignals, RecordingNames, Put, KeyIndex;
      var kept := KeyBySignal(samples);
      var vals := AddMissing(kept, config.signals);
      AssembledImages(config, samples, kept, vals);
      leads := vals;
      pairs := config.pairs;
    }
  }
}
