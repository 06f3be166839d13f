/** What deadband and boxcar compression guarantee about a whole series of samples. */
module HoldCompression {
  import opened Clock
  import opened Common
  import opened Compression

  ghost predicate Holding(a: Algorithm) {
    a == Deadband || a == Boxcar
  }

  /** The index of the last stored sample among the first `n`. */
  ghost function LastStored(c: Compressor, input: seq<Sample>, n: nat): (k: nat)
    requires 1 <= n <= |input|
    ensures k < n
  {
    if n == 1 || Stores(c, input, n - 1) then n - 1 else LastStored(c, input, n - 1)
  }

  /** The compressor remembers exactly the last stored sample. */
  lemma {:induction false} Remembers(a: Algorithm, d: real, input: seq<Sample>, n: nat)
    requires Holding(a) && 1 <= n <= |input|
    ensures var c := After(Initial(a, d), input[..n]);
            !c.first && Sample(c.lastTime, c.lastValue) == input[LastStored(Initial(a, d), input, n)]
  {
    var c := Initial(a, d);
    assert input[..n][..n - 1] == input[..n - 1];
    if n > 1 {
      Remembers(a, d, input, n - 1);
    } else {
      assert After(c, input[..0]) == c;
    }
  }

  lemma FirstIsStored(a: Algorithm, d: real, input: seq<Sample>)
    requires Holding(a) && input != []
    ensures Stores(Initial(a, d), input, 0)
  {
    assert After(Initial(a, d), input[..0]) == Initial(a, d);
  }

  /** More than the deadband above or below, or for boxcar a minute or more later on the unsigned 64-bit clock. */
  predicate Leaves(a: Algorithm, d: real, stored: Sample, x: Sample)
    ensures !Leaves(a, d, stored, x) ==> stored.value - d <= x.value <= stored.value + d
  {
    || x.value > stored.value + d || x.value < stored.value - d
    || (a == Boxcar && (x.timestamp - stored.timestamp) % 0x1_0000_0000_0000_0000 >= 60000)
  }

  lemma DepartsIff(a: Algorithm, d: real, stored: Sample, x: Sample)
    ensures Departs(a, d, stored, x) <==> Leaves(a, d, stored, x)
  {
  }

  lemma StoredIfDeparts(a: Algorithm, d: real, input: seq<Sample>, i: nat)
    requires Holding(a) && 1 <= i < |input|
    ensures Stores(Initial(a, d), input, i) <==> Departs(a, d, input[LastStored(Initial(a, d), input, i)], input[i])
  {
    Remembers(a, d, input, i);
  }

  /** After the first, a sample is stored exactly when it leaves the last stored one. */
  lemma StoredIff(a: Algorithm, d: real, input: seq<Sample>, i: nat)
    requires Holding(a) && 1 <= i < |input|
    ensures Stores(Initial(a, d), input, i) <==> Leaves(a, d, input[LastStored(Initial(a, d), input, i)], input[i])
  {
    var stored := input[LastStored(Initial(a, d), input, i)];
    StoredIfDeparts(a, d, input, i);
    DepartsIff(a, d, stored, input[i]);
  }

  /** Holding the last stored value reproduces every sample within the deadband, and for boxcar from
      less than 60000 ms before. */
  lemma HoldReproduces(a: Algorithm, d: real, input: seq<Sample>, i: nat)
    requires Holding(a) && d >= 0.0 && i < |input|
    ensures var k := LastStored(Initial(a, d), input, i + 1);
            && k <= i && Stores(Initial(a, d), input, k)
            && Abs(input[i].value - input[k].value) <= d
            && (a == Boxcar ==> Elapsed(input[i].timestamp, input[k].timestamp) < MAX_HOLD_MS)
  {
    var c := Initial(a, d);
    LastIsStored(a, d, input, i + 1);
    if i > 0 {
      StoredIff(a, d, input, i);
    }
  }

  lemma {:induction false} LastIsStored(a: Algorithm, d: real, input: seq<Sample>, n: nat)
    requires Holding(a) && 1 <= n <= |input|
    ensures Stores(Initial(a, d), input, LastStored(Initial(a, d), input, n))
  {
    if n == 1 {
      FirstIsStored(a, d, input);
    } else if !Stores(Initial(a, d), input, n - 1) {
      LastIsStored(a, d, input, n - 1);
    }
  }

  // ----- The output is a subsequence of the input -----

  /** The places of the true entries among the first `n`. */
  ghost function Marks(flags: seq<bool>, n: nat): seq<nat>
    requires n <= |flags|
  {
    if n == 0 then [] else Marks(flags, n - 1) + if flags[n - 1] then [n - 1] else []
  }

  /** They are increasing and complete. */
  lemma {:induction false} MarksExact(flags: seq<bool>, n: nat)
    requires n <= |flags|
    ensures forall j :: 0 <= j < |Marks(flags, n)| ==> Marks(flags, n)[j] < n
    ensures forall i: nat :: i in Marks(flags, n) <==> i < n && flags[i]
    ensures forall i, j :: 0 <= i < j < |Marks(flags, n)| ==> Marks(flags, n)[i] < Marks(flags, n)[j]
  {
    if n > 0 {
      MarksExact(flags, n - 1);
    }
  }

  ghost function StoreFlags(c: Compressor, input: seq<Sample>): seq<bool> {
    seq(|input|, i requires 0 <= i < |input| => Stores(c, input, i))
  }

  lemma {:induction false} OutputAtMarks(c: Compressor, input: seq<Sample>, n: nat)
    requires n <= |input|
    ensures var ks := Marks(StoreFlags(c, input), n);
            && |Compress(c, input[..n])| == |ks|
            && forall j :: 0 <= j < |ks| ==> ks[j] < n && Compress(c, input[..n])[j] == input[ks[j]]
  {
    if n > 0 {
      OutputAtMarks(c, input, n - 1);
      assert input[..n][..n - 1] == input[..n - 1];
    }
  }

  /** The output is the samples at the stored indices `ks`, all of them, in increasing order. */
  lemma OutputIsSubsequence(c: Compressor, input: seq<Sample>)
    ensures var ks := Marks(StoreFlags(c, input), |input|);
            && (forall i: nat :: i in ks <==> i < |input| && Stores(c, input, i))
            && (forall i, j :: 0 <= i < j < |ks| ==> ks[i] < ks[j])
            && |Compress(c, input)| == |ks|
            && (forall j :: 0 <= j < |ks| ==> ks[j] < |input| && Compress(c, input)[j] == input[ks[j]])
  {
    MarksExact(StoreFlags(c, input), |input|);
    OutputAtMarks(c, input, |input|);
    assert input[..|input|] == input;
  }

  // ----- Compressing twice -----

  /** Each sample leaves the one before it. */
  ghost predicate Spread(a: Algorithm, d: real, s: seq<Sample>)
    ensures |s| <= 1 ==> Spread(a, d, s)
  {
    forall j :: 0 < j < |s| ==> Leaves(a, d, s[j - 1], s[j])
  }

  lemma {:induction false} OutputIsSpread(a: Algorithm, d: real, input: seq<Sample>, n: nat)
    requires Holding(a) && 1 <= n <= |input|
    ensures var out := Compress(Initial(a, d), input[..n]);
            && out != [] && Spread(a, d, out)
            && out[0] == input[0] && out[|out| - 1] == input[LastStored(Initial(a, d), input, n)]
  {
    var c := Initial(a, d);
    assert input[..n][..n - 1] == input[..n - 1];
    if n == 1 {
      FirstIsStored(a, d, input);
      assert Compress(c, input[..0]) == [];
    } else {
      OutputIsSpread(a, d, input, n - 1);
      StoredIff(a, d, input, n - 1);
      if Stores(c, input, n - 1) {
        SpreadNext(a, d, Compress(c, input[..n - 1]), input[n - 1]);
      }
    }
  }

  lemma SpreadNext(a: Algorithm, d: real, s: seq<Sample>, x: Sample)
    requires s != [] && Spread(a, d, s) && Leaves(a, d, s[|s| - 1], x)
    ensures Spread(a, d, s + [x])
  {
  }

  lemma {:induction false} SpreadIsKept(a: Algorithm, d: real, s: seq<Sample>, n: nat)
    requires Holding(a) && Spread(a, d, s) && n <= |s|
    ensures Compress(Initial(a, d), s[..n]) == s[..n]
    ensures n > 0 ==> LastStored(Initial(a, d), s, n) == n - 1
  {
    if n > 0 {
      var c := Initial(a, d);
      SpreadIsKept(a, d, s, n - 1);
      assert s[..n][..n - 1] == s[..n - 1];
      if n == 1 {
        FirstIsStored(a, d, s);
      } else {
        StoredIff(a, d, s, n - 1);
      }
      assert s[..n] == s[..n - 1] + [s[n - 1]];
    }
  }

  /** Compressing what has been compressed changes nothing. */
  lemma CompressionIsIdempotent(a: Algorithm, d: real, input: seq<Sample>)
    requires Holding(a)
    ensures var out := Compress(Initial(a, d), input);
            Compress(Initial(a, d), out) == out
  {
    var out := Compress(Initial(a, d), input);
    if input != [] {
      assert input[..|input|] == input;
      OutputIsSpread(a, d, input, |input|);
      SpreadIsKept(a, d, out, |out|);
      assert out[..|out|] == out;
    }
  }

  // ----- The counters -----

  /** The counters of the compressor count the samples seen and the samples stored, whatever the algorithm. */
  lemma {:induction false} CountersAreExact(c: Compressor, input: seq<Sample>)
    ensures After(c, input).samplesIn == c.samplesIn + |input|
    ensures After(c, input).samplesOut == c.samplesOut + |Compress(c, input)|
  {
    if input != [] {
      CountersAreExact(c, input[..|input| - 1]);
    }
  }
}
