/** Resampling a series of historian samples to regular intervals with an index that only moves
    forward, and what it computes on sorted input: a direct lookup at every grid time. */
module Interpolation {
  import opened Clock
  import opened Common

  datatype Sample = Sample(timestamp: nat, tagId: int, value: real, quality: nat)

  /** Move the index on while the next sample is not after `t`. */
  function Advance(input: seq<Sample>, i: nat, t: nat): (r: nat)
    requires i < |input|
    ensures i <= r < |input|
    decreases |input| - i
  {
    if i < |input| - 1 && input[i + 1].timestamp <= t then Advance(input, i + 1, t) else i
  }

  function Ratio(a: Sample, b: Sample, t: nat): real
    requires Elapsed(b.timestamp, a.timestamp) > 0
  {
    (Elapsed(t, a.timestamp) as real) / (Elapsed(b.timestamp, a.timestamp) as real)
  }

  /** The point a fraction `r` of the way from `a` to `b`. */
  function Mix(a: real, b: real, r: real): real {
    a + r * (b - a)
  }

  /** The output sample at time `t` when the index stands at `i`. */
  function Resampled(input: seq<Sample>, i: nat, t: nat): Sample
    requires i < |input|
  {
    var s := input[i];
    var at := if i == |input| - 1 || s.timestamp == t then s
              else
                var next := input[i + 1];
                s.(value := if Elapsed(next.timestamp, s.timestamp) > 0
                            then Mix(s.value, next.value, Ratio(s, next, t)) else s.value,
                   quality := if s.quality < next.quality then s.quality else next.quality);
    at.(timestamp := t, tagId := input[0].tagId)
  }

  /** The time of output `k`. */
  function GridTime(start: nat, interval: nat, k: nat): nat {
    start + k * interval
  }

  /** Where the index stands for output `k`. */
  function IndexAt(input: seq<Sample>, start: nat, interval: nat, k: nat): (i: nat)
    requires input != []
    ensures i < |input|
  {
    Advance(input, if k == 0 then 0 else IndexAt(input, start, interval, k - 1), GridTime(start, interval, k))
  }

  function OutputCount(start: nat, end: nat, interval: nat): nat
    requires interval > 0
  {
    if end < start then 0 else (end - start) / interval + 1
  }

  lemma GridInside(start: nat, end: nat, interval: nat, k: nat)
    requires interval > 0
    ensures k < OutputCount(start, end, interval) <==> GridTime(start, interval, k) <= end
  {
    if start <= end {
      var q, r := (end - start) / interval, (end - start) % interval;
      assert end - start == interval * q + r;
      if k <= q {
        assert k * interval <= q * interval;
      } else {
        assert k * interval >= (q + 1) * interval;
      }
    } else {
      assert k * interval >= 0;
    }
  }

  lemma GridNext(start: nat, interval: nat, k: nat)
    ensures GridTime(start, interval, k + 1) == GridTime(start, interval, k) + interval
  {
    assert (k + 1) * interval == k * interval + interval;
  }

  method AdvanceIndex(input: seq<Sample>, from: nat, t: nat) returns (i: nat)
    requires from < |input|
    ensures i == Advance(input, from, t)
  {
    i := from;
    while i < |input| - 1 && input[i + 1].timestamp <= t
      invariant i < |input| && Advance(input, from, t) == Advance(input, i, t)
    {
      i := i + 1;
    }
  }

  ghost function Output(input: seq<Sample>, start: nat, interval: nat, k: nat): Sample
    requires input != []
  {
    Resampled(input, IndexAt(input, start, interval, k), GridTime(start, interval, k))
  }

  method InterpolateSamples(input: seq<Sample>, start: nat, end: nat, interval: nat)
    returns (ok: bool, output: seq<Sample>)
    ensures ok <==> input != [] && interval > 0
    ensures ok ==> |output| == OutputCount(start, end, interval)
    ensures ok ==> forall k :: 0 <= k < |output| ==> output[k] == Output(input, start, interval, k)
  {
    output := [];
    if input == [] || interval == 0 {
      return false, [];
    }
    var i, t := 0, start;
    ghost var k := 0;
    while t <= end
      invariant k == |output| && t == GridTime(start, interval, k) && i < |input|
      invariant i == if k == 0 then 0 else IndexAt(input, start, interval, k - 1)
      invariant k <= OutputCount(start, end, interval)
      invariant forall j :: 0 <= j < k ==> output[j] == Output(input, start, interval, j)
      decreases end + interval - t
    {
      GridInside(start, end, interval, k);
      GridNext(start, interval, k);
      i := AdvanceIndex(input, i, t);
      output := output + [Resampled(input, i, t)];
      k := k + 1;
      t := t + interval;
    }
    GridInside(start, end, interval, k);
    return true, output;
  }

  // ----- On sorted input -----

  ghost predicate Sorted(input: seq<Sample>) {
    && (forall i, j :: 0 <= i <= j < |input| ==> input[i].timestamp <= input[j].timestamp)
    && (forall i :: 0 <= i < |input| ==> input[i].timestamp < WORD)
  }

  /** `g` is the last sample not after `t`. */
  ghost predicate IsLatest(input: seq<Sample>, t: nat, g: nat) {
    && g < |input| && input[g].timestamp <= t
    && forall i :: g < i < |input| ==> input[i].timestamp > t
  }

  lemma {:induction false} AdvanceFindsLatest(input: seq<Sample>, i: nat, t: nat)
    requires Sorted(input) && i < |input| && input[i].timestamp <= t
    ensures IsLatest(input, t, Advance(input, i, t))
    decreases |input| - i
  {
    if i < |input| - 1 && input[i + 1].timestamp <= t {
      AdvanceFindsLatest(input, i + 1, t);
    }
  }

  /** The moving index is at the latest sample for every output. */
  lemma {:induction false} IndexIsLatest(input: seq<Sample>, start: nat, interval: nat, k: nat)
    requires input != [] && Sorted(input) && input[0].timestamp <= start
    ensures IsLatest(input, GridTime(start, interval, k), IndexAt(input, start, interval, k))
  {
    if k == 0 {
      AdvanceFindsLatest(input, 0, start);
    } else {
      IndexIsLatest(input, start, interval, k - 1);
      assert GridTime(start, interval, k - 1) <= GridTime(start, interval, k) by {
        assert (k - 1) * interval <= k * interval;
      }
      AdvanceFindsLatest(input, IndexAt(input, start, interval, k - 1), GridTime(start, interval, k));
    }
  }

  lemma LatestIsUnique(input: seq<Sample>, t: nat, g: nat, h: nat)
    requires IsLatest(input, t, g) && IsLatest(input, t, h)
    ensures g == h
  {}

  lemma MixRising(a: real, x: real, r: real)
    requires 0.0 <= r <= 1.0 && x >= 0.0
    ensures a <= Mix(a, a + x, r) <= a + x
  {
    Portion(r, x);
    assert (a + x) - a == x;
  }

  lemma Opposite(r: real, x: real)
    ensures r * (-x) == -(r * x)
  {}

  lemma MixDown(a: real, b: real, x: real, r: real)
    requires b - a == -x
    ensures Mix(a, b, r) == a - r * x
  {
    Opposite(r, x);
  }

  lemma MixFalling(a: real, b: real, x: real, r: real)
    requires 0.0 <= r <= 1.0 && x >= 0.0 && a - b == x
    ensures b <= Mix(a, b, r) <= a
  {
    Portion(r, x);
    MixDown(a, b, x, r);
  }

  lemma MixBetween(a: real, b: real, r: real)
    requires 0.0 <= r <= 1.0
    ensures a <= b ==> a <= Mix(a, b, r) <= b
    ensures b <= a ==> b <= Mix(a, b, r) <= a
  {
    if a <= b {
      MixRising(a, b - a, r);
      assert a + (b - a) == b;
    }
    if b <= a {
      MixFalling(a, b, a - b, r);
    }
  }

  lemma RatioInside(a: Sample, b: Sample, t: nat)
    requires a.timestamp <= t < b.timestamp < WORD
    ensures Elapsed(b.timestamp, a.timestamp) > 0 && 0.0 <= Ratio(a, b, t) <= 1.0
    ensures Ratio(a, b, t) == (t - a.timestamp) as real / (b.timestamp - a.timestamp) as real
  {
    ElapsedForward(b.timestamp, a.timestamp);
    ElapsedForward(t, a.timestamp);
    Fraction((t - a.timestamp) as real, (b.timestamp - a.timestamp) as real);
  }

  lemma Fraction(x: real, y: real)
    requires 0.0 <= x <= y && y > 0.0
    ensures 0.0 <= x / y <= 1.0
  {}

  /** Every output lies between its two neighbours: it is the last value after the end of the data,
      the sample's own value at its time, and otherwise on the segment to the next sample. */
  lemma OutputAtTime(input: seq<Sample>, t: nat, g: nat)
    requires Sorted(input) && IsLatest(input, t, g)
    ensures var out := Resampled(input, g, t);
            && out.timestamp == t && out.tagId == input[0].tagId
            && (g == |input| - 1 || input[g].timestamp == t ==> out.value == input[g].value && out.quality == input[g].quality)
            && (g < |input| - 1 ==>
                 var a, b := input[g].value, input[g + 1].value;
                 (a <= b ==> a <= out.value <= b) && (b <= a ==> b <= out.value <= a))
            && (g < |input| - 1 && input[g].timestamp < t ==>
                 var a, b := input[g], input[g + 1];
                 && Elapsed(b.timestamp, a.timestamp) > 0
                 && out.value == Mix(a.value, b.value, Ratio(a, b, t))
                 && out.quality <= a.quality && out.quality <= b.quality
                 && (out.quality == a.quality || out.quality == b.quality)
                 && Ratio(a, b, t) == (t - a.timestamp) as real / (b.timestamp - a.timestamp) as real)
  {
    if g < |input| - 1 && input[g].timestamp != t {
      var a, b := input[g], input[g + 1];
      RatioInside(a, b, t);
      MixBetween(a.value, b.value, Ratio(a, b, t));
    }
  }

  /** On sorted input that starts no later than the grid, every output is the lookup at its time. */
  lemma InterpolationIsLookup(input: seq<Sample>, start: nat, interval: nat, k: nat, g: nat)
    requires input != [] && Sorted(input) && input[0].timestamp <= start
    requires IsLatest(input, GridTime(start, interval, k), g)
    ensures IndexAt(input, start, interval, k) == g
  {
    IndexIsLatest(input, start, interval, k);
    LatestIsUnique(input, GridTime(start, interval, k), g, IndexAt(input, start, interval, k));
  }

  /** Input that already lies on the grid comes back value for value. */
  lemma GridInputIsReturned(input: seq<Sample>, start: nat, interval: nat, k: nat)
    requires interval > 0 && k < |input|
    requires forall i :: 0 <= i < |input| ==> input[i].timestamp == GridTime(start, interval, i) < WORD
    requires forall i :: 0 <= i < |input| ==> input[i].tagId == input[0].tagId
    ensures Output(input, start, interval, k) == input[k]
    ensures OutputCount(start, input[|input| - 1].timestamp, interval) == |input|
  {
    forall i, j | 0 <= i <= j < |input| ensures input[i].timestamp <= input[j].timestamp {
      assert i * interval <= j * interval;
    }
    var t := GridTime(start, interval, k);
    forall i | k < i < |input| ensures input[i].timestamp > t {
      assert i * interval >= (k + 1) * interval;
    }
    assert input[0].timestamp == start;
    InterpolationIsLookup(input, start, interval, k, k);
    GridInside(start, input[|input| - 1].timestamp, interval, |input| - 1);
    GridInside(start, input[|input| - 1].timestamp, interval, |input|);
    assert GridTime(start, interval, |input|) == GridTime(start, interval, |input| - 1) + interval;
  }

  // ----- Grid times before the first sample -----

  lemma RatioWraps(a: Sample, b: Sample, t: nat)
    requires t < a.timestamp < b.timestamp < WORD
    ensures Elapsed(b.timestamp, a.timestamp) > 0 && Ratio(a, b, t) > 1.0
  {
    ElapsedForward(b.timestamp, a.timestamp);
    assert Elapsed(t, a.timestamp) == WORD + t - a.timestamp;
    LargeFraction((WORD + t - a.timestamp) as real, (b.timestamp - a.timestamp) as real);
  }

  lemma LargeFraction(x: real, y: real)
    requires x > y > 0.0
    ensures x / y > 1.0
  {
    var q := x / y;
    assert q * y == x;
    if q <= 1.0 {
      Portion(q, y);
    }
  }

  lemma MixBeyond(a: real, b: real, r: real)
    requires r > 1.0
    ensures Between(a, Mix(a, b, r), b) <==> a == b
  {
    Beyond(r - 1.0, b - a);
    assert Mix(a, b, r) == b + (r - 1.0) * (b - a) by {
      assert r * (b - a) == (b - a) + (r - 1.0) * (b - a);
    }
  }

  lemma Beyond(s: real, x: real)
    requires s > 0.0
    ensures x > 0.0 ==> s * x > 0.0
    ensures x < 0.0 ==> s * x < 0.0
    ensures x == 0.0 ==> s * x == 0.0
  {}

  /** As long as the grid is before the first sample the index stays there. */
  lemma {:induction false} EarlyIndex(input: seq<Sample>, start: nat, interval: nat, k: nat)
    requires input != [] && Sorted(input) && GridTime(start, interval, k) < input[0].timestamp
    ensures IndexAt(input, start, interval, k) == 0
  {
    if k > 0 {
      GridNext(start, interval, k - 1);
      EarlyIndex(input, start, interval, k - 1);
    }
  }

  lemma EarlyValueIff(input: seq<Sample>, t: nat)
    requires Sorted(input) && |input| >= 2 && t < input[0].timestamp
    ensures Between(input[0].value, Resampled(input, 0, t).value, input[1].value) <==>
            input[0].value == input[1].value || input[0].timestamp == input[1].timestamp
  {
    var a, b := input[0], input[1];
    assert a.timestamp <= b.timestamp < WORD;
    if a.timestamp < b.timestamp {
      RatioWraps(a, b, t);
      MixBeyond(a.value, b.value, Ratio(a, b, t));
    }
  }

  /**
   * Before the first sample the unsigned time offset wraps around: with two or more samples every output there
   * lies between the first two values exactly when they are equal or were taken at the same time.
   */
  lemma EarlyOutputIff(input: seq<Sample>, start: nat, interval: nat, k: nat)
    requires |input| >= 2 && Sorted(input) && GridTime(start, interval, k) < input[0].timestamp
    ensures Between(input[0].value, Output(input, start, interval, k).value, input[1].value) <==>
            input[0].value == input[1].value || input[0].timestamp == input[1].timestamp
  {
    EarlyIndex(input, start, interval, k);
    EarlyValueIff(input, GridTime(start, interval, k));
  }
}
