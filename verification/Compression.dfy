/** Historian data compression: the per-tag compression state, its three algorithms, and the bulk
    compressor. Deadband and boxcar compression hold the last stored value. */
module Compression {
  import opened Common
  import opened Clock

  datatype Algorithm = Uncompressed | SwingingDoor | Boxcar | Deadband

  datatype Sample = Sample(timestamp: nat, value: real)

  /** The state kept per tag. */
  datatype Compressor = Compressor(
    algorithm: Algorithm, deadband: real, lastValue: real, lastTime: nat,
    slopeMax: real, slopeMin: real, first: bool, samplesIn: nat, samplesOut: nat)

  const MAX_HOLD_MS := 60000

  function Initial(algorithm: Algorithm, deadband: real): Compressor {
    Compressor(algorithm, deadband, 0.0, 0, 0.0, 0.0, true, 0, 0)
  }

  /** The state once `x` has been stored, the door shut. */
  function Storing(c: Compressor, x: Sample): Compressor {
    c.(lastValue := x.value, lastTime := x.timestamp, samplesIn := c.samplesIn + 1, samplesOut := c.samplesOut + 1)
  }

  function Skipping(c: Compressor): Compressor {
    c.(samplesIn := c.samplesIn + 1)
  }

  function Gap(c: Compressor, x: Sample): real {
    Elapsed(x.timestamp, c.lastTime) as real
  }

  /** Slopes from the last stored point to the upper and lower edge of the band around `x`. */
  function Upper(c: Compressor, x: Sample): real
    requires Gap(c, x) > 0.0
  {
    (x.value + c.deadband - c.lastValue) / Gap(c, x)
  }

  function Lower(c: Compressor, x: Sample): real
    requires Gap(c, x) > 0.0
  {
    (x.value - c.deadband - c.lastValue) / Gap(c, x)
  }

  function Door(c: Compressor, x: Sample): (Compressor, bool) {
    if c.first then (Storing(c, x).(first := false), true)
    else if Gap(c, x) <= 0.0 then (Skipping(c), false)
    else if c.slopeMax == 0.0 && c.slopeMin == 0.0 then
      (Skipping(c).(slopeMax := Upper(c, x), slopeMin := Lower(c, x)), false)
    else
      var max := if Upper(c, x) < c.slopeMax then Upper(c, x) else c.slopeMax;
      var min := if Lower(c, x) > c.slopeMin then Lower(c, x) else c.slopeMin;
      if max >= min then (Skipping(c).(slopeMax := max, slopeMin := min), false)
      else (Storing(c, x).(slopeMax := 0.0, slopeMin := 0.0), true)
  }

  /** Too far from the stored value, or for boxcar too long after it. */
  predicate Departs(algorithm: Algorithm, deadband: real, stored: Sample, x: Sample) {
    || Abs(x.value - stored.value) > deadband
    || (algorithm == Boxcar && Elapsed(x.timestamp, stored.timestamp) >= MAX_HOLD_MS)
  }

  function Hold(c: Compressor, x: Sample): (Compressor, bool) {
    if c.first then (Storing(c, x).(first := false), true)
    else if Departs(c.algorithm, c.deadband, Sample(c.lastTime, c.lastValue), x) then (Storing(c, x), true)
    else (Skipping(c), false)
  }

  /** The new state and whether the sample is stored. */
  function Step(c: Compressor, x: Sample): (r: (Compressor, bool))
    ensures r.0.algorithm == c.algorithm && r.0.deadband == c.deadband
  {
    match c.algorithm
    case Uncompressed => (c.(samplesIn := c.samplesIn + 1, samplesOut := c.samplesOut + 1), true)
    case SwingingDoor => Door(c, x)
    case Deadband => Hold(c, x)
    case Boxcar => Hold(c, x)
  }

  class State {
    var algorithm: Algorithm
    var deadband: real
    var lastValue: real
    var lastTime: nat
    var slopeMax: real
    var slopeMin: real
    var first: bool
    var samplesIn: nat
    var samplesOut: nat

    ghost function Value(): Compressor
      reads this
    {
      Compressor(algorithm, deadband, lastValue, lastTime, slopeMax, slopeMin, first, samplesIn, samplesOut)
    }

    constructor (algorithm: Algorithm, deadband: real)
      ensures Value() == Initial(algorithm, deadband)
    {
      this.algorithm, this.deadband := algorithm, deadband;
      lastValue, lastTime, slopeMax, slopeMin := 0.0, 0, 0.0, 0.0;
      first, samplesIn, samplesOut := true, 0, 0;
    }

    method Store(x: Sample)
      modifies this
      ensures Value() == Storing(old(Value()), x)
    {
      lastValue, lastTime := x.value, x.timestamp;
      samplesIn, samplesOut := samplesIn + 1, samplesOut + 1;
    }

    method SwingingDoorCheck(x: Sample) returns (store: bool)
      modifies this
      ensures (Value(), store) == Door(old(Value()), x)
    {
      if first {
        Store(x);
        first := false;
        return true;
      }
      var dt := Elapsed(x.timestamp, lastTime) as real;
      if dt <= 0.0 {
        samplesIn := samplesIn + 1;
        return false;
      }
      var upper := (x.value + deadband - lastValue) / dt;
      var lower := (x.value - deadband - lastValue) / dt;
      if slopeMax == 0.0 && slopeMin == 0.0 {
        slopeMax, slopeMin, samplesIn := upper, lower, samplesIn + 1;
        return false;
      }
      if upper < slopeMax {
        slopeMax := upper;
      }
      if lower > slopeMin {
        slopeMin := lower;
      }
      if slopeMax >= slopeMin {
        samplesIn := samplesIn + 1;
        return false;
      }
      Store(x);
      slopeMax, slopeMin := 0.0, 0.0;
      return true;
    }

    method HoldCheck(x: Sample) returns (store: bool)
      modifies this
      ensures (Value(), store) == Hold(old(Value()), x)
    {
      if first {
        Store(x);
        first := false;
        return true;
      }
      var changed := Abs(x.value - lastValue) > deadband;
      var overdue := algorithm == Boxcar && Elapsed(x.timestamp, lastTime) >= MAX_HOLD_MS;
      if changed || overdue {
        Store(x);
        return true;
      }
      samplesIn := samplesIn + 1;
      return false;
    }

    method ShouldStore(x: Sample) returns (store: bool)
      modifies this
      ensures (Value(), store) == Step(old(Value()), x)
    {
      match algorithm
      case Uncompressed =>
        samplesIn, samplesOut := samplesIn + 1, samplesOut + 1;
        store := true;
      case SwingingDoor => store := SwingingDoorCheck(x);
      case Deadband => store := HoldCheck(x);
      case Boxcar => store := HoldCheck(x);
    }
  }

  // ----- Bulk compression -----

  /** The state after a series of samples. */
  ghost function After(c: Compressor, input: seq<Sample>): (r: Compressor)
    ensures r.algorithm == c.algorithm && r.deadband == c.deadband
  {
    if input == [] then c else Step(After(c, input[..|input| - 1]), input[|input| - 1]).0
  }

  /** Whether the sample at index `i` is stored. */
  ghost predicate Stores(c: Compressor, input: seq<Sample>, i: nat)
    requires i < |input|
  {
    Step(After(c, input[..i]), input[i]).1
  }

  /** The stored samples, in order. */
  ghost function Compress(c: Compressor, input: seq<Sample>): seq<Sample> {
    if input == [] then [] else
      var n := |input| - 1;
      Compress(c, input[..n]) + if Step(After(c, input[..n]), input[n]).1 then [input[n]] else []
  }

  method CompressSamples(input: seq<Sample>, algorithm: Algorithm, deadband: real)
    returns (ok: bool, output: seq<Sample>)
    ensures ok <==> input != []
    ensures ok ==> output == Compress(Initial(algorithm, deadband), input)
  {
    output := [];
    if input == [] {
      return false, [];
    }
    var state := new State(algorithm, deadband);
    for i := 0 to |input|
      invariant fresh(state)
      invariant state.Value() == After(Initial(algorithm, deadband), input[..i])
      invariant output == Compress(Initial(algorithm, deadband), input[..i])
    {
      assert input[..i + 1][..i] == input[..i];
      var store := state.ShouldStore(input[i]);
      if store {
        output := output + [input[i]];
      }
    }
    assert input[..|input|] == input;
    return true, output;
  }
}
