/** What swinging-door compression guarantees about the samples it discards, over whole series with
    increasing timestamps. */
module SwingingDoorTrend {
  import opened Clock
  import opened Common
  import opened Compression

  /** A run: the compressor, the samples discarded since the last stored one, and those among them
      seen since the door was last opened. */
  datatype Trace = Trace(c: Compressor, since: seq<Sample>, door: seq<Sample>)

  ghost predicate Shut(c: Compressor) {
    c.slopeMax == 0.0 && c.slopeMin == 0.0
  }

  ghost function Next(t: Trace, x: Sample): Trace {
    var (c, stored) := Door(t.c, x);
    if stored then Trace(c, [], [])
    else Trace(c, t.since + [x], if Shut(t.c) then [x] else t.door + [x])
  }

  ghost function Run(d: real, input: seq<Sample>): Trace {
    if input == [] then Trace(Initial(SwingingDoor, d), [], [])
    else Next(Run(d, input[..|input| - 1]), input[|input| - 1])
  }

  lemma {:induction false} RunIsAfter(d: real, input: seq<Sample>)
    ensures Run(d, input).c == After(Initial(SwingingDoor, d), input)
  {
    if input != [] {
      RunIsAfter(d, input[..|input| - 1]);
    }
  }

  /** The line of slope `s` through the last stored point passes within the deadband of `x`. */
  ghost predicate Fits(c: Compressor, s: real, x: Sample) {
    Abs(c.lastValue + s * Gap(c, x) - x.value) <= c.deadband
  }

  ghost predicate Ahead(c: Compressor, x: Sample) {
    c.lastTime < x.timestamp < WORD
  }

  lemma AheadGap(c: Compressor, x: Sample)
    requires Ahead(c, x)
    ensures Gap(c, x) == (x.timestamp - c.lastTime) as real > 0.0
  {
    ElapsedForward(x.timestamp, c.lastTime);
  }

  lemma Slopes(s: real, rise: real, run: real)
    requires run > 0.0
    ensures s <= rise / run <==> s * run <= rise
    ensures s >= rise / run <==> s * run >= rise
  {}

  /** It does exactly when its slope lies between those to the edges of the band. */
  lemma FitsIff(c: Compressor, s: real, x: Sample)
    requires Gap(c, x) > 0.0
    ensures Fits(c, s, x) <==> Lower(c, x) <= s <= Upper(c, x)
  {
    Slopes(s, x.value + c.deadband - c.lastValue, Gap(c, x));
    Slopes(s, x.value - c.deadband - c.lastValue, Gap(c, x));
  }

  // ----- The door is the set of slopes that fit -----

  ghost predicate Bounds(c: Compressor, x: Sample)
  {
    Ahead(c, x) && Gap(c, x) > 0.0 && c.slopeMax <= Upper(c, x) && Lower(c, x) <= c.slopeMin
  }

  ghost predicate Touches(c: Compressor, x: Sample, top: bool) {
    Gap(c, x) > 0.0 && if top then Upper(c, x) == c.slopeMax else Lower(c, x) == c.slopeMin
  }

  /** An open door is not empty, bounded by every sample it has seen and touched by two of them. */
  ghost predicate DoorInv(c: Compressor, door: seq<Sample>) {
    if door == [] then Shut(c) else
      && c.slopeMin <= c.slopeMax
      && (forall i :: 0 <= i < |door| ==> Bounds(c, door[i]))
      && (exists i :: 0 <= i < |door| && Touches(c, door[i], true))
      && (exists i :: 0 <= i < |door| && Touches(c, door[i], false))
  }

  ghost predicate TraceInv(t: Trace) {
    && t.c.deadband >= 0.0 && !t.c.first && DoorInv(t.c, t.door)
    && (t.since == [] <==> t.door == [])
    && forall i :: 0 <= i < |t.since| ==> Ahead(t.c, t.since[i])
  }

  lemma QuotientOrder(lo: real, hi: real, run: real)
    requires lo <= hi && run > 0.0
    ensures lo / run <= hi / run
  {
    var s := lo / run;
    assert s * run == lo;
    Slopes(s, hi, run);
  }

  lemma BandIsOrdered(c: Compressor, x: Sample)
    requires c.deadband >= 0.0 && Ahead(c, x)
    ensures Gap(c, x) > 0.0 && Lower(c, x) <= Upper(c, x)
  {
    AheadGap(c, x);
    QuotientOrder(x.value - c.deadband - c.lastValue, x.value + c.deadband - c.lastValue, Gap(c, x));
  }

  lemma OpenDoor(c: Compressor, x: Sample)
    requires c.deadband >= 0.0 && !c.first && Ahead(c, x) && Shut(c)
    ensures !Door(c, x).1 && DoorInv(Door(c, x).0, [x])
  {
    BandIsOrdered(c, x);
    var c' := Door(c, x).0;
    assert [x][0] == x;
    assert Touches(c', [x][0], true) && Touches(c', [x][0], false);
  }

  lemma NarrowDoor(c: Compressor, door: seq<Sample>, x: Sample)
    requires c.deadband >= 0.0 && !c.first && Ahead(c, x) && !Shut(c) && door != [] && DoorInv(c, door)
    requires !Door(c, x).1
    ensures DoorInv(Door(c, x).0, door + [x])
  {
    BandIsOrdered(c, x);
    var c', door' := Door(c, x).0, door + [x];
    var n := |door|;
    assert door'[n] == x;
    forall i | 0 <= i < |door'| ensures Bounds(c', door'[i]) {
      if i < n { assert Bounds(c, door[i]); }
    }
    if Upper(c, x) < c.slopeMax {
      assert Touches(c', door'[n], true);
    } else {
      var i :| 0 <= i < n && Touches(c, door[i], true);
      assert Touches(c', door'[i], true);
    }
    if Lower(c, x) > c.slopeMin {
      assert Touches(c', door'[n], false);
    } else {
      var i :| 0 <= i < n && Touches(c, door[i], false);
      assert Touches(c', door'[i], false);
    }
  }

  lemma NextKeepsInv(t: Trace, x: Sample)
    requires TraceInv(t) && Ahead(t.c, x)
    ensures TraceInv(Next(t, x))
  {
    AheadGap(t.c, x);
    if Shut(t.c) {
      OpenDoor(t.c, x);
    } else if !Door(t.c, x).1 {
      NarrowDoor(t.c, t.door, x);
    }
  }

  // ----- Over whole runs -----

  ghost predicate Increasing(input: seq<Sample>) {
    && (forall i :: 0 <= i < |input| ==> input[i].timestamp < WORD)
    && (forall i, j :: 0 <= i < j < |input| ==> input[i].timestamp < input[j].timestamp)
  }

  lemma {:induction false} RunKeepsInv(d: real, input: seq<Sample>)
    requires d >= 0.0 && input != [] && Increasing(input)
    ensures TraceInv(Run(d, input))
    ensures Run(d, input).c.lastTime <= input[|input| - 1].timestamp
  {
    var n := |input| - 1;
    if n == 0 {
      assert Run(d, input[..0]) == Trace(Initial(SwingingDoor, d), [], []);
    } else {
      RunKeepsInv(d, input[..n]);
      var before := Run(d, input[..n]);
      NextKeepsInv(before, input[n]);
    }
  }

  /** The line of slope `s` fits every sample discarded since the last stored one. */
  ghost predicate FitsAll(t: Trace, s: real) {
    forall i :: 0 <= i < |t.since| ==> Fits(t.c, s, t.since[i])
  }

  ghost predicate FitsSome(t: Trace) {
    exists s :: FitsAll(t, s)
  }

  /** The door has narrowed to slope zero, which the compressor reads as "no door yet". */
  ghost predicate Collapsed(t: Trace) {
    t.since != [] && Shut(t.c)
  }

  ghost predicate NeverCollapses(d: real, input: seq<Sample>) {
    forall k :: 0 <= k < |input| ==> !Collapsed(Run(d, input[..k]))
  }

  lemma {:induction false} DoorSeesAll(d: real, input: seq<Sample>)
    requires NeverCollapses(d, input)
    ensures Run(d, input).door == Run(d, input).since
  {
    if input != [] {
      var n := |input| - 1;
      forall k | 0 <= k < n ensures !Collapsed(Run(d, input[..n][..k])) {
        assert input[..n][..k] == input[..k];
      }
      DoorSeesAll(d, input[..n]);
    }
  }

  lemma DoorFits(t: Trace)
    requires TraceInv(t) && t.door == t.since
    ensures FitsAll(t, t.c.slopeMin)
  {
    forall i | 0 <= i < |t.since| ensures Fits(t.c, t.c.slopeMin, t.since[i]) {
      assert Bounds(t.c, t.door[i]);
      FitsIff(t.c, t.c.slopeMin, t.since[i]);
    }
  }

  /** As long as the door has not collapsed, one line through the last stored point passes within
      the deadband of every sample discarded since. */
  lemma OneLineFits(d: real, input: seq<Sample>)
    requires d >= 0.0 && Increasing(input) && NeverCollapses(d, input)
    ensures FitsSome(Run(d, input))
  {
    var t := Run(d, input);
    if input == [] {
      assert FitsAll(t, 0.0);
    } else {
      RunKeepsInv(d, input);
      DoorSeesAll(d, input);
      DoorFits(t);
    }
  }

  /** The guarantee survives every possible next sample exactly when the door has not collapsed. */
  lemma CollapseIsTheOnlyGap(t: Trace, next: nat)
    requires TraceInv(t) && t.door == t.since && t.c.lastTime < next < WORD
    ensures (forall v :: FitsSome(Next(t, Sample(next, v)))) <==> !Collapsed(t)
  {
    if Collapsed(t) {
      var x := Sample(next, t.c.lastValue + t.c.deadband + 1.0);
      var t' := Next(t, x);
      OpenDoor(t.c, x);
      forall s ensures !FitsAll(t', s) {
        CollapsedMisses(t, x, s);
      }
      assert !FitsSome(Next(t, Sample(next, x.value)));
    } else {
      forall v ensures FitsSome(Next(t, Sample(next, v))) {
        var x := Sample(next, v);
        NextKeepsInv(t, x);
        DoorFits(Next(t, x));
      }
    }
  }

  lemma CollapsedMisses(t: Trace, x: Sample, s: real)
    requires TraceInv(t) && t.door == t.since && Collapsed(t) && Ahead(t.c, x)
    requires x.value == t.c.lastValue + t.c.deadband + 1.0
    ensures !FitsAll(Next(t, x), s)
  {
    var t' := Next(t, x);
    OpenDoor(t.c, x);
    var n := |t.since|;
    assert t'.since[n] == x;
    if FitsAll(t', s) {
      var i :| 0 <= i < n && Touches(t.c, t.door[i], true);
      var j :| 0 <= j < n && Touches(t.c, t.door[j], false);
      assert t'.since[i] == t.door[i] && t'.since[j] == t.door[j];
      FitsIff(t'.c, s, t.door[i]);
      FitsIff(t'.c, s, t.door[j]);
    }
  }

  // ----- A series that collapses the door -----

  /** With deadband 1 the third sample narrows the door to slope 0 exactly. */
  const ZIGZAG: seq<Sample> := [Sample(0, 0.0), Sample(1, 1.0), Sample(2, -1.0)]

  lemma RunNext(d: real, input: seq<Sample>, x: Sample)
    ensures Run(d, input + [x]) == Next(Run(d, input), x)
  {
    assert (input + [x])[..|input|] == input;
  }

  /** The trace once the first sample is stored and the door has been opened by (1, 1). */
  lemma OpenedByOne(c: Compressor)
    requires c == Initial(SwingingDoor, 1.0)
    ensures var t := Next(Next(Trace(c, [], []), Sample(0, 0.0)), Sample(1, 1.0));
            && !t.c.first && t.c.lastTime == 0 && t.c.lastValue == 0.0 && t.c.deadband == 1.0
            && t.c.slopeMax == 2.0 && t.c.slopeMin == 0.0 && t.since == t.door == [Sample(1, 1.0)]
  {
    var t1 := Next(Trace(c, [], []), Sample(0, 0.0));
    ElapsedForward(1, 0);
    assert Gap(t1.c, Sample(1, 1.0)) == 1.0;
    assert Upper(t1.c, Sample(1, 1.0)) == 2.0 && Lower(t1.c, Sample(1, 1.0)) == 0.0;
  }

  lemma CollapsedByTwo(t: Trace)
    requires !t.c.first && t.c.lastTime == 0 && t.c.lastValue == 0.0 && t.c.deadband == 1.0
    requires t.c.slopeMax == 2.0 && t.c.slopeMin == 0.0 && t.since == t.door == [Sample(1, 1.0)]
    ensures var u := Next(t, Sample(2, -1.0)); Collapsed(u) && u.door == u.since && u.c.lastTime == 0
  {
    ElapsedForward(2, 0);
    assert Gap(t.c, Sample(2, -1.0)) == 2.0;
    assert Upper(t.c, Sample(2, -1.0)) == 0.0 && Lower(t.c, Sample(2, -1.0)) == -1.0;
  }

  lemma ZigzagRun()
    ensures Collapsed(Run(1.0, ZIGZAG)) && Run(1.0, ZIGZAG).door == Run(1.0, ZIGZAG).since && Run(1.0, ZIGZAG).c.lastTime == 0
  {
    var a, b, c := Sample(0, 0.0), Sample(1, 1.0), Sample(2, -1.0);
    RunNext(1.0, [], a);
    RunNext(1.0, [a], b);
    RunNext(1.0, [a, b], c);
    assert [] + [a] == [a] && [a] + [b] == [a, b] && [a, b] + [c] == ZIGZAG;
    OpenedByOne(Initial(SwingingDoor, 1.0));
    CollapsedByTwo(Run(1.0, [a, b]));
  }

  /** After it the compressor has forgotten two samples: some next sample leaves no line that fits them all. */
  lemma ZigzagCollapses()
    ensures Increasing(ZIGZAG) && Collapsed(Run(1.0, ZIGZAG))
    ensures exists v :: !FitsSome(Next(Run(1.0, ZIGZAG), Sample(3, v)))
  {
    ZigzagRun();
    RunKeepsInv(1.0, ZIGZAG);
    CollapseIsTheOnlyGap(Run(1.0, ZIGZAG), 3);
  }

  // ----- Interpolating between stored points -----

  /** The slope of the chord from the last stored point to `x`. */
  ghost function Chord(c: Compressor, x: Sample): real
    requires Gap(c, x) > 0.0
  {
    (x.value - c.lastValue) / Gap(c, x)
  }

  lemma ChordInBand(c: Compressor, x: Sample)
    requires c.deadband >= 0.0 && Gap(c, x) > 0.0
    ensures Lower(c, x) <= Chord(c, x) <= Upper(c, x)
  {
    Slopes(Chord(c, x), x.value + c.deadband - c.lastValue, Gap(c, x));
    Slopes(Chord(c, x), x.value - c.deadband - c.lastValue, Gap(c, x));
  }

  /** A sample is stored only after others have been discarded, and the chord to it misses one of
      them by more than the deadband: the compressor stores the sample that closed the door. */
  lemma ChordMisses(t: Trace, x: Sample) returns (y: Sample)
    requires TraceInv(t) && Ahead(t.c, x) && Door(t.c, x).1
    ensures Gap(t.c, x) > 0.0 && y in t.door && !Fits(t.c, Chord(t.c, x), y)
  {
    AheadGap(t.c, x);
    BandIsOrdered(t.c, x);
    ChordInBand(t.c, x);
    var c := t.c;
    var i :| 0 <= i < |t.door| && Touches(c, t.door[i], true);
    var j :| 0 <= j < |t.door| && Touches(c, t.door[j], false);
    FitsIff(c, Chord(c, x), t.door[i]);
    FitsIff(c, Chord(c, x), t.door[j]);
    y := if Lower(c, x) > c.slopeMax then t.door[i] else t.door[j];
  }

  lemma {:induction false} DoorWithinSince(d: real, input: seq<Sample>)
    ensures forall y :: y in Run(d, input).door ==> y in Run(d, input).since
  {
    if input != [] {
      DoorWithinSince(d, input[..|input| - 1]);
    }
  }

  /** In every run, interpolating linearly between two consecutive stored points misses some discarded
      sample between them by more than the deadband. */
  lemma InterpolationAlwaysMisses(d: real, input: seq<Sample>, n: nat) returns (y: Sample)
    requires d >= 0.0 && Increasing(input) && 1 <= n < |input|
    requires Stores(Initial(SwingingDoor, d), input, n)
    ensures var t := Run(d, input[..n]);
            Gap(t.c, input[n]) > 0.0 && y in t.since && !Fits(t.c, Chord(t.c, input[n]), y)
  {
    RunIsAfter(d, input[..n]);
    RunKeepsInv(d, input[..n]);
    y := ChordMisses(Run(d, input[..n]), input[n]);
    DoorWithinSince(d, input[..n]);
  }
}
