/** The alarm rules engine: on-delay evaluation of threshold rules, one sample at a time. */
module AlarmRules {
  import opened AlarmCondition
  import opened Common
  import opened Clock

  datatype Rule = Rule(id: int, station: string, slot: int, condition: Condition, threshold: real, delay: nat, enabled: bool)

  datatype RuleState = RuleState(rule: Rule, start: nat, last: real, inAlarm: bool)

  datatype Sample = Sample(value: real, time: nat)

  predicate Holds(condition: Condition, value: real, threshold: real, last: real) {
    match condition
    case High => value > threshold
    case Low => value < threshold
    case HighHigh => value > threshold
    case LowLow => value < threshold
    case RateOfChange => Abs(value - last) > threshold
    case Deviation => Abs(value - threshold) > threshold * 0.1
    case BadQuality => false
  }

  function Fresh(rule: Rule): RuleState {
    RuleState(rule, 0, 0.0, false)
  }

  predicate MetNow(st: RuleState, s: Sample) {
    Holds(st.rule.condition, s.value, st.rule.threshold, st.last)
  }

  /** When the condition in force began. */
  function StartOf(st: RuleState, s: Sample): nat {
    if st.start == 0 then s.time else st.start
  }

  predicate Triggers(st: RuleState, s: Sample) {
    && st.rule.enabled && MetNow(st, s) && !st.inAlarm
    && Elapsed(s.time, StartOf(st, s)) >= st.rule.delay
  }

  /** The rule's state after one evaluation. */
  function Evaluated(st: RuleState, s: Sample): RuleState {
    if !st.rule.enabled then st.(start := 0, inAlarm := false)
    else if !MetNow(st, s) then RuleState(st.rule, 0, s.value, false)
    else RuleState(st.rule, StartOf(st, s), s.value, st.inAlarm || Elapsed(s.time, StartOf(st, s)) >= st.rule.delay)
  }

  function Stream(st: RuleState, ss: seq<Sample>): RuleState {
    if ss == [] then st else Evaluated(Stream(st, ss[..|ss| - 1]), ss[|ss| - 1])
  }

  // --- the declarative meaning ---

  /**
   * Above or below the threshold, changed by more than it since the last value, or outside the band from nine
   * tenths to eleven tenths of it.
   */
  predicate Beyond(c: Condition, value: real, threshold: real, last: real) {
    || ((c == High || c == HighHigh) && value > threshold)
    || ((c == Low || c == LowLow) && value < threshold)
    || (c == RateOfChange && (value > last + threshold || value < last - threshold))
    || (c == Deviation && (value > threshold * 1.1 || value < threshold * 0.9))
  }

  lemma HoldsIff(c: Condition, value: real, threshold: real, last: real)
    ensures Holds(c, value, threshold, last) <==> Beyond(c, value, threshold, last)
  {
  }

  /** The condition at sample `k`, given the value before the first sample. */
  predicate MetAt(rule: Rule, before: real, ss: seq<Sample>, k: nat)
    requires k < |ss|
  {
    Beyond(rule.condition, ss[k].value, rule.threshold, if k == 0 then before else ss[k - 1].value)
  }

  /** The first sample of the maximal run of met conditions that ends at `k`. */
  function RunStart(rule: Rule, before: real, ss: seq<Sample>, k: nat): (j: nat)
    requires k < |ss| && MetAt(rule, before, ss, k)
    ensures j <= k
    ensures forall m: nat | j <= m <= k :: MetAt(rule, before, ss, m)
    ensures j == 0 || !MetAt(rule, before, ss, j - 1)
  {
    if k > 0 && MetAt(rule, before, ss, k - 1) then RunStart(rule, before, ss, k - 1) else k
  }

  /**
   * The sample the delay counts from at `k`: the first of the run with a non-zero time, because a start
   * time of 0 reads as "none", or `k` itself while there is none.
   */
  function CountedFrom(rule: Rule, before: real, ss: seq<Sample>, k: nat): (j: nat)
    requires k < |ss| && MetAt(rule, before, ss, k)
    ensures RunStart(rule, before, ss, k) <= j <= k
    ensures forall m: nat | RunStart(rule, before, ss, k) <= m < j :: ss[m].time == 0
    ensures j < k ==> ss[j].time != 0
  {
    if k > 0 && MetAt(rule, before, ss, k - 1) && ss[CountedFrom(rule, before, ss, k - 1)].time != 0
    then CountedFrom(rule, before, ss, k - 1) else k
  }

  /** With non-zero times that is where the run began. */
  lemma CountedFromRunStart(rule: Rule, before: real, ss: seq<Sample>, k: nat)
    requires k < |ss| && MetAt(rule, before, ss, k) && forall i | 0 <= i < |ss| :: ss[i].time > 0
    ensures CountedFrom(rule, before, ss, k) == RunStart(rule, before, ss, k)
  {
    assert ss[RunStart(rule, before, ss, k)].time > 0;
  }

  /** At sample `m` the condition holds and the delay has passed. */
  predicate LongEnough(rule: Rule, before: real, ss: seq<Sample>, m: nat)
    requires m < |ss|
  {
    MetAt(rule, before, ss, m) && Elapsed(ss[m].time, ss[CountedFrom(rule, before, ss, m)].time) >= rule.delay
  }

  predicate Reached(rule: Rule, before: real, ss: seq<Sample>, j: nat, k: nat)
    requires k < |ss|
  {
    exists m: nat | j <= m <= k :: LongEnough(rule, before, ss, m)
  }

  /**
   * What a trigger means: the condition has held on the whole run up to `k`, the delay has passed,
   * and it had not passed at any earlier sample of the run.
   */
  predicate Due(rule: Rule, before: real, ss: seq<Sample>, k: nat)
    requires k < |ss|
  {
    && LongEnough(rule, before, ss, k)
    && forall m: nat | RunStart(rule, before, ss, k) <= m < k :: !LongEnough(rule, before, ss, m)
  }

  /** The state after the first `n` samples, in declarative terms. */
  predicate Tracks(rule: Rule, before: real, ss: seq<Sample>, n: nat, st: RuleState)
    requires n <= |ss|
  {
    && st.rule == rule
    && st.last == (if n == 0 then before else ss[n - 1].value)
    && if n > 0 && MetAt(rule, before, ss, n - 1) then
         && st.start == ss[CountedFrom(rule, before, ss, n - 1)].time
         && (st.inAlarm <==> Reached(rule, before, ss, RunStart(rule, before, ss, n - 1), n - 1))
       else st.start == 0 && !st.inAlarm
  }

  lemma ReachedNext(rule: Rule, before: real, ss: seq<Sample>, j: nat, k: nat)
    requires j <= k < |ss|
    ensures Reached(rule, before, ss, j, k) <==> (k > j && Reached(rule, before, ss, j, k - 1)) || LongEnough(rule, before, ss, k)
  {
  }

  lemma TracksNext(rule: Rule, before: real, ss: seq<Sample>, n: nat, st: RuleState)
    requires rule.enabled && n < |ss| && Tracks(rule, before, ss, n, st)
    ensures Tracks(rule, before, ss, n + 1, Evaluated(st, ss[n]))
    ensures Triggers(st, ss[n]) <==> Due(rule, before, ss, n)
  {
    HoldsIff(rule.condition, ss[n].value, rule.threshold, st.last);
    assert MetNow(st, ss[n]) <==> MetAt(rule, before, ss, n);
    if MetAt(rule, before, ss, n) {
      assert StartOf(st, ss[n]) == ss[CountedFrom(rule, before, ss, n)].time;
      ReachedNext(rule, before, ss, RunStart(rule, before, ss, n), n);
    }
  }

  lemma {:induction false} StreamTracks(rule: Rule, before: real, ss: seq<Sample>, n: nat)
    requires rule.enabled && n <= |ss|
    ensures Tracks(rule, before, ss, n, Stream(RuleState(rule, 0, before, false), ss[..n]))
  {
    if n > 0 {
      StreamTracks(rule, before, ss, n - 1);
      assert ss[..n][..n - 1] == ss[..n - 1];
      TracksNext(rule, before, ss, n - 1, Stream(RuleState(rule, 0, before, false), ss[..n - 1]));
    }
  }

  /** Streaming evaluation equals its declarative meaning: sample `k` triggers exactly when it is due. */
  lemma TriggersIffDue(rule: Rule, before: real, ss: seq<Sample>, k: nat)
    requires rule.enabled && k < |ss|
    ensures Triggers(Stream(RuleState(rule, 0, before, false), ss[..k]), ss[k]) <==> Due(rule, before, ss, k)
  {
    StreamTracks(rule, before, ss, k);
    TracksNext(rule, before, ss, k, Stream(RuleState(rule, 0, before, false), ss[..k]));
  }

  lemma {:induction false} DisabledRests(st: RuleState, xs: seq<Sample>)
    requires !st.rule.enabled
    ensures Stream(st, xs) == if xs == [] then st else st.(start := 0, inAlarm := false)
  {
    if xs != [] {
      DisabledRests(st, xs[..|xs| - 1]);
    }
  }

  /**
   * A disabled rule never triggers.  Once it has seen a sample while disabled and is enabled again, it counts afresh,
   * from the last value it evaluated.
   */
  lemma DisabledThenFresh(st: RuleState, xs: seq<Sample>, x: Sample, ss: seq<Sample>, k: nat)
    requires !st.rule.enabled && k < |ss|
    ensures !Triggers(Stream(st, xs), x)
    ensures var on := st.rule.(enabled := true);
            Triggers(Stream(Stream(st, xs + [x]).(rule := on), ss[..k]), ss[k]) <==> Due(on, st.last, ss, k)
  {
    DisabledRests(st, xs);
    DisabledRests(st, xs + [x]);
    TriggersIffDue(st.rule.(enabled := true), st.last, ss, k);
  }

  /** Between two triggers the condition has been false at least once. */
  lemma OneTriggerPerRun(rule: Rule, before: real, ss: seq<Sample>, k: nat, l: nat)
    requires k < l < |ss| && Due(rule, before, ss, k) && Due(rule, before, ss, l)
    ensures exists m: nat | k < m < l :: !MetAt(rule, before, ss, m)
  {
    if forall m: nat | k < m < l :: MetAt(rule, before, ss, m) {
      SameRun(rule, before, ss, k, l);
    }
  }

  lemma {:induction false} SameRun(rule: Rule, before: real, ss: seq<Sample>, k: nat, l: nat)
    requires k <= l < |ss| && forall m: nat | k <= m <= l :: MetAt(rule, before, ss, m)
    ensures RunStart(rule, before, ss, l) == RunStart(rule, before, ss, k)
    decreases l
  {
    if k < l {
      SameRun(rule, before, ss, k, l - 1);
    }
  }

  // --- all rules of an engine ---

  datatype Point = Point(station: string, slot: int, sample: Sample)

  predicate Watches(rule: Rule, p: Point) {
    rule.station == p.station && rule.slot == p.slot
  }

  function AtPoint(st: RuleState, p: Point): RuleState {
    if Watches(st.rule, p) then Evaluated(st, p.sample) else st
  }

  /** The ids triggered at a point, in table order. */
  function TriggeredIds(rs: seq<RuleState>, p: Point): (ids: seq<int>)
    ensures |ids| <= |rs|
  {
    if rs == [] then []
    else
      var last := rs[|rs| - 1];
      TriggeredIds(rs[..|rs| - 1], p) + (if Watches(last.rule, p) && Triggers(last, p.sample) then [last.rule.id] else [])
  }

  predicate UniqueIds(rs: seq<RuleState>) {
    forall i, j | 0 <= i < j < |rs| :: rs[i].rule.id != rs[j].rule.id
  }

  /** The samples of the points a rule watches. */
  function Watched(rule: Rule, ps: seq<Point>): seq<Sample> {
    if ps == [] then []
    else
      var p := ps[|ps| - 1];
      Watched(rule, ps[..|ps| - 1]) + (if p.station == rule.station && p.slot == rule.slot then [p.sample] else [])
  }

  function AllAtPoint(rs: seq<RuleState>, p: Point): (r: seq<RuleState>)
    ensures |r| == |rs|
  {
    seq(|rs|, i requires 0 <= i < |rs| => AtPoint(rs[i], p))
  }

  function AfterPoints(rs: seq<RuleState>, ps: seq<Point>): (r: seq<RuleState>)
    ensures |r| == |rs|
  {
    if ps == [] then rs else AllAtPoint(AfterPoints(rs, ps[..|ps| - 1]), ps[|ps| - 1])
  }

  /** Over any run of points each rule sees exactly its own samples, whatever the other rules are. */
  lemma {:induction false} RulesAreIndependent(rs: seq<RuleState>, ps: seq<Point>, i: nat)
    requires i < |rs|
    ensures AfterPoints(rs, ps)[i] == Stream(rs[i], Watched(rs[i].rule, ps))
  {
    if ps != [] {
      var n := |ps| - 1;
      RulesAreIndependent(rs, ps[..n], i);
      var seen := Watched(rs[i].rule, ps[..n]);
      StreamKeepsRule(rs[i], seen);
      if Watches(rs[i].rule, ps[n]) {
        assert (seen + [ps[n].sample])[..|seen|] == seen;
      } else {
        assert Watched(rs[i].rule, ps) == seen;
      }
    }
  }

  lemma {:induction false} StreamKeepsRule(st: RuleState, ss: seq<Sample>)
    ensures Stream(st, ss).rule == st.rule
  {
    if ss != [] {
      StreamKeepsRule(st, ss[..|ss| - 1]);
    }
  }
}
