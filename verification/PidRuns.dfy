/** Anti-windup over whole runs of a PID loop, and when the transfer from manual to automatic is bumpless. */
module PidRuns {
  import opened Common
  import opened PidControl

  datatype Event = Sample(pv: real, dtMs: real) | Setpoint(setpoint: real) | Switch(mode: Mode)

  function Apply(l: Loop, ev: Event): Loop {
    match ev
    case Sample(pv, dtMs) => Step(l, pv, dtMs)
    case Setpoint(sp) => l.(setpoint := sp)
    case Switch(m) => SetMode(l, m)
  }

  function After(l: Loop, evs: seq<Event>): Loop {
    if evs == [] then l else Apply(After(l, evs[..|evs| - 1]), evs[|evs| - 1])
  }

  predicate Bounded(l: Loop) {
    Abs(l.integral) <= l.tuning.integralLimit
  }

  predicate InRange(l: Loop) {
    l.tuning.outputMin <= l.cv <= l.tuning.outputMax
  }

  predicate Tuned(t: Tuning) {
    t.ki > 0.0 && t.integralLimit > 0.0 && t.outputMin <= t.outputMax
  }

  predicate PushedUp(t: Tuning, k: Terms) {
    k.demand > t.outputMax && k.error > 0.0
  }

  predicate PushedDown(t: Tuning, k: Terms) {
    k.demand < t.outputMin && k.error < 0.0
  }

  /** The one way a calculation can throw the integral out: an increment over twice the limit taken back. */
  predicate Overshoots(t: Tuning, k: Terms) {
    || (PushedUp(t, k) && k.increment > 2.0 * t.integralLimit)
    || (PushedDown(t, k) && k.increment < -2.0 * t.integralLimit)
  }

  /** Events after which the integral is outside its limit although it was inside before. */
  predicate Escapes(l: Loop, ev: Event) {
    match ev
    case Sample(pv, dtMs) => Controls(l) && Overshoots(l.tuning, TermsOf(l, pv, dtMs))
    case Setpoint(_) => false
    case Switch(m) => l.mode == Manual && m == Auto && Abs(l.cv) > l.tuning.integralLimit
  }

  lemma ProductSign(a: real, b: real)
    requires a > 0.0
    ensures b > 0.0 ==> a * b > 0.0
    ensures b < 0.0 ==> a * b < 0.0
    ensures b == 0.0 ==> a * b == 0.0
  {
  }

  lemma IncrementSign(t: Tuning, error: real, dt: real)
    requires t.ki > 0.0 && dt > 0.0
    ensures error > 0.0 ==> Increment(t, error, dt) > 0.0
    ensures error < 0.0 ==> Increment(t, error, dt) < 0.0
    ensures error == 0.0 ==> Increment(t, error, dt) == 0.0
  {
    ProductSign(t.ki, error);
    ProductSign(dt, t.ki * error);
    assert Increment(t, error, dt) == dt * (t.ki * error);
  }

  /** One calculation, on its terms: the integral stays within its limit exactly when it does not overshoot. */
  lemma UnwoundIff(t: Tuning, integral: real, k: Terms)
    requires Tuned(t) && Abs(integral) <= t.integralLimit
    requires k.integral == Clamp(t, integral + k.increment)
    requires (k.error > 0.0 ==> k.increment > 0.0) && (k.error < 0.0 ==> k.increment < 0.0)
    ensures Abs(Unwound(t, k.demand, k.error, k.integral, k.increment)) <= t.integralLimit <==> !Overshoots(t, k)
    ensures PushedUp(t, k) ==> Unwound(t, k.demand, k.error, k.integral, k.increment) <= integral
    ensures PushedDown(t, k) ==> Unwound(t, k.demand, k.error, k.integral, k.increment) >= integral
    ensures PushedUp(t, k) && integral + k.increment <= t.integralLimit
            ==> Unwound(t, k.demand, k.error, k.integral, k.increment) == integral
    ensures PushedDown(t, k) && integral + k.increment >= -t.integralLimit
            ==> Unwound(t, k.demand, k.error, k.integral, k.increment) == integral
  {
  }

  /** Every event keeps the integral within its limit exactly when it does not escape. */
  lemma BoundKeptIff(l: Loop, ev: Event)
    requires Tuned(l.tuning) && Bounded(l)
    ensures Bounded(Apply(l, ev)) <==> !Escapes(l, ev)
    ensures Apply(l, ev).tuning == l.tuning
    ensures InRange(l) ==> InRange(Apply(l, ev))
    ensures ev.Sample? && Controls(l) ==> InRange(Apply(l, ev))
  {
    if ev.Sample? && Controls(l) {
      var k := TermsOf(l, ev.pv, ev.dtMs);
      IncrementSign(l.tuning, k.error, Seconds(ev.dtMs));
      UnwoundIff(l.tuning, l.integral, k);
    }
  }

  /** Escapes at no point of a run. */
  predicate NeverEscapes(l: Loop, evs: seq<Event>) {
    forall i | 0 <= i < |evs| :: !Escapes(After(l, evs[..i]), evs[i])
  }

  predicate AlwaysBounded(l: Loop, evs: seq<Event>) {
    forall i | 0 <= i <= |evs| :: Bounded(After(l, evs[..i]))
  }

  lemma {:induction false} TuningStays(l: Loop, evs: seq<Event>)
    ensures After(l, evs).tuning == l.tuning
  {
    if evs != [] {
      TuningStays(l, evs[..|evs| - 1]);
    }
  }

  lemma PrefixStep(l: Loop, evs: seq<Event>, i: nat)
    requires i < |evs|
    ensures After(l, evs[..i + 1]) == Apply(After(l, evs[..i]), evs[i])
  {
    assert evs[..i + 1][..i] == evs[..i];
  }

  /**
   * Anti-windup over runs: the integral is within its limit after every event of a run exactly when no
   * event of the run escapes.
   */
  lemma {:induction false} RunBoundedIff(l: Loop, evs: seq<Event>)
    requires Tuned(l.tuning) && Bounded(l)
    ensures AlwaysBounded(l, evs) <==> NeverEscapes(l, evs)
  {
    if NeverEscapes(l, evs) {
      forall i | 0 <= i <= |evs| ensures Bounded(After(l, evs[..i])) {
        StaysBounded(l, evs, i);
      }
    }
    if AlwaysBounded(l, evs) {
      forall i | 0 <= i < |evs| ensures !Escapes(After(l, evs[..i]), evs[i]) {
        TuningStays(l, evs[..i]);
        assert Bounded(After(l, evs[..i])) && Bounded(After(l, evs[..i + 1]));
        PrefixStep(l, evs, i);
        BoundKeptIff(After(l, evs[..i]), evs[i]);
      }
    }
  }

  lemma {:induction false} StaysBounded(l: Loop, evs: seq<Event>, i: nat)
    requires Tuned(l.tuning) && Bounded(l) && NeverEscapes(l, evs) && i <= |evs|
    ensures Bounded(After(l, evs[..i]))
    decreases i
  {
    if i > 0 {
      StaysBounded(l, evs, i - 1);
      TuningStays(l, evs[..i - 1]);
      PrefixStep(l, evs, i - 1);
      BoundKeptIff(After(l, evs[..i - 1]), evs[i - 1]);
    }
  }

  /** Increments no larger than twice the limit, and transfers from a manual output within it. */
  predicate Tame(l: Loop, ev: Event) {
    match ev
    case Sample(pv, dtMs) => Controls(l) ==> Abs(TermsOf(l, pv, dtMs).increment) <= 2.0 * l.tuning.integralLimit
    case Setpoint(_) => true
    case Switch(m) => l.mode == Manual && m == Auto ==> Abs(l.cv) <= l.tuning.integralLimit
  }

  /** Over every tame run both the integral and the output keep their limits. */
  lemma {:induction false} TameRun(l: Loop, evs: seq<Event>)
    requires Tuned(l.tuning) && Bounded(l) && InRange(l)
    requires forall i | 0 <= i < |evs| :: Tame(After(l, evs[..i]), evs[i])
    ensures Bounded(After(l, evs)) && InRange(After(l, evs))
  {
    if evs != [] {
      var n := |evs| - 1;
      var front := evs[..n];
      forall i | 0 <= i < n ensures Tame(After(l, front[..i]), front[i]) {
        assert front[..i] == evs[..i];
      }
      TameRun(l, front);
      TuningStays(l, front);
      assert Tame(After(l, evs[..n]), evs[n]);
      BoundKeptIff(After(l, front), evs[n]);
    }
  }

  /** Each event of the run is a calculation whose output saturates at the top with the error still positive. */
  predicate HeldUp(l: Loop, evs: seq<Event>) {
    forall i | 0 <= i < |evs| :: PushesUp(After(l, evs[..i]), evs[i])
  }

  predicate HeldDown(l: Loop, evs: seq<Event>) {
    forall i | 0 <= i < |evs| :: PushesDown(After(l, evs[..i]), evs[i])
  }

  predicate PushesUp(l: Loop, ev: Event) {
    ev.Sample? && Controls(l) && PushedUp(l.tuning, TermsOf(l, ev.pv, ev.dtMs))
  }

  predicate PushesDown(l: Loop, ev: Event) {
    ev.Sample? && Controls(l) && PushedDown(l.tuning, TermsOf(l, ev.pv, ev.dtMs))
  }

  /** While the output is saturated with the error pushing outward, the integral never moves further outward. */
  lemma {:induction false} NoWindup(l: Loop, evs: seq<Event>)
    requires Tuned(l.tuning) && AlwaysBounded(l, evs)
    ensures HeldUp(l, evs) ==> After(l, evs).integral <= l.integral
    ensures HeldDown(l, evs) ==> After(l, evs).integral >= l.integral
  {
    if evs != [] {
      var n := |evs| - 1;
      var front := evs[..n];
      assert forall i | 0 <= i <= n :: front[..i] == evs[..i];
      NoWindup(l, front);
      TuningStays(l, front);
      var s, ev := After(l, front), evs[n];
      assert Bounded(After(l, evs[..n]));
      assert HeldUp(l, evs) ==> PushesUp(After(l, evs[..n]), evs[n]);
      assert HeldDown(l, evs) ==> PushesDown(After(l, evs[..n]), evs[n]);
      if PushesUp(s, ev) || PushesDown(s, ev) {
        var k := TermsOf(s, ev.pv, ev.dtMs);
        IncrementSign(s.tuning, k.error, Seconds(ev.dtMs));
        UnwoundIff(s.tuning, s.integral, k);
      }
    }
  }

  // ----- Transfer from manual to automatic -----

  /** The unlimited output of the first calculation after a transfer: the manual output is the integral then. */
  function TransferDemand(l: Loop, pv: real, dtMs: real): real {
    var e := Error(l.tuning, l.setpoint, pv);
    Demand(l.tuning, e, Clamp(l.tuning, l.cv + Increment(l.tuning, e, Seconds(dtMs))),
           Derivative(l.tuning, l.derivative, 0.0, e, Seconds(dtMs)))
  }

  lemma TransferOutput(l: Loop, pv: real, dtMs: real)
    requires l.mode == Manual
    ensures Output(SetMode(l, Auto), pv, dtMs) == Limited(l.tuning, TransferDemand(l, pv, dtMs))
  {
    assert TermsOf(SetMode(l, Auto), pv, dtMs).demand == TransferDemand(l, pv, dtMs);
  }

  /** The part of the old derivative that the filter keeps. */
  function Filter(t: Tuning): real {
    if t.derivativeFilter > 0.0 then t.derivativeFilter else 0.0
  }

  /** What the derivative of the last automatic period, which no mode change clears, adds to the output. */
  function Memory(l: Loop): real {
    l.tuning.kd * (Filter(l.tuning) * l.derivative)
  }

  function IntegralPush(l: Loop, e: real, dt: real): real {
    Clamp(l.tuning, l.cv + Increment(l.tuning, e, dt)) - l.cv
  }

  function DerivativePush(t: Tuning, e: real, dt: real): real
    requires dt > 0.0
  {
    t.kd * ((1.0 - Filter(t)) * (e / dt))
  }

  /** What an error adds to the manual output: proportional term, change of the integral, and new derivative. */
  function Push(l: Loop, e: real, dt: real): real
    requires dt > 0.0
  {
    l.tuning.kp * e + IntegralPush(l, e, dt) + DerivativePush(l.tuning, e, dt)
  }

  function PushOf(l: Loop, pv: real, dtMs: real): real {
    Push(l, Error(l.tuning, l.setpoint, pv), Seconds(dtMs))
  }

  lemma DerivativeSplits(t: Tuning, was: real, e: real, dt: real)
    requires dt > 0.0
    ensures Derivative(t, was, 0.0, e, dt) == Filter(t) * was + (1.0 - Filter(t)) * (e / dt)
  {
    var rate := (e - 0.0) / dt;
    assert rate * (1.0 - t.derivativeFilter) == (1.0 - t.derivativeFilter) * rate;
    assert was * t.derivativeFilter == t.derivativeFilter * was;
    assert 0.0 * was == 0.0;
  }

  lemma Spread(k: real, x: real, y: real)
    ensures k * (x + y) == k * x + k * y
  {
  }

  lemma DemandSplits(l: Loop, pv: real, dtMs: real)
    ensures TransferDemand(l, pv, dtMs) == l.cv + PushOf(l, pv, dtMs) + Memory(l)
  {
    var t, e, dt := l.tuning, Error(l.tuning, l.setpoint, pv), Seconds(dtMs);
    DerivativeSplits(t, l.derivative, e, dt);
    Spread(t.kd, Filter(t) * l.derivative, (1.0 - Filter(t)) * (e / dt));
  }

  lemma LimitedIff(t: Tuning, x: real, cv: real)
    requires t.outputMin <= cv <= t.outputMax
    ensures Limited(t, x) == cv <==> x == cv || (cv == t.outputMax && x > cv) || (cv == t.outputMin && x < cv)
    ensures t.outputMin < cv < t.outputMax ==> (Limited(t, x) > cv <==> x > cv)
  {
  }

  /**
   * The transfer keeps the output, at any error and with any memory, exactly when what the error adds is
   * what the memory takes away, or the output is at an end of its range and they push beyond it.
   */
  lemma BumplessIff(l: Loop, pv: real, dtMs: real)
    requires l.mode == Manual && InRange(l)
    ensures var bump := PushOf(l, pv, dtMs) + Memory(l);
            Output(SetMode(l, Auto), pv, dtMs) == l.cv <==>
            bump == 0.0 || (l.cv == l.tuning.outputMax && bump > 0.0) || (l.cv == l.tuning.outputMin && bump < 0.0)
    ensures l.tuning.outputMin < l.cv < l.tuning.outputMax ==>
            (Output(SetMode(l, Auto), pv, dtMs) > l.cv <==> PushOf(l, pv, dtMs) + Memory(l) > 0.0)
  {
    TransferOutput(l, pv, dtMs);
    DemandSplits(l, pv, dtMs);
    LimitedIff(l.tuning, TransferDemand(l, pv, dtMs), l.cv);
  }

  lemma SignedProduct(a: real, b: real)
    requires a >= 0.0
    ensures b >= 0.0 ==> a * b >= 0.0
  {
  }

  lemma Increases(k: real, x: real, y: real)
    requires k >= 0.0 && x <= y
    ensures k * x <= k * y
  {
    SignedProduct(k, y - x);
    Spread(k, y - x, x);
  }

  lemma QuotientIncreases(x: real, y: real, dt: real)
    requires dt > 0.0 && x <= y
    ensures x / dt <= y / dt
  {
    var p, q := x / dt, y / dt;
    assert p * dt == x && q * dt == y;
    if p > q {
      ProductSign(dt, p - q);
      Spread(dt, p - q, q);
    }
  }

  lemma IncrementIncreases(t: Tuning, x: real, y: real, dt: real)
    requires dt > 0.0 && t.ki >= 0.0 && x <= y
    ensures Increment(t, x, dt) <= Increment(t, y, dt)
  {
    Increases(t.ki, x, y);
    Increases(dt, t.ki * x, t.ki * y);
    assert Increment(t, x, dt) == dt * (t.ki * x) && Increment(t, y, dt) == dt * (t.ki * y);
  }

  lemma ClampIncreases(t: Tuning, x: real, y: real)
    requires x <= y
    ensures Clamp(t, x) <= Clamp(t, y)
  {
  }

  lemma DerivativeIncreases(t: Tuning, x: real, y: real, dt: real)
    requires dt > 0.0 && t.kd >= 0.0 && t.derivativeFilter <= 1.0 && x <= y
    ensures DerivativePush(t, x, dt) <= DerivativePush(t, y, dt)
  {
    QuotientIncreases(x, y, dt);
    Increases(1.0 - Filter(t), x / dt, y / dt);
    Increases(t.kd, (1.0 - Filter(t)) * (x / dt), (1.0 - Filter(t)) * (y / dt));
  }

  /** Gains as a loop is tuned. */
  predicate Gains(t: Tuning) {
    t.kp > 0.0 && t.ki >= 0.0 && t.kd >= 0.0 && t.derivativeFilter <= 1.0
  }

  /** A larger error pushes more. */
  lemma PushIncreases(l: Loop, x: real, y: real, dt: real)
    requires Gains(l.tuning) && dt > 0.0 && x < y
    ensures Push(l, x, dt) < Push(l, y, dt)
  {
    ProportionalIncreases(l.tuning.kp, x, y);
    IntegralIncreases(l, x, y, dt);
    DerivativeIncreases(l.tuning, x, y, dt);
    Sum(l.tuning.kp * x, l.tuning.kp * y, IntegralPush(l, x, dt), IntegralPush(l, y, dt),
        DerivativePush(l.tuning, x, dt), DerivativePush(l.tuning, y, dt));
  }

  lemma Sum(p: real, q: real, i: real, j: real, d: real, f: real)
    requires p < q && i <= j && d <= f
    ensures p + i + d < q + j + f
  {
  }

  lemma ProportionalIncreases(k: real, x: real, y: real)
    requires k > 0.0 && x < y
    ensures k * x < k * y
  {
    ProductSign(k, y - x);
    Spread(k, y - x, x);
  }

  lemma IntegralIncreases(l: Loop, x: real, y: real, dt: real)
    requires l.tuning.ki >= 0.0 && dt > 0.0 && x <= y
    ensures IntegralPush(l, x, dt) <= IntegralPush(l, y, dt)
  {
    IncrementIncreases(l.tuning, x, y, dt);
    ClampIncreases(l.tuning, l.cv + Increment(l.tuning, x, dt), l.cv + Increment(l.tuning, y, dt));
  }

  /** A manual output that the integral can take over. */
  predicate Kept(l: Loop) {
    l.tuning.integralLimit <= 0.0 || Abs(l.cv) <= l.tuning.integralLimit
  }

  /** Without error there is no push. */
  lemma NoPush(l: Loop, dt: real)
    requires Kept(l) && dt > 0.0
    ensures Push(l, 0.0, dt) == 0.0
  {
    IncrementAtZero(l.tuning, dt);
    assert l.tuning.kp * 0.0 == 0.0;
    assert (1.0 - Filter(l.tuning)) * (0.0 / dt) == 0.0;
    assert l.tuning.kd * 0.0 == 0.0;
  }

  lemma PushSign(l: Loop, e: real, dt: real)
    requires Gains(l.tuning) && Kept(l) && dt > 0.0
    ensures (Push(l, e, dt) > 0.0 <==> e > 0.0) && (Push(l, e, dt) < 0.0 <==> e < 0.0)
  {
    NoPush(l, dt);
    if e > 0.0 {
      PushIncreases(l, 0.0, e, dt);
    } else if e < 0.0 {
      PushIncreases(l, e, 0.0, dt);
    }
  }

  /** A tuned loop in manual, its output strictly in range and one that the integral can take over. */
  predicate Settled(l: Loop) {
    l.mode == Manual && l.tuning.outputMin < l.cv < l.tuning.outputMax && Gains(l.tuning) && Kept(l)
  }

  /**
   * So a settled loop without derivative memory transfers without a bump exactly when the process is at its
   * setpoint or inside the deadband: the integral takes over the output, but nothing makes room for the
   * proportional term.
   */
  lemma BumplessIffNoError(l: Loop, pv: real, dtMs: real)
    requires Settled(l) && Memory(l) == 0.0
    ensures Output(SetMode(l, Auto), pv, dtMs) == l.cv <==>
            l.setpoint == pv || Abs(l.setpoint - pv) < l.tuning.deadband
    ensures Output(SetMode(l, Auto), pv, dtMs) > l.cv <==> Error(l.tuning, l.setpoint, pv) > 0.0
  {
    PushSign(l, Error(l.tuning, l.setpoint, pv), Seconds(dtMs));
    BumplessIff(l, pv, dtMs);
  }

  /** And at its setpoint it does so exactly when it has no memory. */
  lemma BumplessIffNoMemory(l: Loop, pv: real, dtMs: real)
    requires Settled(l) && Error(l.tuning, l.setpoint, pv) == 0.0
    ensures Output(SetMode(l, Auto), pv, dtMs) == l.cv <==> Memory(l) == 0.0
    ensures Output(SetMode(l, Auto), pv, dtMs) > l.cv <==> Memory(l) > 0.0
  {
    NoPush(l, Seconds(dtMs));
    BumplessIff(l, pv, dtMs);
  }

  /** With a memory there is at most one error without a bump, and it is on the other side of zero. */
  lemma OneBumplessError(l: Loop, pv: real, other: real, dtMs: real)
    requires Settled(l) && Output(SetMode(l, Auto), pv, dtMs) == l.cv
    ensures var e := Error(l.tuning, l.setpoint, pv); (e > 0.0 <==> Memory(l) < 0.0) && (e < 0.0 <==> Memory(l) > 0.0)
    ensures Output(SetMode(l, Auto), other, dtMs) == l.cv <==>
            Error(l.tuning, l.setpoint, other) == Error(l.tuning, l.setpoint, pv)
  {
    var e, f, dt := Error(l.tuning, l.setpoint, pv), Error(l.tuning, l.setpoint, other), Seconds(dtMs);
    PushSign(l, e, dt);
    BumplessIff(l, pv, dtMs);
    BumplessIff(l, other, dtMs);
    if e < f {
      PushIncreases(l, e, f, dt);
    } else if f < e {
      PushIncreases(l, f, e, dt);
    }
  }

  /** Without error or derivative term, a manual output beyond the integral limit drops to that limit. */
  lemma TransferBumps(l: Loop, pv: real, dtMs: real)
    requires l.mode == Manual && InRange(l) && Error(l.tuning, l.setpoint, pv) == 0.0
    requires l.tuning.kd == 0.0 && l.tuning.integralLimit > 0.0
    requires l.tuning.outputMin <= l.tuning.integralLimit < l.cv
    ensures Output(SetMode(l, Auto), pv, dtMs) == l.tuning.integralLimit
  {
    IncrementAtZero(l.tuning, Seconds(dtMs));
    TransferOutput(l, pv, dtMs);
    assert 0.0 * Derivative(l.tuning, l.derivative, 0.0, 0.0, Seconds(dtMs)) == 0.0;
    assert l.tuning.kp * 0.0 == 0.0;
  }

  lemma IncrementAtZero(t: Tuning, dt: real)
    ensures Increment(t, 0.0, dt) == 0.0
  {
    assert t.ki * 0.0 == 0.0;
    assert 0.0 * dt == 0.0;
  }

  /** Proportional control only, held at 40 by hand while the process is 10 below its setpoint. */
  const BELOW_SETPOINT :=
    Loop(Tuning(1.0, 0.0, 0.0, 0.0, 100.0, 0.5, 50.0, 0.0), Manual, 20.0, 10.0, 40.0, 0.0, 0.0, 0.0, 0.0)

  /** It jumps to 50 on the transfer. */
  lemma FortyBecomesFifty()
    ensures Settled(BELOW_SETPOINT) && Memory(BELOW_SETPOINT) == 0.0
    ensures BELOW_SETPOINT.cv == 40.0 && Output(SetMode(BELOW_SETPOINT, Auto), 10.0, 1000.0) == 50.0
  {
    ProportionalOnly(BELOW_SETPOINT, 10.0, 1000.0, 10.0);
  }

  /** With proportional gain only, the transfer adds gain times error to the manual output. */
  lemma ProportionalOnly(l: Loop, pv: real, dtMs: real, bump: real)
    requires l.mode == Manual && l.tuning.ki == 0.0 && l.tuning.kd == 0.0
    requires l.tuning.integralLimit <= 0.0 || Abs(l.cv) <= l.tuning.integralLimit
    requires bump == l.tuning.kp * Error(l.tuning, l.setpoint, pv)
    ensures Output(SetMode(l, Auto), pv, dtMs) == Limited(l.tuning, l.cv + bump)
  {
    TransferOutput(l, pv, dtMs);
    var e, dt := Error(l.tuning, l.setpoint, pv), Seconds(dtMs);
    assert 0.0 * e == 0.0;
    assert 0.0 * dt == 0.0;
    assert 0.0 * Derivative(l.tuning, l.derivative, 0.0, e, dt) == 0.0;
  }

  /** A loop with a derivative filter of one half, in automatic and about to see an error of 2. */
  const FILTERED :=
    Loop(Tuning(1.0, 0.0, 1.0, 0.0, 100.0, 0.0, 0.0, 0.5), Auto, 10.0, 10.0, 40.0, 0.0, 40.0, 0.0, 0.0)

  const MANUAL_PERIOD := [Sample(8.0, 1000.0), Switch(Manual)]

  /**
   * From automatic to manual and back: after one calculation the output is 43 and the derivative 1; back at its
   * setpoint the loop still jumps to 43.5, because nothing has cleared the derivative.
   */
  lemma MemoryBumps()
    ensures var l := After(FILTERED, MANUAL_PERIOD);
            && Settled(l) && l.cv == 43.0 && Error(l.tuning, l.setpoint, 10.0) == 0.0
            && Output(SetMode(l, Auto), 10.0, 1000.0) == 43.5
  {
    FilteredStep();
    AfterTwo(FILTERED, Sample(8.0, 1000.0), Switch(Manual));
    HeldJumps();
  }

  /** The loop after that calculation, in manual. */
  const HELD :=
    Loop(Tuning(1.0, 0.0, 1.0, 0.0, 100.0, 0.0, 0.0, 0.5), Manual, 10.0, 8.0, 43.0, 2.0, 40.0, 1.0, 2.0)

  lemma FilteredStep()
    ensures SetMode(Step(FILTERED, 8.0, 1000.0), Manual) == HELD
  {
    assert Seconds(1000.0) == 1.0;
    FilteredLoop(FILTERED, 8.0, 1000.0, 2.0);
  }

  /** One calculation of such a loop without saturation. */
  lemma FilteredLoop(l: Loop, pv: real, dtMs: real, e: real)
    requires l.mode == Auto && l.tuning == FILTERED.tuning && l.lastError == 0.0 && l.derivative == 0.0
    requires Error(l.tuning, l.setpoint, pv) == e && Seconds(dtMs) == 1.0 && 0.0 <= l.integral + 1.5 * e <= 100.0
    ensures Step(l, pv, dtMs) == Loop(l.tuning, Auto, l.setpoint, pv, l.integral + 1.5 * e, e, l.integral, e / 2.0, e)
  {
    FilteredTerms(l, pv, dtMs, e);
  }

  lemma FilteredTerms(l: Loop, pv: real, dtMs: real, e: real)
    requires l.tuning == FILTERED.tuning && l.lastError == 0.0 && l.derivative == 0.0
    requires Error(l.tuning, l.setpoint, pv) == e && Seconds(dtMs) == 1.0
    ensures TermsOf(l, pv, dtMs) == Terms(e, 0.0, l.integral, e / 2.0, e + l.integral + e / 2.0)
  {
    assert Increment(l.tuning, e, 1.0) == 0.0;
    assert Derivative(l.tuning, 0.0, 0.0, e, 1.0) == e / 2.0;
  }

  lemma AfterTwo(l: Loop, a: Event, b: Event)
    ensures After(l, [a, b]) == Apply(Apply(l, a), b)
  {
    assert [a, b][..1] == [a] && [a][..0] == [];
    assert After(l, [a]) == Apply(l, a);
  }

  lemma HeldJumps()
    ensures Settled(HELD) && Error(HELD.tuning, HELD.setpoint, 10.0) == 0.0
    ensures Output(SetMode(HELD, Auto), 10.0, 1000.0) == 43.5
  {
    TransferOutput(HELD, 10.0, 1000.0);
    assert Seconds(1000.0) == 1.0;
    assert TransferDemand(HELD, 10.0, 1000.0) == 43.5;
  }

  const EIGHTY_PERCENT :=
    Loop(Tuning(1.0, 1.0, 0.0, 0.0, 100.0, 0.5, 50.0, 0.0), Manual, 7.0, 7.0, 80.0, 0.0, 0.0, 0.0, 0.0)

  /** A loop held at 80 by hand at its setpoint, with integral limit 50, jumps to 50 on the transfer. */
  lemma EightyBecomesFifty()
    ensures EIGHTY_PERCENT.cv == 80.0 && Output(SetMode(EIGHTY_PERCENT, Auto), 7.0, 1000.0) == 50.0
  {
    TransferBumps(EIGHTY_PERCENT, 7.0, 1000.0);
  }

  /** Proportional control at full output with an error of 300: the increment of 300 is over twice the limit. */
  const WOUND :=
    Loop(Tuning(1.0, 1.0, 0.0, 0.0, 100.0, 0.0, 50.0, 0.0), Auto, 300.0, 0.0, 100.0, 0.0, 0.0, 0.0, 0.0)

  /** One second at that error escapes: the increment taken back leaves the integral at -250. */
  lemma WoundEscapes()
    ensures Tuned(WOUND.tuning) && Bounded(WOUND) && Escapes(WOUND, Sample(0.0, 1000.0))
    ensures Step(WOUND, 0.0, 1000.0).integral == -250.0
  {
    var k := TermsOf(WOUND, 0.0, 1000.0);
    assert Seconds(1000.0) == 1.0;
    assert k.error == 300.0 && k.increment == 300.0 && k.integral == 50.0;
    assert k.demand == 350.0;
  }

  /** A loop that does not control holds its state; switched off it puts out 0, in manual its output. */
  lemma NotControlling(l: Loop, pv: real, dtMs: real)
    requires l.mode == Off || l.mode == Manual
    ensures Step(l, pv, dtMs) == l
    ensures Output(l, pv, dtMs) == if l.mode == Off then 0.0 else l.cv
  {
  }

  /** An interval that is not positive counts as one millisecond. */
  lemma StoppedClock(l: Loop, pv: real, dtMs: real)
    requires dtMs <= 0.0
    ensures Step(l, pv, dtMs) == Step(l, pv, 1.0)
  {
    assert Seconds(dtMs) == 0.001 && Seconds(1.0) == 0.001;
  }
}
