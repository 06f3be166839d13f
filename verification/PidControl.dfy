/** The PID step with integral clamping and anti-windup, and mode changes with bumpless transfer. */
module PidControl {
  import opened Common

  datatype Mode = Off | Manual | Auto | Cascade

  /** The configured part of a loop. */
  datatype Tuning = Tuning(kp: real, ki: real, kd: real, outputMin: real, outputMax: real,
                           deadband: real, integralLimit: real, derivativeFilter: real)

  datatype Loop = Loop(tuning: Tuning, mode: Mode, setpoint: real, pv: real, cv: real,
                       error: real, integral: real, derivative: real, lastError: real)

  /** Milliseconds to seconds; a non-positive interval counts as one millisecond. */
  function Seconds(dtMs: real): (dt: real)
    ensures dt > 0.0
  {
    if dtMs / 1000.0 <= 0.0 then 0.001 else dtMs / 1000.0
  }

  function Error(t: Tuning, setpoint: real, pv: real): real {
    if Abs(setpoint - pv) < t.deadband then 0.0 else setpoint - pv
  }

  /** What one step adds to the integral. */
  function Increment(t: Tuning, error: real, dt: real): real {
    t.ki * error * dt
  }

  function Clamp(t: Tuning, x: real): real {
    if t.integralLimit > 0.0 && x > t.integralLimit then t.integralLimit
    else if t.integralLimit > 0.0 && x < -t.integralLimit then -t.integralLimit
    else x
  }

  function Derivative(t: Tuning, was: real, lastError: real, error: real, dt: real): real
    requires dt > 0.0
  {
    var rate := (error - lastError) / dt;
    if t.derivativeFilter > 0.0 then was * t.derivativeFilter + rate * (1.0 - t.derivativeFilter) else rate
  }

  /** The output before it is limited. */
  function Demand(t: Tuning, error: real, integral: real, derivative: real): real {
    t.kp * error + integral + t.kd * derivative
  }

  function Limited(t: Tuning, x: real): real {
    if x > t.outputMax then t.outputMax else if x < t.outputMin then t.outputMin else x
  }

  /** The integral after anti-windup: an outward increment is taken back while the output is saturated. */
  function Unwound(t: Tuning, demand: real, error: real, integral: real, increment: real): real {
    if demand > t.outputMax then (if error > 0.0 then integral - increment else integral)
    else if demand < t.outputMin then (if error < 0.0 then integral - increment else integral)
    else integral
  }

  predicate Controls(l: Loop) {
    l.mode == Auto || l.mode == Cascade
  }

  /** The quantities of one controlling step. */
  datatype Terms = Terms(error: real, increment: real, integral: real, derivative: real, demand: real)

  function TermsOf(l: Loop, pv: real, dtMs: real): Terms {
    var dt := Seconds(dtMs);
    var e := Error(l.tuning, l.setpoint, pv);
    var inc := Increment(l.tuning, e, dt);
    var i := Clamp(l.tuning, l.integral + inc);
    var d := Derivative(l.tuning, l.derivative, l.lastError, e, dt);
    Terms(e, inc, i, d, Demand(l.tuning, e, i, d))
  }

  /** The loop after one calculation. */
  function Step(l: Loop, pv: real, dtMs: real): Loop {
    if Controls(l) then
      var k := TermsOf(l, pv, dtMs);
      Loop(l.tuning, l.mode, l.setpoint, pv, Limited(l.tuning, k.demand), k.error,
           Unwound(l.tuning, k.demand, k.error, k.integral, k.increment), k.derivative, k.error)
    else
      l
  }

  /** What the calculation returns. */
  function Output(l: Loop, pv: real, dtMs: real): real {
    if l.mode == Off then 0.0 else Step(l, pv, dtMs).cv
  }

  function SetMode(l: Loop, mode: Mode): Loop {
    if l.mode == Manual && mode == Auto then l.(integral := l.cv, lastError := 0.0, mode := mode)
    else l.(mode := mode)
  }

  lemma FilteredBetween(was: real, rate: real, f: real)
    ensures 0.0 < f <= 1.0 ==> Between(was, was * f + rate * (1.0 - f), rate)
  {
    if 0.0 < f <= 1.0 {
      var rest := 1.0 - f;
      Portion(rest, rate - was);
      assert was * f + rate * rest == was + rest * (rate - was) by {
        assert was * f == was - was * rest;
        assert rest * (rate - was) == rate * rest - was * rest;
      }
    }
  }

  class Controller {
    var tuning: Tuning
    var mode: Mode
    var setpoint: real
    var pv: real
    var cv: real
    var error: real
    var integral: real
    var derivative: real
    var lastError: real

    ghost function State(): Loop
      reads this
    {
      Loop(tuning, mode, setpoint, pv, cv, error, integral, derivative, lastError)
    }

    /** The integral term: accumulate, then clamp. */
    method Accumulate(increment: real)
      modifies this`integral
      ensures integral == Clamp(tuning, old(integral) + increment)
      ensures tuning.integralLimit > 0.0 ==> Abs(integral) <= tuning.integralLimit
      ensures tuning.integralLimit <= 0.0 || Abs(old(integral) + increment) <= tuning.integralLimit
              ==> integral == old(integral) + increment
    {
      integral := integral + increment;
      if tuning.integralLimit > 0.0 {
        if integral > tuning.integralLimit {
          integral := tuning.integralLimit;
        } else if integral < -tuning.integralLimit {
          integral := -tuning.integralLimit;
        }
      }
    }

    /** The derivative term, filtered when a filter constant is set. */
    method Differentiate(e: real, dt: real)
      requires dt > 0.0
      modifies this`derivative
      ensures derivative == Derivative(tuning, old(derivative), lastError, e, dt)
      ensures tuning.derivativeFilter <= 0.0 ==> derivative * dt == e - lastError
      ensures tuning.derivativeFilter <= 1.0 ==> Between(old(derivative), derivative, (e - lastError) / dt)
    {
      FilteredBetween(derivative, (e - lastError) / dt, tuning.derivativeFilter);
      var rate := (e - lastError) / dt;
      if tuning.derivativeFilter > 0.0 {
        derivative := derivative * tuning.derivativeFilter + rate * (1.0 - tuning.derivativeFilter);
      } else {
        derivative := rate;
      }
    }

    /** Limit the output and take an outward increment back while it is saturated. */
    method Saturate(demand: real, e: real, increment: real) returns (output: real)
      modifies this`integral
      ensures output == Limited(tuning, demand)
      ensures tuning.outputMin <= tuning.outputMax ==> tuning.outputMin <= output <= tuning.outputMax
      ensures tuning.outputMin <= demand <= tuning.outputMax ==> output == demand && integral == old(integral)
      ensures integral == Unwound(tuning, demand, e, old(integral), increment)
    {
      output := demand;
      if output > tuning.outputMax {
        output := tuning.outputMax;
        if e > 0.0 {
          integral := integral - increment;
        }
      } else if output < tuning.outputMin {
        output := tuning.outputMin;
        if e < 0.0 {
          integral := integral - increment;
        }
      }
    }

    method CalculatePid(value: real, dtMs: real) returns (output: real)
      modifies this
      ensures State() == Step(old(State()), value, dtMs)
      ensures output == Output(old(State()), value, dtMs)
    {
      if mode == Off {
        return 0.0;
      }
      if mode == Manual {
        return cv;
      }
      var dt := Seconds(dtMs);
      var e := Error(tuning, setpoint, value);
      var increment := Increment(tuning, e, dt);
      Accumulate(increment);
      Differentiate(e, dt);
      var demand := Demand(tuning, e, integral, derivative);
      output := Saturate(demand, e, increment);
      lastError, error, pv, cv := e, e, value, output;
    }

    method ChangeMode(m: Mode)
      modifies this`mode, this`integral, this`lastError
      ensures State() == SetMode(old(State()), m)
    {
      if mode == Manual && m == Auto {
        integral, lastError := cv, 0.0;
      }
      mode := m;
    }
  }
}
