/**
 * One sequence of the sequence engine: a program of at most 64 steps, run one step per scan.  The
 * registry's sensors are a parameter of each scan; the actuator commands a scan writes are returned.
 */
module Sequence {
  import opened Common
  import opened Clock

  const MAX_SEQUENCE_STEPS := 64

  datatype Status = Idle | Running | Paused | Complete | Faulted | Aborted

  datatype Condition = Above | Below | Equal | NotEqual

  datatype Command = Command(station: string, slot: int, command: bv8, duty: bv8)

  datatype Step =
    | SetOutput(out: Command)
    | WaitTime(duration: nat)
    | WaitCondition(station: string, slot: int, condition: Condition, threshold: real, timeout: nat)
    | WaitLevel
    | ParallelStart
    | ParallelEnd
    | Goto(target: int)
    | End

  datatype Seq = Seq(id: int, enabled: bool, status: Status, steps: seq<Step>, current: int,
                     stepStart: nat, start: nat, timeout: nat, stepTimeout: nat)

  type Sensors = (string, int) -> Option<real>

  /** A sequence whose index can be used to look up its step. */
  predicate Sound(s: Seq) {
    0 <= s.current && forall i | 0 <= i < |s.steps| && s.steps[i].Goto? :: 0 <= s.steps[i].target
  }

  function Created(id: int, steps: seq<Step>, timeout: nat): Seq {
    Seq(id, true, Idle, steps, 0, 0, 0, timeout, 0)
  }

  predicate Overdue(s: Seq, now: nat) {
    s.timeout > 0 && Elapsed(now, s.start) >= s.timeout
  }

  predicate Met(step: Step, sensors: Sensors)
    requires step.WaitCondition?
  {
    var reading := sensors(step.station, step.slot);
    && reading.Some?
    && match step.condition
       case Above => reading.value > step.threshold
       case Below => reading.value < step.threshold
       case _ => false
  }

  function Advanced(s: Seq, next: int, now: nat): Seq {
    s.(current := next, stepStart := now)
  }

  /** The effect of the current step of a running sequence. */
  function StepDone(s: Seq, now: nat, sensors: Sensors): Seq
    requires 0 <= s.current < |s.steps|
  {
    var step := s.steps[s.current];
    match step
    case WaitTime(d) => if Elapsed(now, s.stepStart) >= d then Advanced(s, s.current + 1, now) else s
    case WaitCondition(_, _, _, _, timeout) =>
      if timeout > 0 && Elapsed(now, s.stepStart) >= timeout then s.(status := Faulted)
      else if Met(step, sensors) then Advanced(s, s.current + 1, now)
      else s
    case Goto(t) => Advanced(s, t, now)
    case End => s.(status := Complete)
    case _ => Advanced(s, s.current + 1, now)
  }

  /** A scan looks up the current step of a running sequence in time, if the index is below the length. */
  predicate LooksUp(s: Seq, now: nat) {
    s.status == Running && !Overdue(s, now)
  }

  /** One scan of a sequence. */
  function Scanned(s: Seq, now: nat, sensors: Sensors): Seq
    requires LooksUp(s, now) ==> 0 <= s.current
  {
    if s.status != Running then s
    else if Overdue(s, now) then s.(status := Faulted)
    else if s.current >= |s.steps| then s.(status := Complete)
    else StepDone(s, now, sensors)
  }

  /** The actuator commands the scan writes. */
  function Written(s: Seq, now: nat): seq<Command>
    requires LooksUp(s, now) ==> 0 <= s.current
  {
    if LooksUp(s, now) && s.current < |s.steps| && s.steps[s.current].SetOutput?
    then [s.steps[s.current].out] else []
  }

  predicate Starts(s: Seq) {
    s.enabled && s.status != Running
  }

  /** Starting reads the clock twice. */
  function Started(s: Seq, now: nat, later: nat): Seq {
    if Starts(s) then s.(status := Running, current := 0, start := now, stepStart := later) else s
  }

  function Stopped(s: Seq): Seq {
    s.(status := Aborted)
  }

  function Suspended(s: Seq): Seq {
    if s.status == Running then s.(status := Paused) else s
  }

  function Resumed(s: Seq, now: nat): Seq {
    if s.status == Paused then s.(status := Running, stepStart := now) else s
  }

  datatype Event =
    | Start(now: nat, later: nat)
    | Stop
    | Pause
    | Resume(now: nat)
    | Scan(now: nat, sensors: Sensors)

  function Apply(s: Seq, ev: Event): Seq
    requires ev.Scan? && LooksUp(s, ev.now) ==> 0 <= s.current
  {
    match ev
    case Start(now, later) => Started(s, now, later)
    case Stop => Stopped(s)
    case Pause => Suspended(s)
    case Resume(now) => Resumed(s, now)
    case Scan(now, sensors) => Scanned(s, now, sensors)
  }

  /** The commands written since the last start, after one more event. */
  function Log(s: Seq, log: seq<Command>, ev: Event): seq<Command>
    requires ev.Scan? && LooksUp(s, ev.now) ==> 0 <= s.current
  {
    match ev
    case Start(_, _) => if Starts(s) then [] else log
    case Scan(now, _) => log + Written(s, now)
    case _ => log
  }
}
