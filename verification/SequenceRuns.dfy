/** What every run of a sequence keeps. */
module SequenceRuns {
  import opened Clock
  import opened Sequence

  /** A run: the sequence it has led to and the commands written since the last start. */
  datatype Run = Run(s: Seq, log: seq<Command>)

  lemma ApplyKeepsSound(s: Seq, ev: Event)
    requires Sound(s)
    ensures Sound(Apply(s, ev)) && Apply(s, ev).steps == s.steps && Apply(s, ev).timeout == s.timeout
  {
  }

  ghost function After(s: Seq, evs: seq<Event>): (r: Run)
    requires Sound(s)
    ensures Sound(r.s) && r.s.steps == s.steps && r.s.timeout == s.timeout
  {
    if evs == [] then Run(s, [])
    else
      var r := After(s, evs[..|evs| - 1]);
      var ev := evs[|evs| - 1];
      ApplyKeepsSound(r.s, ev);
      Run(Apply(r.s, ev), Log(r.s, r.log, ev))
  }

  predicate InRange(s: Seq) {
    0 <= s.current <= |s.steps|
  }

  /** The step about to be executed by this scan jumps outside the program. */
  predicate JumpsOut(s: Seq, now: nat)
    requires 0 <= s.current
  {
    LooksUp(s, now) && s.current < |s.steps| && s.steps[s.current].Goto?
    && !(0 <= s.steps[s.current].target <= |s.steps|)
  }

  /** A scan keeps the index in range exactly when it does not execute a jump to a target out of range. */
  lemma ScanInRangeIff(s: Seq, now: nat, sensors: Sensors)
    requires InRange(s)
    ensures InRange(Scanned(s, now, sensors)) <==> !JumpsOut(s, now)
  {
  }

  predicate JumpsInside(steps: seq<Step>) {
    forall i | 0 <= i < |steps| && steps[i].Goto? :: 0 <= steps[i].target <= |steps|
  }

  /** With jump targets in range the index stays in range over every run. */
  lemma {:induction false} IndexInRange(s: Seq, evs: seq<Event>)
    requires Sound(s) && InRange(s) && JumpsInside(s.steps)
    ensures InRange(After(s, evs).s)
  {
    if evs != [] {
      IndexInRange(s, evs[..|evs| - 1]);
    }
  }

  predicate Straight(steps: seq<Step>) {
    forall i | 0 <= i < |steps| :: !steps[i].Goto?
  }

  /** The commands of a program's output steps, in order. */
  function Outputs(steps: seq<Step>): seq<Command> {
    if steps == [] then []
    else
      var last := steps[|steps| - 1];
      Outputs(steps[..|steps| - 1]) + (if last.SetOutput? then [last.out] else [])
  }

  /** The total of a program's timed waits. */
  function Waits(steps: seq<Step>): nat {
    if steps == [] then 0
    else
      var last := steps[|steps| - 1];
      Waits(steps[..|steps| - 1]) + (if last.WaitTime? then last.duration else 0)
  }

  /** The index of the first End, or the length. */
  function FirstEnd(steps: seq<Step>): (k: nat)
    ensures k <= |steps|
    ensures forall i | 0 <= i < k :: !steps[i].End?
    ensures k < |steps| ==> steps[k].End?
  {
    if steps == [] || steps[0].End? then 0 else 1 + FirstEnd(steps[1..])
  }

  lemma {:induction false} OutputsPrefix(steps: seq<Step>, k: nat)
    requires k <= |steps|
    ensures Outputs(steps[..k]) <= Outputs(steps)
  {
    if k < |steps| {
      var front := steps[..|steps| - 1];
      assert front[..k] == steps[..k];
      OutputsPrefix(front, k);
    } else {
      assert steps[..k] == steps;
    }
  }

  lemma NextPrefix(steps: seq<Step>, k: nat)
    requires k < |steps|
    ensures Outputs(steps[..k + 1]) == Outputs(steps[..k]) + (if steps[k].SetOutput? then [steps[k].out] else [])
    ensures Waits(steps[..k + 1]) == Waits(steps[..k]) + (if steps[k].WaitTime? then steps[k].duration else 0)
  {
    assert steps[..k + 1][..k] == steps[..k];
  }

  /** Where a program without jumps comes to its end. */
  predicate EndsAt(steps: seq<Step>, end: nat) {
    && end <= |steps|
    && (forall i | 0 <= i < end :: !steps[i].End?)
    && (end < |steps| ==> steps[end].End?)
  }

  /** The commands written are those of the steps passed; no End has been passed; completion is at the end. */
  predicate InOrder(r: Run, end: nat) {
    && 0 <= r.s.current <= end <= |r.s.steps|
    && r.log == Outputs(r.s.steps[..r.s.current])
    && (r.s.status == Complete ==> r.s.current == end)
  }

  lemma ScanInOrder(r: Run, now: nat, sensors: Sensors, end: nat)
    requires Straight(r.s.steps) && InOrder(r, end) && EndsAt(r.s.steps, end)
    ensures InOrder(Run(Scanned(r.s, now, sensors), r.log + Written(r.s, now)), end)
  {
    var s := r.s;
    if s.status == Running && !Overdue(s, now) && s.current < |s.steps| {
      ExecuteInOrder(r, now, sensors, end);
    }
  }

  lemma ExecuteInOrder(r: Run, now: nat, sensors: Sensors, end: nat)
    requires Straight(r.s.steps) && InOrder(r, end) && EndsAt(r.s.steps, end)
    requires r.s.status == Running && !Overdue(r.s, now) && r.s.current < |r.s.steps|
    ensures InOrder(Run(StepDone(r.s, now, sensors), r.log + Written(r.s, now)), end)
  {
    var s := r.s;
    assert r.log + [] == r.log;
    if !s.steps[s.current].End? {
      AdvanceInOrder(r, now, end);
    }
  }

  lemma AdvanceInOrder(r: Run, now: nat, end: nat)
    requires InOrder(r, end) && EndsAt(r.s.steps, end) && r.s.status == Running
    requires r.s.current < |r.s.steps| && !r.s.steps[r.s.current].End?
    ensures var step := r.s.steps[r.s.current];
            InOrder(Run(Advanced(r.s, r.s.current + 1, now), r.log + (if step.SetOutput? then [step.out] else [])), end)
  {
    NextPrefix(r.s.steps, r.s.current);
  }

  lemma StepInOrder(r: Run, ev: Event, end: nat)
    requires Straight(r.s.steps) && InOrder(r, end) && EndsAt(r.s.steps, end)
    ensures InOrder(Run(Apply(r.s, ev), Log(r.s, r.log, ev)), end)
  {
    if ev.Scan? {
      ScanInOrder(r, ev.now, ev.sensors, end);
    }
  }

  lemma {:induction false} RunInOrder(s: Seq, evs: seq<Event>)
    requires Sound(s) && Straight(s.steps) && s.current == 0 && s.status != Complete
    ensures InOrder(After(s, evs), FirstEnd(s.steps))
  {
    if evs != [] {
      RunInOrder(s, evs[..|evs| - 1]);
      StepInOrder(After(s, evs[..|evs| - 1]), evs[|evs| - 1], FirstEnd(s.steps));
    }
  }

  /**
   * For a program without jumps, over any run of starts, stops, pauses, resumes and scans: the commands
   * written since the last start are a prefix of the output steps before the first End, and all of
   * them once the sequence is complete.
   */
  lemma OutputsAreAPrefix(s: Seq, evs: seq<Event>)
    requires Sound(s) && Straight(s.steps) && s.current == 0 && s.status != Complete
    ensures After(s, evs).log <= Outputs(s.steps[..FirstEnd(s.steps)])
    ensures After(s, evs).s.status == Complete ==> After(s, evs).log == Outputs(s.steps[..FirstEnd(s.steps)])
  {
    RunInOrder(s, evs);
    var r := After(s, evs);
    var program := s.steps[..FirstEnd(s.steps)];
    assert program[..r.s.current] == s.steps[..r.s.current];
    OutputsPrefix(program, r.s.current);
  }

  /** A scan at or past the deadline leaves no sequence running and writes nothing. */
  lemma OverdueNeverRuns(s: Seq, evs: seq<Event>, now: nat, sensors: Sensors)
    requires Sound(s)
    requires Overdue(After(s, evs).s, now)
    ensures After(s, evs + [Scan(now, sensors)]).s.status != Running
    ensures After(s, evs + [Scan(now, sensors)]).log == After(s, evs).log
  {
    assert (evs + [Scan(now, sensors)])[..|evs|] == evs;
  }

  /** The last clock reading of an event. */
  function Reading(ev: Event, was: nat): nat {
    match ev
    case Start(_, later) => later
    case Resume(now) => now
    case Scan(now, _) => now
    case _ => was
  }

  /** Clock readings that never go back from `was` and stay below the counter's width. */
  ghost predicate Forward(evs: seq<Event>, was: nat) {
    if evs == [] then was < WORD
    else
      var ev := evs[|evs| - 1];
      && Forward(evs[..|evs| - 1], was)
      && LastReading(evs[..|evs| - 1], was) <= Reading(ev, LastReading(evs[..|evs| - 1], was)) < WORD
      && (ev.Start? ==> LastReading(evs[..|evs| - 1], was) <= ev.now <= ev.later)
  }

  function LastReading(evs: seq<Event>, was: nat): nat {
    if evs == [] then was else Reading(evs[|evs| - 1], LastReading(evs[..|evs| - 1], was))
  }

  /** The waits of the steps passed have gone by since the start. */
  predicate Waited(s: Seq, clock: nat) {
    && 0 <= s.current <= |s.steps|
    && s.start <= s.stepStart <= clock < WORD
    && s.stepStart - s.start >= Waits(s.steps[..s.current])
  }

  lemma StepWaited(s: Seq, ev: Event, clock: nat)
    requires Sound(s) && Straight(s.steps) && Waited(s, clock)
    requires clock <= Reading(ev, clock) < WORD && (ev.Start? ==> clock <= ev.now <= ev.later)
    ensures Waited(Apply(s, ev), Reading(ev, clock))
  {
    if ev.Scan? {
      ScanWaited(s, ev.now, ev.sensors, clock);
    }
  }

  lemma ScanWaited(s: Seq, now: nat, sensors: Sensors, clock: nat)
    requires Straight(s.steps) && Waited(s, clock) && clock <= now < WORD
    ensures Waited(Scanned(s, now, sensors), now)
  {
    if s.current < |s.steps| {
      NextPrefix(s.steps, s.current);
      ElapsedForward(now, s.stepStart);
      assert !s.steps[s.current].Goto?;
    }
  }

  lemma {:induction false} RunWaited(s: Seq, evs: seq<Event>, was: nat)
    requires Sound(s) && Straight(s.steps) && s.current == 0 && s.start == s.stepStart == 0
    requires Forward(evs, was)
    ensures Waited(After(s, evs).s, LastReading(evs, was))
  {
    if evs != [] {
      var front := evs[..|evs| - 1];
      RunWaited(s, front, was);
      StepWaited(After(s, front).s, evs[|evs| - 1], LastReading(front, was));
    }
  }

  /**
   * Under a clock that does not go back, a program without jumps completes no earlier after its start
   * than the sum of its timed waits before the first End, however often it is paused.
   */
  lemma CompletesAfterWaits(s: Seq, evs: seq<Event>, was: nat)
    requires Sound(s) && Straight(s.steps) && s.current == 0 && s.status == Idle && s.start == s.stepStart == 0
    requires Forward(evs, was)
    requires After(s, evs).s.status == Complete
    ensures LastReading(evs, was) - After(s, evs).s.start >= Waits(s.steps[..FirstEnd(s.steps)])
  {
    RunInOrder(s, evs);
    RunWaited(s, evs, was);
  }
}
