/** What each step of a sequence waits for, and what each command does to a sequence until the next one. */
module SequenceStates {
  import opened Common
  import opened Sequence
  import opened SequenceRuns

  /** Milliseconds from `since` to `now` on the unsigned 64-bit clock. */
  function Passed(now: nat, since: nat): nat {
    (now - since) % 0x1_0000_0000_0000_0000
  }

  predicate OutOfTime(s: Seq, now: nat) {
    s.timeout > 0 && Passed(now, s.start) >= s.timeout
  }

  /** The sensor has a reading on the side of the threshold that the step waits for. */
  predicate Reached(step: Step, sensors: Sensors)
    requires step.WaitCondition?
  {
    var x := sensors(step.station, step.slot);
    x.Some? && ((step.condition == Above && x.value > step.threshold) || (step.condition == Below && x.value < step.threshold))
  }

  /** The step has waited longer for its condition than it may. */
  predicate GivesUp(s: Seq, step: Step, now: nat)
    requires step.WaitCondition?
  {
    step.timeout > 0 && Passed(now, s.stepStart) >= step.timeout
  }

  /** The scan executes a step. */
  predicate Executes(s: Seq, now: nat) {
    s.status == Running && !OutOfTime(s, now) && 0 <= s.current < |s.steps|
  }

  /** The scan leaves the current step for another one. */
  predicate Leaves(s: Seq, now: nat, sensors: Sensors)
    requires Executes(s, now)
  {
    var step := s.steps[s.current];
    && (step.WaitTime? ==> Passed(now, s.stepStart) >= step.duration)
    && (step.WaitCondition? ==> Reached(step, sensors) && !GivesUp(s, step, now))
    && !step.End?
  }

  /** Where it goes. */
  function NextIndex(s: Seq): int
    requires 0 <= s.current < |s.steps|
  {
    if s.steps[s.current].Goto? then s.steps[s.current].target else s.current + 1
  }

  /** A scan that executes a step moves on exactly when the step is done, and the clock of the next step starts. */
  lemma ScanMovesIff(s: Seq, now: nat, sensors: Sensors)
    requires Executes(s, now)
    ensures var t := Scanned(s, now, sensors);
            && t == s.(status := t.status, current := t.current, stepStart := t.stepStart)
            && if Leaves(s, now, sensors) then t.status == Running && t.current == NextIndex(s) && t.stepStart == now
               else t.current == s.current && t.stepStart == s.stepStart
  {
  }

  /** A scan faults a sequence exactly when it is out of time, or waits for a condition longer than it may. */
  lemma ScanFaultsIff(s: Seq, now: nat, sensors: Sensors)
    requires LooksUp(s, now) ==> 0 <= s.current
    ensures s.status != Faulted ==>
            (Scanned(s, now, sensors).status == Faulted <==>
             s.status == Running
             && (OutOfTime(s, now)
                 || (s.current < |s.steps| && s.steps[s.current].WaitCondition? && GivesUp(s, s.steps[s.current], now))))
  {
  }

  /** And completes it exactly when it is in time and at an End or past the last step. */
  lemma ScanCompletesIff(s: Seq, now: nat, sensors: Sensors)
    requires LooksUp(s, now) ==> 0 <= s.current
    ensures s.status != Complete ==>
            (Scanned(s, now, sensors).status == Complete <==>
             s.status == Running && !OutOfTime(s, now) && (s.current >= |s.steps| || s.steps[s.current].End?))
  {
  }

  /** What a scan writes: the command of an output step that it executes, otherwise nothing. */
  lemma ScanWritesIff(s: Seq, now: nat)
    requires LooksUp(s, now) ==> 0 <= s.current
    ensures Written(s, now) ==
            if Executes(s, now) && s.steps[s.current].SetOutput? then [s.steps[s.current].out] else []
  {
  }

  // --- from one command to the next ---

  /** Nothing happens to the sequence from `r` to `t`. */
  predicate Rests(r: Run, t: Run) {
    t.s == r.s && t.log == r.log
  }

  ghost function From(r: Run, evs: seq<Event>): (t: Run)
    requires Sound(r.s)
    ensures Sound(t.s) && t.s.steps == r.s.steps
  {
    if evs == [] then r
    else
      var front, ev := From(r, evs[..|evs| - 1]), evs[|evs| - 1];
      ApplyKeepsSound(front.s, ev);
      Run(Apply(front.s, ev), Log(front.s, front.log, ev))
  }

  /** A sequence that is not running rests until it is started, stopped or resumed. */
  lemma {:induction false} RestsUntil(r: Run, evs: seq<Event>)
    requires Sound(r.s) && r.s.status != Running
    requires forall k | 0 <= k < |evs| :: evs[k].Pause? || evs[k].Scan?
    ensures Rests(r, From(r, evs))
  {
    if evs != [] {
      RestsUntil(r, evs[..|evs| - 1]);
    }
  }

  /** A stop ends a sequence whatever it was doing: it writes nothing and stays where it is until the next start. */
  lemma {:induction false} StoppedUntilStart(r: Run, evs: seq<Event>)
    requires Sound(r.s) && forall k | 0 <= k < |evs| :: !evs[k].Start?
    ensures var t := From(Run(Apply(r.s, Stop), r.log), evs);
            t.s.status == Aborted && t.s.current == r.s.current && t.log == r.log
  {
    if evs != [] {
      StoppedUntilStart(r, evs[..|evs| - 1]);
    }
  }

  /** A pause holds a running sequence at its step, and a resume goes on there with the clock of the step restarted. */
  lemma PauseThenResume(r: Run, evs: seq<Event>, now: nat)
    requires Sound(r.s) && r.s.status == Running
    requires forall k | 0 <= k < |evs| :: evs[k].Pause? || evs[k].Scan?
    ensures var t := From(Run(Apply(r.s, Pause), r.log), evs);
            && t.s.status == Paused && t.log == r.log
            && Apply(t.s, Resume(now)) == r.s.(stepStart := now)
  {
    RestsUntil(Run(Apply(r.s, Pause), r.log), evs);
  }

  /** A start takes an enabled sequence that is not running to its first step, with both clocks set; no other start
      does anything. */
  lemma StartTakes(r: Run, now: nat, later: nat)
    requires Sound(r.s)
    ensures var t := From(r, [Start(now, later)]);
            if r.s.enabled && r.s.status != Running then
              && t.s.status == Running && t.s.current == 0 && t.s.start == now && t.s.stepStart == later && t.log == []
              && t.s == r.s.(status := t.s.status, current := t.s.current, start := t.s.start, stepStart := t.s.stepStart)
            else t == r
  {
    var ev: Event := Start(now, later);
    assert [ev][..0] == [];
    assert From(r, []) == r;
  }

  /** A resume does nothing to a sequence that is not paused, a pause nothing to one that is not running. */
  lemma OnlyThen(s: Seq, now: nat)
    requires Sound(s)
    ensures s.status != Paused ==> Apply(s, Resume(now)) == s
    ensures s.status != Running ==> Apply(s, Pause) == s
  {
  }
}
