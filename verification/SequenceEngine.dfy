/** The sequence engine: a table of sequences searched by id and scanned in order. */
module SequenceEngine {
  import opened Common
  import opened Status
  import opened Sequence
  import Clock

  const MAX_SEQUENCES := 32

  /** The commands the sequences write in one scan, in table order. */
  function AllWritten(ss: seq<Seq>, now: nat): seq<Command>
    requires CanScan(ss, now)
  {
    if ss == [] then [] else AllWritten(ss[..|ss| - 1], now) + Written(ss[|ss| - 1], now)
  }

  /** No scan looks up a step below zero. */
  predicate CanScan(ss: seq<Seq>, now: nat) {
    forall s | s in ss && LooksUp(s, now) :: 0 <= s.current
  }

  /** A scan keeps a sequence in order. */
  lemma ScanKeeps(s: Seq, now: nat, sensors: Sensors)
    requires LooksUp(s, now) ==> 0 <= s.current
    ensures var t := Scanned(s, now, sensors); (Sound(s) ==> Sound(t)) && t.id == s.id && t.steps == s.steps
  {
  }

  lemma WrittenNext(ss: seq<Seq>, i: nat, now: nat)
    requires i < |ss| && CanScan(ss, now)
    ensures CanScan(ss[..i], now) && CanScan(ss[..i + 1], now)
    ensures AllWritten(ss[..i + 1], now) == AllWritten(ss[..i], now) + Written(ss[i], now)
  {
    assert ss[..i + 1][..i] == ss[..i];
    assert ss[..i + 1][i] == ss[i];
  }

  /** The first `i` sequences have taken their step, the others have not. */
  ghost predicate Progress(was: seq<Seq>, ss: seq<Seq>, i: nat, now: nat, sensors: Sensors)
    requires CanScan(was, now)
  {
    && |ss| == |was| && i <= |ss|
    && (forall k | 0 <= k < i :: ss[k] == Scanned(was[k], now, sensors))
    && (forall k | i <= k < |ss| :: ss[k] == was[k])
  }

  class Engine {
    var hasRegistry: bool
    var sequences: seq<Seq>
    var nextId: int
    /** The actuator commands sent to the registry so far. */
    var commands: seq<Command>

    ghost predicate Valid()
      reads this
    {
      && |sequences| <= MAX_SEQUENCES
      && (forall s | s in sequences :: s.id < nextId && |s.steps| <= MAX_SEQUENCE_STEPS)
      && (forall i, j | 0 <= i < j < |sequences| :: sequences[i].id != sequences[j].id)
    }

    /** Every jump goes to zero or above, and so does every index. */
    ghost predicate InOrder()
      reads this
    {
      forall i | 0 <= i < |sequences| :: Sound(sequences[i])
    }

    constructor ()
      ensures Valid() && InOrder() && sequences == [] && commands == [] && !hasRegistry
    {
      hasRegistry, sequences, nextId, commands := false, [], 1, [];
    }

    /** The position of an id, or -1. */
    method Find(id: int) returns (i: int)
      ensures -1 <= i < |sequences|
      ensures i >= 0 ==> sequences[i].id == id
      ensures i < 0 ==> forall s | s in sequences :: s.id != id
    {
      i := 0;
      while i < |sequences|
        invariant 0 <= i <= |sequences|
        invariant forall k | 0 <= k < i :: sequences[k].id != id
      {
        if sequences[i].id == id {
          return;
        }
        i := i + 1;
      }
      i := -1;
    }

    method Create() returns (code: Code, id: int)
      requires Valid()
      modifies this`sequences, this`nextId
      ensures Valid() && (old(InOrder()) ==> InOrder())
      ensures code == Ok <==> |old(sequences)| < MAX_SEQUENCES
      ensures code == Ok ==> sequences == old(sequences) + [Created(id, [], 0)]
      ensures code == Ok ==> forall s | s in old(sequences) :: s.id != id
      ensures code != Ok ==> code == InvalidParam && sequences == old(sequences) && nextId == old(nextId)
    {
      if |sequences| >= MAX_SEQUENCES {
        return InvalidParam, 0;
      }
      id := nextId;
      nextId := nextId + 1;
      sequences := sequences + [Created(id, [], 0)];
      code := Ok;
    }

    method AddStep(id: int, step: Step) returns (code: Code)
      requires Valid()
      modifies this`sequences
      ensures Valid() && |sequences| == |old(sequences)|
      ensures old(InOrder()) && (step.Goto? ==> step.target >= 0) ==> InOrder()
      ensures forall i | 0 <= i < |sequences| ::
                sequences[i] == if code == Ok && old(sequences[i].id) == id
                                then old(sequences[i]).(steps := old(sequences[i].steps) + [step])
                                else old(sequences[i])
      ensures code == NotFound <==> forall s | s in old(sequences) :: s.id != id
      ensures code == Full <==>
              exists i | 0 <= i < |old(sequences)| :: old(sequences[i].id) == id && |old(sequences[i].steps)| == MAX_SEQUENCE_STEPS
      ensures code in {Ok, NotFound, Full}
    {
      var i := Find(id);
      if i < 0 {
        return NotFound;
      }
      if |sequences[i].steps| >= MAX_SEQUENCE_STEPS {
        return Full;
      }
      var s := sequences[i];
      sequences := sequences[i := s.(steps := s.steps + [step])];
      code := Ok;
    }

    /** What a command to one sequence does to the table: only that sequence changes. */
    twostate predicate Commanded(id: int, ev: Event)
      requires !ev.Scan?
      reads this
    {
      && |sequences| == |old(sequences)|
      && (old(InOrder()) ==> InOrder())
      && forall i | 0 <= i < |sequences| ::
           sequences[i] == if old(sequences[i].id) == id then Apply(old(sequences[i]), ev) else old(sequences[i])
    }

    method Start(id: int, now: nat, later: nat) returns (code: Code)
      requires Valid()
      modifies this`sequences
      ensures Valid() && Commanded(id, Event.Start(now, later))
      ensures code == NotFound <==> forall s | s in old(sequences) :: s.id != id
      ensures code == Ok <==> exists i | 0 <= i < |old(sequences)| :: old(sequences[i].id) == id && Starts(old(sequences[i]))
    {
      var i := Find(id);
      if i < 0 {
        return NotFound;
      }
      var s := sequences[i];
      if !s.enabled {
        return Permission;
      }
      if s.status == Running {
        return Busy;
      }
      sequences := sequences[i := s.(status := Running, current := 0, start := now, stepStart := later)];
      code := Ok;
    }

    method Stop(id: int) returns (code: Code)
      requires Valid()
      modifies this`sequences
      ensures Valid() && Commanded(id, Event.Stop)
      ensures code == if exists s | s in old(sequences) :: s.id == id then Ok else NotFound
    {
      var i := Find(id);
      if i < 0 {
        return NotFound;
      }
      sequences := sequences[i := sequences[i].(status := Aborted)];
      code := Ok;
    }

    method Pause(id: int) returns (code: Code)
      requires Valid()
      modifies this`sequences
      ensures Valid() && Commanded(id, Event.Pause)
      ensures code == Ok <==> exists i | 0 <= i < |old(sequences)| :: old(sequences[i].id) == id && old(sequences[i].status) == Running
      ensures code == NotFound <==> forall s | s in old(sequences) :: s.id != id
    {
      var i := Find(id);
      if i < 0 {
        return NotFound;
      }
      if sequences[i].status != Running {
        return NotInitialized;
      }
      sequences := sequences[i := sequences[i].(status := Paused)];
      code := Ok;
    }

    method Resume(id: int, now: nat) returns (code: Code)
      requires Valid()
      modifies this`sequences
      ensures Valid() && Commanded(id, Event.Resume(now))
      ensures code == Ok <==> exists i | 0 <= i < |old(sequences)| :: old(sequences[i].id) == id && old(sequences[i].status) == Paused
      ensures code == NotFound <==> forall s | s in old(sequences) :: s.id != id
    {
      var i := Find(id);
      if i < 0 {
        return NotFound;
      }
      if sequences[i].status != Paused {
        return NotInitialized;
      }
      sequences := sequences[i := sequences[i].(status := Running, stepStart := now)];
      code := Ok;
    }

    method SetTimeouts(id: int, timeout: nat, stepTimeout: nat) returns (code: Code)
      requires Valid()
      modifies this`sequences
      ensures Valid() && |sequences| == |old(sequences)| && (old(InOrder()) ==> InOrder())
      ensures forall i | 0 <= i < |sequences| ::
                sequences[i] == if old(sequences[i].id) == id then old(sequences[i]).(timeout := timeout, stepTimeout := stepTimeout)
                                else old(sequences[i])
      ensures code == if exists s | s in old(sequences) :: s.id == id then Ok else NotFound
    {
      var i := Find(id);
      if i < 0 {
        return NotFound;
      }
      sequences := sequences[i := sequences[i].(timeout := timeout, stepTimeout := stepTimeout)];
      code := Ok;
    }

    /** Execute the current step of a running sequence; its command, if any, goes to the registry. */
    method Execute(start: Seq, now: nat, sensors: Sensors) returns (s: Seq)
      requires start.status == Running && 0 <= start.current < |start.steps|
      modifies this`commands
      ensures s == StepDone(start, now, sensors)
      ensures commands == old(commands) + (if start.steps[start.current].SetOutput? then [start.steps[start.current].out] else [])
    {
      s := start;
      var step := s.steps[s.current];
      var done := false;
      match step {
        case SetOutput(out) =>
          commands := commands + [out];
          done := true;
        case WaitTime(d) =>
          done := Clock.Elapsed(now, s.stepStart) >= d;
        case WaitCondition(_, _, _, _, timeout) =>
          done := Met(step, sensors);
          if timeout > 0 && Clock.Elapsed(now, s.stepStart) >= timeout {
            s := s.(status := Faulted);
          }
        case Goto(t) =>
          s := s.(current := t - 1);
          done := true;
        case End =>
          s := s.(status := Complete);
        case _ =>
          done := true;
      }
      if done && s.status == Running {
        s := s.(current := s.current + 1, stepStart := now);
      }
    }

    /** One scan of one sequence. */
    method ProcessOne(i: nat, now: nat, sensors: Sensors)
      requires Valid() && i < |sequences| && (LooksUp(sequences[i], now) ==> 0 <= sequences[i].current)
      modifies this`sequences, this`commands
      ensures Valid() && (old(InOrder()) ==> InOrder())
      ensures sequences == old(sequences)[i := Scanned(old(sequences[i]), now, sensors)]
      ensures commands == old(commands) + Written(old(sequences[i]), now)
    {
      var s := sequences[i];
      ScanKeeps(s, now, sensors);
      if s.status != Running {
        return;
      }
      if Overdue(s, now) {
        s := s.(status := Faulted);
      } else if s.current >= |s.steps| {
        s := s.(status := Complete);
      } else {
        s := Execute(s, now, sensors);
      }
      sequences := sequences[i := s];
    }

    /** Every sequence takes one step; the commands go to the registry in table order. */
    method Process(now: nat, sensors: Sensors) returns (code: Code)
      requires Valid() && CanScan(sequences, now)
      modifies this`sequences, this`commands
      ensures Valid() && |sequences| == |old(sequences)| && (old(InOrder()) ==> InOrder())
      ensures code == if hasRegistry then Ok else NotInitialized
      ensures !hasRegistry ==> sequences == old(sequences) && commands == old(commands)
      ensures hasRegistry ==> forall i | 0 <= i < |sequences| :: sequences[i] == Scanned(old(sequences[i]), now, sensors)
      ensures hasRegistry ==> commands == old(commands) + AllWritten(old(sequences), now)
    {
      if !hasRegistry {
        return NotInitialized;
      }
      ghost var was := sequences;
      assert was[..0] == [];
      for i := 0 to |sequences|
        invariant Valid() && (old(InOrder()) ==> InOrder()) && Progress(was, sequences, i, now, sensors)
        invariant CanScan(was[..i], now) && commands == old(commands) + AllWritten(was[..i], now)
      {
        ProcessOne(i, now, sensors);
        WrittenNext(was, i, now);
        Regroup(old(commands), AllWritten(was[..i], now), Written(was[i], now));
      }
      assert was[..|was|] == was;
      code := Ok;
    }
  }
}
