/** When rules raise alarms, over whole runs: the delay counts from the first scan that saw the condition met, with
    no scan since that saw it unmet. */
module AlarmRaises {
  import opened Alarms
  import opened AlarmRuns
  import opened AlarmAccounts
  import opened AlarmOrphans
  import opened AlarmScans

  // --- runs as sequences of states ---

  ghost predicate Moves(evs: seq<Event>, ss: seq<State>, k: nat)
    requires k < |evs| && |ss| == |evs| + 1
    ensures Moves(evs, ss, k) ==> ss[k + 1] == Apply(ss[k], evs[k])
  {
    ss[k + 1] == Apply(ss[k], evs[k])
  }

  /** The states before and after each event of a run of a fresh manager. */
  ghost predicate Trace(evs: seq<Event>, ss: seq<State>)
    ensures Trace(evs, ss) ==> |ss| == |evs| + 1
  {
    |ss| == |evs| + 1 && ss[0] == INITIAL && AllTimed(evs) && forall k: nat | k < |evs| :: Moves(evs, ss, k)
  }

  lemma RunIsTrace(evs: seq<Event>)
    requires AllTimed(evs)
    ensures Trace(evs, seq(|evs| + 1, k requires 0 <= k <= |evs| => After(evs[..k]).s))
  {
    var ss := seq(|evs| + 1, k requires 0 <= k <= |evs| => After(evs[..k]).s);
    assert evs[..0] == [];
    forall k: nat | k < |evs| ensures Moves(evs, ss, k) {
      assert evs[..k + 1][..k] == evs[..k];
    }
  }

  lemma {:induction false} TraceKeeps(evs: seq<Event>, ss: seq<State>, k: nat)
    requires Trace(evs, ss) && k <= |evs|
    ensures Inv(ss[k])
  {
    if k == 0 {
      StartInv();
    } else {
      TraceKeeps(evs, ss, k - 1);
      assert Moves(evs, ss, k - 1) && Timed(evs[k - 1]);
      EventKeeps(ss[k - 1], evs[k - 1]);
    }
  }

  // --- what scans have seen ---

  /** Event `k` is a scan that evaluates the rule and sees its condition met. */
  ghost predicate MetAt(evs: seq<Event>, ss: seq<State>, k: nat, rule: nat)
    requires k < |evs| && |ss| == |evs| + 1
    ensures MetAt(evs, ss, k, rule) ==> evs[k].Process?
  {
    evs[k].Process? && exists i: nat | i < |ss[k].rules| ::
      ss[k].rules[i].id == rule && SeesMet(ss[k], i, evs[k].now, evs[k].sensors)
  }

  /** Event `k` is a scan that evaluates the rule and sees its condition unmet. */
  ghost predicate UnmetAt(evs: seq<Event>, ss: seq<State>, k: nat, rule: nat)
    requires k < |evs| && |ss| == |evs| + 1
    ensures UnmetAt(evs, ss, k, rule) ==> evs[k].Process?
  {
    evs[k].Process? && exists i: nat | i < |ss[k].rules| ::
      ss[k].rules[i].id == rule && SeesUnmet(ss[k], i, evs[k].now, evs[k].sensors)
  }

  /** Some scan after `q` and before `j` saw the condition unmet. */
  ghost predicate Interrupted(evs: seq<Event>, ss: seq<State>, q: nat, j: nat, rule: nat)
    requires j <= |evs| && |ss| == |evs| + 1
    ensures Interrupted(evs, ss, q, j, rule) ==> q < j
  {
    exists m: nat | q < m < j :: UnmetAt(evs, ss, m, rule)
  }

  /** At `j` the condition has been met since `q`: seen met there, not unmet since, and `q` is the first such scan. */
  ghost predicate MetSince(evs: seq<Event>, ss: seq<State>, q: nat, j: nat, rule: nat)
    requires j <= |evs| && |ss| == |evs| + 1
    ensures MetSince(evs, ss, q, j, rule) ==> q < j && evs[q].Process?
  {
    && q < j && MetAt(evs, ss, q, rule) && !Interrupted(evs, ss, q, j, rule)
    && forall p: nat | p < q && MetAt(evs, ss, p, rule) :: Interrupted(evs, ss, p, q, rule)
  }

  /** Every sight of the condition met has been interrupted. */
  ghost predicate Quiet(evs: seq<Event>, ss: seq<State>, j: nat, rule: nat)
    requires j <= |evs| && |ss| == |evs| + 1
    ensures j == 0 ==> Quiet(evs, ss, j, rule)
  {
    forall q: nat | q < j && MetAt(evs, ss, q, rule) :: Interrupted(evs, ss, q, j, rule)
  }

  /** The clock of a rule says since when its condition has been met, 0 if it is not. */
  ghost predicate Clocked(evs: seq<Event>, ss: seq<State>, j: nat, r: Rule)
    requires j <= |evs| && |ss| == |evs| + 1
  {
    if r.start == 0 then Quiet(evs, ss, j, r.id)
    else exists q: nat :: MetSince(evs, ss, q, j, r.id) && r.start == evs[q].now
  }

  lemma InterruptedNext(evs: seq<Event>, ss: seq<State>, q: nat, j: nat, rule: nat)
    requires j < |evs| && |ss| == |evs| + 1
    ensures Interrupted(evs, ss, q, j + 1, rule) <==>
            Interrupted(evs, ss, q, j, rule) || (q < j && UnmetAt(evs, ss, j, rule))
  {
  }

  /** An event that does not evaluate the rule leaves what has been seen as it was. */
  lemma NotSeen(evs: seq<Event>, ss: seq<State>, j: nat, r: Rule, r': Rule)
    requires j < |evs| && |ss| == |evs| + 1 && Clocked(evs, ss, j, r) && r'.id == r.id && r'.start == r.start
    requires !MetAt(evs, ss, j, r.id) && !UnmetAt(evs, ss, j, r.id)
    ensures Clocked(evs, ss, j + 1, r')
  {
    forall q: nat ensures Interrupted(evs, ss, q, j + 1, r.id) <==> Interrupted(evs, ss, q, j, r.id) {
      InterruptedNext(evs, ss, q, j, r.id);
    }
    if r.start != 0 {
      var q: nat :| MetSince(evs, ss, q, j, r.id) && r.start == evs[q].now;
      assert MetSince(evs, ss, q, j + 1, r.id);
    }
  }

  lemma SeenUnmet(evs: seq<Event>, ss: seq<State>, j: nat, rule: nat)
    requires j < |evs| && |ss| == |evs| + 1 && UnmetAt(evs, ss, j, rule) && !MetAt(evs, ss, j, rule)
    ensures Quiet(evs, ss, j + 1, rule)
  {
    forall q: nat | q < j + 1 && MetAt(evs, ss, q, rule) ensures Interrupted(evs, ss, q, j + 1, rule) {
      InterruptedNext(evs, ss, q, j, rule);
    }
  }

  lemma SeenMetFirst(evs: seq<Event>, ss: seq<State>, j: nat, rule: nat)
    requires j < |evs| && |ss| == |evs| + 1 && MetAt(evs, ss, j, rule) && Quiet(evs, ss, j, rule)
    ensures MetSince(evs, ss, j, j + 1, rule)
  {
  }

  lemma SeenMetAgain(evs: seq<Event>, ss: seq<State>, q: nat, j: nat, rule: nat)
    requires j < |evs| && |ss| == |evs| + 1 && MetSince(evs, ss, q, j, rule) && !UnmetAt(evs, ss, j, rule)
    ensures MetSince(evs, ss, q, j + 1, rule)
  {
    InterruptedNext(evs, ss, q, j, rule);
  }

  // --- the clock of every rule ---

  /** Rules are numbered upwards: what a scan has seen of a rule, it has seen of a rule numbered before. */
  lemma {:induction false} NumbersGrow(evs: seq<Event>, ss: seq<State>, k: nat, j: nat)
    requires Trace(evs, ss) && k <= j <= |evs|
    ensures ss[k].nextRule <= ss[j].nextRule
  {
    if k < j {
      NumbersGrow(evs, ss, k, j - 1);
      assert Moves(evs, ss, j - 1);
      NextRuleGrows(ss[j - 1], evs[j - 1]);
    }
  }

  lemma NextRuleGrows(s: State, ev: Event)
    ensures s.nextRule <= Apply(s, ev).nextRule
  {
    if ev.Process? {
      var p := (t: State) => t.nextRule == s.nextRule;
      ScanInduction(p, s, |s.rules|, ev.now, ev.sensors);
    }
  }

  lemma SeenIsNumbered(evs: seq<Event>, ss: seq<State>, k: nat, rule: nat)
    requires Trace(evs, ss) && k < |evs|
    ensures MetAt(evs, ss, k, rule) ==> rule < ss[k].nextRule
  {
    TraceKeeps(evs, ss, k);
  }

  /** Of a new rule nothing has been seen. */
  lemma NewIsQuiet(evs: seq<Event>, ss: seq<State>, j: nat, rule: nat)
    requires Trace(evs, ss) && j < |evs| && rule == ss[j].nextRule && !evs[j].Process?
    ensures Quiet(evs, ss, j + 1, rule)
  {
    forall q: nat | q <= j ensures !MetAt(evs, ss, q, rule) {
      NumbersGrow(evs, ss, q, j);
      SeenIsNumbered(evs, ss, q, rule);
    }
  }

  lemma MetAtIff(evs: seq<Event>, ss: seq<State>, j: nat, i: nat)
    requires Trace(evs, ss) && j < |evs| && evs[j].Process? && i < |ss[j].rules|
    ensures MetAt(evs, ss, j, ss[j].rules[i].id) <==> SeesMet(ss[j], i, evs[j].now, evs[j].sensors)
    ensures UnmetAt(evs, ss, j, ss[j].rules[i].id) <==> SeesUnmet(ss[j], i, evs[j].now, evs[j].sensors)
  {
    TraceKeeps(evs, ss, j);
  }

  lemma ScanClocks(evs: seq<Event>, ss: seq<State>, j: nat, i: nat)
    requires Trace(evs, ss) && j < |evs| && evs[j].Process? && i < |ss[j].rules| && Clocked(evs, ss, j, ss[j].rules[i])
    ensures |ss[j + 1].rules| == |ss[j].rules| && Clocked(evs, ss, j + 1, ss[j + 1].rules[i])
  {
    var s, r := ss[j], ss[j].rules[i];
    TraceKeeps(evs, ss, j);
    assert Moves(evs, ss, j) && Timed(evs[j]);
    ScanClock(s, evs[j].now, evs[j].sensors, i);
    MetAtIff(evs, ss, j, i);
    ClockAfter(evs, ss, j, r, ss[j + 1].rules[i]);
  }

  /** The clock of a rule follows what an event has seen of it. */
  lemma ClockAfter(evs: seq<Event>, ss: seq<State>, j: nat, r: Rule, r': Rule)
    requires j < |evs| && |ss| == |evs| + 1 && Clocked(evs, ss, j, r) && r'.id == r.id
    requires evs[j].Process? && evs[j].now > 0 && !(MetAt(evs, ss, j, r.id) && UnmetAt(evs, ss, j, r.id))
    requires r'.start == if UnmetAt(evs, ss, j, r.id) then 0
                         else if MetAt(evs, ss, j, r.id) && r.start == 0 then evs[j].now
                         else r.start
    ensures Clocked(evs, ss, j + 1, r')
  {
    if UnmetAt(evs, ss, j, r.id) {
      SeenUnmet(evs, ss, j, r.id);
    } else if !MetAt(evs, ss, j, r.id) {
      NotSeen(evs, ss, j, r, r');
    } else if r.start == 0 {
      SeenMetFirst(evs, ss, j, r.id);
    } else {
      var q: nat :| MetSince(evs, ss, q, j, r.id) && r.start == evs[q].now;
      SeenMetAgain(evs, ss, q, j, r.id);
    }
  }

  /** A call that is not a scan keeps the clock of every rule, and a new rule has none. */
  lemma RulesFrom(s: State, ev: Event, i: nat)
    requires !ev.Process? && i < |Apply(s, ev).rules|
    ensures var r' := Apply(s, ev).rules[i];
            || (exists k: nat | k < |s.rules| :: s.rules[k].id == r'.id && s.rules[k].start == r'.start)
            || (r'.id == s.nextRule && r'.start == 0)
  {
    var r' := Apply(s, ev).rules[i];
    if ev.DeleteRule? {
      var d := RuleAt(s.rules, ev.rule);
      var k: nat := if d < 0 || i < d then i else i + 1;
      assert s.rules[k] == r';
    } else if i < |s.rules| {
      assert s.rules[i].id == r'.id && s.rules[i].start == r'.start;
    }
  }

  ghost predicate AllClocked(evs: seq<Event>, ss: seq<State>, j: nat)
    requires j <= |evs| && |ss| == |evs| + 1
  {
    forall i: nat | i < |ss[j].rules| :: Clocked(evs, ss, j, ss[j].rules[i])
  }

  lemma CallClocks(evs: seq<Event>, ss: seq<State>, j: nat, i: nat)
    requires Trace(evs, ss) && j < |evs| && !evs[j].Process? && i < |ss[j + 1].rules| && AllClocked(evs, ss, j)
    ensures Clocked(evs, ss, j + 1, ss[j + 1].rules[i])
  {
    assert Moves(evs, ss, j);
    var s, r' := ss[j], ss[j + 1].rules[i];
    RulesFrom(s, evs[j], i);
    if k: nat :| k < |s.rules| && s.rules[k].id == r'.id && s.rules[k].start == r'.start {
      NotSeen(evs, ss, j, s.rules[k], r');
    } else {
      NewIsQuiet(evs, ss, j, r'.id);
    }
  }

  lemma {:induction false} RunClocks(evs: seq<Event>, ss: seq<State>, j: nat)
    requires Trace(evs, ss) && j <= |evs|
    ensures AllClocked(evs, ss, j)
  {
    if j > 0 {
      RunClocks(evs, ss, j - 1);
      StepClocks(evs, ss, j - 1);
    }
  }

  lemma StepClocks(evs: seq<Event>, ss: seq<State>, j: nat)
    requires Trace(evs, ss) && j < |evs| && AllClocked(evs, ss, j)
    ensures AllClocked(evs, ss, j + 1)
  {
    var n := j + 1;
    forall i: nat | i < |ss[n].rules| ensures Clocked(evs, ss, n, ss[n].rules[i]) {
      if evs[j].Process? {
        SameCount(evs, ss, j);
        ScanClocks(evs, ss, j, i);
      } else {
        CallClocks(evs, ss, j, i);
      }
    }
  }

  lemma SameCount(evs: seq<Event>, ss: seq<State>, j: nat)
    requires Trace(evs, ss) && j < |evs| && evs[j].Process?
    ensures |ss[j + 1].rules| == |ss[j].rules|
  {
    assert Moves(evs, ss, j);
  }

  // --- main results ---

  lemma OnlyOneSince(evs: seq<Event>, ss: seq<State>, p: nat, q: nat, j: nat, rule: nat)
    requires j <= |evs| && |ss| == |evs| + 1 && MetSince(evs, ss, p, j, rule) && MetSince(evs, ss, q, j, rule)
    ensures p == q
  {
    if p < q {
      NotBoth(evs, ss, p, q, j, rule);
    } else if q < p {
      NotBoth(evs, ss, q, p, j, rule);
    }
  }

  lemma NotBoth(evs: seq<Event>, ss: seq<State>, p: nat, q: nat, j: nat, rule: nat)
    requires p < q && j <= |evs| && |ss| == |evs| + 1 && MetSince(evs, ss, q, j, rule) && MetAt(evs, ss, p, rule)
    ensures Interrupted(evs, ss, p, j, rule)
  {
    assert Interrupted(evs, ss, p, q, rule);
    var m: nat :| p < m < q && UnmetAt(evs, ss, m, rule);
  }

  /** The condition has been met since a scan at least the delay ago, on the unsigned 64-bit clock. */
  ghost predicate LongMet(evs: seq<Event>, ss: seq<State>, j: nat, r: Rule)
    requires j < |evs| && |ss| == |evs| + 1 && evs[j].Process?
    ensures LongMet(evs, ss, j, r) ==> exists q: nat :: MetSince(evs, ss, q, j, r.id)
  {
    exists q: nat :: MetSince(evs, ss, q, j, r.id) && (evs[j].now - evs[q].now) % 0x1_0000_0000_0000_0000 >= r.delay
  }

  lemma LongMetIff(evs: seq<Event>, ss: seq<State>, j: nat, i: nat)
    requires Trace(evs, ss) && j < |evs| && evs[j].Process? && i < |ss[j].rules|
    ensures var r := ss[j].rules[i];
            LongMet(evs, ss, j, r) <==> r.start != 0 && (evs[j].now - r.start) % 0x1_0000_0000_0000_0000 >= r.delay
  {
    var r := ss[j].rules[i];
    RunClocks(evs, ss, j);
    assert Clocked(evs, ss, j, r);
    if r.start == 0 {
      assert Quiet(evs, ss, j, r.id);
    } else {
      var q: nat :| MetSince(evs, ss, q, j, r.id) && r.start == evs[q].now;
      forall p: nat | MetSince(evs, ss, p, j, r.id) ensures p == q {
        OnlyOneSince(evs, ss, p, q, j, r.id);
      }
    }
  }

  /** Rule `i` has every reason for an alarm at event `j`, and none is on the list. */
  ghost predicate Deserves(evs: seq<Event>, ss: seq<State>, j: nat, i: nat)
    requires j < |evs| && |ss| == |evs| + 1 && evs[j].Process? && i < |ss[j].rules|
    ensures Deserves(evs, ss, j, i) ==> ss[j].rules[i].enabled
  {
    var s, r, now := ss[j], ss[j].rules[i], evs[j].now;
    && r.enabled && !Silenced(s.suppressions, r.station, r.slot, now)
    && Meets(r.condition, r.threshold, evs[j].sensors(r.station, r.slot))
    && LongMet(evs, ss, j, r)
    && (forall a | a in s.active :: a.rule != r.id)
  }

  lemma DeservesIff(evs: seq<Event>, ss: seq<State>, j: nat, i: nat)
    requires Trace(evs, ss) && j < |evs| && evs[j].Process? && i < |ss[j].rules|
    ensures Deserves(evs, ss, j, i) <==> Wants(ss[j], i, evs[j].now, evs[j].sensors)
  {
    LongMetIff(evs, ss, j, i);
  }

  /** How many of the first `n` rules deserve an alarm. */
  ghost function Deserving(evs: seq<Event>, ss: seq<State>, j: nat, n: nat): nat
    requires j < |evs| && |ss| == |evs| + 1 && evs[j].Process? && n <= |ss[j].rules|
  {
    if n == 0 then 0 else Deserving(evs, ss, j, n - 1) + if Deserves(evs, ss, j, n - 1) then 1 else 0
  }

  lemma {:induction false} RoomIff(evs: seq<Event>, ss: seq<State>, j: nat, n: nat)
    requires Trace(evs, ss) && j < |evs| && evs[j].Process? && n <= |ss[j].rules|
    ensures var raised := |Raisers(ss[j], n, evs[j].now, evs[j].sensors)|;
            var room := 256 - |ss[j].active|;
            raised == (if Deserving(evs, ss, j, n) <= room then Deserving(evs, ss, j, n) else room)
  {
    TraceKeeps(evs, ss, j);
    if n > 0 {
      RoomIff(evs, ss, j, n - 1);
      DeservesIff(evs, ss, j, n - 1);
    }
  }

  /**
   * Over every run: a scan raises an alarm for a rule exactly when the rule is enabled and not suppressed, its
   * reading meets the condition and has done so since a scan at least the delay ago with no scan in between that
   * saw it unmet, it has no alarm on the list, and the list of 256 has room after the rules before it.
   */
  lemma RunRaisesIff(evs: seq<Event>, ss: seq<State>, j: nat, i: nat)
    requires Trace(evs, ss) && j < |evs| && evs[j].Process? && i < |ss[j].rules|
    ensures AlarmScans.Raised(ss[j], evs[j].now, evs[j].sensors, ss[j].rules[i].id) <==>
            Deserves(evs, ss, j, i) && |ss[j].active| + Deserving(evs, ss, j, i) < 256
  {
    TraceKeeps(evs, ss, j);
    ScanRaisesIff(ss[j], evs[j].now, evs[j].sensors, i);
    DeservesIff(evs, ss, j, i);
    RoomIff(evs, ss, j, i);
  }
}
