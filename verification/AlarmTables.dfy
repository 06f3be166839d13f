/** The alarm manager's tables over whole runs: rules as they were created and last enabled, suppressions until they
    end, and what acknowledging does to the alarms on the list. */
module AlarmTables {
  import opened Alarms
  import opened AlarmRuns
  import opened AlarmScans
  import opened AlarmRaises

  // --- rules ---

  /** Event `k` creates rule `id`: there is room among 512, and it is the next number. */
  ghost predicate Creates(evs: seq<Event>, ss: seq<State>, k: nat, id: nat)
    requires k < |evs| && |ss| == |evs| + 1
    ensures Creates(evs, ss, k, id) ==> evs[k].CreateRule?
  {
    evs[k].CreateRule? && |ss[k].rules| < 512 && ss[k].nextRule == id
  }

  predicate Deletes(ev: Event, id: nat) {
    ev.DeleteRule? && ev.rule == id
  }

  /** Whether rule `id`, created by event `k`, is enabled after `j` events: as it was last set, at first it is. */
  function EnabledAt(evs: seq<Event>, k: nat, j: nat, id: nat): bool
    requires k < j <= |evs|
    decreases j
  {
    if j == k + 1 then true
    else if evs[j - 1].EnableRule? && evs[j - 1].rule == id then evs[j - 1].enabled
    else EnabledAt(evs, k, j - 1, id)
  }

  /** The rule is as event `k` created it, enabled as last set. */
  ghost predicate AsCreated(evs: seq<Event>, ss: seq<State>, k: nat, j: nat, r: Rule)
    requires k < j <= |evs| && |ss| == |evs| + 1
    ensures AsCreated(evs, ss, k, j, r) ==> Creates(evs, ss, k, r.id)
  {
    && Creates(evs, ss, k, r.id)
    && r.station == evs[k].station && r.slot == evs[k].slot && r.condition == evs[k].condition
    && r.threshold == evs[k].threshold && r.severity == evs[k].severity && r.delay == evs[k].delay
    && r.enabled == EnabledAt(evs, k, j, r.id)
  }

  /** Event `k` created rule `id` and no event before `j` has deleted it. */
  ghost predicate Lives(evs: seq<Event>, ss: seq<State>, k: nat, j: nat, id: nat)
    requires j <= |evs| && |ss| == |evs| + 1
    ensures Lives(evs, ss, k, j, id) ==> k < j
  {
    k < j && Creates(evs, ss, k, id) && forall m: nat | k < m < j :: !Deletes(evs[m], id)
  }

  /** The rules a call leaves are those before it, one possibly new, one possibly gone, one possibly switched. */
  predicate FromRule(s: State, ev: Event, r: Rule, r': Rule) {
    && r'.(start := 0, active := false, enabled := true) == r.(start := 0, active := false, enabled := true)
    && r'.enabled == (if ev.EnableRule? && ev.rule == r.id then ev.enabled else r.enabled)
    && !Deletes(ev, r.id)
  }

  predicate IsCreated(s: State, ev: Event, r': Rule) {
    ev.CreateRule? && |s.rules| < 512
    && r' == Rule(s.nextRule, ev.station, ev.slot, ev.condition, ev.threshold, ev.severity, ev.delay, true, 0, false)
  }

  /** The rule was there before the call. */
  predicate WasThere(s: State, ev: Event, r': Rule) {
    exists i: nat | i < |s.rules| :: FromRule(s, ev, s.rules[i], r')
  }

  lemma ScanFrom(s: State, now: nat, sensors: Sensors, i: nat)
    requires Inv(s) && i < |Scanned(s, now, sensors).rules|
    ensures |Scanned(s, now, sensors).rules| == |s.rules|
    ensures FromRule(s, Process(now, sensors), s.rules[i], Scanned(s, now, sensors).rules[i])
  {
    ScanClock(s, now, sensors, i);
  }

  lemma SwitchFrom(s: State, ev: Event, i: nat)
    requires Inv(s) && ev.EnableRule? && i < |Apply(s, ev).rules|
    ensures |Apply(s, ev).rules| == |s.rules| && FromRule(s, ev, s.rules[i], Apply(s, ev).rules[i])
  {
    var k := RuleAt(s.rules, ev.rule);
    if s.rules[i].id == ev.rule {
      assert k == i;
    }
  }

  lemma DeleteFrom(s: State, ev: Event, i: nat) returns (k: nat)
    requires Inv(s) && ev.DeleteRule? && i < |Apply(s, ev).rules|
    ensures k < |s.rules| && s.rules[k] == Apply(s, ev).rules[i] && s.rules[k].id != ev.rule
  {
    var d := RuleAt(s.rules, ev.rule);
    k := if d < 0 || i < d then i else i + 1;
  }

  lemma RuleFromCall(s: State, ev: Event, i: nat)
    requires Inv(s) && i < |Apply(s, ev).rules|
    ensures var r' := Apply(s, ev).rules[i]; IsCreated(s, ev, r') || WasThere(s, ev, r')
  {
    match ev
    case Process(now, sensors) => ScanFrom(s, now, sensors, i);
    case EnableRule(_, _) => SwitchFrom(s, ev, i);
    case DeleteRule(_) => var k := DeleteFrom(s, ev, i); assert FromRule(s, ev, s.rules[k], Apply(s, ev).rules[i]);
    case CreateRule(_, _, _, _, _, _) =>
      if i < |s.rules| {
        assert FromRule(s, ev, s.rules[i], Apply(s, ev).rules[i]);
      }
    case _ => assert FromRule(s, ev, s.rules[i], Apply(s, ev).rules[i]);
  }

  /** Event `k` created the rule at `i`, which is as that event says and as last switched. */
  lemma {:induction false} RuleOrigin(evs: seq<Event>, ss: seq<State>, j: nat, i: nat) returns (k: nat)
    requires Trace(evs, ss) && j <= |evs| && i < |ss[j].rules|
    ensures k < j && AsCreated(evs, ss, k, j, ss[j].rules[i]) && Lives(evs, ss, k, j, ss[j].rules[i].id)
    decreases j
  {
    if j == 0 {
      NoRules(evs, ss);
      assert false;
    }
    var n := j - 1;
    var s, ev, r' := ss[n], evs[n], ss[j].rules[i];
    TraceKeeps(evs, ss, n);
    assert Moves(evs, ss, n);
    RuleFromCall(s, ev, i);
    if IsCreated(s, ev, r') {
      k := n;
    } else {
      var m: nat :| m < |s.rules| && FromRule(s, ev, s.rules[m], r');
      k := RuleOrigin(evs, ss, n, m);
      OriginStays(evs, ss, k, n, s.rules[m], r');
    }
  }

  lemma NoRules(evs: seq<Event>, ss: seq<State>)
    requires Trace(evs, ss)
    ensures ss[0].rules == []
  {
  }

  lemma OriginStays(evs: seq<Event>, ss: seq<State>, k: nat, j: nat, r: Rule, r': Rule)
    requires k < j < |evs| && |ss| == |evs| + 1 && AsCreated(evs, ss, k, j, r) && Lives(evs, ss, k, j, r.id)
    requires FromRule(ss[j], evs[j], r, r')
    ensures AsCreated(evs, ss, k, j + 1, r') && Lives(evs, ss, k, j + 1, r'.id)
  {
    assert EnabledAt(evs, k, j + 1, r.id) == r'.enabled;
  }

  predicate InTable(s: State, id: nat) {
    exists i: nat | i < |s.rules| :: s.rules[i].id == id
  }

  lemma StaysInTable(s: State, ev: Event, id: nat)
    requires InTable(s, id) && !Deletes(ev, id)
    ensures InTable(Apply(s, ev), id)
  {
    var i: nat :| i < |s.rules| && s.rules[i].id == id;
    match ev
    case Process(now, sensors) =>
      var p := (t: State) => i < |t.rules| && t.rules[i].id == id;
      ScanInduction(p, s, |s.rules|, now, sensors);
      assert Scanned(s, now, sensors).rules[i].id == id;
    case DeleteRule(rule) =>
      var d := RuleAt(s.rules, rule);
      var k: nat := if d < 0 || i < d then i else i - 1;
      assert Apply(s, ev).rules[k].id == id;
    case _ => assert Apply(s, ev).rules[i].id == id;
  }

  lemma {:induction false} LivesInTable(evs: seq<Event>, ss: seq<State>, k: nat, j: nat, id: nat)
    requires Trace(evs, ss) && j <= |evs| && Lives(evs, ss, k, j, id)
    ensures InTable(ss[j], id)
    decreases j
  {
    var n := j - 1;
    assert Moves(evs, ss, n);
    if n == k {
      assert ss[j].rules[|ss[k].rules|].id == id;
    } else {
      assert Lives(evs, ss, k, n, id) && !Deletes(evs[n], id);
      LivesInTable(evs, ss, k, n, id);
      StaysInTable(ss[n], evs[n], id);
    }
  }

  /** A rule is in the table exactly from its creation to its deletion. */
  lemma InTableIff(evs: seq<Event>, ss: seq<State>, j: nat, id: nat)
    requires Trace(evs, ss) && j <= |evs|
    ensures InTable(ss[j], id) <==> exists k: nat :: Lives(evs, ss, k, j, id)
  {
    if InTable(ss[j], id) {
      var i: nat :| i < |ss[j].rules| && ss[j].rules[i].id == id;
      var k := RuleOrigin(evs, ss, j, i);
    }
    if k: nat :| Lives(evs, ss, k, j, id) {
      LivesInTable(evs, ss, k, j, id);
    }
  }

  // --- suppressions ---

  predicate Covers(ss: seq<Suppression>, station: string, slot: int, end: nat) {
    exists i | 0 <= i < |ss| :: ss[i] == Suppression(station, slot, end)
  }

  lemma CoversStays(s: State, ev: Event, station: string, slot: int, end: nat)
    requires Covers(s.suppressions, station, slot, end)
    ensures Covers(Apply(s, ev).suppressions, station, slot, end)
  {
    var i :| 0 <= i < |s.suppressions| && s.suppressions[i] == Suppression(station, slot, end);
    if ev.Process? {
      var p := (t: State) => t.suppressions == s.suppressions;
      ScanInduction(p, s, |s.rules|, ev.now, ev.sensors);
    }
    assert Apply(s, ev).suppressions[i] == Suppression(station, slot, end);
  }

  lemma {:induction false} CoversLater(evs: seq<Event>, ss: seq<State>, k: nat, j: nat)
    requires Trace(evs, ss) && k < j <= |evs| && evs[k].Suppress? && |ss[k].suppressions| < 64
    ensures Covers(ss[j].suppressions, evs[k].station, evs[k].slot, evs[k].end)
    decreases j
  {
    var n := j - 1;
    assert Moves(evs, ss, n);
    if n == k {
      assert ss[j].suppressions[|ss[k].suppressions|] == Suppression(evs[k].station, evs[k].slot, evs[k].end);
    } else {
      CoversLater(evs, ss, k, n);
      CoversStays(ss[n], evs[n], evs[k].station, evs[k].slot, evs[k].end);
    }
  }

  /** No scan before the end of a suppression raises an alarm for the point or touches its rules and their alarms. */
  lemma SuppressedUntilEnd(evs: seq<Event>, ss: seq<State>, k: nat, j: nat, i: nat)
    requires Trace(evs, ss) && k < j < |evs| && evs[k].Suppress? && |ss[k].suppressions| < 64
    requires evs[j].Process? && evs[j].now < evs[k].end
    requires i < |ss[j].rules| && ss[j].rules[i].station == evs[k].station && ss[j].rules[i].slot == evs[k].slot
    ensures |ss[j + 1].rules| == |ss[j].rules| && ss[j + 1].rules[i].start == ss[j].rules[i].start
    ensures !AlarmScans.Raised(ss[j], evs[j].now, evs[j].sensors, ss[j].rules[i].id)
    ensures forall a | a in ss[j].active && a.rule == ss[j].rules[i].id && a.phase != Cleared :: a in ss[j + 1].active
  {
    var s, now, sensors := ss[j], evs[j].now, evs[j].sensors;
    CoversLater(evs, ss, k, j);
    var m :| 0 <= m < |s.suppressions| && s.suppressions[m] == Suppression(evs[k].station, evs[k].slot, evs[k].end);
    assert s.suppressions[m] in s.suppressions;
    assert !Looks(s, i, now);
    TraceKeeps(evs, ss, j);
    assert Moves(evs, ss, j);
    ScanClock(s, now, sensors, i);
    ScanRaisesIff(s, now, sensors, i);
    forall a | a in s.active && a.rule == s.rules[i].id && a.phase != Cleared ensures a in ss[j + 1].active {
      NotLookedAt(s, now, sensors, i, a);
    }
  }

  lemma NotLookedAt(s: State, now: nat, sensors: Sensors, i: nat, a: Alarm)
    requires Inv(s) && i < |s.rules| && !Looks(s, i, now) && a in s.active && a.rule == s.rules[i].id && a.phase != Cleared
    ensures a in Scanned(s, now, sensors).active
  {
    var k :| 0 <= k < |s.active| && s.active[k] == a;
    assert !Gone(s, a, |s.rules|, now, sensors);
    assert a == AlarmAfter(s, s.active[k], |s.rules|, now, sensors);
    ScanListIff(s, now, sensors, a);
  }

  // --- acknowledgements ---

  /** The alarm acknowledged: its phase moves on, and it carries the time and the user. */
  predicate IsAcknowledged(a: Alarm, b: Alarm, now: nat, user: string) {
    && b == a.(phase := b.phase, acked := b.acked, user := b.user) && b.acked == now && b.user == user
    && (a.phase == ActiveUnack || a.phase == ActiveAck ==> b.phase == ActiveAck)
    && (a.phase == ClearedUnack || a.phase == Cleared ==> b.phase == Cleared)
  }

  /** Acknowledging one alarm changes that alarm and no other. */
  lemma AcknowledgeOne(s: State, id: nat, now: nat, user: string, k: nat)
    requires Inv(s) && k < |s.active|
    ensures var t := Apply(s, Acknowledge(id, now, user));
            && |t.active| == |s.active| && t == s.(active := t.active)
            && if s.active[k].id == id then IsAcknowledged(s.active[k], t.active[k], now, user) else t.active[k] == s.active[k]
  {
  }

  /** Acknowledging all changes exactly those not acknowledged before, and leaves none. */
  lemma AcknowledgeEvery(s: State, now: nat, user: string, k: nat)
    requires k < |s.active|
    ensures var t := Apply(s, AcknowledgeAll(now, user));
            && |t.active| == |s.active| && t == s.(active := t.active)
            && t.active[k].phase != ActiveUnack && t.active[k].phase != ClearedUnack
            && if s.active[k].phase == ActiveUnack || s.active[k].phase == ClearedUnack
               then IsAcknowledged(s.active[k], t.active[k], now, user) else t.active[k] == s.active[k]
  {
  }

  // --- raises from outside ---

  /** An alarm raised from outside is the last on the list, active, and carries what it was raised with. */
  lemma ExternalCarries(s: State, station: string, slot: int, severity: int, value: real, now: nat)
    ensures var t := Apply(s, Raise(station, slot, severity, value, now));
            if |s.active| >= 256 then t == s
            else
              && t.active == s.active + [Alarm(s.nextAlarm, 0, station, slot, severity, ActiveUnack, value, 0.0, now, 0, 0, "")]
              && t.nextAlarm == s.nextAlarm + 1 && t.total == s.total + 1 && t.raises == s.raises + [now]
              && t.rules == s.rules && t.suppressions == s.suppressions
  {
  }
}
