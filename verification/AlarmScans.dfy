/** What one scan does to every rule and every alarm, with readings, thresholds and times written out. */
module AlarmScans {
  import opened AlarmCondition
  import opened Alarms
  import opened AlarmRuns
  import opened AlarmOrphans

  /** A good reading at or beyond the threshold, or a bad one for a rule on bad quality. */
  predicate Meets(c: Condition, threshold: real, x: Reading) {
    || (!x.good && c == BadQuality)
    || (x.good && (c == High || c == HighHigh) && x.value >= threshold)
    || (x.good && (c == Low || c == LowLow) && x.value <= threshold)
  }

  /** Some suppression of the point ends later than now. */
  predicate Silenced(ss: seq<Suppression>, station: string, slot: int, now: nat) {
    exists x | x in ss :: x.station == station && x.slot == slot && now < x.end
  }

  /** The scan evaluates rule `i`. */
  predicate Looks(s: State, i: nat, now: nat)
    requires i < |s.rules|
  {
    s.rules[i].enabled && !Silenced(s.suppressions, s.rules[i].station, s.rules[i].slot, now)
  }

  predicate SeesMet(s: State, i: nat, now: nat, sensors: Sensors)
    requires i < |s.rules|
  {
    var r := s.rules[i];
    Looks(s, i, now) && Meets(r.condition, r.threshold, sensors(r.station, r.slot))
  }

  predicate SeesUnmet(s: State, i: nat, now: nat, sensors: Sensors)
    requires i < |s.rules|
  {
    var r := s.rules[i];
    Looks(s, i, now) && !Meets(r.condition, r.threshold, sensors(r.station, r.slot))
  }

  /** When the condition has been met since: a first sight starts the clock, an unmet one stops it. */
  function StartAfter(s: State, i: nat, now: nat, sensors: Sensors): nat
    requires i < |s.rules|
  {
    if SeesUnmet(s, i, now, sensors) then 0
    else if SeesMet(s, i, now, sensors) && s.rules[i].start == 0 then now
    else s.rules[i].start
  }

  /** Rule `i` has no alarm on the list and its condition has been met for at least its delay. */
  predicate Wants(s: State, i: nat, now: nat, sensors: Sensors)
    requires i < |s.rules|
  {
    && SeesMet(s, i, now, sensors) && s.rules[i].start != 0
    && (now - s.rules[i].start) % 0x1_0000_0000_0000_0000 >= s.rules[i].delay
    && forall a | a in s.active :: a.rule != s.rules[i].id
  }

  /** The rules among the first `n` that raise an alarm: those that want one while the list has room for 256. */
  function Raisers(s: State, n: nat, now: nat, sensors: Sensors): (r: seq<nat>)
    requires n <= |s.rules|
    ensures |r| <= n && forall m | 0 <= m < |r| :: r[m] < n && Wants(s, r[m], now, sensors)
  {
    if n == 0 then []
    else
      var front := Raisers(s, n - 1, now, sensors);
      if Wants(s, n - 1, now, sensors) && |s.active| + |front| < 256 then front + [n - 1] else front
  }

  /** The alarm that rule `i` raises as number `m` of the scan. */
  function AlarmFor(s: State, i: nat, m: nat, now: nat, sensors: Sensors): Alarm
    requires i < |s.rules|
  {
    var r := s.rules[i];
    Alarm(s.nextAlarm + m, r.id, r.station, r.slot, r.severity, ActiveUnack,
          sensors(r.station, r.slot).value, r.threshold, now, 0, 0, "")
  }

  /** One of the first `n` rules sees the condition behind the alarm unmet. */
  predicate Gone(s: State, a: Alarm, n: nat, now: nat, sensors: Sensors)
    requires n <= |s.rules|
  {
    exists i: nat | i < n :: s.rules[i].id == a.rule && SeesUnmet(s, i, now, sensors)
  }

  /** What becomes of an alarm on the list: an active one whose condition is gone is cleared now. */
  function AlarmAfter(s: State, a: Alarm, n: nat, now: nat, sensors: Sensors): Alarm
    requires n <= |s.rules|
  {
    if !Gone(s, a, n, now, sensors) then a
    else if a.phase == ActiveUnack then a.(phase := ClearedUnack, cleared := now)
    else if a.phase == ActiveAck then a.(phase := Cleared, cleared := now)
    else a
  }

  // --- the model's notions are these ---

  lemma MetIff(r: Rule, x: Reading)
    ensures Met(r, x) <==> Meets(r.condition, r.threshold, x)
  {
  }

  lemma SilencedIff(ss: seq<Suppression>, station: string, slot: int, now: nat)
    ensures Suppressed(ss, station, slot, now) <==> Silenced(ss, station, slot, now)
  {
    if x :| x in ss && x.station == station && x.slot == slot && now < x.end {
      var i :| 0 <= i < |ss| && ss[i] == x;
    }
  }

  // --- the scan, rule by rule ---

  /** The rules after the first `n` have been scanned. */
  predicate RulesTo(s: State, t: State, n: nat, now: nat, sensors: Sensors)
    requires n <= |s.rules|
    ensures RulesTo(s, t, n, now, sensors) ==> |t.rules| == |s.rules|
  {
    && SameRules(s, t)
    && forall i: nat | i < |s.rules| :: t.rules[i].start == if i < n then StartAfter(s, i, now, sensors) else s.rules[i].start
  }

  /** The list after the first `n` have been scanned: the old alarms in place, then the new ones. */
  predicate ListTo(s: State, t: State, n: nat, now: nat, sensors: Sensors)
    requires n <= |s.rules|
    ensures ListTo(s, t, n, now, sensors) ==> |t.active| == |s.active| + |Raisers(s, n, now, sensors)|
  {
    var raisers := Raisers(s, n, now, sensors);
    && |t.active| == |s.active| + |raisers| && t.nextAlarm == s.nextAlarm + |raisers|
    && (forall k | 0 <= k < |s.active| :: t.active[k] == AlarmAfter(s, s.active[k], n, now, sensors))
    && (forall m | 0 <= m < |raisers| :: t.active[|s.active| + m] == AlarmFor(s, raisers[m], m, now, sensors))
  }

  lemma SameLooks(s: State, t: State, i: nat, now: nat, sensors: Sensors)
    requires SameRules(s, t) && i < |s.rules|
    ensures var r := t.rules[i];
            && (r.enabled && !Suppressed(t.suppressions, r.station, r.slot, now) <==> Looks(s, i, now))
            && (Met(r, sensors(r.station, r.slot)) <==> Meets(s.rules[i].condition, s.rules[i].threshold, sensors(r.station, r.slot)))
  {
    assert SameRule(s.rules[i], t.rules[i]);
    SilencedIff(t.suppressions, t.rules[i].station, t.rules[i].slot, now);
    MetIff(t.rules[i], sensors(t.rules[i].station, t.rules[i].slot));
  }

  lemma RulesStepTo(s: State, t: State, n: nat, now: nat, sensors: Sensors)
    requires n < |s.rules| && RulesTo(s, t, n, now, sensors)
    ensures RulesTo(s, RuleStep(t, n, now, sensors), n + 1, now, sensors)
  {
    SameLooks(s, t, n, now, sensors);
    StepSameRules(t, n, now, sensors);
    var u := RuleStep(t, n, now, sensors);
    assert SameRule(s.rules[n], t.rules[n]);
    forall i: nat | i < |s.rules|
      ensures SameRule(s.rules[i], u.rules[i])
      ensures u.rules[i].start == if i < n + 1 then StartAfter(s, i, now, sensors) else s.rules[i].start
    {
      assert SameRule(s.rules[i], t.rules[i]) && SameRule(t.rules[i], u.rules[i]);
    }
  }

  /** The search for the alarm of rule `n` looks at the old alarms only. */
  lemma FindsOld(s: State, t: State, n: nat, now: nat, sensors: Sensors)
    requires Inv(s) && n < |s.rules| && ListTo(s, t, n, now, sensors)
    ensures var k, id := AlarmOf(t.active, s.rules[n].id), s.rules[n].id;
            && (k >= 0 ==> k < |s.active| && s.active[k].rule == id && t.active[k] == s.active[k])
            && (k < 0 <==> forall a | a in s.active :: a.rule != id)
  {
    var id := s.rules[n].id;
    var raisers := Raisers(s, n, now, sensors);
    forall k | 0 <= k < |s.active| ensures t.active[k].rule == s.active[k].rule {
      assert t.active[k] == AlarmAfter(s, s.active[k], n, now, sensors);
    }
    forall j | |s.active| <= j < |t.active| ensures t.active[j].rule != id {
      var m := j - |s.active|;
      assert raisers[m] < n && t.active[|s.active| + m] == AlarmFor(s, raisers[m], m, now, sensors);
    }
    var k := AlarmOf(t.active, id);
    if k >= 0 {
      assert s.active[k] in s.active;
      assert t.active[k] == AlarmAfter(s, s.active[k], n, now, sensors);
    } else {
      forall a | a in s.active ensures a.rule != id {
        var j :| 0 <= j < |s.active| && s.active[j] == a;
        assert t.active[j].rule == a.rule;
      }
    }
  }

  /** Rule `n` matters only for the alarm of its own id. */
  lemma GoneNext(s: State, a: Alarm, n: nat, now: nat, sensors: Sensors)
    requires n < |s.rules|
    ensures Gone(s, a, n + 1, now, sensors) <==>
            Gone(s, a, n, now, sensors) || (s.rules[n].id == a.rule && SeesUnmet(s, n, now, sensors))
  {
  }

  lemma OldAlarmsNext(s: State, t: State, n: nat, now: nat, sensors: Sensors, k: nat)
    requires Inv(s) && n < |s.rules| && RulesTo(s, t, n, now, sensors) && ListTo(s, t, n, now, sensors) && k < |s.active|
    ensures var u := RuleStep(t, n, now, sensors);
            k < |u.active| && u.active[k] == AlarmAfter(s, s.active[k], n + 1, now, sensors)
  {
    SameLooks(s, t, n, now, sensors);
    FindsOld(s, t, n, now, sensors);
    GoneNext(s, s.active[k], n, now, sensors);
    assert SameRule(s.rules[n], t.rules[n]);
    assert t.active[k] == AlarmAfter(s, s.active[k], n, now, sensors);
    OnlyOneAlarm(s, n, k, AlarmOf(t.active, s.rules[n].id));
    NotYetGone(s, n, k, now, sensors);
  }

  lemma OnlyOneAlarm(s: State, n: nat, k: nat, j: int)
    requires Inv(s) && n < |s.rules| && k < |s.active|
    requires s.active[k].rule == s.rules[n].id ==> 0 <= j < |s.active| && s.active[j].rule == s.rules[n].id
    ensures s.active[k].rule == s.rules[n].id ==> j == k
  {
  }

  lemma NotYetGone(s: State, n: nat, k: nat, now: nat, sensors: Sensors)
    requires Inv(s) && n < |s.rules| && k < |s.active|
    ensures s.active[k].rule == s.rules[n].id ==> !Gone(s, s.active[k], n, now, sensors)
  {
  }

  /** The branch of the scan that raises an alarm. */
  predicate RaiseBranch(t: State, n: nat, now: nat, sensors: Sensors)
    requires n < |t.rules|
    ensures RaiseBranch(t, n, now, sensors) ==> t.rules[n].enabled && |t.active| < MAX_ACTIVE
  {
    var r := t.rules[n];
    && r.enabled && !Suppressed(t.suppressions, r.station, r.slot, now)
    && Met(r, sensors(r.station, r.slot)) && Raises(t, r, now)
  }

  /** What rule `n` does to the list: it adds its alarm at the end, or changes at most the alarm it finds. */
  predicate Extends(t: State, u: State, n: nat, now: nat, sensors: Sensors)
    requires n < |t.rules|
    ensures Extends(t, u, n, now, sensors) ==> |t.active| <= |u.active| <= |t.active| + 1
  {
    var r := t.rules[n];
    if RaiseBranch(t, n, now, sensors) then
      && u.active == t.active + [NewAlarm(t, r.id, r.station, r.slot, r.severity, sensors(r.station, r.slot).value, r.threshold, now)]
      && u.nextAlarm == t.nextAlarm + 1
    else
      && |u.active| == |t.active| && u.nextAlarm == t.nextAlarm
      && forall j | 0 <= j < |t.active| && j != AlarmOf(t.active, r.id) :: u.active[j] == t.active[j]
  }

  lemma StepExtends(t: State, n: nat, now: nat, sensors: Sensors)
    requires n < |t.rules|
    ensures Extends(t, RuleStep(t, n, now, sensors), n, now, sensors)
  {
  }

  lemma RaisesIff(s: State, t: State, n: nat, now: nat, sensors: Sensors)
    requires Inv(s) && n < |s.rules| && RulesTo(s, t, n, now, sensors) && ListTo(s, t, n, now, sensors)
    ensures RaiseBranch(t, n, now, sensors) <==> Wants(s, n, now, sensors) && |t.active| < 256
  {
    SameLooks(s, t, n, now, sensors);
    FindsOld(s, t, n, now, sensors);
    assert SameRule(s.rules[n], t.rules[n]);
    assert t.rules[n].start == s.rules[n].start;
  }

  /** Rule `n` raises its alarm when it wants one and there is room. */
  lemma RaisesNew(s: State, t: State, u: State, n: nat, now: nat, sensors: Sensors)
    requires Inv(s) && n < |s.rules| && RulesTo(s, t, n, now, sensors) && ListTo(s, t, n, now, sensors)
    requires Extends(t, u, n, now, sensors) && Wants(s, n, now, sensors) && |t.active| < 256
    ensures u.active == t.active + [AlarmFor(s, n, |Raisers(s, n, now, sensors)|, now, sensors)]
    ensures u.nextAlarm == t.nextAlarm + 1
  {
    RaisesIff(s, t, n, now, sensors);
    SameAlarm(s, t, n, |Raisers(s, n, now, sensors)|, now, sensors);
    AddsAlarm(t, u, n, now, sensors);
  }

  lemma SameAlarm(s: State, t: State, n: nat, m: nat, now: nat, sensors: Sensors)
    requires n < |s.rules| && SameRules(s, t) && t.nextAlarm == s.nextAlarm + m
    ensures var r := t.rules[n];
            NewAlarm(t, r.id, r.station, r.slot, r.severity, sensors(r.station, r.slot).value, r.threshold, now)
            == AlarmFor(s, n, m, now, sensors)
  {
    assert SameRule(s.rules[n], t.rules[n]);
  }

  lemma AddsAlarm(t: State, u: State, n: nat, now: nat, sensors: Sensors)
    requires n < |t.rules| && Extends(t, u, n, now, sensors) && RaiseBranch(t, n, now, sensors)
    ensures var r := t.rules[n];
            u.active == t.active + [NewAlarm(t, r.id, r.station, r.slot, r.severity, sensors(r.station, r.slot).value, r.threshold, now)]
    ensures u.nextAlarm == t.nextAlarm + 1
  {
  }

  /** Otherwise no alarm is added. */
  lemma RaisesNone(s: State, t: State, u: State, n: nat, now: nat, sensors: Sensors)
    requires Inv(s) && n < |s.rules| && RulesTo(s, t, n, now, sensors) && ListTo(s, t, n, now, sensors)
    requires Extends(t, u, n, now, sensors) && !(Wants(s, n, now, sensors) && |t.active| < 256)
    ensures |u.active| == |t.active| && u.nextAlarm == t.nextAlarm
    ensures forall j | |s.active| <= j < |t.active| :: u.active[j] == t.active[j]
  {
    RaisesIff(s, t, n, now, sensors);
    FindsOld(s, t, n, now, sensors);
    assert SameRule(s.rules[n], t.rules[n]);
  }

  /** The new alarms after rule `n`. */
  predicate NewTo(s: State, u: State, n: nat, now: nat, sensors: Sensors)
    requires n <= |s.rules|
    ensures NewTo(s, u, n, now, sensors) ==> |u.active| == |s.active| + |Raisers(s, n, now, sensors)|
  {
    var raisers := Raisers(s, n, now, sensors);
    && |u.active| == |s.active| + |raisers| && u.nextAlarm == s.nextAlarm + |raisers|
    && forall m | 0 <= m < |raisers| :: u.active[|s.active| + m] == AlarmFor(s, raisers[m], m, now, sensors)
  }

  lemma NewAlarmsNext(s: State, t: State, u: State, n: nat, now: nat, sensors: Sensors)
    requires Inv(s) && n < |s.rules| && RulesTo(s, t, n, now, sensors) && ListTo(s, t, n, now, sensors)
    requires Extends(t, u, n, now, sensors)
    ensures NewTo(s, u, n + 1, now, sensors)
  {
    if Wants(s, n, now, sensors) && |t.active| < 256 {
      RaisesNew(s, t, u, n, now, sensors);
    } else {
      RaisesNone(s, t, u, n, now, sensors);
    }
    var before := Raisers(s, n, now, sensors);
    forall m | 0 <= m < |before| ensures u.active[|s.active| + m] == AlarmFor(s, before[m], m, now, sensors) {
      assert t.active[|s.active| + m] == AlarmFor(s, before[m], m, now, sensors);
    }
  }

  lemma ListStepTo(s: State, t: State, n: nat, now: nat, sensors: Sensors)
    requires Inv(s) && n < |s.rules| && RulesTo(s, t, n, now, sensors) && ListTo(s, t, n, now, sensors)
    ensures ListTo(s, RuleStep(t, n, now, sensors), n + 1, now, sensors)
  {
    var u := RuleStep(t, n, now, sensors);
    StepExtends(t, n, now, sensors);
    NewAlarmsNext(s, t, u, n, now, sensors);
    forall k | 0 <= k < |s.active| ensures u.active[k] == AlarmAfter(s, s.active[k], n + 1, now, sensors) {
      OldAlarmsNext(s, t, n, now, sensors, k);
    }
    ListFrom(s, u, n + 1, now, sensors);
  }

  lemma ListFrom(s: State, u: State, n: nat, now: nat, sensors: Sensors)
    requires n <= |s.rules| && NewTo(s, u, n, now, sensors)
    requires forall k | 0 <= k < |s.active| :: u.active[k] == AlarmAfter(s, s.active[k], n, now, sensors)
    ensures ListTo(s, u, n, now, sensors)
  {
  }

  /** Whatever holds before the scan and is kept by every rule holds after the first `n` rules. */
  lemma {:induction false} ScanSteps(p: (State, nat) -> bool, s: State, n: nat, now: nat, sensors: Sensors)
    requires n <= |s.rules| && p(s, 0)
    requires forall t: State, i: nat | i < |s.rules| && |t.rules| == |s.rules| && p(t, i) :: p(RuleStep(t, i, now, sensors), i + 1)
    ensures p(RulesStep(s, n, now, sensors), n)
  {
    if n > 0 {
      ScanSteps(p, s, n - 1, now, sensors);
    }
  }

  lemma ScanTo(s: State, n: nat, now: nat, sensors: Sensors)
    requires Inv(s) && n <= |s.rules|
    ensures RulesTo(s, RulesStep(s, n, now, sensors), n, now, sensors)
    ensures ListTo(s, RulesStep(s, n, now, sensors), n, now, sensors)
  {
    var p := (t: State, i: nat) => i <= |s.rules| && RulesTo(s, t, i, now, sensors) && ListTo(s, t, i, now, sensors);
    forall t: State, i: nat | i < |s.rules| && |t.rules| == |s.rules| && p(t, i) ensures p(RuleStep(t, i, now, sensors), i + 1) {
      RulesStepTo(s, t, i, now, sensors);
      ListStepTo(s, t, i, now, sensors);
    }
    ScanSteps(p, s, n, now, sensors);
  }

  // --- main results ---

  /** The alarm is an old one as the scan leaves it, and not both acknowledged and cleared. */
  predicate IsOld(s: State, now: nat, sensors: Sensors, a: Alarm)
    ensures IsOld(s, now, sensors, a) ==> a.phase != Cleared
  {
    a.phase != Cleared && exists k | 0 <= k < |s.active| :: a == AlarmAfter(s, s.active[k], |s.rules|, now, sensors)
  }

  /** The alarm is one that the scan raises. */
  predicate IsNew(s: State, now: nat, sensors: Sensors, a: Alarm)
    ensures IsNew(s, now, sensors, a) ==> a.phase == ActiveUnack
  {
    var raisers := Raisers(s, |s.rules|, now, sensors);
    exists m | 0 <= m < |raisers| :: a == AlarmFor(s, raisers[m], m, now, sensors)
  }

  lemma OnListIsOldOrNew(s: State, t: State, now: nat, sensors: Sensors, j: nat)
    requires ListTo(s, t, |s.rules|, now, sensors) && j < |t.active| && t.active[j].phase != Cleared
    ensures IsOld(s, now, sensors, t.active[j]) || IsNew(s, now, sensors, t.active[j])
  {
    var n := |s.active|;
    if j >= n {
      var raisers, m := Raisers(s, |s.rules|, now, sensors), j - n;
      assert t.active[n + m] == AlarmFor(s, raisers[m], m, now, sensors);
    }
  }

  lemma OldIsOnList(s: State, t: State, now: nat, sensors: Sensors, a: Alarm)
    requires ListTo(s, t, |s.rules|, now, sensors) && IsOld(s, now, sensors, a)
    ensures a in t.active
  {
    var k :| 0 <= k < |s.active| && a == AlarmAfter(s, s.active[k], |s.rules|, now, sensors);
    assert t.active[k] == a;
  }

  lemma NewIsOnList(s: State, t: State, now: nat, sensors: Sensors, a: Alarm)
    requires ListTo(s, t, |s.rules|, now, sensors) && IsNew(s, now, sensors, a)
    ensures a in t.active
  {
    var raisers := Raisers(s, |s.rules|, now, sensors);
    var m :| 0 <= m < |raisers| && a == AlarmFor(s, raisers[m], m, now, sensors);
    assert t.active[|s.active| + m] == a;
  }

  /**
   * The list after a scan: the old alarms, cleared where their condition is gone and without those also
   * acknowledged, and the new ones.
   */
  lemma ScanListIff(s: State, now: nat, sensors: Sensors, a: Alarm)
    requires Inv(s)
    ensures a in Scanned(s, now, sensors).active <==> IsOld(s, now, sensors, a) || IsNew(s, now, sensors, a)
  {
    var t := RulesStep(s, |s.rules|, now, sensors);
    ScanTo(s, |s.rules|, now, sensors);
    KeptIsSub(t.active);
    if a in Kept(t.active) {
      var j :| 0 <= j < |t.active| && t.active[j] == a;
      OnListIsOldOrNew(s, t, now, sensors, j);
    }
    if IsOld(s, now, sensors, a) {
      OldIsOnList(s, t, now, sensors, a);
    }
    if IsNew(s, now, sensors, a) {
      NewIsOnList(s, t, now, sensors, a);
    }
  }

  lemma {:induction false} RaisersIff(s: State, n: nat, now: nat, sensors: Sensors, i: nat)
    requires i < n <= |s.rules|
    ensures i in Raisers(s, n, now, sensors) <==>
            Wants(s, i, now, sensors) && |s.active| + |Raisers(s, i, now, sensors)| < 256
  {
    var front := Raisers(s, n - 1, now, sensors);
    if i < n - 1 {
      RaisersIff(s, n - 1, now, sensors, i);
    } else {
      assert forall m | 0 <= m < |front| :: front[m] < n - 1;
    }
  }

  /** An alarm of the rule is on the list after the scan whose id was not handed out before. */
  predicate Raised(s: State, now: nat, sensors: Sensors, rule: nat) {
    exists a | a in Scanned(s, now, sensors).active :: a.rule == rule && a.id >= s.nextAlarm
  }

  lemma RaisedIsRaiser(s: State, now: nat, sensors: Sensors, i: nat)
    requires Inv(s) && i < |s.rules|
    ensures Raised(s, now, sensors, s.rules[i].id) <==> i in Raisers(s, |s.rules|, now, sensors)
  {
    var raisers := Raisers(s, |s.rules|, now, sensors);
    if Raised(s, now, sensors, s.rules[i].id) {
      var a :| a in Scanned(s, now, sensors).active && a.rule == s.rules[i].id && a.id >= s.nextAlarm;
      var m := NewOnList(s, now, sensors, a);
      assert raisers[m] == i;
    }
    if i in raisers {
      var m :| 0 <= m < |raisers| && raisers[m] == i;
      var a := AlarmFor(s, i, m, now, sensors);
      assert a == AlarmFor(s, raisers[m], m, now, sensors) && IsNew(s, now, sensors, a);
      ScanListIff(s, now, sensors, a);
    }
  }

  lemma NewOnList(s: State, now: nat, sensors: Sensors, a: Alarm) returns (m: nat)
    requires Inv(s) && a in Scanned(s, now, sensors).active && a.id >= s.nextAlarm
    ensures m < |Raisers(s, |s.rules|, now, sensors)|
    ensures a == AlarmFor(s, Raisers(s, |s.rules|, now, sensors)[m], m, now, sensors)
  {
    ScanListIff(s, now, sensors, a);
    forall k | 0 <= k < |s.active| ensures AlarmAfter(s, s.active[k], |s.rules|, now, sensors).id < s.nextAlarm {
      assert AlarmOk(s.active[k], s.nextAlarm, s.nextRule);
    }
    m :| 0 <= m < |Raisers(s, |s.rules|, now, sensors)|
      && a == AlarmFor(s, Raisers(s, |s.rules|, now, sensors)[m], m, now, sensors);
  }

  /**
   * A scan raises an alarm for a rule exactly when the rule is enabled and not suppressed, has no alarm on the
   * list, its condition is met and has been for at least its delay, and there is room on the list.
   */
  lemma ScanRaisesIff(s: State, now: nat, sensors: Sensors, i: nat)
    requires Inv(s) && i < |s.rules|
    ensures Raised(s, now, sensors, s.rules[i].id) <==>
            Wants(s, i, now, sensors) && |s.active| + |Raisers(s, i, now, sensors)| < 256
  {
    RaisedIsRaiser(s, now, sensors, i);
    RaisersIff(s, |s.rules|, now, sensors, i);
  }

  /** Each such alarm carries the reading, the threshold and the time of the scan. */
  lemma RaisedCarries(s: State, now: nat, sensors: Sensors, i: nat, a: Alarm)
    requires Inv(s) && i < |s.rules| && a in Scanned(s, now, sensors).active && a.id >= s.nextAlarm && a.rule == s.rules[i].id
    ensures var r := s.rules[i];
            && a.station == r.station && a.slot == r.slot && a.severity == r.severity && a.phase == ActiveUnack
            && a.value == sensors(r.station, r.slot).value && a.threshold == r.threshold
            && a.raised == now && a.acked == 0 && a.cleared == 0
  {
    var m := NewOnList(s, now, sensors, a);
    assert Raisers(s, |s.rules|, now, sensors)[m] == i;
  }

  /** The clock of a rule after a scan. */
  lemma ScanClock(s: State, now: nat, sensors: Sensors, i: nat)
    requires Inv(s) && i < |s.rules|
    ensures var t := Scanned(s, now, sensors);
            |t.rules| == |s.rules| && SameRule(s.rules[i], t.rules[i]) && t.rules[i].start == StartAfter(s, i, now, sensors)
  {
    ScanTo(s, |s.rules|, now, sensors);
  }
}
