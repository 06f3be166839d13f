/** The alarm lifecycle over any interleaving of scans, acknowledgements, rule edits and external raises. */
module AlarmRuns {
  import opened AlarmCondition
  import opened Alarms

  // --- what every state keeps ---

  /** The phase is exactly the pair (acknowledged, cleared). */
  predicate PhaseIsPair(a: Alarm) {
    match a.phase
    case ActiveUnack => a.acked == 0 && a.cleared == 0
    case ActiveAck => a.acked > 0 && a.cleared == 0
    case ClearedUnack => a.acked == 0 && a.cleared > 0
    case Cleared => a.acked > 0 && a.cleared > 0
  }

  predicate AlarmOk(a: Alarm, nextAlarm: nat, nextRule: nat) {
    1 <= a.id < nextAlarm && a.rule < nextRule && PhaseIsPair(a)
  }

  predicate AllOk(xs: seq<Alarm>, nextAlarm: nat, nextRule: nat) {
    forall i | 0 <= i < |xs| :: AlarmOk(xs[i], nextAlarm, nextRule)
  }

  predicate IdsIncrease(xs: seq<Alarm>) {
    forall i, j | 0 <= i < j < |xs| :: xs[i].id < xs[j].id
  }

  /** At most one alarm per non-zero rule. */
  predicate OnePerRule(xs: seq<Alarm>) {
    forall i, j | 0 <= i < j < |xs| :: xs[i].rule == xs[j].rule ==> xs[i].rule == 0
  }

  predicate ListOk(xs: seq<Alarm>, nextAlarm: nat, nextRule: nat) {
    AllOk(xs, nextAlarm, nextRule) && IdsIncrease(xs) && OnePerRule(xs)
  }

  predicate RulesOk(rules: seq<Rule>, nextRule: nat) {
    && (forall i | 0 <= i < |rules| :: 1 <= rules[i].id < nextRule)
    && (forall i, j | 0 <= i < j < |rules| :: rules[i].id != rules[j].id)
  }

  predicate Inv(s: State) {
    && |s.active| <= MAX_ACTIVE && |s.rules| <= MAX_RULES
    && s.nextRule >= 1 && s.nextAlarm == s.total + 1 && |s.raises| == s.total
    && ListOk(s.active, s.nextAlarm, s.nextRule) && RulesOk(s.rules, s.nextRule)
  }

  // --- list lemmas ---

  lemma ListAppended(xs: seq<Alarm>, a: Alarm, nextAlarm: nat, nextRule: nat)
    requires ListOk(xs, nextAlarm, nextRule) && a.id == nextAlarm && AlarmOk(a, nextAlarm + 1, nextRule)
    requires a.rule == 0 || forall i | 0 <= i < |xs| :: xs[i].rule != a.rule
    ensures ListOk(xs + [a], nextAlarm + 1, nextRule)
  {
    var ys := xs + [a];
    forall i | 0 <= i < |ys| ensures AlarmOk(ys[i], nextAlarm + 1, nextRule) {
      assert i < |xs| ==> AlarmOk(xs[i], nextAlarm, nextRule);
    }
  }

  lemma ListUpdated(xs: seq<Alarm>, k: nat, a: Alarm, nextAlarm: nat, nextRule: nat)
    requires ListOk(xs, nextAlarm, nextRule) && k < |xs|
    requires a.id == xs[k].id && a.rule == xs[k].rule && PhaseIsPair(a)
    ensures ListOk(xs[k := a], nextAlarm, nextRule)
  {
    assert AlarmOk(xs[k], nextAlarm, nextRule);
  }

  /** Alarms changed in place, ids and rules kept. */
  lemma ListMapped(xs: seq<Alarm>, ys: seq<Alarm>, nextAlarm: nat, nextRule: nat)
    requires ListOk(xs, nextAlarm, nextRule) && |ys| == |xs|
    requires forall i | 0 <= i < |xs| :: ys[i].id == xs[i].id && ys[i].rule == xs[i].rule && PhaseIsPair(ys[i])
    ensures ListOk(ys, nextAlarm, nextRule)
  {
    forall i | 0 <= i < |ys| ensures AlarmOk(ys[i], nextAlarm, nextRule) {
      assert AlarmOk(xs[i], nextAlarm, nextRule);
    }
  }

  lemma {:induction false} KeptIsSub(xs: seq<Alarm>)
    ensures forall a | a in Kept(xs) :: a in xs && a.phase != Cleared
    ensures forall a | a in Dropped(xs) :: a in xs && a.phase == Cleared
    ensures forall a | a in xs :: if a.phase == Cleared then a in Dropped(xs) else a in Kept(xs)
    ensures |Kept(xs)| + |Dropped(xs)| == |xs|
  {
    if xs != [] {
      var front, last := xs[..|xs| - 1], xs[|xs| - 1];
      KeptIsSub(front);
      assert xs == front + [last];
    }
  }

  lemma PrefixOk(front: seq<Alarm>, last: Alarm, nextAlarm: nat, nextRule: nat)
    requires ListOk(front + [last], nextAlarm, nextRule)
    ensures ListOk(front, nextAlarm, nextRule)
  {
    var xs := front + [last];
    forall i | 0 <= i < |front| ensures AlarmOk(front[i], nextAlarm, nextRule) {
      assert AlarmOk(xs[i], nextAlarm, nextRule);
    }
    forall i, j | 0 <= i < j < |front| ensures front[i].id < front[j].id && (front[i].rule == front[j].rule ==> front[i].rule == 0) {
      assert xs[i] == front[i] && xs[j] == front[j];
    }
  }

  lemma {:induction false} KeptOk(xs: seq<Alarm>, nextAlarm: nat, nextRule: nat)
    requires ListOk(xs, nextAlarm, nextRule)
    ensures ListOk(Kept(xs), nextAlarm, nextRule)
  {
    if xs != [] {
      var n := |xs| - 1;
      var front, last := xs[..n], xs[n];
      assert xs == front + [last];
      PrefixOk(front, last, nextAlarm, nextRule);
      KeptOk(front, nextAlarm, nextRule);
      KeptIsSub(front);
      if last.phase != Cleared {
        JoinOk(Kept(front), front, last, nextAlarm, nextRule);
      }
    }
  }

  /** A part of a list followed by what follows the list. */
  lemma JoinOk(part: seq<Alarm>, front: seq<Alarm>, last: Alarm, nextAlarm: nat, nextRule: nat)
    requires ListOk(part, nextAlarm, nextRule) && ListOk(front + [last], nextAlarm, nextRule)
    requires forall a | a in part :: a in front
    ensures ListOk(part + [last], nextAlarm, nextRule)
  {
    var whole, n := front + [last], |front|;
    forall i | 0 <= i < |part| ensures part[i].id < last.id && (part[i].rule == last.rule ==> last.rule == 0) {
      assert part[i] in front;
      var j :| 0 <= j < n && front[j] == part[i];
      assert whole[j] == part[i] && whole[n] == last;
    }
    assert AlarmOk(whole[n], nextAlarm, nextRule);
    var ys := part + [last];
    forall i | 0 <= i < |ys| ensures AlarmOk(ys[i], nextAlarm, nextRule) {
    }
  }

  // --- every step keeps the invariant ---

  lemma RaisedKeeps(s: State, a: Alarm)
    requires Inv(s) && |s.active| < MAX_ACTIVE && a.id == s.nextAlarm && a.rule < s.nextRule
    requires a.phase == ActiveUnack && a.acked == 0 && a.cleared == 0
    requires a.rule == 0 || forall i | 0 <= i < |s.active| :: s.active[i].rule != a.rule
    ensures Inv(Raised(s, a))
  {
    ListAppended(s.active, a, s.nextAlarm, s.nextRule);
  }

  /** Rules updated in place with their ids kept stay well formed. */
  lemma RulesUpdated(rules: seq<Rule>, k: nat, r: Rule, nextRule: nat)
    requires RulesOk(rules, nextRule) && k < |rules| && r.id == rules[k].id
    ensures RulesOk(rules[k := r], nextRule)
  {
  }

  lemma MetStepKeeps(s: State, i: nat, x: Reading, now: nat)
    requires Inv(s) && i < |s.rules|
    ensures Inv(MetStep(s, i, x, now))
  {
    var r := s.rules[i];
    RulesUpdated(s.rules, i, r.(start := now), s.nextRule);
    RulesUpdated(s.rules, i, r.(active := true), s.nextRule);
    if r.start != 0 && Raises(s, r, now) {
      RaisedKeeps(s, NewAlarm(s, r.id, r.station, r.slot, r.severity, x.value, r.threshold, now));
    }
  }

  lemma UnmetStepKeeps(s: State, i: nat, now: nat)
    requires Inv(s) && i < |s.rules| && now > 0
    ensures Inv(UnmetStep(s, i, now))
  {
    var r := s.rules[i];
    RulesUpdated(s.rules, i, r.(start := 0), s.nextRule);
    RulesUpdated(s.rules, i, r.(start := 0, active := false), s.nextRule);
    var k := AlarmOf(s.active, r.id);
    if k >= 0 && IsActive(s.active[k]) {
      assert AlarmOk(s.active[k], s.nextAlarm, s.nextRule);
      ListUpdated(s.active, k, ClearedAt(s.active[k], now), s.nextAlarm, s.nextRule);
    }
  }

  lemma RuleStepKeeps(s: State, i: nat, now: nat, sensors: Sensors)
    requires Inv(s) && i < |s.rules| && now > 0
    ensures Inv(RuleStep(s, i, now, sensors))
  {
    var r := s.rules[i];
    MetStepKeeps(s, i, sensors(r.station, r.slot), now);
    UnmetStepKeeps(s, i, now);
  }

  /** Whatever every rule of a scan keeps, the rules together keep. */
  lemma {:induction false} ScanInduction(p: State -> bool, s: State, n: nat, now: nat, sensors: Sensors)
    requires n <= |s.rules| && p(s)
    requires forall t: State, i: nat | i < |t.rules| && p(t) :: p(RuleStep(t, i, now, sensors))
    ensures p(RulesStep(s, n, now, sensors))
  {
    if n > 0 {
      ScanInduction(p, s, n - 1, now, sensors);
    }
  }

  lemma RulesStepKeeps(s: State, n: nat, now: nat, sensors: Sensors)
    requires Inv(s) && n <= |s.rules| && now > 0
    ensures Inv(RulesStep(s, n, now, sensors))
  {
    forall t: State, i: nat | i < |t.rules| && Inv(t) ensures Inv(RuleStep(t, i, now, sensors)) {
      RuleStepKeeps(t, i, now, sensors);
    }
    ScanInduction(Inv, s, n, now, sensors);
  }

  lemma ScanKeeps(s: State, now: nat, sensors: Sensors)
    requires Inv(s) && now > 0
    ensures Inv(Scanned(s, now, sensors))
  {
    RulesStepKeeps(s, |s.rules|, now, sensors);
    var t := RulesStep(s, |s.rules|, now, sensors);
    KeptOk(t.active, t.nextAlarm, t.nextRule);
  }

  lemma AckedPhase(a: Alarm, now: nat, user: string)
    requires PhaseIsPair(a) && now > 0
    ensures PhaseIsPair(Acknowledged(a, now, user))
    ensures Acknowledged(a, now, user).id == a.id && Acknowledged(a, now, user).rule == a.rule
    ensures Acknowledged(a, now, user).cleared == a.cleared
  {
  }

  lemma AckKeeps(s: State, ys: seq<Alarm>, now: nat, user: string)
    requires Inv(s) && now > 0 && |ys| == |s.active|
    requires forall i | 0 <= i < |ys| :: ys[i] == s.active[i] || ys[i] == Acknowledged(s.active[i], now, user)
    ensures Inv(s.(active := ys))
  {
    forall i | 0 <= i < |ys| ensures ys[i].id == s.active[i].id && ys[i].rule == s.active[i].rule && PhaseIsPair(ys[i]) {
      assert AlarmOk(s.active[i], s.nextAlarm, s.nextRule);
      AckedPhase(s.active[i], now, user);
    }
    ListMapped(s.active, ys, s.nextAlarm, s.nextRule);
  }

  lemma CreateKeeps(s: State, station: string, slot: int, c: Condition, threshold: real, severity: int, delay: nat)
    requires Inv(s)
    ensures Inv(RuleCreated(s, station, slot, c, threshold, severity, delay))
  {
    var t := RuleCreated(s, station, slot, c, threshold, severity, delay);
    forall i | 0 <= i < |s.active| ensures AlarmOk(s.active[i], t.nextAlarm, t.nextRule) {
      assert AlarmOk(s.active[i], s.nextAlarm, s.nextRule);
    }
  }

  lemma DeleteKeeps(s: State, id: nat)
    requires Inv(s)
    ensures Inv(RuleDeleted(s, id))
  {
  }

  predicate Timed(ev: Event) {
    match ev
    case Acknowledge(_, now, _) => now > 0
    case AcknowledgeAll(now, _) => now > 0
    case Process(now, _) => now > 0
    case Raise(_, _, _, _, now) => now > 0
    case _ => true
  }

  lemma EventKeeps(s: State, ev: Event)
    requires Inv(s) && Timed(ev)
    ensures Inv(Apply(s, ev))
  {
    match ev
    case CreateRule(st, slot, c, thr, sev, delay) => CreateKeeps(s, st, slot, c, thr, sev, delay);
    case DeleteRule(id) => DeleteKeeps(s, id);
    case EnableRule(id, e) =>
      var k := RuleAt(s.rules, id);
      if k >= 0 {
        RulesUpdated(s.rules, k, s.rules[k].(enabled := e), s.nextRule);
      }
    case Acknowledge(id, now, user) => AckKeeps(s, AckOne(s, id, now, user).active, now, user);
    case AcknowledgeAll(now, user) => AckKeeps(s, AckAll(s, now, user).active, now, user);
    case Suppress(_, _, _) =>
    case Process(now, sensors) => ScanKeeps(s, now, sensors);
    case Raise(st, slot, sev, v, now) =>
      if |s.active| < MAX_ACTIVE {
        RaisedKeeps(s, NewAlarm(s, 0, st, slot, sev, v, 0.0, now));
      }
  }
}
