/** The alarms that can never leave the active list, exactly, and how they come to be. */
module AlarmOrphans {
  import opened AlarmCondition
  import opened Alarms
  import opened AlarmRuns
  import opened AlarmAccounts

  /** The active alarm at `k` belongs to no rule in the table. */
  predicate Orphan(s: State, a: Alarm) {
    a in s.active && IsActive(a) && forall i | 0 <= i < |s.rules| :: s.rules[i].id != a.rule
  }

  /** Some orphan alarm has this id. */
  ghost predicate Stuck(s: State, id: nat) {
    exists a: Alarm :: Orphan(s, a) && a.id == id
  }

  predicate SameRuleIds(s: State, t: State) {
    |s.rules| == |t.rules| && forall i | 0 <= i < |s.rules| :: t.rules[i].id == s.rules[i].id
  }

  lemma RuleStepKeepsOrphan(s: State, i: nat, now: nat, sensors: Sensors, a: Alarm)
    requires i < |s.rules| && Orphan(s, a)
    ensures Orphan(RuleStep(s, i, now, sensors), a)
  {
    var t := RuleStep(s, i, now, sensors);
    assert SameRuleIds(s, t);
    var k :| 0 <= k < |s.active| && s.active[k] == a;
    assert s.rules[i].id != a.rule;
    assert k < |t.active| && t.active[k] == a;
  }

  lemma ScanKeepsOrphan(s: State, now: nat, sensors: Sensors, a: Alarm)
    requires Orphan(s, a)
    ensures Orphan(Scanned(s, now, sensors), a)
  {
    var p := (t: State) => Orphan(t, a);
    forall t: State, i: nat | i < |t.rules| && p(t) ensures p(RuleStep(t, i, now, sensors)) {
      RuleStepKeepsOrphan(t, i, now, sensors, a);
    }
    ScanInduction(p, s, |s.rules|, now, sensors);
    KeptIsSub(RulesStep(s, |s.rules|, now, sensors).active);
  }

  lemma AckKeepsStuck(s: State, ys: seq<Alarm>, now: nat, user: string, a: Alarm)
    requires Orphan(s, a) && |ys| == |s.active|
    requires forall i | 0 <= i < |ys| :: ys[i] == s.active[i] || ys[i] == Acknowledged(s.active[i], now, user)
    ensures Stuck(s.(active := ys), a.id)
  {
    var k :| 0 <= k < |s.active| && s.active[k] == a;
    assert Orphan(s.(active := ys), ys[k]);
  }

  lemma EventKeepsStuck(s: State, ev: Event, id: nat)
    requires Inv(s) && Stuck(s, id)
    ensures Stuck(Apply(s, ev), id)
  {
    var a :| Orphan(s, a) && a.id == id;
    var k :| 0 <= k < |s.active| && s.active[k] == a;
    assert AlarmOk(s.active[k], s.nextAlarm, s.nextRule);
    match ev
    case Process(now, sensors) => ScanKeepsOrphan(s, now, sensors, a);
    case Acknowledge(x, now, user) => AckKeepsStuck(s, AckOne(s, x, now, user).active, now, user, a);
    case AcknowledgeAll(now, user) => AckKeepsStuck(s, AckAll(s, now, user).active, now, user, a);
    case _ =>
      assert Orphan(Apply(s, ev), a);
  }

  function RunFrom(s: State, evs: seq<Event>): State {
    if evs == [] then s else Apply(RunFrom(s, evs[..|evs| - 1]), evs[|evs| - 1])
  }

  /**
   * An active alarm whose rule is not in the table - raised from outside, or its rule deleted - stays on
   * the list for ever, whatever is acknowledged, scanned or created later.
   */
  lemma {:induction false} OrphanStays(s: State, evs: seq<Event>, id: nat)
    requires Inv(s) && Stuck(s, id) && AllTimed(evs)
    ensures Inv(RunFrom(s, evs)) && Stuck(RunFrom(s, evs), id)
  {
    if evs != [] {
      var n := |evs| - 1;
      OrphanStays(s, evs[..n], id);
      assert Timed(evs[n]);
      EventKeeps(RunFrom(s, evs[..n]), evs[n]);
      EventKeepsStuck(RunFrom(s, evs[..n]), evs[n], id);
    }
  }

  /** An alarm raised from outside is such an alarm. */
  lemma ExternalIsStuck(s: State, station: string, slot: int, severity: int, value: real, now: nat)
    requires Inv(s) && |s.active| < MAX_ACTIVE
    ensures Stuck(RaisedExternally(s, station, slot, severity, value, now), s.nextAlarm)
  {
    var t := RaisedExternally(s, station, slot, severity, value, now);
    var a := NewAlarm(s, 0, station, slot, severity, value, 0.0, now);
    assert a == t.active[|s.active|];
    assert Orphan(t, a);
  }

  /** A list full of such alarms. */
  predicate Jammed(s: State)
    ensures Jammed(s) ==> |s.active| == MAX_ACTIVE
  {
    |s.active| == MAX_ACTIVE && forall k | 0 <= k < |s.active| :: Orphan(s, s.active[k])
  }

  lemma RuleStepJammed(s: State, i: nat, now: nat, sensors: Sensors)
    requires i < |s.rules| && Jammed(s)
    ensures Jammed(RuleStep(s, i, now, sensors)) && RuleStep(s, i, now, sensors).total == s.total
  {
    var t := RuleStep(s, i, now, sensors);
    var k := AlarmOf(s.active, s.rules[i].id);
    assert k >= 0 ==> Orphan(s, s.active[k]);
    assert t.active == s.active && SameRuleIds(s, t);
    forall k | 0 <= k < |t.active| ensures Orphan(t, t.active[k]) {
      assert Orphan(s, s.active[k]);
    }
  }

  lemma {:induction false} KeptAll(xs: seq<Alarm>)
    requires forall k | 0 <= k < |xs| :: IsActive(xs[k])
    ensures Kept(xs) == xs
  {
    if xs != [] {
      KeptAll(xs[..|xs| - 1]);
      assert xs == xs[..|xs| - 1] + [xs[|xs| - 1]];
    }
  }

  lemma ScanJammed(s: State, now: nat, sensors: Sensors)
    requires Jammed(s)
    ensures Jammed(Scanned(s, now, sensors)) && Scanned(s, now, sensors).total == s.total
  {
    var p := (t: State) => Jammed(t) && t.total == s.total;
    forall t: State, i: nat | i < |t.rules| && p(t) ensures p(RuleStep(t, i, now, sensors)) {
      RuleStepJammed(t, i, now, sensors);
    }
    ScanInduction(p, s, |s.rules|, now, sensors);
    var t := RulesStep(s, |s.rules|, now, sensors);
    assert forall k | 0 <= k < |t.active| :: Orphan(t, t.active[k]);
    KeptAll(t.active);
  }

  lemma AckJammed(s: State, ys: seq<Alarm>, now: nat, user: string)
    requires Jammed(s) && |ys| == |s.active|
    requires forall i | 0 <= i < |ys| :: ys[i] == s.active[i] || ys[i] == Acknowledged(s.active[i], now, user)
    ensures Jammed(s.(active := ys))
  {
    forall k | 0 <= k < |ys| ensures Orphan(s.(active := ys), ys[k]) {
      assert Orphan(s, s.active[k]);
    }
  }

  lemma EventJammed(s: State, ev: Event)
    requires Inv(s) && Jammed(s)
    ensures Jammed(Apply(s, ev)) && Apply(s, ev).total == s.total
  {
    match ev
    case Process(now, sensors) => ScanJammed(s, now, sensors);
    case Acknowledge(x, now, user) => AckJammed(s, AckOne(s, x, now, user).active, now, user);
    case AcknowledgeAll(now, user) => AckJammed(s, AckAll(s, now, user).active, now, user);
    case _ =>
      forall k | 0 <= k < |s.active| ensures Orphan(Apply(s, ev), s.active[k]) {
        assert Orphan(s, s.active[k]) && AlarmOk(s.active[k], s.nextAlarm, s.nextRule);
      }
  }

  /** Once 256 alarms without a rule are active, no alarm is ever raised again. */
  lemma {:induction false} JammedForEver(s: State, evs: seq<Event>)
    requires Inv(s) && Jammed(s) && AllTimed(evs)
    ensures Inv(RunFrom(s, evs)) && Jammed(RunFrom(s, evs)) && RunFrom(s, evs).total == s.total
  {
    if evs != [] {
      var n := |evs| - 1;
      JammedForEver(s, evs[..n]);
      assert Timed(evs[n]);
      EventKeeps(RunFrom(s, evs[..n]), evs[n]);
      EventJammed(RunFrom(s, evs[..n]), evs[n]);
    }
  }

  // --- how such alarms come to be ---

  /** Deleting the rule of an active alarm makes it such an alarm. */
  lemma DeletedRuleLeavesOrphan(s: State, a: Alarm)
    requires Inv(s) && a in s.active && IsActive(a)
    ensures Stuck(RuleDeleted(s, a.rule), a.id)
  {
    var t := RuleDeleted(s, a.rule);
    assert Orphan(t, a);
  }

  const EXTERNAL := Raise("", 0, 0, 0.0, 1)

  function Flood(n: nat): seq<Event> {
    seq(n, _ => EXTERNAL)
  }

  predicate Flooded(s: State, n: nat)
    ensures Flooded(s, n) ==> Inv(s) && |s.active| == n
  {
    Inv(s) && s.rules == [] && |s.active| == n && forall k | 0 <= k < n :: IsActive(s.active[k])
  }

  /** On a manager without rules or alarms, each external raise adds one alarm. */
  lemma {:induction false} FloodFills(s: State, n: nat)
    requires Flooded(s, 0) && n <= MAX_ACTIVE
    ensures Flooded(RunFrom(s, Flood(n)), n)
  {
    if n == 0 {
      assert Flood(n) == [];
    } else {
      FloodFills(s, n - 1);
      FloodStep(RunFrom(s, Flood(n - 1)), n - 1);
      assert Flood(n) == Flood(n - 1) + [EXTERNAL];
      RunNext(s, Flood(n - 1), EXTERNAL);
    }
  }

  lemma RunNext(s: State, evs: seq<Event>, ev: Event)
    ensures RunFrom(s, evs + [ev]) == Apply(RunFrom(s, evs), ev)
  {
    assert (evs + [ev])[..|evs|] == evs;
  }

  lemma FloodStep(s: State, n: nat)
    requires Flooded(s, n) && n < MAX_ACTIVE
    ensures Flooded(Apply(s, EXTERNAL), n + 1)
  {
    EventKeeps(s, EXTERNAL);
  }

  /** 256 external raises jam it. */
  lemma FloodJams(s: State)
    requires Flooded(s, 0)
    ensures Jammed(RunFrom(s, Flood(MAX_ACTIVE)))
  {
    FloodFills(s, MAX_ACTIVE);
    FloodedJammed(RunFrom(s, Flood(MAX_ACTIVE)));
  }

  /** So do they on a fresh manager. */
  lemma FreshManagerJams()
    ensures Jammed(RunFrom(INITIAL, Flood(MAX_ACTIVE)))
  {
    StartEmpty();
    FloodJams(INITIAL);
  }

  lemma StartEmpty()
    ensures Flooded(INITIAL, 0)
  {
    EmptyFlooded(INITIAL);
  }

  lemma EmptyFlooded(s: State)
    requires s.rules == [] && s.active == [] && s.raises == [] && s.nextRule == 1 && s.nextAlarm == 1 && s.total == 0
    ensures Flooded(s, 0)
  {
    assert Inv(s);
  }

  lemma FloodedJammed(s: State)
    requires Flooded(s, MAX_ACTIVE)
    ensures Jammed(s)
  {
    forall k | 0 <= k < |s.active| ensures Orphan(s, s.active[k]) {
    }
  }

  // --- the way out of the list, for every other alarm ---

  /** What the alarm with an id is not, if it is on the list: still active. */
  predicate NotActive(s: State, id: nat) {
    forall k | 0 <= k < |s.active| :: s.active[k].id == id ==> !IsActive(s.active[k])
  }

  predicate AllCleared(s: State, id: nat) {
    forall k | 0 <= k < |s.active| :: s.active[k].id == id ==> s.active[k].phase == Cleared
  }

  /** The rules are the same but for their timers. */
  predicate SameRules(s: State, t: State) {
    && |t.rules| == |s.rules| && t.suppressions == s.suppressions
    && forall i | 0 <= i < |s.rules| :: SameRule(s.rules[i], t.rules[i])
  }

  predicate SameRule(r: Rule, q: Rule) {
    q.(start := 0, active := false) == r.(start := 0, active := false)
  }

  /** The alarm with an id belongs to a rule. */
  predicate Belongs(s: State, id: nat, rule: nat) {
    forall k | 0 <= k < |s.active| :: s.active[k].id == id ==> s.active[k].rule == rule
  }

  /** What every rule of a scan keeps about the alarm. */
  predicate Tracked(s: State, t: State, id: nat, rule: nat) {
    Inv(t) && id < t.nextAlarm && SameRules(s, t) && Belongs(t, id, rule)
  }

  lemma StepTracks(s: State, t: State, i: nat, now: nat, sensors: Sensors, id: nat, rule: nat)
    requires Tracked(s, t, id, rule) && i < |t.rules| && now > 0
    ensures Tracked(s, RuleStep(t, i, now, sensors), id, rule)
  {
    RuleStepKeeps(t, i, now, sensors);
    RuleStepFollows(t, i, now, sensors);
    StepSameRules(t, i, now, sensors);
    StepBelongs(t, i, now, sensors, id, rule);
  }

  lemma StepSameRules(t: State, i: nat, now: nat, sensors: Sensors)
    requires i < |t.rules|
    ensures SameRules(t, RuleStep(t, i, now, sensors))
  {
  }

  lemma StepBelongs(t: State, i: nat, now: nat, sensors: Sensors, id: nat, rule: nat)
    requires i < |t.rules| && id < t.nextAlarm && Belongs(t, id, rule)
    ensures Belongs(RuleStep(t, i, now, sensors), id, rule)
  {
  }

  lemma StepKeepsNotActive(t: State, i: nat, now: nat, sensors: Sensors, id: nat)
    requires i < |t.rules| && id < t.nextAlarm && NotActive(t, id)
    ensures NotActive(RuleStep(t, i, now, sensors), id)
  {
  }

  lemma StepKeepsCleared(t: State, i: nat, now: nat, sensors: Sensors, id: nat)
    requires i < |t.rules| && id < t.nextAlarm && AllCleared(t, id)
    ensures AllCleared(RuleStep(t, i, now, sensors), id)
  {
  }

  /** The scan of its own rule clears the alarm. */
  lemma OwnRuleClears(t: State, i: nat, now: nat, id: nat)
    requires Inv(t) && i < |t.rules| && Belongs(t, id, t.rules[i].id)
    ensures NotActive(UnmetStep(t, i, now), id)
  {
    var k := AlarmOf(t.active, t.rules[i].id);
    var u := UnmetStep(t, i, now);
    forall j | 0 <= j < |u.active| && u.active[j].id == id ensures !IsActive(u.active[j]) {
      assert t.active[j].rule == t.rules[i].id;
      assert k == j;
    }
  }

  /** Induction over the rules of a scan from rule `m` on. */
  lemma {:induction false} ScanInductionFrom(p: State -> bool, s: State, m: nat, n: nat, now: nat, sensors: Sensors)
    requires m <= n <= |s.rules| && p(RulesStep(s, m, now, sensors))
    requires forall t: State, i: nat | i < |t.rules| && p(t) :: p(RuleStep(t, i, now, sensors))
    ensures p(RulesStep(s, n, now, sensors))
  {
    if m < n {
      ScanInductionFrom(p, s, m, n - 1, now, sensors);
    }
  }

  lemma TrackedThrough(s: State, n: nat, now: nat, sensors: Sensors, id: nat, rule: nat)
    requires Inv(s) && id < s.nextAlarm && Belongs(s, id, rule) && n <= |s.rules| && now > 0
    ensures Tracked(s, RulesStep(s, n, now, sensors), id, rule)
  {
    var p := (t: State) => Tracked(s, t, id, rule);
    forall t: State, i: nat | i < |t.rules| && p(t) ensures p(RuleStep(t, i, now, sensors)) {
      StepTracks(s, t, i, now, sensors, id, rule);
    }
    ScanInduction(p, s, n, now, sensors);
  }

  predicate Quiet(t: State, id: nat) {
    id < t.nextAlarm && NotActive(t, id)
  }

  predicate Finished(t: State, id: nat) {
    id < t.nextAlarm && AllCleared(t, id)
  }

  lemma StaysQuiet(s: State, m: nat, n: nat, now: nat, sensors: Sensors, id: nat)
    requires m <= n <= |s.rules| && Quiet(RulesStep(s, m, now, sensors), id)
    ensures Quiet(RulesStep(s, n, now, sensors), id)
  {
    var p := (t: State) => Quiet(t, id);
    forall t: State, i: nat | i < |t.rules| && p(t) ensures p(RuleStep(t, i, now, sensors)) {
      StepKeepsNotActive(t, i, now, sensors, id);
    }
    ScanInductionFrom(p, s, m, n, now, sensors);
  }

  lemma StaysFinished(s: State, now: nat, sensors: Sensors, id: nat)
    requires Finished(s, id)
    ensures Finished(RulesStep(s, |s.rules|, now, sensors), id)
  {
    var p := (t: State) => Finished(t, id);
    forall t: State, i: nat | i < |t.rules| && p(t) ensures p(RuleStep(t, i, now, sensors)) {
      StepKeepsCleared(t, i, now, sensors, id);
    }
    ScanInduction(p, s, |s.rules|, now, sensors);
  }

  /** Readings that do not meet a condition. */
  function Unmeeting(c: Condition): Sensors {
    (station, slot) => Reading(c == BadQuality, 0.0)
  }

  lemma UnmeetingIsUnmet(r: Rule)
    ensures !Met(r, Unmeeting(r.condition)(r.station, r.slot))
  {
  }

  /** After rule `i`, enabled and not suppressed, has seen an unmet reading, its alarm is not active. */
  lemma RuleQuiets(s: State, i: nat, now: nat, id: nat)
    requires Inv(s) && id < s.nextAlarm && i < |s.rules| && now > 0
    requires s.rules[i].enabled && !Suppressed(s.suppressions, s.rules[i].station, s.rules[i].slot, now)
    requires Belongs(s, id, s.rules[i].id)
    ensures Quiet(RulesStep(s, i + 1, now, Unmeeting(s.rules[i].condition)), id)
  {
    var r, sensors := s.rules[i], Unmeeting(s.rules[i].condition);
    TrackedThrough(s, i, now, sensors, id, r.id);
    var t := RulesStep(s, i, now, sensors);
    QuietAfterOwn(s, t, i, now, id);
  }

  lemma QuietAfterOwn(s: State, t: State, i: nat, now: nat, id: nat)
    requires i < |s.rules| && Tracked(s, t, id, s.rules[i].id) && now > 0
    requires s.rules[i].enabled && !Suppressed(s.suppressions, s.rules[i].station, s.rules[i].slot, now)
    ensures Quiet(RuleStep(t, i, now, Unmeeting(s.rules[i].condition)), id)
  {
    var q := t.rules[i];
    assert SameRule(s.rules[i], q);
    UnmeetingIsUnmet(q);
    assert RuleStep(t, i, now, Unmeeting(q.condition)) == UnmetStep(t, i, now);
    OwnRuleClears(t, i, now, id);
  }

  /** A scan with an unmet reading for rule `i` leaves its alarm not active. */
  lemma ScanQuiets(s: State, i: nat, now: nat, id: nat)
    requires Inv(s) && id < s.nextAlarm && i < |s.rules| && now > 0
    requires s.rules[i].enabled && !Suppressed(s.suppressions, s.rules[i].station, s.rules[i].slot, now)
    requires Belongs(s, id, s.rules[i].id)
    ensures Quiet(Scanned(s, now, Unmeeting(s.rules[i].condition)), id)
  {
    var sensors := Unmeeting(s.rules[i].condition);
    RuleQuiets(s, i, now, id);
    StaysQuiet(s, i + 1, |s.rules|, now, sensors, id);
    QuietKept(RulesStep(s, |s.rules|, now, sensors), id);
  }

  lemma QuietKept(t: State, id: nat)
    requires Quiet(t, id)
    ensures Quiet(t.(active := Kept(t.active)), id)
  {
    KeptIsSub(t.active);
    forall k | 0 <= k < |Kept(t.active)| && Kept(t.active)[k].id == id ensures !IsActive(Kept(t.active)[k]) {
      assert Kept(t.active)[k] in t.active;
    }
  }

  /** Any scan keeps an alarm that is not active so. */
  lemma ScanKeepsQuiet(s: State, now: nat, sensors: Sensors, id: nat)
    requires Quiet(s, id)
    ensures Quiet(Scanned(s, now, sensors), id)
  {
    StaysQuiet(s, 0, |s.rules|, now, sensors, id);
    QuietKept(RulesStep(s, |s.rules|, now, sensors), id);
  }

  /** Acknowledging an alarm that is not active finishes it. */
  lemma AckFinishes(s: State, id: nat, now: nat, user: string)
    requires Inv(s) && Quiet(s, id)
    ensures Finished(AckOne(s, id, now, user), id)
  {
    var t := AckOne(s, id, now, user);
    forall k | 0 <= k < |t.active| && t.active[k].id == id ensures t.active[k].phase == Cleared {
      assert forall j | 0 <= j < k :: s.active[j].id != id;
    }
  }

  /** A scan takes a finished alarm off the list. */
  lemma ScanRemoves(s: State, now: nat, sensors: Sensors, id: nat)
    requires Finished(s, id)
    ensures !Has(Scanned(s, now, sensors).active, id)
  {
    StaysFinished(s, now, sensors, id);
    var t := RulesStep(s, |s.rules|, now, sensors);
    KeptIsSub(t.active);
    forall a | a in Kept(t.active) ensures a.id != id {
      assert a in t.active && a.phase != Cleared;
    }
  }

  /** A time at which every suppression has ended. */
  function Late(ss: seq<Suppression>): (now: nat)
    ensures now > 0 && forall i | 0 <= i < |ss| :: ss[i].end <= now
  {
    if ss == [] then 1
    else
      var before := Late(ss[..|ss| - 1]);
      if ss[|ss| - 1].end > before then ss[|ss| - 1].end else before
  }

  /** Enable the rule, let a scan see its condition gone, acknowledge, scan again. */
  function WayOut(s: State, id: nat, rule: nat, c: Condition): seq<Event> {
    var now := Late(s.suppressions);
    [EnableRule(rule, true), Process(now, Unmeeting(c)), Acknowledge(id, now, ""), Process(now, Unmeeting(c))]
  }

  lemma RunFour(s: State, e0: Event, e1: Event, e2: Event, e3: Event)
    ensures RunFrom(s, [e0, e1, e2, e3]) == Apply(Apply(Apply(Apply(s, e0), e1), e2), e3)
  {
    RunNext(s, [], e0);
    RunNext(s, [e0], e1);
    RunNext(s, [e0, e1], e2);
    RunNext(s, [e0, e1, e2], e3);
    assert [] + [e0] == [e0] && [e0] + [e1] == [e0, e1];
    assert [e0, e1] + [e2] == [e0, e1, e2] && [e0, e1, e2] + [e3] == [e0, e1, e2, e3];
  }

  /** From a quiet alarm, acknowledging and scanning takes it off. */
  lemma QuietLeaves(s: State, id: nat, now: nat, sensors: Sensors)
    requires Inv(s) && Quiet(s, id)
    ensures !Has(Apply(Apply(s, Acknowledge(id, now, "")), Process(now, sensors)).active, id)
  {
    AckFinishes(s, id, now, "");
    ScanRemoves(AckOne(s, id, now, ""), now, sensors, id);
  }

  /** The first scan on the way out quiets the alarm. */
  lemma WayOutQuiets(s: State, id: nat, a: Alarm, c: Condition, now: nat)
    requires Inv(s) && a in s.active && a.id == id && now == Late(s.suppressions)
    requires IsActive(a) ==> exists i | 0 <= i < |s.rules| :: s.rules[i].id == a.rule && s.rules[i].condition == c
    ensures Quiet(Apply(Apply(s, EnableRule(a.rule, true)), Process(now, Unmeeting(c))), id)
  {
    var u := RuleEnabled(s, a.rule, true);
    EventKeeps(s, EnableRule(a.rule, true));
    var k :| 0 <= k < |s.active| && s.active[k] == a;
    assert AlarmOk(s.active[k], s.nextAlarm, s.nextRule);
    if IsActive(a) {
      var i :| 0 <= i < |s.rules| && s.rules[i].id == a.rule && s.rules[i].condition == c;
      assert RuleAt(s.rules, a.rule) == i;
      assert Belongs(u, id, a.rule);
      ScanQuiets(u, i, now, id);
    } else {
      assert Quiet(u, id);
      ScanKeepsQuiet(u, now, Unmeeting(c), id);
    }
  }

  lemma WayOutLeaves(s: State, id: nat, a: Alarm, c: Condition)
    requires Inv(s) && a in s.active && a.id == id
    requires IsActive(a) ==> exists i | 0 <= i < |s.rules| :: s.rules[i].id == a.rule && s.rules[i].condition == c
    ensures AllTimed(WayOut(s, id, a.rule, c)) && !Has(RunFrom(s, WayOut(s, id, a.rule, c)).active, id)
  {
    var now := Late(s.suppressions);
    WayOutQuiets(s, id, a, c, now);
    FourLeave(s, id, a.rule, now, Unmeeting(c));
  }

  lemma FourLeave(s: State, id: nat, rule: nat, now: nat, sensors: Sensors)
    requires Inv(s) && now > 0 && Quiet(Apply(Apply(s, EnableRule(rule, true)), Process(now, sensors)), id)
    ensures var evs := [EnableRule(rule, true), Process(now, sensors), Acknowledge(id, now, ""), Process(now, sensors)];
            AllTimed(evs) && !Has(RunFrom(s, evs).active, id)
  {
    var e0, e1 := EnableRule(rule, true), Process(now, sensors);
    EventKeeps(s, e0);
    EventKeeps(Apply(s, e0), e1);
    QuietLeaves(Apply(Apply(s, e0), e1), id, now, sensors);
    RunFour(s, e0, e1, Acknowledge(id, now, ""), e1);
  }

  ghost predicate NeverLeaves(s: State, id: nat) {
    forall evs: seq<Event> | AllTimed(evs) :: Has(RunFrom(s, evs).active, id)
  }

  /** An alarm on the list can never leave it exactly when it is active and its rule is not in the table. */
  lemma StuckIff(s: State, id: nat)
    requires Inv(s) && Has(s.active, id)
    ensures Stuck(s, id) <==> NeverLeaves(s, id)
  {
    if Stuck(s, id) {
      forall evs: seq<Event> | AllTimed(evs) ensures Has(RunFrom(s, evs).active, id) {
        OrphanStays(s, evs, id);
        StuckHas(RunFrom(s, evs), id);
      }
    } else {
      var a :| a in s.active && a.id == id;
      assert !Orphan(s, a);
      if i :| 0 <= i < |s.rules| && s.rules[i].id == a.rule {
        WayOutLeaves(s, id, a, s.rules[i].condition);
      } else {
        WayOutLeaves(s, id, a, High);
      }
    }
  }

  lemma StuckHas(s: State, id: nat)
    requires Stuck(s, id)
    ensures Has(s.active, id)
  {
    var a :| Orphan(s, a) && a.id == id;
  }
}
