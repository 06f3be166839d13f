/**
 * The alarm manager's state and operations on values.  Sensors are a parameter of each scan, and each
 * call reads the clock once.
 */
module Alarms {
  import opened Clock
  import opened AlarmCondition

  const MAX_ACTIVE := 256
  const MAX_RULES := 512
  const MAX_SUPPRESSIONS := 64

  datatype Phase = ActiveUnack | ActiveAck | ClearedUnack | Cleared

  /** Alarm times are zero until the event has happened. */
  datatype Alarm = Alarm(id: nat, rule: nat, station: string, slot: int, severity: int, phase: Phase,
                         value: real, threshold: real, raised: nat, acked: nat, cleared: nat, user: string)

  datatype Rule = Rule(id: nat, station: string, slot: int, condition: Condition, threshold: real, severity: int,
                       delay: nat, enabled: bool, start: nat, active: bool)

  datatype Suppression = Suppression(station: string, slot: int, end: nat)

  datatype State = State(rules: seq<Rule>, nextRule: nat, active: seq<Alarm>, nextAlarm: nat,
                         suppressions: seq<Suppression>, total: nat, raises: seq<nat>)

  const INITIAL := State([], 1, [], 1, [], 0, [])

  /** What the registry says about a point; the value is arbitrary when the reading is not good. */
  datatype Reading = Reading(good: bool, value: real)

  type Sensors = (string, int) -> Reading

  predicate Met(r: Rule, x: Reading) {
    if !x.good then r.condition == BadQuality
    else
      match r.condition
      case High => x.value >= r.threshold
      case HighHigh => x.value >= r.threshold
      case Low => x.value <= r.threshold
      case LowLow => x.value <= r.threshold
      case _ => false
  }

  predicate Suppressed(ss: seq<Suppression>, station: string, slot: int, now: nat) {
    exists i | 0 <= i < |ss| :: ss[i].station == station && ss[i].slot == slot && ss[i].end > now
  }

  /** The position of the first alarm of a rule, or -1. */
  function AlarmOf(active: seq<Alarm>, rule: nat): (k: int)
    ensures -1 <= k < |active|
    ensures k >= 0 ==> active[k].rule == rule && forall j | 0 <= j < k :: active[j].rule != rule
    ensures k < 0 ==> forall j | 0 <= j < |active| :: active[j].rule != rule
  {
    if active == [] then -1
    else
      var k := AlarmOf(active[..|active| - 1], rule);
      if k >= 0 then k else if active[|active| - 1].rule == rule then |active| - 1 else -1
  }

  function NewAlarm(s: State, rule: nat, station: string, slot: int, severity: int, value: real, threshold: real, now: nat): Alarm {
    Alarm(s.nextAlarm, rule, station, slot, severity, ActiveUnack, value, threshold, now, 0, 0, "")
  }

  function Raised(s: State, a: Alarm): State {
    s.(active := s.active + [a], nextAlarm := s.nextAlarm + 1, total := s.total + 1, raises := s.raises + [a.raised])
  }

  /** The alarm after its condition has gone away. */
  function ClearedAt(a: Alarm, now: nat): Alarm {
    match a.phase
    case ActiveUnack => a.(phase := ClearedUnack, cleared := now)
    case ActiveAck => a.(phase := Cleared, cleared := now)
    case _ => a
  }

  predicate IsActive(a: Alarm) {
    a.phase == ActiveUnack || a.phase == ActiveAck
  }

  predicate Raises(s: State, r: Rule, now: nat) {
    r.start != 0 && AlarmOf(s.active, r.id) < 0 && Elapsed(now, r.start) >= r.delay && |s.active| < MAX_ACTIVE
  }

  /** A rule whose condition is met. */
  function MetStep(s: State, i: nat, x: Reading, now: nat): State
    requires i < |s.rules|
  {
    var r := s.rules[i];
    if r.start == 0 then s.(rules := s.rules[i := r.(start := now)])
    else if Raises(s, r, now) then
      Raised(s, NewAlarm(s, r.id, r.station, r.slot, r.severity, x.value, r.threshold, now)).(rules := s.rules[i := r.(active := true)])
    else s
  }

  /** A rule whose condition is not met. */
  function UnmetStep(s: State, i: nat, now: nat): State
    requires i < |s.rules|
  {
    var r := s.rules[i];
    var k := AlarmOf(s.active, r.id);
    if k >= 0 && IsActive(s.active[k]) then
      s.(rules := s.rules[i := r.(start := 0, active := false)], active := s.active[k := ClearedAt(s.active[k], now)])
    else s.(rules := s.rules[i := r.(start := 0)])
  }

  function RuleStep(s: State, i: nat, now: nat, sensors: Sensors): State
    requires i < |s.rules|
  {
    var r := s.rules[i];
    var x := sensors(r.station, r.slot);
    if !r.enabled || Suppressed(s.suppressions, r.station, r.slot, now) then s
    else if Met(r, x) then MetStep(s, i, x, now)
    else UnmetStep(s, i, now)
  }

  /** The state after the first `n` rules of a scan. */
  function RulesStep(s: State, n: nat, now: nat, sensors: Sensors): (r: State)
    requires n <= |s.rules|
    ensures |r.rules| == |s.rules|
  {
    if n == 0 then s else RuleStep(RulesStep(s, n - 1, now, sensors), n - 1, now, sensors)
  }

  /** The alarms that stay on the list. */
  function Kept(active: seq<Alarm>): (r: seq<Alarm>)
    ensures |r| <= |active|
  {
    if active == [] then []
    else Kept(active[..|active| - 1]) + (if active[|active| - 1].phase == Cleared then [] else [active[|active| - 1]])
  }

  function Dropped(active: seq<Alarm>): seq<Alarm> {
    if active == [] then []
    else Dropped(active[..|active| - 1]) + (if active[|active| - 1].phase == Cleared then [active[|active| - 1]] else [])
  }

  function Scanned(s: State, now: nat, sensors: Sensors): State {
    var t := RulesStep(s, |s.rules|, now, sensors);
    t.(active := Kept(t.active))
  }

  /** The alarms a scan takes off the list. */
  function Removed(s: State, now: nat, sensors: Sensors): seq<Alarm> {
    Dropped(RulesStep(s, |s.rules|, now, sensors).active)
  }

  function Acknowledged(a: Alarm, now: nat, user: string): Alarm {
    var phase := match a.phase
      case ActiveUnack => ActiveAck
      case ClearedUnack => Cleared
      case p => p;
    a.(phase := phase, acked := now, user := user)
  }

  function AckOne(s: State, id: nat, now: nat, user: string): State {
    s.(active := seq(|s.active|, i requires 0 <= i < |s.active| =>
      if s.active[i].id == id && (forall j | 0 <= j < i :: s.active[j].id != id) then Acknowledged(s.active[i], now, user)
      else s.active[i]))
  }

  predicate Unacknowledged(a: Alarm) {
    a.phase == ActiveUnack || a.phase == ClearedUnack
  }

  function AckAll(s: State, now: nat, user: string): State {
    s.(active := seq(|s.active|, i requires 0 <= i < |s.active| =>
      if Unacknowledged(s.active[i]) then Acknowledged(s.active[i], now, user) else s.active[i]))
  }

  function NewRule(s: State, station: string, slot: int, condition: Condition, threshold: real, severity: int, delay: nat): Rule {
    Rule(s.nextRule, station, slot, condition, threshold, severity, delay, true, 0, false)
  }

  function RuleCreated(s: State, station: string, slot: int, condition: Condition, threshold: real, severity: int, delay: nat): State {
    if |s.rules| >= MAX_RULES then s
    else s.(rules := s.rules + [NewRule(s, station, slot, condition, threshold, severity, delay)], nextRule := s.nextRule + 1)
  }

  /** The position of the first rule with an id, or -1. */
  function RuleAt(rules: seq<Rule>, id: nat): (k: int)
    ensures -1 <= k < |rules|
    ensures k >= 0 ==> rules[k].id == id && forall j | 0 <= j < k :: rules[j].id != id
    ensures k < 0 ==> forall j | 0 <= j < |rules| :: rules[j].id != id
  {
    if rules == [] then -1
    else
      var k := RuleAt(rules[..|rules| - 1], id);
      if k >= 0 then k else if rules[|rules| - 1].id == id then |rules| - 1 else -1
  }

  function RuleDeleted(s: State, id: nat): State {
    var k := RuleAt(s.rules, id);
    if k < 0 then s else s.(rules := s.rules[..k] + s.rules[k + 1..])
  }

  function RuleEnabled(s: State, id: nat, enabled: bool): State {
    var k := RuleAt(s.rules, id);
    if k < 0 then s else s.(rules := s.rules[k := s.rules[k].(enabled := enabled)])
  }

  function SuppressionAdded(s: State, station: string, slot: int, end: nat): State {
    if |s.suppressions| >= MAX_SUPPRESSIONS then s
    else s.(suppressions := s.suppressions + [Suppression(station, slot, end)])
  }

  function RaisedExternally(s: State, station: string, slot: int, severity: int, value: real, now: nat): State {
    if |s.active| >= MAX_ACTIVE then s else Raised(s, NewAlarm(s, 0, station, slot, severity, value, 0.0, now))
  }

  datatype Event =
    | CreateRule(station: string, slot: int, condition: Condition, threshold: real, severity: int, delay: nat)
    | DeleteRule(rule: nat)
    | EnableRule(rule: nat, enabled: bool)
    | Acknowledge(id: nat, now: nat, user: string)
    | AcknowledgeAll(now: nat, user: string)
    | Suppress(station: string, slot: int, end: nat)
    | Process(now: nat, sensors: Sensors)
    | Raise(station: string, slot: int, severity: int, value: real, now: nat)

  function Apply(s: State, ev: Event): State {
    match ev
    case CreateRule(st, slot, c, thr, sev, delay) => RuleCreated(s, st, slot, c, thr, sev, delay)
    case DeleteRule(id) => RuleDeleted(s, id)
    case EnableRule(id, e) => RuleEnabled(s, id, e)
    case Acknowledge(id, now, user) => AckOne(s, id, now, user)
    case AcknowledgeAll(now, user) => AckAll(s, now, user)
    case Suppress(st, slot, end) => SuppressionAdded(s, st, slot, end)
    case Process(now, sensors) => Scanned(s, now, sensors)
    case Raise(st, slot, sev, v, now) => RaisedExternally(s, st, slot, sev, v, now)
  }

  /** The alarms an event takes off the list. */
  function TakenOff(s: State, ev: Event): seq<Alarm> {
    if ev.Process? then Removed(s, ev.now, ev.sensors) else []
  }
}
