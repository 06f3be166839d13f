/** The alarm manager object: rule and alarm tables in fixed buffers, and the ring of raise times. */
module AlarmManager {
  import opened Clock
  import opened Status
  import opened AlarmCondition
  import opened Alarms
  import opened AlarmRate

  const BLANK_ALARM := Alarm(0, 0, "", 0, 0, Cleared, 0.0, 0.0, 0, 0, 0, "")
  const BLANK_RULE := Rule(0, "", 0, High, 0.0, 0, 0, false, 0, false)

  lemma {:induction false} KeptConcat(xs: seq<Alarm>, ys: seq<Alarm>)
    ensures Kept(xs + ys) == Kept(xs) + Kept(ys)
  {
    if ys == [] {
      assert xs + ys == xs;
    } else {
      var n := |ys| - 1;
      assert (xs + ys)[..|xs + ys| - 1] == xs + ys[..n];
      KeptConcat(xs, ys[..n]);
    }
  }

  lemma KeptFirst(xs: seq<Alarm>, i: nat)
    requires i < |xs|
    ensures Kept(xs[i..]) == (if xs[i].phase == Cleared then [] else [xs[i]]) + Kept(xs[i + 1..])
  {
    assert xs[i..] == [xs[i]] + xs[i + 1..];
    KeptConcat([xs[i]], xs[i + 1..]);
    assert [xs[i]][..0] == [];
  }

  /** The ring of raise times agrees with the log of raises. */
  ghost predicate Noted(ring: seq<nat>, at: nat, log: seq<nat>)
    ensures Noted(ring, at, log) ==> |ring| == SLOTS && at < SLOTS
  {
    Rings(ring, at, log)
  }

  lemma NotedNext(ring: seq<nat>, at: nat, log: seq<nat>, t: nat)
    requires Noted(ring, at, log)
    ensures Noted(ring[at := t], (at + 1) % SLOTS, log + [t])
  {
    RingsNext(ring, at, log, t);
  }

  /** A list that is a prefix up to and with `i`, then a rest. */
  lemma Around(xs: seq<Alarm>, i: nat, rest: seq<Alarm>, ys: seq<Alarm>)
    requires i < |xs| && ys == xs[..i + 1] + rest
    ensures i < |ys| && ys[i] == xs[i]
    ensures ys[..i] + ys[i + 1..] == xs[..i] + ([] + rest)
    ensures ys == xs[..i] + ([xs[i]] + rest)
  {
  }

  class Manager {
    const limit: nat
    var hasRegistry: bool
    const rules: array<Rule>
    var ruleCount: nat
    var nextRule: nat
    const active: array<Alarm>
    var activeCount: nat
    var nextAlarm: nat
    var suppressions: seq<Suppression>
    var total: nat
    const stamps: array<nat>
    var stampAt: nat
    ghost var raises: seq<nat>

    ghost predicate Valid()
      reads this, stamps
    {
      && rules.Length == MAX_RULES && ruleCount <= MAX_RULES
      && active.Length == MAX_ACTIVE && activeCount <= MAX_ACTIVE
      && stamps.Length == SLOTS && Noted(stamps[..], stampAt, raises)
    }

    ghost function State(): Alarms.State
      requires Valid()
      reads this, rules, active, stamps
    {
      Alarms.State(rules[..ruleCount], nextRule, active[..activeCount], nextAlarm, suppressions, total, raises)
    }

    constructor (limit: nat)
      ensures Valid() && State() == INITIAL && !hasRegistry
      ensures this.limit == if limit == 0 then 100 else limit
      ensures fresh(rules) && fresh(active) && fresh(stamps)
    {
      this.limit := if limit == 0 then 100 else limit;
      hasRegistry := false;
      rules := new Rule[MAX_RULES](_ => BLANK_RULE);
      active := new Alarm[MAX_ACTIVE](_ => BLANK_ALARM);
      stamps := new nat[SLOTS](_ => 0);
      ruleCount, activeCount, nextRule, nextAlarm, total, stampAt := 0, 0, 1, 1, 0, 0;
      suppressions, raises := [], [];
      new;
      assert stamps[..] == [] + Zeros(SLOTS);
      assert Noted(stamps[..], 0, []);
    }

    /** The active alarm of a rule, or -1. */
    method FindActive(rule: nat) returns (k: int)
      requires Valid()
      ensures k == AlarmOf(active[..activeCount], rule)
    {
      ghost var xs := active[..activeCount];
      k := 0;
      while k < activeCount
        invariant 0 <= k <= activeCount && forall j | 0 <= j < k :: xs[j].rule != rule
      {
        if active[k].rule == rule {
          assert xs[k].rule == rule;
          return;
        }
        k := k + 1;
      }
      k := -1;
    }

    /** The rule with an id, or -1. */
    method FindRule(id: nat) returns (k: int)
      requires Valid()
      ensures k == RuleAt(rules[..ruleCount], id)
    {
      ghost var xs := rules[..ruleCount];
      k := 0;
      while k < ruleCount
        invariant 0 <= k <= ruleCount && forall j | 0 <= j < k :: xs[j].id != id
      {
        if rules[k].id == id {
          assert xs[k].id == id;
          return;
        }
        k := k + 1;
      }
      k := -1;
    }

    method IsSuppressed(station: string, slot: int, now: nat) returns (yes: bool)
      ensures yes == Suppressed(suppressions, station, slot, now)
    {
      for i := 0 to |suppressions|
        invariant forall j | 0 <= j < i ::
                    !(suppressions[j].station == station && suppressions[j].slot == slot && suppressions[j].end > now)
      {
        if suppressions[i].station == station && suppressions[i].slot == slot && suppressions[i].end > now {
          return true;
        }
      }
      yes := false;
    }

    /** Note the time of a raise in the ring. */
    method Track(now: nat)
      requires Valid()
      modifies this`stampAt, this`raises, stamps
      ensures Valid() && raises == old(raises) + [now]
    {
      ghost var ring, at, log := stamps[..], stampAt, raises;
      Stamp(now);
      raises := log + [now];
      NotedNext(ring, at, log, now);
    }

    method Stamp(now: nat)
      requires stamps.Length == SLOTS && stampAt < SLOTS
      modifies this`stampAt, stamps
      ensures stamps[..] == old(stamps[..])[old(stampAt) := now] && stampAt == (old(stampAt) + 1) % SLOTS
    {
      stamps[stampAt] := now;
      stampAt := (stampAt + 1) % SLOTS;
    }

    /** How many of the noted times lie in the last ten minutes. */
    method CountRecent(now: nat) returns (count: nat)
      requires Valid()
      ensures count == Above(stamps[..], Bound(now))
    {
      var since := Bound(now);
      count := 0;
      assert stamps[..0] == [];
      for i := 0 to SLOTS
        invariant count == Above(stamps[..i], since)
      {
        assert stamps[..i + 1][..i] == stamps[..i];
        if stamps[i] > since {
          count := count + 1;
        }
      }
      assert stamps[..SLOTS] == stamps[..];
    }

    /** The alarm rate per hour: six times what the last ten minutes brought, at most 3600. */
    method AlarmRatePerHour(now: nat) returns (rate: real)
      requires Valid()
      ensures rate == 6.0 * (Above(stamps[..], Bound(now)) as real)
      ensures Ordered(raises) && TEN_MINUTES <= now < WORD ==>
                rate == 6.0 * ((if InWindow(raises, now) > SLOTS then SLOTS else InWindow(raises, now)) as real)
    {
      var count := CountRecent(now);
      rate := count as real * 6.0;
      if Ordered(raises) && TEN_MINUTES <= now < WORD {
        WindowIsExact(stamps[..], stampAt, raises, now);
      }
    }

    /** The flood flag: exact for an ordered log, a clock past its first ten minutes and a limit below 600. */
    method IsAlarmFlood(now: nat) returns (flood: bool)
      requires Valid()
      ensures flood == (Above(stamps[..], Bound(now)) > limit)
      ensures Ordered(raises) && TEN_MINUTES <= now < WORD && limit < SLOTS ==>
                (flood <==> InWindow(raises, now) > limit)
    {
      var count := CountRecent(now);
      flood := count > limit;
      if Ordered(raises) && TEN_MINUTES <= now < WORD && limit < SLOTS {
        FloodIsExact(stamps[..], stampAt, raises, now, limit);
      }
    }

    /** Put an alarm at the end of the list. */
    method Append(a: Alarm)
      requires Valid() && activeCount < MAX_ACTIVE && a.id == nextAlarm
      modifies this`activeCount, this`nextAlarm, this`total, this`stampAt, this`raises, active, stamps
      ensures Valid() && State() == Raised(old(State()), a)
    {
      ghost var xs := active[..activeCount];
      active[activeCount] := a;
      activeCount := activeCount + 1;
      assert active[..activeCount] == xs + [a];
      nextAlarm := nextAlarm + 1;
      total := total + 1;
      Track(a.raised);
    }

    method SetRule(i: nat, r: Rule)
      requires Valid() && i < ruleCount
      modifies rules
      ensures Valid() && State() == old(State()).(rules := old(rules[..ruleCount])[i := r])
    {
      rules[i] := r;
      assert rules[..ruleCount] == old(rules[..ruleCount])[i := r];
    }

    method SetAlarm(k: nat, a: Alarm)
      requires Valid() && k < activeCount
      modifies active
      ensures Valid() && State() == old(State()).(active := old(active[..activeCount])[k := a])
    {
      active[k] := a;
      assert active[..activeCount] == old(active[..activeCount])[k := a];
    }

    method ProcessMet(i: nat, x: Reading, now: nat)
      requires Valid() && i < ruleCount
      modifies this`activeCount, this`nextAlarm, this`total, this`stampAt, this`raises, rules, active, stamps
      ensures Valid() && State() == MetStep(old(State()), i, x, now)
    {
      var r := rules[i];
      var k := FindActive(r.id);
      if r.start == 0 {
        SetRule(i, r.(start := now));
      } else if k < 0 && Elapsed(now, r.start) >= r.delay {
        if activeCount < MAX_ACTIVE {
          Append(Alarm(nextAlarm, r.id, r.station, r.slot, r.severity, ActiveUnack, x.value, r.threshold, now, 0, 0, ""));
          SetRule(i, r.(active := true));
        }
      }
    }

    method ProcessUnmet(i: nat, now: nat)
      requires Valid() && i < ruleCount
      modifies rules, active
      ensures Valid() && State() == UnmetStep(old(State()), i, now)
    {
      var r := rules[i];
      var k := FindActive(r.id);
      if k >= 0 && (active[k].phase == ActiveUnack || active[k].phase == ActiveAck) {
        var a := active[k].(cleared := now);
        if a.phase == ActiveAck {
          a := a.(phase := Cleared);
        } else {
          a := a.(phase := ClearedUnack);
        }
        SetAlarm(k, a);
        SetRule(i, r.(start := 0, active := false));
      } else {
        SetRule(i, r.(start := 0));
      }
    }

    /** One rule of a scan. */
    method ProcessRule(i: nat, now: nat, sensors: Sensors)
      requires Valid() && i < ruleCount
      modifies this`activeCount, this`nextAlarm, this`total, this`stampAt, this`raises, rules, active, stamps
      ensures Valid() && State() == RuleStep(old(State()), i, now, sensors)
    {
      var r := rules[i];
      if !r.enabled {
        return;
      }
      var quiet := IsSuppressed(r.station, r.slot, now);
      if quiet {
        return;
      }
      var x := sensors(r.station, r.slot);
      if Met(r, x) {
        ProcessMet(i, x, now);
      } else {
        ProcessUnmet(i, now);
      }
    }

    /** Take the alarm at `k` off the list by moving the later ones down. */
    method RemoveAt(k: nat)
      requires Valid() && k < activeCount
      modifies this`activeCount, active
      ensures Valid() && State() == old(State()).(active := old(active[..activeCount])[..k] + old(active[..activeCount])[k + 1..])
    {
      ghost var xs := active[..activeCount];
      var n := activeCount - 1;
      for j := k to n
        invariant activeCount == n + 1
        invariant forall m | k <= m < j :: active[m] == old(active[m + 1])
        invariant forall m | 0 <= m < k :: active[m] == old(active[m])
        invariant forall m | j <= m <= n :: active[m] == old(active[m])
      {
        active[j] := active[j + 1];
      }
      activeCount := n;
      assert active[..n] == xs[..k] + xs[k + 1..];
    }

    /** Take the cleared alarms off the list, from the back. */
    method RemoveCleared()
      requires Valid()
      modifies this`activeCount, active
      ensures Valid() && State() == old(State()).(active := Kept(old(active[..activeCount])))
    {
      ghost var xs := active[..activeCount];
      var i := activeCount;
      assert xs[i..] == [];
      while i > 0
        invariant Valid() && i <= |xs|
        invariant active[..activeCount] == xs[..i] + Kept(xs[i..])
      {
        i := i - 1;
        ghost var ys := active[..activeCount];
        KeptFirst(xs, i);
        Around(xs, i, Kept(xs[i + 1..]), ys);
        if active[i].phase == Cleared {
          RemoveAt(i);
        }
      }
      assert xs[..0] == [] && xs[0..] == xs;
    }

    /** One scan over every rule, then the clean-up. */
    method Process(now: nat, sensors: Sensors) returns (code: Code)
      requires Valid()
      modifies this`activeCount, this`nextAlarm, this`total, this`stampAt, this`raises, rules, active, stamps
      ensures Valid() && code == if hasRegistry then Ok else InvalidParam
      ensures State() == if hasRegistry then Scanned(old(State()), now, sensors) else old(State())
    {
      if !hasRegistry {
        return InvalidParam;
      }
      ProcessRules(now, sensors);
      RemoveCleared();
      code := Ok;
    }

    method ProcessRules(now: nat, sensors: Sensors)
      requires Valid()
      modifies this`activeCount, this`nextAlarm, this`total, this`stampAt, this`raises, rules, active, stamps
      ensures Valid() && State() == RulesStep(old(State()), old(ruleCount), now, sensors)
    {
      ghost var s := State();
      for i := 0 to ruleCount
        invariant Valid() && ruleCount == |s.rules| && State() == RulesStep(s, i, now, sensors)
      {
        ProcessRule(i, now, sensors);
      }
    }

    method CreateRule(station: string, slot: int, condition: Condition, threshold: real, severity: int, delay: nat)
      returns (code: Code, id: nat)
      requires Valid()
      modifies this`ruleCount, this`nextRule, rules
      ensures Valid()
      ensures State() == Apply(old(State()), Event.CreateRule(station, slot, condition, threshold, severity, delay))
      ensures code == if old(ruleCount) < MAX_RULES then Ok else Full
      ensures code == Ok ==> id == old(nextRule)
    {
      if ruleCount >= MAX_RULES {
        return Full, 0;
      }
      ghost var xs := rules[..ruleCount];
      id := nextRule;
      rules[ruleCount] := Rule(id, station, slot, condition, threshold, severity, delay, true, 0, false);
      ruleCount := ruleCount + 1;
      nextRule := nextRule + 1;
      assert rules[..ruleCount] == xs + [rules[ruleCount - 1]];
      code := Ok;
    }

    /** Take the rule at `k` out by moving the later ones down. */
    method RemoveRuleAt(k: nat)
      requires Valid() && k < ruleCount
      modifies this`ruleCount, rules
      ensures Valid() && State() == old(State()).(rules := old(rules[..ruleCount])[..k] + old(rules[..ruleCount])[k + 1..])
    {
      ghost var xs := rules[..ruleCount];
      var n := ruleCount - 1;
      for j := k to n
        invariant ruleCount == n + 1
        invariant forall m | k <= m < j :: rules[m] == old(rules[m + 1])
        invariant forall m | 0 <= m < k :: rules[m] == old(rules[m])
        invariant forall m | j <= m <= n :: rules[m] == old(rules[m])
      {
        rules[j] := rules[j + 1];
      }
      ruleCount := n;
      assert rules[..n] == xs[..k] + xs[k + 1..];
    }

    method DeleteRule(id: nat) returns (code: Code)
      requires Valid()
      modifies this`ruleCount, rules
      ensures Valid() && State() == Apply(old(State()), Event.DeleteRule(id))
      ensures code == if RuleAt(old(rules[..ruleCount]), id) < 0 then NotFound else Ok
    {
      var k := FindRule(id);
      if k < 0 {
        return NotFound;
      }
      RemoveRuleAt(k);
      code := Ok;
    }

    method EnableRule(id: nat, enabled: bool) returns (code: Code)
      requires Valid()
      modifies rules
      ensures Valid() && State() == Apply(old(State()), Event.EnableRule(id, enabled))
      ensures code == if RuleAt(old(rules[..ruleCount]), id) < 0 then NotFound else Ok
    {
      var k := FindRule(id);
      if k < 0 {
        return NotFound;
      }
      SetRule(k, rules[k].(enabled := enabled));
      code := Ok;
    }

    method Acknowledge(id: nat, now: nat, user: string) returns (code: Code)
      requires Valid()
      modifies active
      ensures Valid() && State() == Apply(old(State()), Event.Acknowledge(id, now, user))
      ensures code == Ok <==> exists a | a in old(active[..activeCount]) :: a.id == id
      ensures code != Ok ==> code == NotFound
    {
      ghost var xs := active[..activeCount];
      for i := 0 to activeCount
        invariant active[..activeCount] == xs
        invariant forall j | 0 <= j < i :: xs[j].id != id
      {
        assert active[i] == xs[i];
        if active[i].id == id {
          var a := active[i];
          if a.phase == ActiveUnack {
            a := a.(phase := ActiveAck);
          } else if a.phase == ClearedUnack {
            a := a.(phase := Cleared);
          }
          SetAlarm(i, a.(acked := now, user := user));
          assert xs[i] in xs;
          assert active[..activeCount] == AckOne(old(State()), id, now, user).active;
          return Ok;
        }
      }
      assert xs == AckOne(old(State()), id, now, user).active;
      code := NotFound;
    }

    method AcknowledgeAll(now: nat, user: string)
      requires Valid()
      modifies active
      ensures Valid() && State() == Apply(old(State()), Event.AcknowledgeAll(now, user))
    {
      ghost var all := AckAll(old(State()), now, user).active;
      for i := 0 to activeCount
        invariant forall j | 0 <= j < i :: active[j] == all[j]
        invariant forall j | i <= j < activeCount :: active[j] == old(active[j])
      {
        var a := active[i];
        if a.phase == ActiveUnack || a.phase == ClearedUnack {
          if a.phase == ActiveUnack {
            a := a.(phase := ActiveAck);
          } else {
            a := a.(phase := Cleared);
          }
          active[i] := a.(acked := now, user := user);
        }
      }
      assert active[..activeCount] == all;
    }

    method Suppress(station: string, slot: int, duration: nat, now: nat) returns (code: Code)
      requires Valid()
      modifies this`suppressions
      ensures Valid() && State() == Apply(old(State()), Event.Suppress(station, slot, now + duration))
      ensures code == if |old(suppressions)| < MAX_SUPPRESSIONS then Ok else Full
    {
      if |suppressions| >= MAX_SUPPRESSIONS {
        return Full;
      }
      suppressions := suppressions + [Suppression(station, slot, now + duration)];
      code := Ok;
    }

    /** An alarm from outside the rules. */
    method RaiseAlarm(station: string, slot: int, severity: int, value: real, now: nat) returns (code: Code)
      requires Valid()
      modifies this`activeCount, this`nextAlarm, this`total, this`stampAt, this`raises, active, stamps
      ensures Valid() && State() == Apply(old(State()), Event.Raise(station, slot, severity, value, now))
      ensures code == if old(activeCount) < MAX_ACTIVE then Ok else Full
    {
      if activeCount >= MAX_ACTIVE {
        return Full;
      }
      Append(Alarm(nextAlarm, 0, station, slot, severity, ActiveUnack, value, 0.0, now, 0, 0, ""));
      code := Ok;
    }
  }
}
