/** The rules engine object: a table of rule states searched by rule id. */
module AlarmRulesEngine {
  import opened Clock
  import opened Status
  import opened AlarmRules

  /** The first `n` rules have been evaluated at a point, the others not yet. */
  predicate EvaluatedTo(was: seq<RuleState>, rs: seq<RuleState>, n: nat, p: Point) {
    && |rs| == |was| && n <= |rs|
    && (forall i | 0 <= i < n :: rs[i] == AtPoint(was[i], p))
    && (forall i | n <= i < |rs| :: rs[i] == was[i])
  }

  function FirstFew(ids: seq<int>, most: int): seq<int> {
    if most <= 0 then [] else if |ids| > most then ids[..most] else ids
  }

  /** The list is cut off after as many ids as there is room for. */
  lemma FirstFewIsPrefix(ids: seq<int>, most: int)
    ensures FirstFew(ids, most) <= ids
    ensures |FirstFew(ids, most)| == if most < 0 then 0 else if most < |ids| then most else |ids|
  {
  }

  /** An id is reported exactly when its rule watches the point and triggers at the sample. */
  lemma {:induction false} TriggeredIff(rs: seq<RuleState>, p: Point, id: int)
    ensures id in TriggeredIds(rs, p) <==>
            exists i: nat | i < |rs| :: rs[i].rule.id == id && rs[i].rule.station == p.station && rs[i].rule.slot == p.slot
              && Triggers(rs[i], p.sample)
  {
    if rs != [] {
      var n := |rs| - 1;
      TriggeredIff(rs[..n], p, id);
      assert forall i: nat | i < n :: rs[..n][i] == rs[i];
    }
  }

  lemma TriggeredNext(rs: seq<RuleState>, n: nat, p: Point)
    requires n < |rs|
    ensures TriggeredIds(rs[..n + 1], p)
            == TriggeredIds(rs[..n], p)
               + (if Watches(rs[n].rule, p) && Triggers(rs[n], p.sample) then [rs[n].rule.id] else [])
  {
    assert rs[..n + 1][..n] == rs[..n];
  }

  class Engine {
    const maxRules: nat
    var rules: seq<RuleState>

    ghost predicate Valid()
      reads this
    {
      |rules| <= maxRules && UniqueIds(rules)
    }

    constructor (maxRules: nat)
      ensures Valid() && rules == [] && this.maxRules == maxRules
    {
      this.maxRules := maxRules;
      rules := [];
    }

    /** The position of a rule id, or -1. */
    method Find(id: int) returns (i: int)
      ensures -1 <= i < |rules|
      ensures i >= 0 ==> rules[i].rule.id == id
      ensures i < 0 ==> forall k | 0 <= k < |rules| :: rules[k].rule.id != id
    {
      i := 0;
      while i < |rules|
        invariant 0 <= i <= |rules| && forall k | 0 <= k < i :: rules[k].rule.id != id
      {
        if rules[i].rule.id == id {
          return;
        }
        i := i + 1;
      }
      i := -1;
    }

    /** A known id has its rule replaced and keeps its timing; an unknown one is appended. */
    method Add(rule: Rule) returns (code: Code)
      requires Valid()
      modifies this`rules
      ensures Valid()
      ensures forall i | 0 <= i < |old(rules)| ::
                i < |rules| && rules[i] == if old(rules[i].rule.id) == rule.id then old(rules[i]).(rule := rule) else old(rules[i])
      ensures (exists i | 0 <= i < |old(rules)| :: old(rules[i].rule.id) == rule.id) ==> code == Ok && |rules| == |old(rules)|
      ensures (forall i | 0 <= i < |old(rules)| :: old(rules[i].rule.id) != rule.id) ==>
                if |old(rules)| < maxRules then code == Ok && rules == old(rules) + [Fresh(rule)]
                else code == Full && rules == old(rules)
    {
      var i := Find(rule.id);
      if i >= 0 {
        rules := rules[i := rules[i].(rule := rule)];
        return Ok;
      }
      if |rules| >= maxRules {
        return Full;
      }
      rules := rules + [Fresh(rule)];
      code := Ok;
    }

    /** The rules after the removed one move down by one. */
    method Remove(id: int) returns (code: Code)
      requires Valid()
      modifies this`rules
      ensures Valid()
      ensures code == Ok ==>
                exists i | 0 <= i < |old(rules)| ::
                  old(rules[i].rule.id) == id && rules == old(rules)[..i] + old(rules)[i + 1..]
      ensures code == Ok ==> forall k | 0 <= k < |rules| :: rules[k].rule.id != id
      ensures code != Ok ==> code == NotFound && rules == old(rules)
      ensures code == NotFound <==> forall k | 0 <= k < |old(rules)| :: old(rules[k].rule.id) != id
    {
      var i := Find(id);
      if i < 0 {
        return NotFound;
      }
      rules := rules[..i] + rules[i + 1..];
      code := Ok;
    }

    method Enable(id: int, enabled: bool) returns (code: Code)
      requires Valid()
      modifies this`rules
      ensures Valid() && |rules| == |old(rules)|
      ensures forall i | 0 <= i < |rules| ::
                rules[i] == if old(rules[i].rule.id) == id
                            then old(rules[i]).(rule := old(rules[i].rule).(enabled := enabled)) else old(rules[i])
      ensures code == if exists i | 0 <= i < |old(rules)| :: old(rules[i].rule.id) == id then Ok else NotFound
    {
      var i := Find(id);
      if i < 0 {
        return NotFound;
      }
      rules := rules[i := rules[i].(rule := rules[i].rule.(enabled := enabled))];
      code := Ok;
    }

    /** Evaluation by id changes the one rule with that id. */
    method Evaluate(id: int, s: Sample) returns (code: Code, triggered: bool, ghost k: int)
      requires Valid()
      modifies this`rules
      ensures Valid() && -1 <= k < |old(rules)|
      ensures k < 0 ==> code == NotFound && !triggered && rules == old(rules) && forall i | 0 <= i < |rules| :: rules[i].rule.id != id
      ensures k >= 0 ==>
                && code == Ok && old(rules[k].rule.id) == id
                && rules == old(rules)[k := Evaluated(old(rules[k]), s)]
                && triggered == Triggers(old(rules[k]), s)
    {
      triggered := false;
      var i := Find(id);
      k := i;
      if i < 0 {
        return NotFound, false, -1;
      }
      code := Ok;
      var st := rules[i];
      if !st.rule.enabled {
        rules := rules[i := st.(start := 0, inAlarm := false)];
        return;
      }
      var met := Holds(st.rule.condition, s.value, st.rule.threshold, st.last);
      st := st.(last := s.value);
      if met {
        if st.start == 0 {
          st := st.(start := s.time);
        }
        if Elapsed(s.time, st.start) >= st.rule.delay && !st.inAlarm {
          st := st.(inAlarm := true);
          triggered := true;
        }
      } else {
        st := st.(start := 0, inAlarm := false);
      }
      rules := rules[i := st];
    }

    /** Every rule that watches the point is evaluated once; the triggered ids come back in table order. */
    method EvaluatePoint(p: Point, maxTriggered: int) returns (ids: seq<int>)
      requires Valid()
      modifies this`rules
      ensures Valid() && rules == AllAtPoint(old(rules), p)
      ensures ids == FirstFew(TriggeredIds(old(rules), p), maxTriggered)
    {
      ids := [];
      ghost var was := rules;
      assert was[..0] == [];
      for i := 0 to |rules|
        invariant Valid() && EvaluatedTo(was, rules, i, p)
        invariant ids == FirstFew(TriggeredIds(was[..i], p), maxTriggered)
      {
        TriggeredNext(was, i, p);
        var rule := rules[i].rule;
        if Watches(rule, p) {
          var code, triggered, k := Evaluate(rule.id, p.sample);
          assert k == i;
          if code == Ok && triggered && |ids| < maxTriggered {
            ids := ids + [rule.id];
          }
        }
      }
      assert was[..|was|] == was;
    }
  }
}
