/** Every alarm raised is accounted for: it is on the active list or it has left it, acknowledged and cleared. */
module AlarmAccounts {
  import opened Alarms
  import opened AlarmRuns
  import AlarmRate

  predicate Has(xs: seq<Alarm>, id: nat) {
    exists a | a in xs :: a.id == id
  }

  /** From `s` to `t` no alarm has left the list and every id handed out since is on it. */
  predicate Follows(s: State, t: State) {
    && s.nextAlarm <= t.nextAlarm && |t.active| - t.total == |s.active| - s.total
    && (forall id: nat | id < s.nextAlarm :: Has(t.active, id) <==> Has(s.active, id))
    && (forall id: nat | s.nextAlarm <= id < t.nextAlarm :: Has(t.active, id))
  }

  lemma FollowsTransitive(s: State, t: State, u: State)
    requires Follows(s, t) && Follows(t, u)
    ensures Follows(s, u)
  {
  }

  lemma HasAppended(xs: seq<Alarm>, a: Alarm, id: nat)
    ensures Has(xs + [a], id) <==> Has(xs, id) || a.id == id
  {
    assert a in xs + [a];
    if Has(xs, id) {
      var x :| x in xs && x.id == id;
      assert x in xs + [a];
    }
  }

  lemma HasConcat(xs: seq<Alarm>, ys: seq<Alarm>, id: nat)
    ensures Has(xs + ys, id) <==> Has(xs, id) || Has(ys, id)
  {
    if Has(xs, id) {
      var x :| x in xs && x.id == id;
      assert x in xs + ys;
    }
    if Has(ys, id) {
      var y :| y in ys && y.id == id;
      assert y in xs + ys;
    }
  }

  /** Lists with the same ids at the same positions have the same ids. */
  lemma HasMapped(xs: seq<Alarm>, ys: seq<Alarm>, id: nat)
    requires |xs| == |ys| && forall i | 0 <= i < |xs| :: xs[i].id == ys[i].id
    ensures Has(xs, id) <==> Has(ys, id)
  {
    if Has(xs, id) {
      var i :| 0 <= i < |xs| && xs[i].id == id;
      assert ys[i] in ys;
    }
    if Has(ys, id) {
      var i :| 0 <= i < |ys| && ys[i].id == id;
      assert xs[i] in xs;
    }
  }

  lemma RaisedFollows(s: State, a: Alarm)
    requires a.id == s.nextAlarm
    ensures Follows(s, Raised(s, a))
  {
    forall id: nat ensures Has(s.active + [a], id) <==> Has(s.active, id) || a.id == id {
      HasAppended(s.active, a, id);
    }
  }

  lemma MappedFollows(s: State, t: State)
    requires |t.active| == |s.active| && t.nextAlarm == s.nextAlarm && t.total == s.total
    requires forall i | 0 <= i < |s.active| :: t.active[i].id == s.active[i].id
    ensures Follows(s, t)
  {
    forall id: nat ensures Has(t.active, id) <==> Has(s.active, id) {
      HasMapped(s.active, t.active, id);
    }
  }

  lemma RuleStepFollows(s: State, i: nat, now: nat, sensors: Sensors)
    requires i < |s.rules|
    ensures Follows(s, RuleStep(s, i, now, sensors))
  {
    var r := s.rules[i];
    var x := sensors(r.station, r.slot);
    var t := RuleStep(s, i, now, sensors);
    if r.enabled && !Suppressed(s.suppressions, r.station, r.slot, now) && Met(r, x) && r.start != 0 && Raises(s, r, now) {
      RaisedFollows(s, NewAlarm(s, r.id, r.station, r.slot, r.severity, x.value, r.threshold, now));
    } else {
      MappedFollows(s, t);
    }
  }

  lemma RulesFollow(s: State, n: nat, now: nat, sensors: Sensors)
    requires n <= |s.rules|
    ensures Follows(s, RulesStep(s, n, now, sensors))
  {
    var p := (t: State) => Follows(s, t);
    forall t: State, i: nat | i < |t.rules| && p(t) ensures p(RuleStep(t, i, now, sensors)) {
      RuleStepFollows(t, i, now, sensors);
      FollowsTransitive(s, t, RuleStep(t, i, now, sensors));
    }
    ScanInduction(p, s, n, now, sensors);
  }

  // --- runs ---

  /** A run: the state it has led to and the alarms that have left the list. */
  datatype Run = Run(s: State, gone: seq<Alarm>)

  function Next(r: Run, ev: Event): Run {
    Run(Apply(r.s, ev), r.gone + TakenOff(r.s, ev))
  }

  function After(evs: seq<Event>): Run {
    if evs == [] then Run(INITIAL, []) else Next(After(evs[..|evs| - 1]), evs[|evs| - 1])
  }

  predicate AllTimed(evs: seq<Event>) {
    forall i | 0 <= i < |evs| :: Timed(evs[i])
  }

  /** Every id handed out is on the list or gone, not both; what is gone was acknowledged and cleared. */
  predicate Accounted(r: Run) {
    && (forall id: nat | 1 <= id < r.s.nextAlarm :: Has(r.s.active, id) != Has(r.gone, id))
    && (forall a | a in r.gone :: a.acked > 0 && a.cleared > 0 && 1 <= a.id < r.s.nextAlarm)
    && r.s.total == |r.s.active| + |r.gone|
  }

  lemma FollowsAccounted(r: Run, t: State)
    requires Accounted(r) && Follows(r.s, t) && t.nextAlarm >= 1
    ensures Accounted(Run(t, r.gone))
  {
    assert forall id: nat | r.s.nextAlarm <= id :: !Has(r.gone, id);
  }

  /** Taking the cleared alarms off splits the list in two disjoint parts. */
  lemma SplitHas(xs: seq<Alarm>, id: nat)
    requires IdsIncrease(xs)
    ensures Has(xs, id) <==> Has(Kept(xs), id) || Has(Dropped(xs), id)
    ensures !(Has(Kept(xs), id) && Has(Dropped(xs), id))
  {
    KeptIsSub(xs);
    assert forall a, b | a in Kept(xs) && b in Dropped(xs) :: a.id != b.id;
  }

  lemma CleanupAccounted(t: State, gone: seq<Alarm>)
    requires Inv(t) && Accounted(Run(t, gone))
    ensures Accounted(Run(t.(active := Kept(t.active)), gone + Dropped(t.active)))
  {
    KeptIsSub(t.active);
    var kept, dropped := Kept(t.active), Dropped(t.active);
    forall id: nat | 1 <= id < t.nextAlarm ensures Has(kept, id) != Has(gone + dropped, id) {
      SplitHas(t.active, id);
      HasConcat(gone, dropped, id);
    }
    forall a | a in gone + dropped ensures a.acked > 0 && a.cleared > 0 && 1 <= a.id < t.nextAlarm {
      if a in dropped {
        assert a in t.active;
        var i :| 0 <= i < |t.active| && t.active[i] == a;
        assert AlarmOk(t.active[i], t.nextAlarm, t.nextRule);
      }
    }
  }

  lemma OtherFollows(s: State, ev: Event)
    requires !ev.Process?
    ensures Follows(s, Apply(s, ev))
  {
    if ev.Raise? && |s.active| < MAX_ACTIVE {
      RaisedFollows(s, NewAlarm(s, 0, ev.station, ev.slot, ev.severity, ev.value, 0.0, ev.now));
    } else {
      MappedFollows(s, Apply(s, ev));
    }
  }

  lemma NextAccounted(r: Run, ev: Event)
    requires Inv(r.s) && Accounted(r) && Timed(ev)
    ensures Accounted(Next(r, ev))
  {
    if ev.Process? {
      var t := RulesStep(r.s, |r.s.rules|, ev.now, ev.sensors);
      RulesFollow(r.s, |r.s.rules|, ev.now, ev.sensors);
      RulesStepKeeps(r.s, |r.s.rules|, ev.now, ev.sensors);
      FollowsAccounted(r, t);
      CleanupAccounted(t, r.gone);
    } else {
      OtherFollows(r.s, ev);
      FollowsAccounted(r, Apply(r.s, ev));
      assert r.gone + TakenOff(r.s, ev) == r.gone;
    }
  }

  predicate Sound(r: Run) {
    Inv(r.s) && Accounted(r)
  }

  lemma StartSound()
    ensures Sound(Run(INITIAL, []))
  {
    StartInv();
    StartAccounted();
  }

  lemma StartInv()
    ensures Inv(INITIAL)
  {
  }

  lemma StartAccounted()
    ensures Accounted(Run(INITIAL, []))
  {
  }

  lemma NextSound(r: Run, ev: Event)
    requires Sound(r) && Timed(ev)
    ensures Sound(Next(r, ev))
  {
    EventKeeps(r.s, ev);
    NextAccounted(r, ev);
  }

  ghost predicate KeptByEvents(p: Run -> bool) {
    forall r, ev | Timed(ev) && p(r) :: p(Next(r, ev))
  }

  lemma EveryNextSound()
    ensures KeptByEvents(Sound)
  {
    forall r, ev | Timed(ev) && Sound(r) ensures Sound(Next(r, ev)) {
      NextSound(r, ev);
    }
  }

  /** Whatever every event keeps, every run keeps. */
  lemma {:induction false} RunInduction(p: Run -> bool, evs: seq<Event>)
    requires p(Run(INITIAL, [])) && AllTimed(evs)
    requires KeptByEvents(p)
    ensures p(After(evs))
  {
    if evs != [] {
      var front, last := evs[..|evs| - 1], evs[|evs| - 1];
      RunInduction(p, front);
      assert Timed(last);
      assert After(evs) == Next(After(front), last);
    }
  }

  /**
   * The alarm lifecycle over every run: at most 256 active alarms, ids strictly increasing, at most one
   * per rule, each phase the pair (acknowledged, cleared); what left was both; total raised is active
   * plus gone, and no id is lost or counted twice.
   */
  lemma LifecycleOverRuns(evs: seq<Event>)
    requires AllTimed(evs)
    ensures Sound(After(evs))
  {
    EveryNextSound();
    StartSound();
    RunInduction(Sound, evs);
  }

  /** An alarm leaves the list only in a scan, and only after it was acknowledged and cleared. */
  lemma LeavesAfterBoth(s: State, ev: Event, id: nat)
    requires Inv(s) && Timed(ev) && Has(s.active, id) && !Has(Apply(s, ev).active, id)
    ensures exists a | a in TakenOff(s, ev) :: a.id == id && a.acked > 0 && a.cleared > 0
  {
    var b :| b in s.active && b.id == id;
    var k :| 0 <= k < |s.active| && s.active[k] == b;
    assert AlarmOk(s.active[k], s.nextAlarm, s.nextRule);
    if ev.Process? {
      RulesFollow(s, |s.rules|, ev.now, ev.sensors);
      RulesStepKeeps(s, |s.rules|, ev.now, ev.sensors);
      DroppedIsBoth(RulesStep(s, |s.rules|, ev.now, ev.sensors), id);
    } else {
      OtherFollows(s, ev);
    }
  }

  lemma DroppedIsBoth(t: State, id: nat)
    requires Inv(t) && Has(t.active, id) && !Has(Kept(t.active), id)
    ensures exists a | a in Dropped(t.active) :: a.id == id && a.acked > 0 && a.cleared > 0
  {
    SplitHas(t.active, id);
    KeptIsSub(t.active);
    var a :| a in Dropped(t.active) && a.id == id;
    var i :| 0 <= i < |t.active| && t.active[i] == a;
    assert AlarmOk(t.active[i], t.nextAlarm, t.nextRule);
  }

  // --- the log of raise times ---

  predicate Appends(s: State, t: State, now: nat) {
    && |s.raises| <= |t.raises| && t.raises[..|s.raises|] == s.raises
    && forall i | |s.raises| <= i < |t.raises| :: t.raises[i] == now
  }

  lemma ScanAppends(s: State, now: nat, sensors: Sensors)
    ensures Appends(s, Scanned(s, now, sensors), now)
  {
    var p := (t: State) => Appends(s, t, now);
    ScanInduction(p, s, |s.rules|, now, sensors);
  }

  /** Events whose clock readings never go back. */
  ghost predicate Forward(evs: seq<Event>) {
    evs == [] || (Forward(evs[..|evs| - 1])
                  && (Raising(evs[|evs| - 1]) ==> LastTime(evs[..|evs| - 1]) <= evs[|evs| - 1].now))
  }

  predicate Raising(ev: Event) {
    ev.Process? || ev.Raise?
  }

  /** The last clock reading of a scan or a raise. */
  function LastTime(evs: seq<Event>): nat {
    if evs == [] then 0
    else if Raising(evs[|evs| - 1]) then evs[|evs| - 1].now
    else LastTime(evs[..|evs| - 1])
  }

  predicate OrderedTo(ts: seq<nat>, last: nat) {
    AlarmRate.Ordered(ts) && forall i | 0 <= i < |ts| :: ts[i] <= last
  }

  lemma AppendsOrdered(s: State, t: State, now: nat, last: nat)
    requires Appends(s, t, now) && OrderedTo(s.raises, last) && last <= now
    ensures OrderedTo(t.raises, now)
  {
    forall i | 0 <= i < |s.raises| ensures t.raises[i] == s.raises[i] {
      assert t.raises[..|s.raises|][i] == s.raises[i];
    }
  }

  lemma EventAppends(s: State, ev: Event)
    ensures Raising(ev) ==> Appends(s, Apply(s, ev), ev.now)
    ensures !Raising(ev) ==> Apply(s, ev).raises == s.raises
  {
    if ev.Process? {
      ScanAppends(s, ev.now, ev.sensors);
    }
  }

  /** Under a clock that does not go back, the times of the raises are ordered, as the rate window needs. */
  lemma {:induction false} RaisesOrdered(evs: seq<Event>)
    requires Forward(evs)
    ensures OrderedTo(After(evs).s.raises, LastTime(evs))
  {
    if evs != [] {
      var front, last := evs[..|evs| - 1], evs[|evs| - 1];
      RaisesOrdered(front);
      var s, t := After(front).s, After(evs).s;
      assert t == Apply(s, last);
      EventAppends(s, last);
      if Raising(last) {
        AppendsOrdered(s, t, last.now, LastTime(front));
      }
    }
  }
}
