/** Why alarms leave the list, in terms of events: someone acknowledged them, and a scan saw their condition gone. */
module AlarmCauses {
  import opened Alarms
  import opened AlarmRuns
  import opened AlarmAccounts
  import opened AlarmOrphans

  /** The event acknowledges the alarm with this id. */
  predicate Acknowledges(ev: Event, id: nat) {
    (ev.Acknowledge? && ev.id == id) || ev.AcknowledgeAll?
  }

  /** Rule `i` of the table is enabled, not suppressed, and sees its condition unmet. */
  predicate UnmetAt(s: State, sensors: Sensors, now: nat, i: nat)
    requires i < |s.rules|
  {
    var r := s.rules[i];
    r.enabled && !Suppressed(s.suppressions, r.station, r.slot, now) && !Met(r, sensors(r.station, r.slot))
  }

  /** The event is a scan that evaluates a rule of the table and sees its condition unmet. */
  predicate SeesGone(s: State, ev: Event, rule: nat) {
    ev.Process? && exists i: nat | i < |s.rules| :: s.rules[i].id == rule && UnmetAt(s, ev.sensors, ev.now, i)
  }

  predicate SeesMet(s: State, sensors: Sensors, rule: nat) {
    exists i: nat | i < |s.rules| :: s.rules[i].id == rule && Met(s.rules[i], sensors(s.rules[i].station, s.rules[i].slot))
  }

  /** The acknowledge time is the old one, or that of this call, which acknowledges the alarm. */
  predicate AckFrom(ev: Event, a: Alarm, b: Alarm) {
    b.acked == a.acked || (Acknowledges(ev, b.id) && b.acked == ev.now)
  }

  /** The clear time is the old one, or that of this scan, which sees the condition gone. */
  predicate ClearFrom(s: State, ev: Event, a: Alarm, b: Alarm) {
    b.cleared == a.cleared || (SeesGone(s, ev, b.rule) && b.cleared == ev.now)
  }

  /** An alarm before a call and the same alarm after it. */
  predicate Evolves(s: State, ev: Event, a: Alarm, b: Alarm) {
    b.id == a.id && b.rule == a.rule && AckFrom(ev, a, b) && ClearFrom(s, ev, a, b)
  }

  predicate FromBefore(s: State, ev: Event, b: Alarm) {
    exists a | a in s.active :: Evolves(s, ev, a, b)
  }

  /** An alarm the call itself has raised: nothing has happened to it yet. */
  predicate Newcomer(s: State, ev: Event, b: Alarm) {
    b.acked == 0 && b.cleared == 0 && (ev.Process? ==> SeesMet(s, ev.sensors, b.rule))
  }

  /** The alarm is new, or what the call made of one on the list. */
  predicate Derived(s: State, ev: Event, b: Alarm) {
    Newcomer(s, ev, b) || FromBefore(s, ev, b)
  }

  predicate AllDerived(s: State, ev: Event, xs: seq<Alarm>) {
    forall k | 0 <= k < |xs| :: Derived(s, ev, xs[k])
  }

  lemma Unchanged(s: State, ev: Event)
    ensures AllDerived(s, ev, s.active)
  {
    forall k | 0 <= k < |s.active| ensures Derived(s, ev, s.active[k]) {
      assert Evolves(s, ev, s.active[k], s.active[k]);
    }
  }

  /** One rule of a scan: at most its own alarm is cleared, and only on an unmet reading. */
  predicate Scanning(s: State, ev: Event, t: State) {
    SameRules(s, t) && AllDerived(s, ev, t.active)
  }

  lemma ClearedIsDerived(s: State, ev: Event, b: Alarm)
    requires ev.Process? && FromBefore(s, ev, b) && SeesGone(s, ev, b.rule)
    ensures Derived(s, ev, ClearedAt(b, ev.now))
  {
    var a :| a in s.active && Evolves(s, ev, a, b);
    assert Evolves(s, ev, a, ClearedAt(b, ev.now));
  }

  /** With one rule per id, a scan does not see the same rule met and unmet. */
  lemma NotNew(s: State, ev: Event, b: Alarm, i: nat)
    requires RulesOk(s.rules, s.nextRule) && ev.Process? && i < |s.rules| && Derived(s, ev, b)
    requires s.rules[i].id == b.rule && UnmetAt(s, ev.sensors, ev.now, i)
    ensures FromBefore(s, ev, b)
  {
    forall j: nat | j < |s.rules| && s.rules[j].id == b.rule
      ensures !Met(s.rules[j], ev.sensors(s.rules[j].station, s.rules[j].slot))
    {
      assert j == i;
    }
  }

  lemma UnmetScans(s: State, ev: Event, t: State, i: nat)
    requires RulesOk(s.rules, s.nextRule) && ev.Process? && Scanning(s, ev, t) && i < |t.rules|
    requires UnmetAt(t, ev.sensors, ev.now, i)
    ensures AllDerived(s, ev, UnmetStep(t, i, ev.now).active)
  {
    var r := t.rules[i];
    var k := AlarmOf(t.active, r.id);
    if k >= 0 {
      assert SameRule(s.rules[i], r);
      assert s.rules[i].id == r.id && UnmetAt(s, ev.sensors, ev.now, i);
      assert Derived(s, ev, t.active[k]);
      NotNew(s, ev, t.active[k], i);
      ClearedIsDerived(s, ev, t.active[k]);
    }
  }

  lemma MetScans(s: State, ev: Event, t: State, i: nat)
    requires ev.Process? && Scanning(s, ev, t) && i < |t.rules|
    requires Met(t.rules[i], ev.sensors(t.rules[i].station, t.rules[i].slot))
    ensures AllDerived(s, ev, MetStep(t, i, ev.sensors(t.rules[i].station, t.rules[i].slot), ev.now).active)
  {
    var r := t.rules[i];
    assert SameRule(s.rules[i], r);
    assert s.rules[i].id == r.id && Met(s.rules[i], ev.sensors(s.rules[i].station, s.rules[i].slot));
    assert SeesMet(s, ev.sensors, r.id);
  }

  lemma StepScans(s: State, ev: Event, t: State, i: nat)
    requires RulesOk(s.rules, s.nextRule) && ev.Process? && Scanning(s, ev, t) && i < |t.rules|
    ensures Scanning(s, ev, RuleStep(t, i, ev.now, ev.sensors))
  {
    StepSameRules(t, i, ev.now, ev.sensors);
    var r := t.rules[i];
    if r.enabled && !Suppressed(t.suppressions, r.station, r.slot, ev.now) {
      if Met(r, ev.sensors(r.station, r.slot)) {
        MetScans(s, ev, t, i);
      } else {
        UnmetScans(s, ev, t, i);
      }
    }
  }

  lemma ScanDerives(s: State, ev: Event)
    requires RulesOk(s.rules, s.nextRule) && ev.Process?
    ensures AllDerived(s, ev, RulesStep(s, |s.rules|, ev.now, ev.sensors).active)
  {
    var p := (t: State) => Scanning(s, ev, t);
    forall t: State, i: nat | i < |t.rules| && p(t) ensures p(RuleStep(t, i, ev.now, ev.sensors)) {
      StepScans(s, ev, t, i);
    }
    Unchanged(s, ev);
    ScanInduction(p, s, |s.rules|, ev.now, ev.sensors);
  }

  lemma PartDerived(s: State, ev: Event, xs: seq<Alarm>, ys: seq<Alarm>)
    requires AllDerived(s, ev, xs) && forall b | b in ys :: b in xs
    ensures AllDerived(s, ev, ys)
  {
    forall k | 0 <= k < |ys| ensures Derived(s, ev, ys[k]) {
      assert ys[k] in xs;
    }
  }

  lemma AckDerives(s: State, ev: Event, ys: seq<Alarm>)
    requires (ev.Acknowledge? || ev.AcknowledgeAll?) && |ys| == |s.active|
    requires forall i | 0 <= i < |ys| :: ys[i] == s.active[i]
               || (ys[i] == Acknowledged(s.active[i], ev.now, ev.user) && Acknowledges(ev, s.active[i].id))
    ensures AllDerived(s, ev, ys)
  {
    forall k | 0 <= k < |ys| ensures Derived(s, ev, ys[k]) {
      assert Evolves(s, ev, s.active[k], ys[k]);
    }
  }

  /** After any call, every alarm on the list or just taken off is derived from the list before. */
  lemma CallDerives(s: State, ev: Event)
    requires RulesOk(s.rules, s.nextRule)
    ensures AllDerived(s, ev, Apply(s, ev).active) && AllDerived(s, ev, TakenOff(s, ev))
  {
    Unchanged(s, ev);
    match ev
    case Process(now, sensors) =>
      ScanDerives(s, ev);
      var xs := RulesStep(s, |s.rules|, now, sensors).active;
      KeptIsSub(xs);
      PartDerived(s, ev, xs, Kept(xs));
      PartDerived(s, ev, xs, Dropped(xs));
    case Acknowledge(id, now, user) => AckDerives(s, ev, AckOne(s, id, now, user).active);
    case AcknowledgeAll(now, user) => AckDerives(s, ev, AckAll(s, now, user).active);
    case _ =>
  }

  // --- over runs ---

  /** Event `k` of the run found the alarm on the list and acknowledged it, at the time the alarm carries. */
  predicate AckedAt(evs: seq<Event>, a: Alarm, k: nat)
    requires k < |evs|
  {
    Has(After(evs[..k]).s.active, a.id) && Acknowledges(evs[k], a.id) && a.acked == evs[k].now
  }

  predicate AckedIn(evs: seq<Event>, a: Alarm) {
    exists k: nat | k < |evs| :: AckedAt(evs, a, k)
  }

  /**
   * Event `k` of the run is a scan that found the alarm on the list and its rule enabled, not suppressed and
   * unmet, at the time the alarm carries.
   */
  predicate GoneAt(evs: seq<Event>, a: Alarm, k: nat)
    requires k < |evs|
  {
    Has(After(evs[..k]).s.active, a.id) && SeesGone(After(evs[..k]).s, evs[k], a.rule) && a.cleared == evs[k].now
  }

  predicate GoneIn(evs: seq<Event>, a: Alarm) {
    exists k: nat | k < |evs| :: GoneAt(evs, a, k)
  }

  /** Whatever the alarm says happened to it did happen to it in the run. */
  predicate Explained(evs: seq<Event>, a: Alarm) {
    (a.acked > 0 ==> AckedIn(evs, a)) && (a.cleared > 0 ==> GoneIn(evs, a))
  }

  predicate AllExplained(evs: seq<Event>, xs: seq<Alarm>) {
    forall k | 0 <= k < |xs| :: Explained(evs, xs[k])
  }

  /** What a run explains, a longer one does. */
  lemma AckedLater(evs: seq<Event>, ev: Event, a: Alarm)
    requires AckedIn(evs, a)
    ensures AckedIn(evs + [ev], a)
  {
    var all := evs + [ev];
    var k: nat :| k < |evs| && AckedAt(evs, a, k);
    assert all[..k] == evs[..k];
    assert AckedAt(all, a, k);
  }

  lemma GoneLater(evs: seq<Event>, ev: Event, a: Alarm)
    requires GoneIn(evs, a)
    ensures GoneIn(evs + [ev], a)
  {
    var all := evs + [ev];
    var k: nat :| k < |evs| && GoneAt(evs, a, k);
    assert all[..k] == evs[..k];
    assert GoneAt(all, a, k);
  }

  lemma AckedNow(evs: seq<Event>, ev: Event, a: Alarm)
    requires Has(After(evs).s.active, a.id) && Acknowledges(ev, a.id) && a.acked == ev.now
    ensures AckedIn(evs + [ev], a)
  {
    var all := evs + [ev];
    assert all[..|evs|] == evs;
    assert AckedAt(all, a, |evs|);
  }

  lemma GoneNow(evs: seq<Event>, ev: Event, a: Alarm)
    requires Has(After(evs).s.active, a.id) && SeesGone(After(evs).s, ev, a.rule) && a.cleared == ev.now
    ensures GoneIn(evs + [ev], a)
  {
    var all := evs + [ev];
    assert all[..|evs|] == evs;
    assert GoneAt(all, a, |evs|);
  }

  /** Explanations look at id, rule and times only. */
  lemma SameTimes(evs: seq<Event>, a: Alarm, b: Alarm)
    requires b.id == a.id && b.rule == a.rule
    ensures AckedIn(evs, a) && b.acked == a.acked ==> AckedIn(evs, b)
    ensures GoneIn(evs, a) && b.cleared == a.cleared ==> GoneIn(evs, b)
  {
    if AckedIn(evs, a) && b.acked == a.acked {
      var k: nat :| k < |evs| && AckedAt(evs, a, k);
      assert AckedAt(evs, b, k);
    }
    if GoneIn(evs, a) && b.cleared == a.cleared {
      var k: nat :| k < |evs| && GoneAt(evs, a, k);
      assert GoneAt(evs, b, k);
    }
  }

  lemma EvolvedAcked(evs: seq<Event>, ev: Event, a: Alarm, b: Alarm)
    requires a in After(evs).s.active && Explained(evs, a) && Evolves(After(evs).s, ev, a, b) && b.acked > 0
    ensures AckedIn(evs + [ev], b)
  {
    if b.acked == a.acked {
      SameTimes(evs, a, b);
      AckedLater(evs, ev, b);
    } else {
      AckedNow(evs, ev, b);
    }
  }

  lemma EvolvedGone(evs: seq<Event>, ev: Event, a: Alarm, b: Alarm)
    requires a in After(evs).s.active && Explained(evs, a) && Evolves(After(evs).s, ev, a, b) && b.cleared > 0
    ensures GoneIn(evs + [ev], b)
  {
    if b.cleared == a.cleared {
      SameTimes(evs, a, b);
      GoneLater(evs, ev, b);
    } else {
      GoneNow(evs, ev, b);
    }
  }

  lemma DerivedExplained(evs: seq<Event>, ev: Event, b: Alarm)
    requires AllExplained(evs, After(evs).s.active) && Derived(After(evs).s, ev, b)
    ensures Explained(evs + [ev], b)
  {
    var s := After(evs).s;
    if !Newcomer(s, ev, b) {
      var a :| a in s.active && Evolves(s, ev, a, b);
      assert Explained(evs, a);
      if b.acked > 0 {
        EvolvedAcked(evs, ev, a, b);
      }
      if b.cleared > 0 {
        EvolvedGone(evs, ev, a, b);
      }
    }
  }

  lemma AllDerivedExplained(evs: seq<Event>, ev: Event, xs: seq<Alarm>)
    requires AllExplained(evs, After(evs).s.active) && AllDerived(After(evs).s, ev, xs)
    ensures AllExplained(evs + [ev], xs)
  {
    forall k | 0 <= k < |xs| ensures Explained(evs + [ev], xs[k]) {
      DerivedExplained(evs, ev, xs[k]);
    }
  }

  lemma StillExplained(evs: seq<Event>, ev: Event, xs: seq<Alarm>)
    requires AllExplained(evs, xs)
    ensures AllExplained(evs + [ev], xs)
  {
    forall k | 0 <= k < |xs| ensures Explained(evs + [ev], xs[k]) {
      assert Explained(evs, xs[k]);
      if xs[k].acked > 0 {
        AckedLater(evs, ev, xs[k]);
      }
      if xs[k].cleared > 0 {
        GoneLater(evs, ev, xs[k]);
      }
    }
  }

  lemma AfterOneMore(evs: seq<Event>, ev: Event)
    ensures After(evs + [ev]) == Next(After(evs), ev)
  {
    assert (evs + [ev])[..|evs|] == evs;
  }

  lemma NextExplained(evs: seq<Event>, ev: Event)
    requires Inv(After(evs).s) && AllExplained(evs, After(evs).s.active) && AllExplained(evs, After(evs).gone)
    ensures AllExplained(evs + [ev], After(evs + [ev]).s.active) && AllExplained(evs + [ev], After(evs + [ev]).gone)
  {
    var r := After(evs);
    AfterOneMore(evs, ev);
    CallDerives(r.s, ev);
    AllDerivedExplained(evs, ev, Apply(r.s, ev).active);
    AllDerivedExplained(evs, ev, TakenOff(r.s, ev));
    StillExplained(evs, ev, r.gone);
    JoinExplained(evs + [ev], r.gone, TakenOff(r.s, ev));
  }

  lemma JoinExplained(evs: seq<Event>, xs: seq<Alarm>, ys: seq<Alarm>)
    requires AllExplained(evs, xs) && AllExplained(evs, ys)
    ensures AllExplained(evs, xs + ys)
  {
  }

  lemma {:induction false} RunExplained(evs: seq<Event>)
    requires AllTimed(evs)
    ensures AllExplained(evs, After(evs).s.active) && AllExplained(evs, After(evs).gone)
  {
    if evs != [] {
      var front, last := evs[..|evs| - 1], evs[|evs| - 1];
      RunExplained(front);
      LifecycleOverRuns(front);
      NextExplained(front, last);
      assert evs == front + [last];
    }
  }

  /**
   * Every alarm that has left the list was acknowledged by an event of the run while it was on the list, and
   * a scan of the run found it on the list with its rule enabled, not suppressed and unmet.
   */
  lemma LeftForBothReasons(evs: seq<Event>, a: Alarm)
    requires AllTimed(evs) && a in After(evs).gone
    ensures AckedIn(evs, a) && GoneIn(evs, a)
  {
    LifecycleOverRuns(evs);
    RunExplained(evs);
    var k :| 0 <= k < |After(evs).gone| && After(evs).gone[k] == a;
    assert Explained(evs, After(evs).gone[k]);
  }
}
