/** Exactly when a manager can raise no alarm any more. */
module AlarmJam {
  import opened Alarms
  import opened AlarmRuns
  import opened AlarmAccounts
  import opened AlarmOrphans

  /** From `s` to `t` alarms leave the list or are counted as raised; alarm `id` does not leave unnoticed. */
  predicate Balances(s: State, t: State, id: nat) {
    && s.total <= t.total && |t.active| - t.total <= |s.active| - s.total
    && (Has(s.active, id) && !Has(t.active, id) ==> |t.active| - t.total < |s.active| - s.total)
  }

  lemma FollowsBalances(s: State, t: State, id: nat)
    requires Inv(s) && Inv(t) && Follows(s, t)
    ensures Balances(s, t, id)
  {
    if Has(s.active, id) {
      var i :| 0 <= i < |s.active| && s.active[i].id == id;
      assert AlarmOk(s.active[i], s.nextAlarm, s.nextRule);
    }
  }

  lemma CleanupBalances(t: State, id: nat)
    ensures Balances(t, t.(active := Kept(t.active)), id)
  {
    KeptIsSub(t.active);
    if Has(t.active, id) && !Has(Kept(t.active), id) {
      var a :| a in t.active && a.id == id;
      assert a in Dropped(t.active);
    }
  }

  lemma BalancesTransitive(s: State, t: State, u: State, id: nat)
    requires Balances(s, t, id) && Balances(t, u, id)
    ensures Balances(s, u, id)
  {
  }

  lemma EventBalances(s: State, ev: Event, id: nat)
    requires Inv(s) && Timed(ev)
    ensures Balances(s, Apply(s, ev), id)
  {
    if ev.Process? {
      var t := RulesStep(s, |s.rules|, ev.now, ev.sensors);
      RulesFollow(s, |s.rules|, ev.now, ev.sensors);
      RulesStepKeeps(s, |s.rules|, ev.now, ev.sensors);
      FollowsBalances(s, t, id);
      CleanupBalances(t, id);
      BalancesTransitive(s, t, Apply(s, ev), id);
    } else {
      OtherFollows(s, ev);
      EventKeeps(s, ev);
      FollowsBalances(s, Apply(s, ev), id);
    }
  }

  lemma {:induction false} RunBalances(s: State, evs: seq<Event>, id: nat)
    requires Inv(s) && AllTimed(evs)
    ensures Inv(RunFrom(s, evs)) && Balances(s, RunFrom(s, evs), id)
  {
    if evs != [] {
      var n := |evs| - 1;
      RunBalances(s, evs[..n], id);
      assert Timed(evs[n]);
      EventKeeps(RunFrom(s, evs[..n]), evs[n]);
      EventBalances(RunFrom(s, evs[..n]), evs[n], id);
      BalancesTransitive(s, RunFrom(s, evs[..n]), RunFrom(s, evs), id);
    }
  }

  /** No run from here raises an alarm. */
  ghost predicate NeverRaises(s: State) {
    forall evs: seq<Event> | AllTimed(evs) :: RunFrom(s, evs).total == s.total
  }

  /** With room on the list an external raise counts. */
  lemma RoomRaises(s: State, evs: seq<Event>)
    requires AllTimed(evs) && |RunFrom(s, evs).active| < MAX_ACTIVE && RunFrom(s, evs).total == s.total
    ensures !NeverRaises(s)
  {
    RunNext(s, evs, EXTERNAL);
    assert RunFrom(s, evs + [EXTERNAL]).total == s.total + 1;
    assert AllTimed(evs + [EXTERNAL]);
  }

  /** If an alarm of a full list can leave, it makes room, or one was raised before it did. */
  lemma LeavingRaises(s: State, evs: seq<Event>, id: nat)
    requires Inv(s) && |s.active| == MAX_ACTIVE && Has(s.active, id)
    requires AllTimed(evs) && !Has(RunFrom(s, evs).active, id)
    ensures !NeverRaises(s)
  {
    RunBalances(s, evs, id);
    if RunFrom(s, evs).total == s.total {
      RoomRaises(s, evs);
    }
  }

  /** An alarm of a list that is not jammed is not stuck, or there is room. */
  lemma SomeNotStuck(s: State) returns (id: nat)
    requires Inv(s) && |s.active| == MAX_ACTIVE && !Jammed(s)
    ensures Has(s.active, id) && !Stuck(s, id)
  {
    var k :| 0 <= k < |s.active| && !Orphan(s, s.active[k]);
    id := s.active[k].id;
    assert s.active[k] in s.active;
    forall a: Alarm | Orphan(s, a) ensures a.id != id {
      var j :| 0 <= j < |s.active| && s.active[j] == a;
      assert j != k;
    }
  }

  /** No alarm can ever be raised again exactly when the list is full of active alarms without a rule. */
  lemma JammedIff(s: State)
    requires Inv(s)
    ensures Jammed(s) <==> NeverRaises(s)
  {
    if Jammed(s) {
      forall evs: seq<Event> | AllTimed(evs) ensures RunFrom(s, evs).total == s.total {
        JammedForEver(s, evs);
      }
    } else if |s.active| < MAX_ACTIVE {
      RoomRaises(s, []);
    } else {
      var id := SomeNotStuck(s);
      StuckIff(s, id);
      var evs: seq<Event> :| AllTimed(evs) && !Has(RunFrom(s, evs).active, id);
      LeavingRaises(s, evs, id);
    }
  }
}
