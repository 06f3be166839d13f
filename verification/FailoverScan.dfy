/** What a scan does to every station and every mapping, in terms of the state before and what the registry reports. */
module FailoverScan {
  import opened Failover
  import Status

  /** The last heartbeat is at least the timeout old, on the unsigned 64-bit clock. */
  predicate Late(cfg: Config, heartbeat: nat, now: nat) {
    (now - heartbeat) % 0x1_0000_0000_0000_0000 >= cfg.timeout
  }

  /** The entry a station starts the scan with; one seen for the first time has just been heard. */
  function Entry(s: State, station: string, now: nat): Health {
    if station in s.health then s.health[station] else Health(true, now, 0, 0.0, false, "")
  }

  /** A running device is healthy and heard now; a silent one turns unhealthy once its heartbeat is late. */
  predicate Observed(cfg: Config, s: State, r: State, d: Device, now: nat) {
    && d.station in r.health && r.health[d.station].packetLoss == d.packetLoss
    && var before, after := Entry(s, d.station, now), r.health[d.station];
       if d.running then after.healthy && after.lastHeartbeat == now && after.failures == 0
       else if Late(cfg, before.lastHeartbeat, now) then
         !after.healthy && after.lastHeartbeat == before.lastHeartbeat && after.failures == before.failures + 1
       else
         && after.healthy == before.healthy && after.lastHeartbeat == before.lastHeartbeat
         && after.failures == before.failures
  }

  /** The device ends the failover of its mapping. */
  predicate Ends(cfg: Config, d: Device, m: Mapping) {
    cfg.mode == Auto && d.running && d.station == m.primary
  }

  // ----- One device -----

  /** The entry of a silent device is only marked. */
  lemma SilentObserved(cfg: Config, s: State, d: Device, now: nat)
    requires d.station in s.health && !d.running
    ensures d.station in Silent(cfg, s, d.station, now).health
    ensures Observed(cfg, s, Measured(Silent(cfg, s, d.station, now), d), d, now)
  {
  }

  lemma RunningObserved(cfg: Config, s: State, d: Device, now: nat)
    requires d.station in s.health && d.running
    ensures d.station in Running(cfg, s, d.station, now).health
    ensures Observed(cfg, s, Measured(Running(cfg, s, d.station, now), d), d, now)
  {
  }

  lemma SeenObserved(cfg: Config, s: State, d: Device, now: nat, names: set<string>)
    requires Room(s.health, names) && d.station in names
    ensures Observed(cfg, s, Seen(cfg, s, d, now), d, now)
  {
    TrackedWithRoom(s.health, d.station, now, names);
    var s1 := s.(health := Tracked(s.health, d.station, now));
    assert s1.health[d.station] == Entry(s, d.station, now);
    if d.running {
      RunningObserved(cfg, s1, d, now);
    } else {
      SilentObserved(cfg, s1, d, now);
    }
  }

  /** It ends exactly the failover of its own mapping. */
  lemma SeenMappings(cfg: Config, s: State, d: Device, now: nat, names: set<string>)
    requires Inv(s) && Room(s.health, names) && d.station in names
    ensures var r := Seen(cfg, s, d, now);
            |r.backups| == |s.backups| && forall k :: 0 <= k < |s.backups| ==>
              r.backups[k] == s.backups[k].(active := s.backups[k].active && !Ends(cfg, d, s.backups[k]))
  {
    SeenEffect(cfg, s, d, now, names);
    TrackedKeeps(s, d.station, now);
    TrackedWithRoom(s.health, d.station, now, names);
    var s1 := s.(health := Tracked(s.health, d.station, now));
    if d.running {
      RunningMappings(cfg, s1, d, now);
    }
  }

  lemma RunningMappings(cfg: Config, s: State, d: Device, now: nat)
    requires Inv(s) && d.station in s.health && d.running
    ensures var r := Running(cfg, s, d.station, now);
            |r.backups| == |s.backups| && forall k :: 0 <= k < |s.backups| ==>
              r.backups[k] == s.backups[k].(active := s.backups[k].active && !Ends(cfg, d, s.backups[k]))
  {
    RunningEffect(cfg, s, d.station, now);
  }

  // ----- All devices -----

  predicate Unreported(devices: seq<Device>, n: nat, station: string)
    requires n <= |devices|
  {
    forall j :: 0 <= j < n ==> devices[j].station != station
  }

  /** A station not reported has the entry it had, if any. */
  ghost predicate Untouched(s: State, r: State, devices: seq<Device>, n: nat, station: string)
    requires n <= |devices|
    ensures Untouched(s, r, devices, n, station) && Unreported(devices, n, station) ==>
            (station in r.health <==> station in s.health)
  {
    Unreported(devices, n, station) ==>
      (station in r.health <==> station in s.health) && (station in s.health ==> r.health[station] == s.health[station])
  }

  /** Some running device among the first `n` ends the failover of the mapping. */
  predicate Ended(cfg: Config, devices: seq<Device>, n: nat, m: Mapping)
    requires n <= |devices|
  {
    exists j :: 0 <= j < n && Ends(cfg, devices[j], m)
  }

  ghost predicate Reported(cfg: Config, s: State, r: State, devices: seq<Device>, n: nat, now: nat)
    requires n <= |devices|
    ensures Reported(cfg, s, r, devices, n, now) ==> |r.backups| == |s.backups|
  {
    && (forall station :: Untouched(s, r, devices, n, station))
    && (forall j :: 0 <= j < n ==> Observed(cfg, s, r, devices[j], now))
    && |r.backups| == |s.backups|
    && (forall k :: 0 <= k < |s.backups| ==>
         r.backups[k] == s.backups[k].(active := s.backups[k].active && !Ended(cfg, devices, n, s.backups[k])))
  }

  lemma ObservedStays(cfg: Config, s: State, r: State, r': State, d: Device, now: nat, station: string)
    requires Observed(cfg, s, r, d, now) && SameBut(r, r', station) && d.station != station
    ensures Observed(cfg, s, r', d, now)
  {
  }

  lemma NextObserved(cfg: Config, s: State, r: State, devices: seq<Device>, n: nat, now: nat, names: set<string>)
    requires n < |devices| && Distinct(devices) && Reported(cfg, s, r, devices, n, now)
    requires Room(r.health, names) && devices[n].station in names
    ensures Observed(cfg, s, Seen(cfg, r, devices[n], now), devices[n], now)
  {
    SeenObserved(cfg, r, devices[n], now, names);
    assert Untouched(s, r, devices, n, devices[n].station);
    assert Entry(r, devices[n].station, now) == Entry(s, devices[n].station, now);
  }

  lemma NextUntouched(cfg: Config, s: State, r: State, devices: seq<Device>, n: nat, now: nat, names: set<string>, station: string)
    requires n < |devices| && Reported(cfg, s, r, devices, n, now)
    requires Inv(r) && Room(r.health, names) && devices[n].station in names
    ensures Untouched(s, Seen(cfg, r, devices[n], now), devices, n + 1, station)
  {
    if Unreported(devices, n + 1, station) {
      assert Untouched(s, r, devices, n, station);
      assert devices[n].station != station;
      SeenEffect(cfg, r, devices[n], now, names);
    }
  }

  lemma NextMapping(cfg: Config, s: State, r: State, devices: seq<Device>, n: nat, now: nat, names: set<string>, k: nat)
    requires n < |devices| && Reported(cfg, s, r, devices, n, now) && k < |s.backups|
    requires Inv(r) && Room(r.health, names) && devices[n].station in names
    ensures |Seen(cfg, r, devices[n], now).backups| == |s.backups|
    ensures Seen(cfg, r, devices[n], now).backups[k]
         == s.backups[k].(active := s.backups[k].active && !Ended(cfg, devices, n + 1, s.backups[k]))
  {
    SeenMappings(cfg, r, devices[n], now, names);
    var m := s.backups[k];
    assert r.backups[k] == m.(active := m.active && !Ended(cfg, devices, n, m));
    EndedNext(cfg, devices, n, m);
  }

  lemma EndedNext(cfg: Config, devices: seq<Device>, n: nat, m: Mapping)
    requires n < |devices|
    ensures Ended(cfg, devices, n + 1, m) <==> Ended(cfg, devices, n, m) || Ends(cfg, devices[n], m)
  {
  }

  lemma ReportedStep(cfg: Config, s: State, r: State, devices: seq<Device>, n: nat, now: nat, names: set<string>)
    requires n < |devices| && Distinct(devices) && Reported(cfg, s, r, devices, n, now)
    requires Inv(r) && Room(r.health, names) && devices[n].station in names
    ensures Reported(cfg, s, Seen(cfg, r, devices[n], now), devices, n + 1, now)
  {
    var r', m := Seen(cfg, r, devices[n], now), n + 1;
    forall station ensures Untouched(s, r', devices, m, station) {
      NextUntouched(cfg, s, r, devices, n, now, names, station);
    }
    NextObserved(cfg, s, r, devices, n, now, names);
    SeenEffect(cfg, r, devices[n], now, names);
    forall j | 0 <= j < n + 1 ensures Observed(cfg, s, r', devices[j], now) {
      if j < n {
        ObservedStays(cfg, s, r, r', devices[j], now, devices[n].station);
      }
    }
    forall k | 0 <= k < |s.backups|
      ensures |r'.backups| == |s.backups|
      ensures r'.backups[k] == s.backups[k].(active := s.backups[k].active && !Ended(cfg, devices, n + 1, s.backups[k]))
    {
      NextMapping(cfg, s, r, devices, n, now, names, k);
    }
    SeenMappings(cfg, r, devices[n], now, names);
  }

  lemma NothingReported(cfg: Config, s: State, r: State, devices: seq<Device>, now: nat)
    requires r.health == s.health && r.backups == s.backups
    ensures Reported(cfg, s, r, devices, 0, now)
  {
    forall station ensures Untouched(s, r, devices, 0, station) {
    }
  }

  /** Whatever holds before the report and is kept by every device holds after it. */
  lemma {:induction false} SurveyInduction(p: (State, nat) -> bool, cfg: Config, s: State, devices: seq<Device>, n: nat, now: nat)
    requires n <= |devices| && p(SeenAll(cfg, s, devices, 0, now), 0)
    requires forall r: State, i: nat | i < |devices| && p(r, i) :: p(Seen(cfg, r, devices[i], now), i + 1)
    ensures p(SeenAll(cfg, s, devices, n, now), n)
  {
    if n > 0 {
      SurveyInduction(p, cfg, s, devices, n - 1, now);
    }
  }

  lemma SurveyReported(cfg: Config, s: State, devices: seq<Device>, now: nat, names: set<string>)
    requires Inv(s) && Room(s.health, names) && Distinct(devices)
    requires forall j :: 0 <= j < |devices| ==> devices[j].station in names
    ensures Reported(cfg, s, SeenAll(cfg, s, devices, |devices|, now), devices, |devices|, now)
  {
    ghost var p := (r: State, i: nat) =>
      i <= |devices| && Survey(cfg, s, r, devices, i, names) && Reported(cfg, s, r, devices, i, now);
    forall r: State, i: nat | i < |devices| && p(r, i) ensures p(Seen(cfg, r, devices[i], now), i + 1) {
      SurveyStep(cfg, s, r, devices, i, now, names);
      ReportedStep(cfg, s, r, devices, i, now, names);
    }
    SurveyOutcome(cfg, s, devices, 0, now, names);
    NothingReported(cfg, s, SeenAll(cfg, s, devices, 0, now), devices, now);
    SurveyInduction(p, cfg, s, devices, |devices|, now);
  }

  // ----- The mappings -----

  predicate Heard(devices: seq<Device>, station: string) {
    exists j :: 0 <= j < |devices| && devices[j].station == station && devices[j].running
  }

  predicate Missed(devices: seq<Device>, station: string) {
    exists j :: 0 <= j < |devices| && devices[j].station == station && !devices[j].running
  }

  /**
   * Whether a station is healthy after a scan: it was reported running; or it was reported silent, was healthy
   * and its heartbeat is not late; or it was not reported and was healthy or unknown.
   */
  predicate Healthy(cfg: Config, s: State, devices: seq<Device>, now: nat, station: string) {
    || Heard(devices, station)
    || (Entry(s, station, now).healthy && (Missed(devices, station) ==> !Late(cfg, Entry(s, station, now).lastHeartbeat, now)))
  }

  /** A station is up, or is not known and would be entered as healthy. */
  ghost predicate UpOrUnknown(r: State, station: string) {
    station in r.health ==> r.health[station].healthy
  }

  lemma SurveyHealth(cfg: Config, s: State, devices: seq<Device>, now: nat, names: set<string>, station: string)
    requires Inv(s) && Room(s.health, names) && Distinct(devices)
    requires forall j :: 0 <= j < |devices| ==> devices[j].station in names
    ensures UpOrUnknown(Surveyed(cfg, s, devices, now), station) <==> Healthy(cfg, s, devices, now, station)
  {
    var r := SeenAll(cfg, s, devices, |devices|, now);
    SurveyReported(cfg, s, devices, now, names);
    if j :| 0 <= j < |devices| && devices[j].station == station {
      assert Observed(cfg, s, r, devices[j], now);
      OnlyOne(devices, j);
    } else {
      assert Untouched(s, r, devices, |devices|, station);
      assert Unreported(devices, |devices|, station);
    }
  }

  lemma OnlyOne(devices: seq<Device>, j: nat)
    requires Distinct(devices) && j < |devices|
    ensures Heard(devices, devices[j].station) <==> devices[j].running
    ensures Missed(devices, devices[j].station) <==> !devices[j].running
  {
  }

  /** The check activates exactly the mappings with an unhealthy primary and a healthy backup. */
  ghost predicate CheckedTo(s: State, r: State, n: nat, k: nat)
    requires n <= |s.backups| && k < |s.backups| == |r.backups|
  {
    var m := s.backups[k];
    r.backups[k] == if k < n && !UpOrUnknown(s, m.primary) && UpOrUnknown(s, m.backup) then m.(active := true) else m
  }

  lemma CheckStep(s: State, r: State, i: nat, now: nat, names: set<string>, k: nat)
    requires i < |s.backups| && Outcome(s, r, i, names) && Planned(s, names) && k < |s.backups|
    requires CheckedTo(s, r, i, k) && CheckedTo(s, r, i, i)
    ensures |Checked(r, i, now).backups| == |s.backups| && CheckedTo(s, Checked(r, i, now), i + 1, k)
  {
    assert LeftAlone(s, r, i);
    CheckAt(r, i, now, names);
    SameUp(s, r, s.backups[i].primary);
    SameUp(s, r, s.backups[i].backup);
  }

  lemma SameUp(s: State, r: State, station: string)
    requires HealthKept(s.health, r.health)
    ensures UpOrUnknown(r, station) <==> UpOrUnknown(s, station)
  {
  }

  lemma CheckAt(r: State, i: nat, now: nat, names: set<string>)
    requires i < |r.backups| && Inv(r) && Room(r.health, names)
    requires r.backups[i].primary in names && r.backups[i].backup in names
    ensures var m := r.backups[i];
            Checked(r, i, now).backups ==
            if !UpOrUnknown(r, m.primary) && UpOrUnknown(r, m.backup) then r.backups[i := m.(active := true)] else r.backups
  {
    var m := r.backups[i];
    TrackedWithRoom(r.health, m.primary, now, names);
    var r1 := r.(health := Tracked(r.health, m.primary, now));
    TrackedWithRoom(r1.health, m.backup, now, names);
    assert m.active ==> r.backups[i := m.(active := true)] == r.backups;
  }

  lemma {:induction false} CheckExact(s: State, n: nat, now: nat, names: set<string>, k: nat)
    requires Inv(s) && n <= |s.backups| && Room(s.health, names) && Planned(s, names) && k < |s.backups|
    ensures CheckedTo(s, CheckedAll(s, n, now), n, k)
  {
    if n > 0 {
      CheckExact(s, n - 1, now, names, k);
      CheckExact(s, n - 1, now, names, n - 1);
      CheckOutcome(s, n - 1, now, names);
      CheckStep(s, CheckedAll(s, n - 1, now), n - 1, now, names, k);
    }
  }

  // ----- Main results -----

  /** What a scan takes as given: the flags agree, and the tables have room for every station involved. */
  ghost predicate Scannable(s: State, devices: seq<Device>, names: set<string>) {
    && Inv(s) && Distinct(devices) && Room(s.health, names) && Planned(s, names)
    && forall j :: 0 <= j < |devices| ==> devices[j].station in names
  }

  /** After a scan every reported device has the health its report calls for, whatever the mode. */
  lemma ScanHealth(cfg: Config, s: State, devices: seq<Device>, now: nat, names: set<string>, j: nat)
    requires Scannable(s, devices, names) && j < |devices|
    ensures var r, d := Scanned(cfg, s, devices, now), devices[j];
            && d.station in r.health
            && r.health[d.station].healthy ==
               (d.running || (Entry(s, d.station, now).healthy && !Late(cfg, Entry(s, d.station, now).lastHeartbeat, now)))
  {
    SurveyReported(cfg, s, devices, now, names);
    SurveyOutcome(cfg, s, devices, |devices|, now, names);
    var s1 := Surveyed(cfg, s, devices, now);
    assert Observed(cfg, s, s1, devices[j], now);
    PlannedSurvey(cfg, s, devices, now, names);
    CheckOutcome(s1, |s1.backups|, now, names);
  }

  lemma PlannedSurvey(cfg: Config, s: State, devices: seq<Device>, now: nat, names: set<string>)
    requires Scannable(s, devices, names)
    ensures var s1 := Surveyed(cfg, s, devices, now);
            Inv(s1) && Room(s1.health, names) && Planned(s1, names) && |s1.backups| == |s.backups|
  {
    SurveyOutcome(cfg, s, devices, |devices|, now, names);
  }

  /**
   * Exactly when a mapping is active after a scan.  In manual mode it stays as it was.  Otherwise it is active
   * when it was, or when its primary is unhealthy and its backup healthy by the report; and in automatic mode not
   * when its primary is reported running.
   */
  lemma ScanActiveIff(cfg: Config, s: State, devices: seq<Device>, now: nat, names: set<string>, k: nat)
    requires Scannable(s, devices, names) && k < |s.backups|
    ensures var r, m := Scanned(cfg, s, devices, now), s.backups[k];
            && |r.backups| == |s.backups| && r.backups[k] == m.(active := r.backups[k].active)
            && (r.backups[k].active <==>
                if cfg.mode == Manual then m.active
                else
                  && !(cfg.mode == Auto && Heard(devices, m.primary))
                  && (m.active || (!Healthy(cfg, s, devices, now, m.primary) && Healthy(cfg, s, devices, now, m.backup))))
  {
    var m, s1 := s.backups[k], Surveyed(cfg, s, devices, now);
    SurveyReported(cfg, s, devices, now, names);
    assert s1.backups[k] == m.(active := m.active && !Ended(cfg, devices, |devices|, m));
    HeardEnds(cfg, devices, m);
    PlannedSurvey(cfg, s, devices, now, names);
    CheckExact(s1, |s1.backups|, now, names, k);
    SurveyHealth(cfg, s, devices, now, names, m.primary);
    SurveyHealth(cfg, s, devices, now, names, m.backup);
  }

  lemma HeardEnds(cfg: Config, devices: seq<Device>, m: Mapping)
    ensures Ended(cfg, devices, |devices|, m) <==> cfg.mode == Auto && Heard(devices, m.primary)
  {
    if Heard(devices, m.primary) {
      var j :| 0 <= j < |devices| && devices[j].station == m.primary && devices[j].running;
      assert cfg.mode == Auto ==> Ends(cfg, devices[j], m);
    }
  }

  /** So a primary silent past the timeout is failed over to a backup that is reported running. */
  lemma SilentPrimaryFailsOver(cfg: Config, s: State, devices: seq<Device>, now: nat, names: set<string>, k: nat, p: nat, b: nat)
    requires Scannable(s, devices, names) && cfg.mode != Manual && k < |s.backups| && p < |devices| && b < |devices|
    requires devices[p].station == s.backups[k].primary && !devices[p].running
    requires devices[b].station == s.backups[k].backup && devices[b].running
    requires (now - Entry(s, s.backups[k].primary, now).lastHeartbeat) % 0x1_0000_0000_0000_0000 >= cfg.timeout
    ensures var r := Scanned(cfg, s, devices, now); |r.backups| == |s.backups| && r.backups[k].active
  {
    ScanActiveIff(cfg, s, devices, now, names, k);
    OnlyOne(devices, p);
    OnlyOne(devices, b);
  }

  // ----- The counters -----

  function CountRunning(devices: seq<Device>, n: nat): nat
    requires n <= |devices|
  {
    if n == 0 then 0 else CountRunning(devices, n - 1) + if devices[n - 1].running then 1 else 0
  }

  /** The silent devices among the first `n` whose heartbeat is late. */
  function CountLate(cfg: Config, s: State, devices: seq<Device>, n: nat, now: nat): nat
    requires n <= |devices|
  {
    if n == 0 then 0 else
      var d := devices[n - 1];
      CountLate(cfg, s, devices, n - 1, now)
      + if !d.running && Late(cfg, Entry(s, d.station, now).lastHeartbeat, now) then 1 else 0
  }

  /** The devices among the first `n` that are in failover. */
  function CountOver(r: State, devices: seq<Device>, n: nat): nat
    requires n <= |devices|
  {
    if n == 0 then 0 else
      var st := devices[n - 1].station;
      CountOver(r, devices, n - 1) + if st in r.health && r.health[st].inFailover then 1 else 0
  }

  predicate Counted(cfg: Config, s: State, r: State, devices: seq<Device>, n: nat, now: nat)
    requires n <= |devices|
    ensures Counted(cfg, s, r, devices, n, now) ==> r.stats.healthyCount == CountRunning(devices, n)
  {
    && r.stats.healthyCount == CountRunning(devices, n)
    && r.stats.failedCount == CountLate(cfg, s, devices, n, now)
    && r.stats.inFailoverCount == CountOver(r, devices, n)
  }

  lemma {:induction false} OverStays(r: State, r': State, devices: seq<Device>, n: nat, station: string)
    requires n <= |devices| && SameBut(r, r', station) && Unreported(devices, n, station)
    ensures CountOver(r', devices, n) == CountOver(r, devices, n)
  {
    if n > 0 {
      OverStays(r, r', devices, n - 1, station);
    }
  }

  lemma SeenCounts(cfg: Config, r: State, d: Device, now: nat, names: set<string>)
    requires Room(r.health, names) && d.station in names
    ensures var r' := Seen(cfg, r, d, now);
            && d.station in r'.health
            && r'.stats.healthyCount == r.stats.healthyCount + (if d.running then 1 else 0)
            && r'.stats.failedCount == r.stats.failedCount
               + (if !d.running && Late(cfg, Entry(r, d.station, now).lastHeartbeat, now) then 1 else 0)
            && r'.stats.inFailoverCount == r.stats.inFailoverCount + (if r'.health[d.station].inFailover then 1 else 0)
  {
    TrackedWithRoom(r.health, d.station, now, names);
    var r1 := r.(health := Tracked(r.health, d.station, now));
    assert r1.health[d.station] == Entry(r, d.station, now);
    ReportedStays(cfg, r1, d.station, now);
    if d.running {
      RunningCounts(cfg, r1, d.station, now);
    } else {
      SilentCounts(cfg, r1, d.station, now);
    }
  }

  lemma RunningCounts(cfg: Config, r: State, station: string, now: nat)
    requires station in r.health
    ensures Running(cfg, r, station, now).stats == r.stats.(healthyCount := r.stats.healthyCount + 1)
  {
  }

  lemma SilentCounts(cfg: Config, r: State, station: string, now: nat)
    requires station in r.health
    ensures Silent(cfg, r, station, now).stats
         == r.stats.(failedCount := r.stats.failedCount + if Late(cfg, r.health[station].lastHeartbeat, now) then 1 else 0)
  {
  }

  lemma CountedStep(cfg: Config, s: State, r: State, devices: seq<Device>, n: nat, now: nat, names: set<string>)
    requires n < |devices| && Distinct(devices) && Reported(cfg, s, r, devices, n, now) && Counted(cfg, s, r, devices, n, now)
    requires Inv(r) && Room(r.health, names) && devices[n].station in names
    ensures Counted(cfg, s, Seen(cfg, r, devices[n], now), devices, n + 1, now)
  {
    var d := devices[n];
    SeenCounts(cfg, r, d, now, names);
    SeenEffect(cfg, r, d, now, names);
    OverStays(r, Seen(cfg, r, d, now), devices, n, d.station);
    assert Untouched(s, r, devices, n, d.station);
    assert Entry(r, d.station, now).lastHeartbeat == Entry(s, d.station, now).lastHeartbeat;
  }

  /** The counters of a survey count the running devices, the late silent ones and those in failover. */
  lemma SurveyCounts(cfg: Config, s: State, devices: seq<Device>, now: nat, names: set<string>)
    requires Scannable(s, devices, names) && devices != []
    ensures Counted(cfg, s, Surveyed(cfg, s, devices, now), devices, |devices|, now)
  {
    ghost var p := (r: State, i: nat) =>
      && i <= |devices| && Survey(cfg, s, r, devices, i, names)
      && Reported(cfg, s, r, devices, i, now) && Counted(cfg, s, r, devices, i, now);
    forall r: State, i: nat | i < |devices| && p(r, i) ensures p(Seen(cfg, r, devices[i], now), i + 1) {
      SurveyStep(cfg, s, r, devices, i, now, names);
      ReportedStep(cfg, s, r, devices, i, now, names);
      CountedStep(cfg, s, r, devices, i, now, names);
    }
    SurveyOutcome(cfg, s, devices, 0, now, names);
    NothingReported(cfg, s, SeenAll(cfg, s, devices, 0, now), devices, now);
    SurveyInduction(p, cfg, s, devices, |devices|, now);
  }

  // ----- Calls that undo each other -----

  lemma FoundAt(backups: seq<Mapping>, k: nat)
    requires k < |backups| && forall i :: 0 <= i < |backups| && i != k ==> backups[i].primary != backups[k].primary
    ensures Find(backups, backups[k].primary, |backups|) == k
  {
    var i := Find(backups, backups[k].primary, |backups|);
    assert i >= 0;
  }

  /** Forcing a failover activates the one mapping and names its backup; restoring it brings the mappings back. */
  lemma ForceThenRestore(s: State, k: nat, now: nat, later: nat)
    requires Inv(s) && k < |s.backups| && !s.backups[k].active
    requires s.backups[k].primary in s.health || |s.health| < CAPACITY
    ensures var p := s.backups[k].primary;
            var forced := Force(s, p, now);
            && forced.1 == Status.Ok && forced.0.backups == s.backups[k := s.backups[k].(active := true)]
            && p in forced.0.health && forced.0.health[p].inFailover && forced.0.health[p].backup == s.backups[k].backup
            && forced.0.stats == s.stats.(lastFailover := now, lastFailed := p)
            && Restore(forced.0, p, later).0.backups == s.backups
            && p in Restore(forced.0, p, later).0.health && !Restore(forced.0, p, later).0.health[p].inFailover
            && Restore(forced.0, p, later).0.health[p].backup == "" && Restore(forced.0, p, later).1 == Status.Ok
  {
    var p := s.backups[k].primary;
    assert Find(s.backups, p, |s.backups|) == k;
    var forced := Force(s, p, now).0;
    assert forced.backups == s.backups[k := s.backups[k].(active := true)];
    FoundAt(forced.backups, k);
    assert forced.backups[k := forced.backups[k].(active := false)] == s.backups;
  }

  /** Configuring a new mapping adds it inactive at the end, and removing it brings the mappings back. */
  lemma ConfigureThenRemove(s: State, primary: string, backup: string)
    requires |s.backups| < CAPACITY && forall k :: 0 <= k < |s.backups| ==> s.backups[k].primary != primary
    ensures SetBackup(s, primary, backup).0 == s.(backups := s.backups + [Mapping(primary, backup, false)])
    ensures RemoveBackup(SetBackup(s, primary, backup).0, primary).0 == s
  {
    var t := SetBackup(s, primary, backup).0;
    var n := |s.backups|;
    assert t.backups[n].primary == primary && forall k :: 0 <= k < n ==> t.backups[k] == s.backups[k];
    var i := Find(t.backups, primary, n + 1);
    assert i == n;
    assert t.backups[..n] + t.backups[n + 1..] == s.backups;
  }

  /** Configuring a mapping again changes its backup and nothing else. */
  lemma ConfigureAgain(s: State, k: nat, backup: string)
    requires Inv(s) && k < |s.backups|
    ensures SetBackup(s, s.backups[k].primary, backup)
         == (s.(backups := s.backups[k := Mapping(s.backups[k].primary, backup, s.backups[k].active)]), Status.Ok)
  {
    assert Find(s.backups, s.backups[k].primary, |s.backups|) == k;
  }

  /** Removing a mapping takes out that one, keeps the others in order, and leaves the health table alone. */
  lemma RemoveTakesOne(s: State, k: nat)
    requires Inv(s) && k < |s.backups|
    ensures var r := RemoveBackup(s, s.backups[k].primary);
            && r.1 == Status.Ok && r.0 == s.(backups := r.0.backups) && |r.0.backups| == |s.backups| - 1
            && (forall i :: 0 <= i < k ==> r.0.backups[i] == s.backups[i])
            && (forall i :: k <= i < |r.0.backups| ==> r.0.backups[i] == s.backups[i + 1])
  {
    assert Find(s.backups, s.backups[k].primary, |s.backups|) == k;
  }

  /** Calls about a primary without a mapping are answered with NotFound and change nothing. */
  lemma UnknownPrimary(s: State, primary: string, now: nat)
    requires forall k :: 0 <= k < |s.backups| ==> s.backups[k].primary != primary
    ensures RemoveBackup(s, primary) == (s, Status.NotFound) && Force(s, primary, now) == (s, Status.NotFound)
    ensures Restore(s, primary, now) == (s, Status.NotFound)
    ensures |s.backups| >= 256 ==> SetBackup(s, primary, "") == (s, Status.Full)
  {
  }
}
