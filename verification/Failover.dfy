/** Failover of failed RTUs to their backups: the health table, the backup mappings and the periodic
    scan, as functions on the manager's state. */
module Failover {
  import opened Clock
  import opened Status

  const CAPACITY := 256

  datatype Mode = Manual | Auto | HotStandby

  datatype Config = Config(mode: Mode, timeout: nat)

  datatype Health = Health(healthy: bool, lastHeartbeat: nat, failures: nat, packetLoss: real, inFailover: bool, backup: string)

  datatype Mapping = Mapping(primary: string, backup: string, active: bool)

  datatype Stats = Stats(healthyCount: nat, failedCount: nat, inFailoverCount: nat, lastFailover: nat, lastFailed: string)

  datatype State = State(health: map<string, Health>, backups: seq<Mapping>, stats: Stats)

  /** What the registry reports about one device. */
  datatype Device = Device(station: string, running: bool, packetLoss: real)

  // ----- Table operations -----

  function Fresh(now: nat): Health {
    Health(true, now, 0, 0.0, false, "")
  }

  /** The health table with an entry for the station, unless the table is full. */
  function Tracked(h: map<string, Health>, station: string, now: nat): map<string, Health> {
    if station in h || |h| >= CAPACITY then h else h[station := Fresh(now)]
  }

  /** The first mapping of the primary among the first `n`, or -1. */
  function Find(backups: seq<Mapping>, primary: string, n: nat): (i: int)
    requires n <= |backups|
    ensures -1 <= i < n
    ensures i >= 0 ==> backups[i].primary == primary && forall k :: 0 <= k < i ==> backups[k].primary != primary
    ensures i == -1 ==> forall k :: 0 <= k < n ==> backups[k].primary != primary
  {
    if n == 0 then -1 else
      var i := Find(backups, primary, n - 1);
      if i >= 0 then i else if backups[n - 1].primary == primary then n - 1 else -1
  }

  function SetBackup(s: State, primary: string, backup: string): (State, Code) {
    var i := Find(s.backups, primary, |s.backups|);
    if i >= 0 then (s.(backups := s.backups[i := s.backups[i].(backup := backup)]), Ok)
    else if |s.backups| >= CAPACITY then (s, Full)
    else (s.(backups := s.backups + [Mapping(primary, backup, false)]), Ok)
  }

  function RemoveBackup(s: State, primary: string): (State, Code) {
    var i := Find(s.backups, primary, |s.backups|);
    if i >= 0 then (s.(backups := s.backups[..i] + s.backups[i + 1..]), Ok) else (s, NotFound)
  }

  /** Fail over mapping `i`. */
  function Executed(s: State, i: nat, now: nat): State
    requires i < |s.backups|
  {
    var m := s.backups[i];
    if m.active then s else
      var h := Tracked(s.health, m.primary, now);
      State(if m.primary in h then h[m.primary := h[m.primary].(inFailover := true, backup := m.backup)] else h,
            s.backups[i := m.(active := true)],
            s.stats.(lastFailover := now, lastFailed := m.primary))
  }

  function Force(s: State, primary: string, now: nat): (State, Code) {
    var i := Find(s.backups, primary, |s.backups|);
    if i >= 0 then (Executed(s, i, now), Ok) else (s, NotFound)
  }

  /** Bring a primary back; the scan for an active mapping stops at the first. */
  function Restore(s: State, primary: string, now: nat): (State, Code) {
    var i := Find(s.backups, primary, |s.backups|);
    if i >= 0 && s.backups[i].active then
      var h := Tracked(s.health, primary, now);
      (s.(health := if primary in h then h[primary := h[primary].(inFailover := false, backup := "")] else h,
          backups := s.backups[i := s.backups[i].(active := false)]), Ok)
    else (s, NotFound)
  }

  // ----- The scan -----

  /** A running device is healthy again, and in automatic mode its failover ends. */
  function Running(cfg: Config, s: State, station: string, now: nat): State
    requires station in s.health
  {
    var h := s.health[station];
    var up := s.(health := s.health[station := h.(healthy := true, lastHeartbeat := now, failures := 0)],
                 stats := s.stats.(healthyCount := s.stats.healthyCount + 1));
    if h.inFailover && cfg.mode == Auto then Restore(up, station, now).0 else up
  }

  /** A silent device is unhealthy once its last heartbeat is too old. */
  function Silent(cfg: Config, s: State, station: string, now: nat): State
    requires station in s.health
  {
    var h := s.health[station];
    if Elapsed(now, h.lastHeartbeat) >= cfg.timeout then
      s.(health := s.health[station := h.(healthy := false, failures := h.failures + 1)],
         stats := s.stats.(failedCount := s.stats.failedCount + 1))
    else s
  }

  function Measured(s: State, d: Device): State
    requires d.station in s.health
  {
    var h := s.health[d.station].(packetLoss := d.packetLoss);
    s.(health := s.health[d.station := h],
       stats := if h.inFailover then s.stats.(inFailoverCount := s.stats.inFailoverCount + 1) else s.stats)
  }

  lemma ReportedStays(cfg: Config, s: State, station: string, now: nat)
    requires station in s.health
    ensures station in Running(cfg, s, station, now).health && station in Silent(cfg, s, station, now).health
  {}

  /** One device of the registry's list. */
  function Seen(cfg: Config, s: State, d: Device, now: nat): (r: State)
    ensures |r.backups| == |s.backups|
  {
    var s1 := s.(health := Tracked(s.health, d.station, now));
    if d.station !in s1.health then s1 else
      ReportedStays(cfg, s1, d.station, now);
      Measured(if d.running then Running(cfg, s1, d.station, now) else Silent(cfg, s1, d.station, now), d)
  }

  function SeenAll(cfg: Config, s: State, devices: seq<Device>, n: nat, now: nat): (r: State)
    requires n <= |devices|
    ensures |r.backups| == |s.backups|
  {
    if n == 0 then s.(stats := s.stats.(healthyCount := 0, failedCount := 0, inFailoverCount := 0))
    else Seen(cfg, SeenAll(cfg, s, devices, n - 1, now), devices[n - 1], now)
  }

  /** Mapping `i`: fail over if its primary is unhealthy and its backup is healthy. */
  function Checked(s: State, i: nat, now: nat): State
    requires i < |s.backups|
  {
    var m := s.backups[i];
    var s1 := s.(health := Tracked(s.health, m.primary, now));
    if m.primary in s1.health && !s1.health[m.primary].healthy && !m.active then
      var s2 := s1.(health := Tracked(s1.health, m.backup, now));
      if m.backup in s2.health && s2.health[m.backup].healthy then Executed(s2, i, now) else s2
    else s1
  }

  function CheckedAll(s: State, n: nat, now: nat): (r: State)
    requires n <= |s.backups|
    ensures |r.backups| == |s.backups|
  {
    if n == 0 then s else Checked(CheckedAll(s, n - 1, now), n - 1, now)
  }

  /** The registry's report: an empty list leaves health and counters alone. */
  function Surveyed(cfg: Config, s: State, devices: seq<Device>, now: nat): State {
    if devices == [] then s else SeenAll(cfg, s, devices, |devices|, now)
  }

  function Scanned(cfg: Config, s: State, devices: seq<Device>, now: nat): State {
    var s1 := Surveyed(cfg, s, devices, now);
    if cfg.mode == Manual then s1 else CheckedAll(s1, |s1.backups|, now)
  }

  // ----- The invariant -----

  ghost predicate UniquePrimaries(backups: seq<Mapping>) {
    forall i, j :: 0 <= i < j < |backups| ==> backups[i].primary != backups[j].primary
  }

  ghost predicate FlaggedAt(s: State, i: nat)
    requires i < |s.backups|
  {
    var m := s.backups[i];
    m.active ==> m.primary in s.health && s.health[m.primary].inFailover
  }

  /** Every active mapping has its primary flagged as in failover. */
  ghost predicate Flagged(s: State) {
    forall i :: 0 <= i < |s.backups| ==> FlaggedAt(s, i)
  }

  ghost predicate Inv(s: State) {
    UniquePrimaries(s.backups) && Flagged(s) && |s.backups| <= CAPACITY && |s.health| <= CAPACITY
  }

  lemma SetBackupKeeps(s: State, primary: string, backup: string)
    requires Inv(s)
    ensures Inv(SetBackup(s, primary, backup).0)
  {
    var s' := SetBackup(s, primary, backup).0;
    forall i | 0 <= i < |s'.backups| ensures FlaggedAt(s', i) {
      if i < |s.backups| { assert FlaggedAt(s, i); }
    }
  }

  lemma StillUnique(backups: seq<Mapping>, i: nat)
    requires i < |backups| && UniquePrimaries(backups)
    ensures UniquePrimaries(backups[..i] + backups[i + 1..])
  {}

  lemma RemoveBackupKeeps(s: State, primary: string)
    requires Inv(s)
    ensures Inv(RemoveBackup(s, primary).0)
  {
    var s', i := RemoveBackup(s, primary).0, Find(s.backups, primary, |s.backups|);
    if i != -1 {
      StillUnique(s.backups, i);
    }
    forall k | 0 <= k < |s'.backups| ensures FlaggedAt(s', k) {
      assert FlaggedAt(s, if i == -1 || k < i then k else k + 1);
    }
  }

  /** Failing over cannot be flagged only when the primary has no entry and the table is full. */
  ghost predicate Untrackable(s: State, primary: string) {
    primary !in s.health && |s.health| >= CAPACITY
  }

  /** Failover keeps the flags in step exactly when the primary can be tracked or the mapping was active. */
  lemma ExecutedFlaggedIff(s: State, i: nat, now: nat)
    requires Inv(s) && i < |s.backups|
    ensures Flagged(Executed(s, i, now)) <==> s.backups[i].active || !Untrackable(s, s.backups[i].primary)
    ensures UniquePrimaries(Executed(s, i, now).backups)
  {
    var s' := Executed(s, i, now);
    assert FlaggedAt(s, i);
    if s.backups[i].active || !Untrackable(s, s.backups[i].primary) {
      forall k | 0 <= k < |s'.backups| ensures FlaggedAt(s', k) {
        assert FlaggedAt(s, k);
      }
    } else {
      assert !FlaggedAt(s', i);
    }
  }

  lemma RestoreKeeps(s: State, primary: string, now: nat)
    requires Inv(s)
    ensures Inv(Restore(s, primary, now).0)
  {
    var s' := Restore(s, primary, now).0;
    forall i | 0 <= i < |s'.backups| ensures FlaggedAt(s', i) {
      assert FlaggedAt(s, i);
    }
  }

  // ----- Room in the health table -----

  lemma SubsetSize<T>(a: set<T>, b: set<T>)
    requires a <= b
    ensures |a| <= |b| && (|a| == |b| ==> a == b)
  {
    assert b == a + (b - a);
  }

  /** A bound on the stations the table will ever hold that fits into it. */
  ghost predicate Room(h: map<string, Health>, names: set<string>) {
    h.Keys <= names && |names| <= CAPACITY
  }

  lemma TrackedWithRoom(h: map<string, Health>, station: string, now: nat, names: set<string>)
    requires Room(h, names) && station in names
    ensures var h' := Tracked(h, station, now);
            && Room(h', names) && h'.Keys == h.Keys + {station}
            && (forall st :: st in h ==> h'[st] == h[st])
            && (station !in h ==> h'[station] == Fresh(now))
  {
    SubsetSize(h.Keys, names);
  }

  /** The mapping of `station`, if there is one, is inactive. */
  ghost predicate Inactive(backups: seq<Mapping>, station: string) {
    forall k :: 0 <= k < |backups| && backups[k].primary == station ==> !backups[k].active
  }

  /** Same mappings, none newly activated. */
  ghost predicate OnlyRestored(before: seq<Mapping>, after: seq<Mapping>) {
    && |before| == |after|
    && forall k :: 0 <= k < |before| ==> after[k] == before[k] || after[k] == before[k].(active := false)
  }

  lemma RestoreEffect(s: State, primary: string, now: nat)
    requires Inv(s) && primary in s.health
    ensures var s' := Restore(s, primary, now).0;
            && OnlyRestored(s.backups, s'.backups) && Inactive(s'.backups, primary)
            && s'.health.Keys == s.health.Keys && s'.stats == s.stats
            && (forall st :: st in s.health && st != primary ==> s'.health[st] == s.health[st])
            && s'.health[primary].healthy == s.health[primary].healthy
            && (forall k :: 0 <= k < |s.backups| && s.backups[k].primary != primary ==> s'.backups[k] == s.backups[k])
  {}

  lemma UnflaggedInactive(s: State, station: string)
    requires Inv(s) && (station in s.health ==> !s.health[station].inFailover)
    ensures Inactive(s.backups, station)
  {
    forall k | 0 <= k < |s.backups| && s.backups[k].primary == station ensures !s.backups[k].active {
      assert FlaggedAt(s, k);
    }
  }

  lemma FlagsKept(s: State, s': State)
    requires Inv(s) && s'.backups == s.backups && |s'.health| <= CAPACITY
    requires forall st :: st in s.health ==> st in s'.health && s'.health[st].inFailover == s.health[st].inFailover
    ensures Inv(s')
  {
    forall i | 0 <= i < |s'.backups| ensures FlaggedAt(s', i) {
      assert FlaggedAt(s, i);
    }
  }

  // ----- What the registry's report brings about -----

  /** The two states agree except about one station. */
  ghost predicate SameBut(s: State, s': State, station: string) {
    && s'.health.Keys == s.health.Keys + {station}
    && (forall st :: st in s.health && st != station ==> s'.health[st] == s.health[st])
    && OnlyRestored(s.backups, s'.backups)
    && (forall k :: 0 <= k < |s.backups| && s.backups[k].primary != station ==> s'.backups[k] == s.backups[k])
  }

  lemma RunningEffect(cfg: Config, s: State, station: string, now: nat)
    requires Inv(s) && station in s.health
    ensures var s' := Running(cfg, s, station, now);
            && Inv(s') && SameBut(s, s', station) && s'.health[station].healthy
            && (cfg.mode == Auto ==> Inactive(s'.backups, station))
  {
    var h := s.health[station];
    var up := s.(health := s.health[station := h.(healthy := true, lastHeartbeat := now, failures := 0)],
                 stats := s.stats.(healthyCount := s.stats.healthyCount + 1));
    assert up.health.Keys == s.health.Keys;
    FlagsKept(s, up);
    if h.inFailover && cfg.mode == Auto {
      RestoreKeeps(up, station, now);
      RestoreEffect(up, station, now);
    } else if cfg.mode == Auto {
      UnflaggedInactive(up, station);
    }
  }

  lemma SilentEffect(cfg: Config, s: State, station: string, now: nat)
    requires Inv(s) && station in s.health
    ensures var s' := Silent(cfg, s, station, now);
            Inv(s') && SameBut(s, s', station) && s'.backups == s.backups
  {
    var s' := Silent(cfg, s, station, now);
    assert s'.health.Keys == s.health.Keys;
    FlagsKept(s, s');
  }

  lemma MeasuredEffect(s: State, d: Device)
    requires Inv(s) && d.station in s.health
    ensures var s' := Measured(s, d);
            && Inv(s') && s'.backups == s.backups && s'.health.Keys == s.health.Keys
            && (forall st :: st in s.health && st != d.station ==> s'.health[st] == s.health[st])
            && s'.health[d.station].healthy == s.health[d.station].healthy
  {
    var s' := Measured(s, d);
    assert s'.health.Keys == s.health.Keys;
    FlagsKept(s, s');
  }

  lemma TrackedKeeps(s: State, station: string, now: nat)
    requires Inv(s)
    ensures Inv(s.(health := Tracked(s.health, station, now)))
  {
    FlagsKept(s, s.(health := Tracked(s.health, station, now)));
  }

  /** Any report keeps the invariant. */
  lemma SeenKeeps(cfg: Config, s: State, d: Device, now: nat)
    requires Inv(s)
    ensures Inv(Seen(cfg, s, d, now))
  {
    TrackedKeeps(s, d.station, now);
    var s1 := s.(health := Tracked(s.health, d.station, now));
    if d.station in s1.health {
      RunningEffect(cfg, s1, d.station, now);
      SilentEffect(cfg, s1, d.station, now);
      MeasuredEffect(if d.running then Running(cfg, s1, d.station, now) else Silent(cfg, s1, d.station, now), d);
    }
  }

  lemma SeenEffect(cfg: Config, s: State, d: Device, now: nat, names: set<string>)
    requires Inv(s) && Room(s.health, names) && d.station in names
    ensures var s' := Seen(cfg, s, d, now);
            && SameBut(s, s', d.station) && Room(s'.health, names)
            && (d.running ==> s'.health[d.station].healthy)
            && (d.running && cfg.mode == Auto ==> Inactive(s'.backups, d.station))
  {
    TrackedKeeps(s, d.station, now);
    TrackedWithRoom(s.health, d.station, now, names);
    var s1 := s.(health := Tracked(s.health, d.station, now));
    RunningEffect(cfg, s1, d.station, now);
    SilentEffect(cfg, s1, d.station, now);
    MeasuredEffect(if d.running then Running(cfg, s1, d.station, now) else Silent(cfg, s1, d.station, now), d);
  }

  ghost predicate Distinct(devices: seq<Device>) {
    forall i, j :: 0 <= i < j < |devices| ==> devices[i].station != devices[j].station
  }

  ghost predicate Up(s: State, station: string) {
    station in s.health && s.health[station].healthy
  }

  /** What the report says about running devices has arrived in the tables. */
  ghost predicate Arrived(cfg: Config, s: State, d: Device) {
    d.running ==> Up(s, d.station) && (cfg.mode == Auto ==> Inactive(s.backups, d.station))
  }

  lemma ArrivedStays(cfg: Config, s: State, s': State, d: Device, station: string)
    requires Arrived(cfg, s, d) && d.station != station && SameBut(s, s', station)
    ensures Arrived(cfg, s', d)
  {}

  lemma OnlyRestoredTwice(a: seq<Mapping>, b: seq<Mapping>, c: seq<Mapping>)
    requires OnlyRestored(a, b) && OnlyRestored(b, c)
    ensures OnlyRestored(a, c)
  {}

  /** `r` is `s` after the reports of the first `n` devices. */
  ghost predicate Survey(cfg: Config, s: State, r: State, devices: seq<Device>, n: nat, names: set<string>)
    requires n <= |devices|
    ensures Survey(cfg, s, r, devices, n, names) ==> Inv(r) && Room(r.health, names)
  {
    && Inv(r) && Room(r.health, names) && OnlyRestored(s.backups, r.backups)
    && forall j :: 0 <= j < n ==> Arrived(cfg, r, devices[j])
  }

  lemma SurveyStep(cfg: Config, s: State, r: State, devices: seq<Device>, n: nat, now: nat, names: set<string>)
    requires n < |devices| && Distinct(devices) && devices[n].station in names && Survey(cfg, s, r, devices, n, names)
    ensures Survey(cfg, s, Seen(cfg, r, devices[n], now), devices, n + 1, names)
  {
    var d, r' := devices[n], Seen(cfg, r, devices[n], now);
    SeenKeeps(cfg, r, d, now);
    SeenEffect(cfg, r, d, now, names);
    OnlyRestoredTwice(s.backups, r.backups, r'.backups);
    forall j | 0 <= j < n + 1 ensures Arrived(cfg, r', devices[j]) {
      if j < n {
        ArrivedStays(cfg, r, r', devices[j], d.station);
      }
    }
  }

  lemma {:induction false} SurveyOutcome(cfg: Config, s: State, devices: seq<Device>, n: nat, now: nat, names: set<string>)
    requires Inv(s) && Room(s.health, names) && Distinct(devices) && n <= |devices|
    requires forall j :: 0 <= j < |devices| ==> devices[j].station in names
    ensures Survey(cfg, s, SeenAll(cfg, s, devices, n, now), devices, n, names)
  {
    if n == 0 {
      FlagsKept(s, SeenAll(cfg, s, devices, 0, now));
    } else {
      SurveyOutcome(cfg, s, devices, n - 1, now, names);
      SurveyStep(cfg, s, SeenAll(cfg, s, devices, n - 1, now), devices, n - 1, now, names);
    }
  }

  lemma {:induction false} SurveyKeeps(cfg: Config, s: State, devices: seq<Device>, n: nat, now: nat)
    requires Inv(s) && n <= |devices|
    ensures Inv(SeenAll(cfg, s, devices, n, now))
  {
    if n == 0 {
      FlagsKept(s, SeenAll(cfg, s, devices, 0, now));
    } else {
      SurveyKeeps(cfg, s, devices, n - 1, now);
      SeenKeeps(cfg, SeenAll(cfg, s, devices, n - 1, now), devices[n - 1], now);
    }
  }

  // ----- What the check of the mappings brings about -----

  /** Existing entries keep their health, new ones are healthy. */
  ghost predicate HealthKept(h: map<string, Health>, h': map<string, Health>) {
    && h.Keys <= h'.Keys
    && forall st :: st in h' ==> h'[st].healthy == if st in h then h[st].healthy else true
  }

  /** An unhealthy primary still without failover has a backup known to be unhealthy. */
  ghost predicate Settled(s: State, k: nat)
    requires k < |s.backups|
  {
    var m := s.backups[k];
    && m.primary in s.health
    && (!s.health[m.primary].healthy && !m.active ==> m.backup in s.health && !s.health[m.backup].healthy)
  }

  lemma CheckedKeeps(s: State, i: nat, now: nat)
    requires Inv(s) && i < |s.backups|
    ensures Inv(Checked(s, i, now))
  {
    var m := s.backups[i];
    TrackedKeeps(s, m.primary, now);
    var s1 := s.(health := Tracked(s.health, m.primary, now));
    TrackedKeeps(s1, m.backup, now);
    var s2 := s1.(health := Tracked(s1.health, m.backup, now));
    if m.primary in s2.health {
      ExecutedFlaggedIff(s2, i, now);
      assert m.primary in s2.health ==> Executed(s2, i, now).health.Keys == s2.health.Keys;
    }
  }

  lemma CheckedEffect(s: State, i: nat, now: nat, names: set<string>)
    requires Inv(s) && i < |s.backups| && Room(s.health, names)
    requires s.backups[i].primary in names && s.backups[i].backup in names
    ensures var s' := Checked(s, i, now);
            && Room(s'.health, names) && HealthKept(s.health, s'.health) && Settled(s', i)
            && (s'.backups == s.backups
                || (!s'.health[s.backups[i].primary].healthy && s'.backups == s.backups[i := s.backups[i].(active := true)]))
  {
    var m := s.backups[i];
    TrackedWithRoom(s.health, m.primary, now, names);
    var s1 := s.(health := Tracked(s.health, m.primary, now));
    TrackedWithRoom(s1.health, m.backup, now, names);
  }

  lemma SettledStays(s: State, s': State, k: nat, i: nat)
    requires k < |s.backups| && i < |s.backups| && k != i && Settled(s, k) && HealthKept(s.health, s'.health)
    requires s'.backups == s.backups || s'.backups == s.backups[i := s.backups[i].(active := true)]
    ensures Settled(s', k)
  {}

  /** A mapping whose primary is healthy is not failed over by the check. */
  ghost predicate LeftAlone(s: State, s': State, k: nat)
    requires k < |s.backups| == |s'.backups|
  {
    var m := s.backups[k];
    && (s'.backups[k] == m || s'.backups[k] == m.(active := true))
    && (Up(s, m.primary) ==> s'.backups[k] == m)
  }

  lemma LeftAloneStays(s: State, s1: State, s2: State, k: nat, i: nat)
    requires k < |s.backups| == |s1.backups| && i < |s.backups| && LeftAlone(s, s1, k)
    requires HealthKept(s.health, s1.health) && HealthKept(s1.health, s2.health)
    requires s2.backups == s1.backups
             || (s1.backups[i].primary in s2.health && !s2.health[s1.backups[i].primary].healthy
                 && s2.backups == s1.backups[i := s1.backups[i].(active := true)])
    ensures LeftAlone(s, s2, k)
  {}

  /** `r` is `s` with its first `n` mappings checked. */
  ghost predicate Outcome(s: State, r: State, n: nat, names: set<string>)
    requires n <= |s.backups|
    ensures Outcome(s, r, n, names) ==> Inv(r) && |r.backups| == |s.backups|
  {
    && Inv(r) && |r.backups| == |s.backups| && Room(r.health, names) && HealthKept(s.health, r.health)
    && (forall k :: 0 <= k < n ==> Settled(r, k))
    && (forall k :: 0 <= k < |s.backups| ==> LeftAlone(s, r, k))
  }

  ghost predicate Planned(s: State, names: set<string>) {
    forall k :: 0 <= k < |s.backups| ==> s.backups[k].primary in names && s.backups[k].backup in names
  }

  lemma OutcomeStep(s: State, r: State, i: nat, now: nat, names: set<string>)
    requires i < |s.backups| && Outcome(s, r, i, names) && Planned(s, names)
    ensures Outcome(s, Checked(r, i, now), i + 1, names)
  {
    var r' := Checked(r, i, now);
    assert LeftAlone(s, r, i);
    CheckedKeeps(r, i, now);
    CheckedEffect(r, i, now, names);
    forall k | 0 <= k < i + 1 ensures Settled(r', k) {
      if k < i {
        SettledStays(r, r', k, i);
      }
    }
    forall k | 0 <= k < |s.backups| ensures LeftAlone(s, r', k) {
      LeftAloneStays(s, r, r', k, i);
    }
  }

  lemma {:induction false} CheckOutcome(s: State, n: nat, now: nat, names: set<string>)
    requires Inv(s) && n <= |s.backups| && Room(s.health, names) && Planned(s, names)
    ensures Outcome(s, CheckedAll(s, n, now), n, names)
  {
    if n > 0 {
      CheckOutcome(s, n - 1, now, names);
      OutcomeStep(s, CheckedAll(s, n - 1, now), n - 1, now, names);
    }
  }

  lemma {:induction false} CheckKeeps(s: State, n: nat, now: nat)
    requires Inv(s) && n <= |s.backups|
    ensures Inv(CheckedAll(s, n, now))
  {
    if n > 0 {
      CheckKeeps(s, n - 1, now);
      CheckedKeeps(CheckedAll(s, n - 1, now), n - 1, now);
    }
  }

  // ----- Main results -----

  ghost predicate RunningPrimary(d: Device, m: Mapping) {
    d.running && d.station == m.primary
  }

  /** After an automatic scan with room in the health table: the mapping of a running primary is
      inactive, and an unhealthy primary with a healthy backup has been failed over. */
  lemma AutoScanAgrees(cfg: Config, s: State, devices: seq<Device>, now: nat, names: set<string>)
    requires Inv(s) && cfg.mode == Auto && Distinct(devices) && Room(s.health, names)
    requires forall j :: 0 <= j < |devices| ==> devices[j].station in names
    requires Planned(s, names)
    ensures var r := Scanned(cfg, s, devices, now);
            && Inv(r) && |r.backups| == |s.backups|
            && (forall k :: 0 <= k < |r.backups| ==>
                 r.backups[k].primary == s.backups[k].primary && r.backups[k].backup == s.backups[k].backup)
            && (forall k, j :: 0 <= k < |r.backups| && 0 <= j < |devices| && RunningPrimary(devices[j], r.backups[k])
                 ==> !r.backups[k].active)
            && (forall k :: 0 <= k < |r.backups| ==>
                 r.backups[k].primary in r.health
                 && (!Up(r, r.backups[k].primary) && Up(r, r.backups[k].backup) ==> r.backups[k].active))
  {
    SurveyOutcome(cfg, s, devices, |devices|, now, names);
    var s1 := Surveyed(cfg, s, devices, now);
    CheckOutcome(s1, |s1.backups|, now, names);
    var r := Scanned(cfg, s, devices, now);
    forall k | 0 <= k < |r.backups|
      ensures r.backups[k].primary == s.backups[k].primary && r.backups[k].backup == s.backups[k].backup
      ensures Settled(r, k)
      ensures forall j :: 0 <= j < |devices| && RunningPrimary(devices[j], r.backups[k]) ==> !r.backups[k].active
    {
      assert LeftAlone(s1, r, k);
      forall j | 0 <= j < |devices| && RunningPrimary(devices[j], r.backups[k])
        ensures !r.backups[k].active
      {
        assert Arrived(cfg, s1, devices[j]);
      }
    }
  }

  datatype Op =
    | Configure(primary: string, backup: string)
    | Unconfigure(primary: string)
    | ForceOver(primary: string, now: nat)
    | BringBack(primary: string, now: nat)
    | Scan(devices: seq<Device>, now: nat)

  function Apply(cfg: Config, s: State, op: Op): State {
    match op
    case Configure(p, b) => SetBackup(s, p, b).0
    case Unconfigure(p) => RemoveBackup(s, p).0
    case ForceOver(p, now) => Force(s, p, now).0
    case BringBack(p, now) => Restore(s, p, now).0
    case Scan(devices, now) => Scanned(cfg, s, devices, now)
  }

  function After(cfg: Config, s: State, ops: seq<Op>): State {
    if ops == [] then s else Apply(cfg, After(cfg, s, ops[..|ops| - 1]), ops[|ops| - 1])
  }

  /** The call forces a failover whose primary can no longer be tracked. */
  ghost predicate ForcesBlindly(s: State, op: Op) {
    op.ForceOver? &&
      var i := Find(s.backups, op.primary, |s.backups|);
      i >= 0 && !s.backups[i].active && Untrackable(s, op.primary)
  }

  /** One call keeps the invariant, or it is exactly the blind forced failover that breaks it. */
  lemma InvariantKeptIff(cfg: Config, s: State, op: Op)
    requires Inv(s)
    ensures Inv(Apply(cfg, s, op)) <==> !ForcesBlindly(s, op)
  {
    match op
    case Configure(p, b) => SetBackupKeeps(s, p, b);
    case Unconfigure(p) => RemoveBackupKeeps(s, p);
    case ForceOver(p, now) =>
      var i := Find(s.backups, p, |s.backups|);
      if i >= 0 {
        ExecutedFlaggedIff(s, i, now);
      }
    case BringBack(p, now) => RestoreKeeps(s, p, now);
    case Scan(devices, now) =>
      SurveyKeeps(cfg, s, devices, |devices|, now);
      var s1 := Surveyed(cfg, s, devices, now);
      CheckKeeps(s1, |s1.backups|, now);
  }

  const INITIAL := State(map[], [], Stats(0, 0, 0, 0, ""))

  ghost predicate NeverBlind(cfg: Config, ops: seq<Op>) {
    forall k :: 0 <= k < |ops| ==> !ForcesBlindly(After(cfg, INITIAL, ops[..k]), ops[k])
  }

  /** Over any run without a blind forced failover, active mappings are flagged and primaries unique. */
  lemma {:induction false} InvariantOverRuns(cfg: Config, ops: seq<Op>)
    requires NeverBlind(cfg, ops)
    ensures Inv(After(cfg, INITIAL, ops))
  {
    if ops != [] {
      var n := |ops| - 1;
      forall k | 0 <= k < n ensures !ForcesBlindly(After(cfg, INITIAL, ops[..n][..k]), ops[..n][k]) {
        assert ops[..n][..k] == ops[..k];
      }
      InvariantOverRuns(cfg, ops[..n]);
      InvariantKeptIff(cfg, After(cfg, INITIAL, ops[..n]), ops[n]);
    }
  }
}
