/** The failover manager object: a list of health entries searched by station name and a list of
    backup mappings, both updated in place by the scan. */
module FailoverManager {
  import opened Clock
  import opened Status
  import opened Failover

  datatype Entry = Entry(station: string, health: Health)

  /** The entries are the health table, one entry per station. */
  ghost predicate Represents(es: seq<Entry>, t: map<string, Health>) {
    && (forall i :: 0 <= i < |es| ==> es[i].station in t && t[es[i].station] == es[i].health)
    && (forall s :: s in t ==> exists i :: 0 <= i < |es| && es[i].station == s)
    && (forall i, j :: 0 <= i < j < |es| ==> es[i].station != es[j].station)
    && |t| == |es|
  }

  lemma SameSize(t: map<string, Health>, s: string, h: Health)
    requires s in t
    ensures t[s := h].Keys == t.Keys && |t[s := h]| == |t|
  {
    assert t[s := h].Keys == t.Keys;
  }

  lemma SetEntry(es: seq<Entry>, t: map<string, Health>, i: nat, h: Health)
    requires Represents(es, t) && i < |es|
    ensures Represents(es[i := es[i].(health := h)], t[es[i].station := h])
  {
    var es', t' := es[i := es[i].(health := h)], t[es[i].station := h];
    SameSize(t, es[i].station, h);
    forall s | s in t' ensures exists k :: 0 <= k < |es'| && es'[k].station == s {
      var k :| 0 <= k < |es| && es[k].station == s;
      assert es'[k].station == s;
    }
  }

  lemma AddEntry(es: seq<Entry>, t: map<string, Health>, s: string, h: Health)
    requires Represents(es, t) && s !in t
    ensures Represents(es + [Entry(s, h)], t[s := h])
  {
    var es', t' := es + [Entry(s, h)], t[s := h];
    forall s' | s' in t' ensures exists k :: 0 <= k < |es'| && es'[k].station == s' {
      if s' == s {
        assert es'[|es|].station == s;
      } else {
        var k :| 0 <= k < |es| && es[k].station == s';
        assert es'[k].station == s';
      }
    }
  }

  class Manager {
    const config: Config
    var running: bool
    var health: seq<Entry>
    var backups: seq<Mapping>
    var stats: Stats
    ghost var table: map<string, Health>

    ghost predicate Valid()
      reads this
    {
      Represents(health, table) && UniquePrimaries(backups)
    }

    ghost function State(): Failover.State
      reads this
    {
      Failover.State(table, backups, stats)
    }

    constructor (config: Config)
      ensures Valid() && State() == INITIAL && this.config == config && !running
    {
      this.config := config;
      running, health, backups, stats, table := false, [], [], Stats(0, 0, 0, 0, ""), map[];
    }

    /** The entry of a station, created when unknown; -1 when unknown and the table is full. */
    method GetEntry(station: string, now: nat) returns (i: int)
      requires Valid()
      modifies this`health, this`table
      ensures Valid() && State() == old(State()).(health := Tracked(old(table), station, now))
      ensures -1 <= i < |health| && (i >= 0 <==> station in table)
      ensures i >= 0 ==> health[i] == Entry(station, table[station])
    {
      i := 0;
      while i < |health|
        invariant 0 <= i <= |health|
        invariant forall k :: 0 <= k < i ==> health[k].station != station
      {
        if health[i].station == station {
          return;
        }
        i := i + 1;
      }
      assert station !in table;
      if |health| >= CAPACITY {
        return -1;
      }
      AddEntry(health, table, station, Fresh(now));
      health := health + [Entry(station, Fresh(now))];
      table := table[station := Fresh(now)];
      return |health| - 1;
    }

    method PutEntry(i: nat, h: Health)
      requires Valid() && i < |health|
      modifies this`health, this`table
      ensures Valid() && State() == old(State()).(health := old(table)[old(health)[i].station := h])
      ensures health == old(health)[i := old(health)[i].(health := h)]
    {
      SetEntry(health, table, i, h);
      table := table[health[i].station := h];
      health := health[i := health[i].(health := h)];
    }

    method FindBackup(primary: string) returns (i: int)
      ensures i == Find(backups, primary, |backups|)
    {
      i := 0;
      while i < |backups|
        invariant 0 <= i <= |backups| && Find(backups, primary, i) == -1
      {
        if backups[i].primary == primary {
          FindFirst(backups, primary, i);
          return;
        }
        i := i + 1;
      }
      i := -1;
    }

    static lemma FindFirst(backups: seq<Mapping>, primary: string, i: nat)
      requires i < |backups| && Find(backups, primary, i) == -1 && backups[i].primary == primary
      ensures Find(backups, primary, |backups|) == i
    {
      var r := Find(backups, primary, |backups|);
    }

    method SetBackup(primary: string, backup: string) returns (res: Code)
      requires Valid()
      modifies this`backups
      ensures Valid() && (State(), res) == Failover.SetBackup(old(State()), primary, backup)
    {
      var i := FindBackup(primary);
      if i >= 0 {
        backups := backups[i := backups[i].(backup := backup)];
        return Ok;
      }
      if |backups| >= CAPACITY {
        return Full;
      }
      backups := backups + [Mapping(primary, backup, false)];
      return Ok;
    }

    method RemoveBackup(primary: string) returns (res: Code)
      requires Valid()
      modifies this`backups
      ensures Valid() && (State(), res) == Failover.RemoveBackup(old(State()), primary)
    {
      var i := FindBackup(primary);
      if i < 0 {
        return NotFound;
      }
      backups := backups[..i] + backups[i + 1..];
      return Ok;
    }

    method ExecuteFailover(i: nat, now: nat)
      requires Valid() && i < |backups|
      modifies this`health, this`table, this`backups, this`stats
      ensures Valid() && State() == Executed(old(State()), i, now)
    {
      var m := backups[i];
      if m.active {
        return;
      }
      backups := backups[i := m.(active := true)];
      stats := stats.(lastFailover := now, lastFailed := m.primary);
      var e := GetEntry(m.primary, now);
      if e >= 0 {
        PutEntry(e, health[e].health.(inFailover := true, backup := m.backup));
      }
    }

    method ForceFailover(primary: string, now: nat) returns (res: Code)
      requires Valid()
      modifies this`health, this`table, this`backups, this`stats
      ensures Valid() && (State(), res) == Force(old(State()), primary, now)
    {
      var i := FindBackup(primary);
      if i < 0 {
        return NotFound;
      }
      ExecuteFailover(i, now);
      return Ok;
    }

    /** Searches for a mapping that has this primary and is active. */
    method Restore(primary: string, now: nat) returns (res: Code)
      requires Valid()
      modifies this`health, this`table, this`backups
      ensures Valid() && (State(), res) == Failover.Restore(old(State()), primary, now)
    {
      var i := 0;
      while i < |backups| && !(backups[i].primary == primary && backups[i].active)
        invariant 0 <= i <= |backups|
        invariant forall k :: 0 <= k < i ==> !(backups[k].primary == primary && backups[k].active)
      {
        i := i + 1;
      }
      ghost var f := Find(backups, primary, |backups|);
      if i == |backups| {
        return NotFound;
      }
      assert f == i;
      backups := backups[i := backups[i].(active := false)];
      var e := GetEntry(primary, now);
      if e >= 0 {
        PutEntry(e, health[e].health.(inFailover := false, backup := ""));
      }
      return Ok;
    }

    method RunningDevice(e: nat, now: nat)
      requires Valid() && e < |health|
      modifies this`health, this`table, this`backups, this`stats
      ensures Valid() && State() == Running(config, old(State()), old(health[e].station), now)
    {
      var h := health[e].health;
      var station := health[e].station;
      PutEntry(e, h.(healthy := true, lastHeartbeat := now, failures := 0));
      stats := stats.(healthyCount := stats.healthyCount + 1);
      if h.inFailover && config.mode == Auto {
        var _ := Restore(station, now);
      }
    }

    method SilentDevice(e: nat, now: nat)
      requires Valid() && e < |health|
      modifies this`health, this`table, this`stats
      ensures Valid() && State() == Silent(config, old(State()), old(health[e].station), now)
    {
      var h := health[e].health;
      if Elapsed(now, h.lastHeartbeat) >= config.timeout {
        PutEntry(e, h.(healthy := false, failures := h.failures + 1));
        stats := stats.(failedCount := stats.failedCount + 1);
      }
    }

    method MeasureDevice(d: Device, now: nat)
      requires Valid() && d.station in table
      modifies this`health, this`table, this`stats
      ensures Valid() && State() == Measured(old(State()), d)
    {
      var e := GetEntry(d.station, now);
      var h := health[e].health.(packetLoss := d.packetLoss);
      PutEntry(e, h);
      if h.inFailover {
        stats := stats.(inFailoverCount := stats.inFailoverCount + 1);
      }
    }

    method SeeDevice(d: Device, now: nat)
      requires Valid()
      modifies this`health, this`table, this`backups, this`stats
      ensures Valid() && State() == Seen(config, old(State()), d, now)
    {
      var e := GetEntry(d.station, now);
      if e < 0 {
        return;
      }
      ReportedStays(config, State(), d.station, now);
      if d.running {
        RunningDevice(e, now);
      } else {
        SilentDevice(e, now);
      }
      MeasureDevice(d, now);
    }

    method CheckMapping(i: nat, now: nat)
      requires Valid() && i < |backups|
      modifies this`health, this`table, this`backups, this`stats
      ensures Valid() && State() == Checked(old(State()), i, now)
    {
      var p := GetEntry(backups[i].primary, now);
      if p >= 0 && !health[p].health.healthy && !backups[i].active {
        var b := GetEntry(backups[i].backup, now);
        if b >= 0 && health[b].health.healthy {
          ExecuteFailover(i, now);
        }
      }
    }

    method Survey(devices: seq<Device>, now: nat)
      requires Valid()
      modifies this`health, this`table, this`backups, this`stats
      ensures Valid() && State() == Surveyed(config, old(State()), devices, now)
    {
      if devices == [] {
        return;
      }
      stats := stats.(healthyCount := 0, failedCount := 0, inFailoverCount := 0);
      for j := 0 to |devices|
        invariant Valid() && State() == SeenAll(config, old(State()), devices, j, now)
      {
        SeeDevice(devices[j], now);
      }
    }

    method CheckMappings(now: nat)
      requires Valid()
      modifies this`health, this`table, this`backups, this`stats
      ensures Valid() && State() == CheckedAll(old(State()), |old(backups)|, now)
    {
      ghost var s := State();
      var n := |backups|;
      for i := 0 to n
        invariant Valid() && n == |s.backups| && State() == CheckedAll(s, i, now)
      {
        ghost var r := CheckedAll(s, i, now);
        CheckMapping(i, now);
        assert State() == Checked(r, i, now);
      }
    }

    method Process(devices: seq<Device>, now: nat) returns (res: Code)
      requires Valid()
      modifies this`health, this`table, this`backups, this`stats
      ensures Valid()
      ensures res == if running then Ok else NotInitialized
      ensures State() == if running then Scanned(config, old(State()), devices, now) else old(State())
    {
      if !running {
        return NotInitialized;
      }
      Survey(devices, now);
      if config.mode != Manual {
        CheckMappings(now);
      }
      return Ok;
    }
  }
}
