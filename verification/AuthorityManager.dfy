/** The authority manager object: a fixed table of 256 slots scanned by station name, which
    implements the handoff protocol on a map from stations to contexts. */
module AuthorityManager {
  import opened Clock
  import opened Status
  import opened Authority

  datatype Entry = Entry(station: string, context: Context, inUse: bool)

  /** The slots in use are the entries of the table, one slot per station. */
  ghost predicate Represents(es: seq<Entry>, t: Table) {
    && (forall i :: 0 <= i < |es| && es[i].inUse ==> es[i].station in t && t[es[i].station] == es[i].context)
    && (forall s :: s in t ==> exists i :: 0 <= i < |es| && es[i].inUse && es[i].station == s)
    && (forall i, j :: 0 <= i < j < |es| && es[i].inUse && es[j].inUse ==> es[i].station != es[j].station)
  }

  ghost function Used(es: seq<Entry>): nat {
    if es == [] then 0 else Used(es[..|es| - 1]) + if es[|es| - 1].inUse then 1 else 0
  }

  lemma {:induction false} UsedAll(es: seq<Entry>)
    requires forall i :: 0 <= i < |es| ==> es[i].inUse
    ensures Used(es) == |es|
  {
    if es != [] {
      UsedAll(es[..|es| - 1]);
    }
  }

  lemma {:induction false} UsedSet(es: seq<Entry>, i: nat, e: Entry)
    requires i < |es|
    ensures Used(es[i := e]) == Used(es) - (if es[i].inUse then 1 else 0) + (if e.inUse then 1 else 0)
  {
    var n := |es| - 1;
    if i < n {
      UsedSet(es[..n], i, e);
      assert es[i := e][..n] == es[..n][i := e];
    } else {
      assert es[i := e][..n] == es[..n];
    }
  }

  lemma {:induction false} UsedBound(es: seq<Entry>, i: nat)
    requires i < |es| && !es[i].inUse
    ensures Used(es) < |es|
  {
    var e := es[i].(inUse := true);
    UsedSet(es, i, e);
    UsedAtMost(es[i := e]);
  }

  lemma {:induction false} UsedAtMost(es: seq<Entry>)
    ensures Used(es) <= |es|
  {
    if es != [] {
      UsedAtMost(es[..|es| - 1]);
    }
  }

  /** Rewriting the context in a used slot rewrites that station's context in the table. */
  lemma SetContext(es: seq<Entry>, t: Table, i: nat, c: Context)
    requires Represents(es, t) && i < |es| && es[i].inUse
    ensures Represents(es[i := es[i].(context := c)], t[es[i].station := c])
  {
    var es', t' := es[i := es[i].(context := c)], t[es[i].station := c];
    forall s | s in t' ensures exists k :: 0 <= k < |es'| && es'[k].inUse && es'[k].station == s {
      var k :| 0 <= k < |es| && es[k].inUse && es[k].station == s;
      assert es'[k].inUse && es'[k].station == s;
    }
  }

  /** Filling a free slot adds a station to the table. */
  lemma AddStation(es: seq<Entry>, t: Table, i: nat, s: string, c: Context)
    requires Represents(es, t) && i < |es| && !es[i].inUse && s !in t
    ensures Represents(es[i := Entry(s, c, true)], t[s := c])
  {
    var es', t' := es[i := Entry(s, c, true)], t[s := c];
    forall s' | s' in t' ensures exists k :: 0 <= k < |es'| && es'[k].inUse && es'[k].station == s' {
      if s' == s {
        assert es'[i].inUse && es'[i].station == s;
      } else {
        var k :| 0 <= k < |es| && es[k].inUse && es[k].station == s';
        assert es'[k].inUse && es'[k].station == s';
      }
    }
  }

  ghost function Checked(cfg: Config, e: Entry, now: nat): Entry {
    if e.inUse then e.(context := TimeoutChecked(cfg, e.context, now)) else e
  }

  ghost function CheckedUpTo(cfg: Config, es: seq<Entry>, n: nat, now: nat): seq<Entry> {
    seq(|es|, k requires 0 <= k < |es| => if k < n then Checked(cfg, es[k], now) else es[k])
  }

  lemma CheckedNext(cfg: Config, es: seq<Entry>, n: nat, now: nat)
    requires n < |es|
    ensures CheckedUpTo(cfg, es, n, now)[n] == es[n]
    ensures CheckedUpTo(cfg, es, n + 1, now) == CheckedUpTo(cfg, es, n, now)[n := Checked(cfg, es[n], now)]
  {}

  lemma CheckedAt(cfg: Config, es: seq<Entry>, t: Table, es': seq<Entry>, t': Table, now: nat, s: string)
    requires Represents(es, t) && Represents(es', t') && s in t && s in t'
    requires es' == CheckedUpTo(cfg, es, |es|, now)
    ensures t'[s] == TimeoutChecked(cfg, t[s], now)
  {
    var k :| 0 <= k < |es| && es[k].inUse && es[k].station == s;
    assert es'[k] == Checked(cfg, es[k], now);
  }

  lemma CheckedTable(cfg: Config, es: seq<Entry>, t: Table, es': seq<Entry>, t': Table, now: nat)
    requires Represents(es, t) && Represents(es', t') && t.Keys == t'.Keys
    requires es' == CheckedUpTo(cfg, es, |es|, now)
    ensures t' == Apply(cfg, t, Op.Process(now)).0
  {
    forall s | s in t ensures t'[s] == TimeoutChecked(cfg, t[s], now) {
      CheckedAt(cfg, es, t, es', t', now, s);
    }
  }

  class Manager {
    const config: Config
    const entries: array<Entry>
    var entryCount: nat
    ghost var table: Table

    ghost predicate Valid()
      reads this, entries
    {
      && entries.Length == CAPACITY
      && Represents(entries[..], table)
      && |table| == entryCount == Used(entries[..])
    }

    constructor (config: Config)
      ensures Valid() && fresh(entries) && table == map[] && this.config == config
    {
      this.config := config;
      entries := new Entry[CAPACITY](_ => Entry("", FRESH, false));
      entryCount, table := 0, map[];
      new;
      NoneUsed(entries[..]);
    }

    static lemma {:induction false} NoneUsed(es: seq<Entry>)
      requires forall i :: 0 <= i < |es| ==> !es[i].inUse
      ensures Used(es) == 0
    {
      if es != [] {
        NoneUsed(es[..|es| - 1]);
      }
    }

    /** The slot of a station, or -1. */
    method FindEntry(station: string) returns (slot: int)
      requires Valid()
      ensures -1 <= slot < entries.Length
      ensures slot >= 0 ==> entries[slot].inUse && entries[slot].station == station
      ensures slot >= 0 <==> station in table
    {
      slot := 0;
      while slot < entries.Length
        invariant 0 <= slot <= entries.Length
        invariant forall k :: 0 <= k < slot ==> !(entries[k].inUse && entries[k].station == station)
      {
        if entries[slot].inUse && entries[slot].station == station {
          assert entries[..][slot] == entries[slot];
          return;
        }
        slot := slot + 1;
      }
      assert station !in table by {
        if station in table {
          var k :| 0 <= k < |entries[..]| && entries[..][k].inUse && entries[..][k].station == station;
          assert false;
        }
      }
      slot := -1;
    }

    /** The context kept in a used slot. */
    method ContextIn(slot: nat) returns (c: Context)
      requires Valid() && slot < entries.Length && entries[slot].inUse
      ensures entries[slot].station in table && c == table[entries[slot].station] == entries[slot].context
    {
      assert entries[..][slot] == entries[slot];
      c := entries[slot].context;
    }

    /** Store a context in a used slot. */
    method Store(slot: nat, c: Context)
      requires Valid() && slot < entries.Length && entries[slot].inUse
      modifies this`table, entries
      ensures Valid() && table == old(table)[old(entries[slot].station) := c]
      ensures entries[..] == old(entries[..])[slot := old(entries[slot]).(context := c)]
    {
      ghost var es := entries[..];
      ghost var s := entries[slot].station;
      assert es[slot] == entries[slot];
      SetContext(es, table, slot, c);
      UsedSet(es, slot, es[slot].(context := c));
      entries[slot] := entries[slot].(context := c);
      assert entries[..] == es[slot := es[slot].(context := c)];
      table := table[s := c];
    }

    /** A free slot turned into an entry for the station, or -1 when all are taken. */
    method Create(station: string) returns (slot: int)
      requires Valid() && station !in table
      modifies this`table, this`entryCount, entries
      ensures Valid() && -1 <= slot < entries.Length
      ensures slot == -1 <==> |old(table)| >= CAPACITY
      ensures slot == -1 ==> table == old(table)
      ensures slot >= 0 ==> table == old(table)[station := FRESH] && entries[slot] == Entry(station, FRESH, true)
    {
      ghost var es := entries[..];
      slot := 0;
      while slot < entries.Length
        invariant 0 <= slot <= entries.Length
        invariant entries[..] == es && table == old(table) && entryCount == old(entryCount)
        invariant forall k :: 0 <= k < slot ==> es[k].inUse
      {
        if !entries[slot].inUse {
          assert es[slot] == entries[slot];
          AddStation(es, table, slot, station, FRESH);
          UsedSet(es, slot, Entry(station, FRESH, true));
          UsedBound(es, slot);
          entries[slot] := Entry(station, FRESH, true);
          assert entries[..] == es[slot := Entry(station, FRESH, true)];
          entryCount := entryCount + 1;
          table := table[station := FRESH];
          return;
        }
        assert es[slot] == entries[slot];
        slot := slot + 1;
      }
      UsedAll(es);
      slot := -1;
    }
  
    /** Open a handoff in a used slot unless one is open or the controller already has authority. */
    method OpenHandoff(slot: nat, now: nat) returns (res: Code)
      requires Valid() && slot < entries.Length && entries[slot].inUse
      modifies this`table, entries
      ensures Valid() && (table, res) == Apply(config, old(table), Op.Request(old(entries[slot].station), now))
    {
      assert entries[..][slot] == entries[slot];
      var c := entries[slot].context;
      if c.state == Supervised {
        return Ok;
      }
      if c.state == HandoffPending {
        return Busy;
      }
      Store(slot, c.(state := HandoffPending, requestTime := now, acknowledged := false, controllerOnline := true,
                     staleThreshold := config.staleCommand));
      return Ok;
    }

    method Request(station: string, now: nat) returns (res: Code)
      requires Valid()
      modifies this`table, this`entryCount, entries
      ensures Valid() && (table, res) == Apply(config, old(table), Op.Request(station, now))
    {
      var slot := FindEntry(station);
      if slot < 0 {
        slot := Create(station);
        if slot < 0 {
          return Full;
        }
        RequestOfFresh(config, old(table), station, now);
      }
      res := OpenHandoff(slot, now);
    }

    static lemma RequestOfFresh(cfg: Config, t: Table, s: string, now: nat)
      requires s !in t && |t| < CAPACITY
      ensures Apply(cfg, t[s := FRESH], Op.Request(s, now)) == Apply(cfg, t, Op.Request(s, now))
    {
      assert t[s := FRESH][s := Requested(cfg, FRESH, now)] == t[s := Requested(cfg, FRESH, now)];
    }

    method Release(station: string, now: nat) returns (res: Code)
      requires Valid()
      modifies this`table, entries
      ensures Valid() && (table, res) == Apply(config, old(table), Op.Release(station, now))
    {
      var slot := FindEntry(station);
      if slot < 0 {
        return NotFound;
      }
      assert entries[..][slot] == entries[slot];
      if entries[slot].context.state != Supervised {
        return Permission;
      }
      Store(slot, entries[slot].context.(state := Releasing, requestTime := now));
      return Ok;
    }

    method HandleGrant(station: string, epoch: nat, now: nat) returns (res: Code)
      requires Valid()
      modifies this`table, entries
      ensures Valid() && (table, res) == Apply(config, old(table), Grant(station, epoch, now))
    {
      var slot := FindEntry(station);
      if slot < 0 {
        return NotFound;
      }
      assert entries[..][slot] == entries[slot];
      if entries[slot].context.state != HandoffPending {
        return Protocol;
      }
      Store(slot, entries[slot].context.(epoch := epoch, state := Supervised, grantTime := now, acknowledged := true,
                                         holder := "CONTROLLER"));
      return Ok;
    }

    method HandleReleased(station: string, epoch: nat) returns (res: Code)
      requires Valid()
      modifies this`table, entries
      ensures Valid() && (table, res) == Apply(config, old(table), Released(station, epoch))
    {
      var slot := FindEntry(station);
      if slot < 0 {
        return NotFound;
      }
      var c := ContextIn(slot);
      Store(slot, c.(epoch := epoch, state := Autonomous, acknowledged := false, holder := station));
      return Ok;
    }

    method ForceRelease(station: string) returns (res: Code)
      requires Valid()
      modifies this`table, entries
      ensures Valid() && (table, res) == Apply(config, old(table), Op.ForceRelease(station))
    {
      var slot := FindEntry(station);
      if slot < 0 {
        return NotFound;
      }
      var c := ContextIn(slot);
      Store(slot, c.(state := Autonomous, epoch := NextEpoch(c.epoch), controllerOnline := false, holder := station));
      return Ok;
    }

    method ValidateCommand(station: string, epoch: nat) returns (res: Code)
      requires Valid()
      ensures res == Verdict(table, station, epoch)
    {
      var slot := FindEntry(station);
      if slot < 0 {
        return NotFound;
      }
      assert entries[..][slot] == entries[slot];
      var c := entries[slot].context;
      if c.state != Supervised {
        return Permission;
      }
      if epoch != 0 && epoch < c.epoch {
        return Permission;
      }
      return Ok;
    }

    /** Drop an overdue handoff or release in one slot. */
    method CheckSlot(i: nat, now: nat)
      requires Valid() && i < entries.Length
      modifies this`table, entries
      ensures Valid() && table.Keys == old(table).Keys
      ensures entries[..] == old(entries[..])[i := Checked(config, old(entries[..])[i], now)]
    {
      assert entries[..][i] == entries[i];
      if !entries[i].inUse {
        return;
      }
      var c := entries[i].context;
      if c.state == HandoffPending && Elapsed(now, c.requestTime) > config.handoffTimeout {
        Store(i, c.(state := Autonomous, controllerOnline := false));
      } else if c.state == Releasing && Elapsed(now, c.requestTime) > config.handoffTimeout {
        Store(i, c.(state := Autonomous, epoch := NextEpoch(c.epoch)));
      }
    }

    /** Drop overdue handoffs and releases in every slot. */
    method Process(now: nat)
      requires Valid()
      modifies this`table, entries
      ensures Valid() && table == Apply(config, old(table), Op.Process(now)).0
    {
      ghost var es, t := entries[..], table;
      for i := 0 to entries.Length
        invariant Valid() && table.Keys == t.Keys
        invariant entries[..] == CheckedUpTo(config, es, i, now)
      {
        CheckedNext(config, es, i, now);
        CheckSlot(i, now);
      }
      CheckedTable(config, es, t, entries[..], table, now);
    }
  }
}
