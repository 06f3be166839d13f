/** The one run that breaks the failover flags: a forced failover with the health table full. */
module FailoverGap {
  import opened Failover

  /** Station names of two letters, well inside the 63 characters a name may have. */
  function Name(n: nat): (s: string)
    requires n <= CAPACITY
    ensures |s| == 2
  {
    [Letter(n / 16), Letter(n % 16)]
  }

  function Letter(k: nat): char
    requires k <= 16
  {
    ('a' as int + k) as char
  }

  lemma NamesDiffer(i: nat, j: nat)
    requires i <= CAPACITY && j <= CAPACITY && Name(i) == Name(j)
    ensures i == j
  {
    assert Letter(i / 16) == Name(i)[0] == Letter(j / 16);
    assert Letter(i % 16) == Name(i)[1] == Letter(j % 16);
  }

  /** A registry that reports 256 running devices, as many as it can hold. */
  const FLEET: seq<Device> := seq(CAPACITY, i requires 0 <= i < CAPACITY => Device(Name(i), true, 0.0))

  lemma SeenNew(cfg: Config, s: State, d: Device, now: nat)
    requires d.running && d.station !in s.health && |s.health| < CAPACITY
    ensures Seen(cfg, s, d, now).health.Keys == s.health.Keys + {d.station}
    ensures |Seen(cfg, s, d, now).health| == |s.health| + 1 && Seen(cfg, s, d, now).backups == s.backups
  {
    var r := Seen(cfg, s, d, now);
    assert r.health.Keys == s.health.Keys + {d.station};
    assert |r.health| == |r.health.Keys| && |s.health| == |s.health.Keys|;
  }

  predicate NameBelow(name: string, n: nat)
    requires n <= CAPACITY
  {
    exists i: nat | i < n :: name == Name(i)
  }

  /** The first `n` names are tracked, and no mapping is known. */
  ghost predicate Holding(s: State, n: nat)
    requires n <= CAPACITY
  {
    |s.health| == n && s.backups == [] && forall name | name in s.health :: NameBelow(name, n)
  }

  lemma NotYetHeld(s: State, n: nat)
    requires n <= CAPACITY && Holding(s, n)
    ensures Name(n) !in s.health
  {
    if Name(n) in s.health {
      var i: nat :| i < n && Name(n) == Name(i);
      NamesDiffer(n, i);
    }
  }

  lemma HoldingNext(cfg: Config, s: State, n: nat, now: nat)
    requires n < CAPACITY && Holding(s, n)
    ensures Holding(Seen(cfg, s, Device(Name(n), true, 0.0), now), n + 1)
  {
    NotYetHeld(s, n);
    SeenNew(cfg, s, Device(Name(n), true, 0.0), now);
    var t := Seen(cfg, s, Device(Name(n), true, 0.0), now);
    forall name | name in t.health ensures NameBelow(name, n + 1) {
      assert name in t.health.Keys;
      if name in s.health {
        var i: nat :| i < n && name == Name(i);
      } else {
        assert name == Name(n);
      }
    }
  }

  lemma {:induction false} FleetFills(cfg: Config, s: State, n: nat, now: nat)
    requires n <= CAPACITY && Holding(s, 0)
    ensures Holding(SeenAll(cfg, s, FLEET, n, now), n)
  {
    if n > 0 {
      FleetFills(cfg, s, n - 1, now);
      HoldingNext(cfg, SeenAll(cfg, s, FLEET, n - 1, now), n - 1, now);
      assert FLEET[n - 1] == Device(Name(n - 1), true, 0.0);
    }
  }

  /** A scan of the fleet fills the health table. */
  lemma ScanFills(cfg: Config, s: State, now: nat)
    requires Holding(s, 0)
    ensures Holding(Apply(cfg, s, Scan(FLEET, now)), CAPACITY)
  {
    FleetFills(cfg, s, CAPACITY, now);
  }

  /** A mapping configured then has a primary that cannot be tracked. */
  lemma ConfiguredBlind(cfg: Config, s: State, now: nat)
    requires Holding(s, CAPACITY)
    ensures ForcesBlindly(Apply(cfg, s, Configure(Name(CAPACITY), "spare")), ForceOver(Name(CAPACITY), now))
  {
    NotYetHeld(s, CAPACITY);
    var t := Apply(cfg, s, Configure(Name(CAPACITY), "spare"));
    assert t.backups == [Mapping(Name(CAPACITY), "spare", false)];
    assert Find(t.backups, Name(CAPACITY), 1) == 0;
  }

  lemma AfterNext(cfg: Config, s: State, ops: seq<Op>, op: Op)
    ensures After(cfg, s, ops + [op]) == Apply(cfg, After(cfg, s, ops), op)
  {
    assert (ops + [op])[..|ops|] == ops;
  }

  lemma AfterThree(cfg: Config, s: State, a: Op, b: Op, c: Op)
    ensures After(cfg, s, [a, b]) == Apply(cfg, Apply(cfg, s, a), b)
    ensures After(cfg, s, [a, b, c]) == Apply(cfg, Apply(cfg, Apply(cfg, s, a), b), c)
  {
    AfterNext(cfg, s, [], a);
    AfterNext(cfg, s, [a], b);
    AfterNext(cfg, s, [a, b], c);
    assert [] + [a] == [a] && [a] + [b] == [a, b] && [a, b] + [c] == [a, b, c];
  }

  lemma InitialHolds()
    ensures Holding(INITIAL, 0) && Inv(INITIAL)
  {
  }

  lemma BlindRun(cfg: Config, s: State, now: nat)
    requires Holding(s, 0) && Inv(s)
    ensures !Inv(After(cfg, s, [Scan(FLEET, now), Configure(Name(CAPACITY), "spare"), ForceOver(Name(CAPACITY), now)]))
  {
    var scan, conf, force := Scan(FLEET, now), Configure(Name(CAPACITY), "spare"), ForceOver(Name(CAPACITY), now);
    ScanFills(cfg, s, now);
    ConfiguredBlind(cfg, Apply(cfg, s, scan), now);
    InvariantKeptIff(cfg, s, scan);
    InvariantKeptIff(cfg, Apply(cfg, s, scan), conf);
    InvariantKeptIff(cfg, Apply(cfg, Apply(cfg, s, scan), conf), force);
    AfterThree(cfg, s, scan, conf, force);
  }

  /** From a fresh manager: a scan of the 256 devices, a mapping for a 257th, and a forced failover of it. */
  lemma BlindForceBreaksFlags(cfg: Config, now: nat)
    ensures !Inv(After(cfg, INITIAL,
                       [Scan(FLEET, now), Configure(Name(CAPACITY), "spare"), ForceOver(Name(CAPACITY), now)]))
  {
    InitialHolds();
    BlindRun(cfg, INITIAL, now);
  }
}
