/** The authority handoff protocol between the controller and its RTUs, as a state machine over the
    table of stations. Epochs are fencing tokens: a command that carries an epoch below the recorded
    one is refused. The properties are about whole runs against an arbitrary environment. */
module Authority {
  import opened Clock
  import opened Status

  const EPOCHS := 0x1_0000_0000
  const CAPACITY := 256
  const DEFAULT_STALE_MS := 10000

  datatype State = Autonomous | HandoffPending | Supervised | Releasing

  datatype Context = Context(
    epoch: nat, state: State, requestTime: nat, grantTime: nat, holder: string,
    controllerOnline: bool, acknowledged: bool, staleThreshold: nat)

  datatype Config = Config(handoffTimeout: nat, staleCommand: nat)

  type Table = map<string, Context>

  datatype Op =
    | Request(station: string, now: nat)
    | Release(station: string, now: nat)
    | Grant(station: string, epoch: nat, now: nat)
    | Released(station: string, epoch: nat)
    | ForceRelease(station: string)
    | Process(now: nat)

  const FRESH := Context(1, Autonomous, 0, 0, "", false, false, DEFAULT_STALE_MS)

  function NextEpoch(e: nat): nat {
    (e + 1) % EPOCHS
  }

  // ----- One step on one station -----

  function Requested(cfg: Config, c: Context, now: nat): Context {
    c.(state := HandoffPending, requestTime := now, acknowledged := false, controllerOnline := true,
       staleThreshold := cfg.staleCommand)
  }

  function Granted(c: Context, epoch: nat, now: nat): Context {
    c.(epoch := epoch, state := Supervised, grantTime := now, acknowledged := true, holder := "CONTROLLER")
  }

  function Returned(c: Context, station: string, epoch: nat): Context {
    c.(epoch := epoch, state := Autonomous, acknowledged := false, holder := station)
  }

  function Forced(c: Context, station: string): Context {
    c.(state := Autonomous, epoch := NextEpoch(c.epoch), controllerOnline := false, holder := station)
  }

  ghost predicate TimedOut(cfg: Config, c: Context, now: nat) {
    Elapsed(now, c.requestTime) > cfg.handoffTimeout
  }

  ghost function TimeoutChecked(cfg: Config, c: Context, now: nat): Context {
    if !TimedOut(cfg, c, now) then c
    else if c.state == HandoffPending then c.(state := Autonomous, controllerOnline := false)
    else if c.state == Releasing then c.(state := Autonomous, epoch := NextEpoch(c.epoch))
    else c
  }

  // ----- One step on the table -----

  /** The table and the return code after one call. */
  ghost function Apply(cfg: Config, t: Table, op: Op): (r: (Table, Code))
    ensures t.Keys <= r.0.Keys
  {
    match op
    case Request(s, now) =>
      if s in t then
        if t[s].state == Supervised then (t, Ok)
        else if t[s].state == HandoffPending then (t, Busy)
        else (t[s := Requested(cfg, t[s], now)], Ok)
      else if |t| >= CAPACITY then (t, Full)
      else (t[s := Requested(cfg, FRESH, now)], Ok)
    case Release(s, now) =>
      if s !in t then (t, NotFound)
      else if t[s].state != Supervised then (t, Permission)
      else (t[s := t[s].(state := Releasing, requestTime := now)], Ok)
    case Grant(s, epoch, now) =>
      if s !in t then (t, NotFound)
      else if t[s].state != HandoffPending then (t, Protocol)
      else (t[s := Granted(t[s], epoch, now)], Ok)
    case Released(s, epoch) =>
      if s !in t then (t, NotFound) else (t[s := Returned(t[s], s, epoch)], Ok)
    case ForceRelease(s) =>
      if s !in t then (t, NotFound) else (t[s := Forced(t[s], s)], Ok)
    case Process(now) =>
      (map s | s in t :: TimeoutChecked(cfg, t[s], now), Ok)
  }

  /** The verdict on a command that carries `epoch`. */
  ghost function Verdict(t: Table, s: string, epoch: nat): Code {
    if s !in t then NotFound
    else if t[s].state != Supervised then Permission
    else if epoch != 0 && epoch < t[s].epoch then Permission
    else Ok
  }

  /** The table after the first calls of a run. */
  ghost function After(cfg: Config, t: Table, ops: seq<Op>): Table {
    if ops == [] then t else Apply(cfg, After(cfg, t, ops[..|ops| - 1]), ops[|ops| - 1]).0
  }

  // ----- What a step can do to a station -----

  /** A call about one station leaves every other station alone. */
  lemma OthersUntouched(cfg: Config, t: Table, op: Op, s: string)
    requires !op.Process? && op.station != s
    ensures var t' := Apply(cfg, t, op).0;
            (s in t' <==> s in t) && (s in t ==> t'[s] == t[s])
  {}

  /** The call lowers the recorded epoch of `s`: a grant or released message with a smaller epoch,
      or a 32-bit counter wrapping around. */
  ghost predicate LowersEpoch(cfg: Config, t: Table, op: Op, s: string)
    requires s in t
  {
    match op
    case Grant(st, e, _) => st == s && t[s].state == HandoffPending && e < t[s].epoch
    case Released(st, e) => st == s && e < t[s].epoch
    case ForceRelease(st) => st == s && NextEpoch(t[s].epoch) < t[s].epoch
    case Process(now) => t[s].state == Releasing && TimedOut(cfg, t[s], now) && NextEpoch(t[s].epoch) < t[s].epoch
    case _ => false
  }

  /** Exactly those calls lower it. */
  lemma EpochFallsIff(cfg: Config, t: Table, op: Op, s: string)
    requires s in t
    ensures s in Apply(cfg, t, op).0
    ensures Apply(cfg, t, op).0[s].epoch < t[s].epoch <==> LowersEpoch(cfg, t, op, s)
  {}

  // ----- Fencing over whole runs -----

  /** No call of the run lowers the epoch of `s`: what the RTU and the counter width must provide. */
  ghost predicate Orderly(cfg: Config, t: Table, ops: seq<Op>, s: string) {
    forall k :: 0 <= k < |ops| ==> OrderlyAt(cfg, t, ops, s, k)
  }

  ghost predicate OrderlyAt(cfg: Config, t: Table, ops: seq<Op>, s: string, k: nat)
    requires k < |ops|
  {
    var before := After(cfg, t, ops[..k]);
    s in before ==> !LowersEpoch(cfg, before, ops[k], s)
  }

  /** The epoch recorded for `s` after the first `k` calls; -1 while the station is unknown. */
  ghost function EpochAt(cfg: Config, t: Table, ops: seq<Op>, s: string, k: nat): int
    requires k <= |ops|
  {
    var at := After(cfg, t, ops[..k]);
    if s in at then at[s].epoch else -1
  }

  lemma EpochStep(cfg: Config, t: Table, ops: seq<Op>, s: string, k: nat)
    requires Orderly(cfg, t, ops, s) && k < |ops|
    ensures EpochAt(cfg, t, ops, s, k) <= EpochAt(cfg, t, ops, s, k + 1)
  {
    assert OrderlyAt(cfg, t, ops, s, k);
    assert ops[..k + 1][..k] == ops[..k];
    if s in After(cfg, t, ops[..k]) {
      EpochFallsIff(cfg, After(cfg, t, ops[..k]), ops[k], s);
    }
  }

  lemma {:induction false} Stepwise(e: seq<int>, i: nat, j: nat)
    requires i <= j < |e| && forall k :: 0 <= k < |e| - 1 ==> e[k] <= e[k + 1]
    ensures e[i] <= e[j]
  {
    if i < j {
      Stepwise(e, i, j - 1);
      var k := j - 1;
      assert e[k] <= e[k + 1];
    }
  }

  /** The recorded epoch of a station never decreases along an orderly run, and a known station stays
      known. */
  lemma EpochMonotone(cfg: Config, t: Table, ops: seq<Op>, s: string, i: nat, j: nat)
    requires Orderly(cfg, t, ops, s) && i <= j <= |ops|
    ensures EpochAt(cfg, t, ops, s, i) <= EpochAt(cfg, t, ops, s, j)
  {
    var e := seq(|ops| + 1, k requires 0 <= k <= |ops| => EpochAt(cfg, t, ops, s, k));
    forall k | 0 <= k < |ops| ensures e[k] <= e[k + 1] {
      EpochStep(cfg, t, ops, s, k);
    }
    Stepwise(e, i, j);
  }

  /** Once the recorded epoch has passed a non-zero command epoch, no later state accepts it. */
  lemma SupersededStaysRefused(cfg: Config, t: Table, ops: seq<Op>, s: string, i: nat, j: nat, command: nat)
    requires Orderly(cfg, t, ops, s) && i <= j <= |ops|
    requires 0 < command < EpochAt(cfg, t, ops, s, i)
    ensures Verdict(After(cfg, t, ops[..j]), s, command) == Permission
  {
    EpochMonotone(cfg, t, ops, s, i, j);
  }

  /** The call takes authority over `s` away without the RTU's word: by force or by release timeout. */
  ghost predicate Revokes(cfg: Config, t: Table, op: Op, s: string)
    requires s in t
  {
    || (op.ForceRelease? && op.station == s)
    || (op.Process? && t[s].state == Releasing && TimedOut(cfg, t[s], op.now))
  }

  lemma RevocationRaisesEpoch(cfg: Config, t: Table, op: Op, s: string)
    requires s in t && Revokes(cfg, t, op, s) && !LowersEpoch(cfg, t, op, s) && t[s].epoch < EPOCHS
    ensures s in Apply(cfg, t, op).0 && Apply(cfg, t, op).0[s].epoch == t[s].epoch + 1
  {}

  /** After a revocation every command issued under the revoked or an earlier epoch stays refused. */
  lemma RevokedStaysRefused(cfg: Config, t: Table, ops: seq<Op>, s: string, i: nat, j: nat, command: nat)
    requires Orderly(cfg, t, ops, s) && i < j <= |ops| && s in After(cfg, t, ops[..i])
    requires Revokes(cfg, After(cfg, t, ops[..i]), ops[i], s)
    requires 0 < command <= After(cfg, t, ops[..i])[s].epoch < EPOCHS
    ensures Verdict(After(cfg, t, ops[..j]), s, command) == Permission
  {
    var before := After(cfg, t, ops[..i]);
    assert ops[..i + 1][..i] == ops[..i];
    assert OrderlyAt(cfg, t, ops, s, i);
    RevocationRaisesEpoch(cfg, before, ops[i], s);
    SupersededStaysRefused(cfg, t, ops, s, i + 1, j, command);
  }

  // ----- Where authority comes from -----

  /** `s` is in the given state from just after call `from` to the end of the run. */
  ghost predicate Throughout(cfg: Config, t: Table, ops: seq<Op>, s: string, from: nat, to: nat, state: State) {
    forall k :: from < k <= to <= |ops| ==>
      s in After(cfg, t, ops[..k]) && After(cfg, t, ops[..k])[s].state == state
  }

  lemma ThroughoutPrefix(cfg: Config, t: Table, ops: seq<Op>, n: nat, s: string, from: nat, to: nat, state: State)
    requires to <= n <= |ops| && Throughout(cfg, t, ops[..n], s, from, to, state)
    ensures Throughout(cfg, t, ops, s, from, to, state)
  {
    forall k | from < k <= to
      ensures s in After(cfg, t, ops[..k]) && After(cfg, t, ops[..k])[s].state == state
    {
      assert ops[..n][..k] == ops[..k];
    }
  }

  /** A pending handoff goes back to a request that has been pending ever since. */
  lemma {:induction false} PendingFromRequest(cfg: Config, ops: seq<Op>, s: string) returns (j: nat)
    requires s in After(cfg, map[], ops) && After(cfg, map[], ops)[s].state == HandoffPending
    ensures j < |ops| && ops[j].Request? && ops[j].station == s
    ensures Throughout(cfg, map[], ops, s, j, |ops|, HandoffPending)
    decreases |ops|
  {
    var n := |ops| - 1;
    var before := After(cfg, map[], ops[..n]);
    assert ops[..|ops|] == ops;
    if s in before && before[s].state == HandoffPending {
      j := PendingFromRequest(cfg, ops[..n], s);
      ThroughoutPrefix(cfg, map[], ops, n, s, j, n, HandoffPending);
    } else {
      j := n;
    }
  }

  lemma SupervisedByGrant(cfg: Config, t: Table, op: Op, s: string)
    requires s in Apply(cfg, t, op).0 && Apply(cfg, t, op).0[s].state == Supervised
    ensures s in t
    ensures t[s].state == Supervised ==> Apply(cfg, t, op).0[s].epoch == t[s].epoch
    ensures t[s].state != Supervised ==>
              op.Grant? && op.station == s && t[s].state == HandoffPending && Apply(cfg, t, op).0[s].epoch == op.epoch
  {}

  /** `s` is supervised under epoch `e` from just after call `from` to `to`. */
  ghost predicate UnderEpoch(cfg: Config, t: Table, ops: seq<Op>, s: string, from: nat, to: nat, e: nat) {
    forall k :: from < k <= to <= |ops| ==>
      s in After(cfg, t, ops[..k]) && After(cfg, t, ops[..k])[s].state == Supervised && After(cfg, t, ops[..k])[s].epoch == e
  }

  /** Call `j` requested and call `i` granted the authority that the controller has had ever since. */
  ghost predicate Origin(cfg: Config, ops: seq<Op>, s: string, j: nat, i: nat)
    ensures Origin(cfg, ops, s, j, i) ==> j < i < |ops| && ops[j].Request? && ops[i].Grant?
  {
    && j < i < |ops|
    && ops[j].Request? && ops[j].station == s && Throughout(cfg, map[], ops, s, j, i, HandoffPending)
    && ops[i].Grant? && ops[i].station == s && UnderEpoch(cfg, map[], ops, s, i, |ops|, ops[i].epoch)
  }

  /** Every supervised period starts with a grant that answers a pending request, and runs under
      the epoch that grant carried. */
  lemma {:induction false} SupervisedFromGrant(cfg: Config, ops: seq<Op>, s: string) returns (j: nat, i: nat)
    requires s in After(cfg, map[], ops) && After(cfg, map[], ops)[s].state == Supervised
    ensures Origin(cfg, ops, s, j, i)
    decreases |ops|
  {
    var n := |ops| - 1;
    var before := After(cfg, map[], ops[..n]);
    SupervisedByGrant(cfg, before, ops[n], s);
    if before[s].state == Supervised {
      j, i := SupervisedFromGrant(cfg, ops[..n], s);
      OriginStays(cfg, ops, s, j, i);
    } else {
      i := n;
      j := PendingBefore(cfg, ops, s);
      assert ops[..|ops|] == ops;
    }
  }

  lemma OriginStays(cfg: Config, ops: seq<Op>, s: string, j: nat, i: nat)
    requires ops != [] && Origin(cfg, ops[..|ops| - 1], s, j, i)
    requires s in After(cfg, map[], ops) && After(cfg, map[], ops)[s].state == Supervised
    ensures Origin(cfg, ops, s, j, i)
  {
    var n := |ops| - 1;
    var e := ops[i].epoch;
    ThroughoutPrefix(cfg, map[], ops, n, s, j, i, HandoffPending);
    forall k | i < k <= |ops|
      ensures s in After(cfg, map[], ops[..k]) && After(cfg, map[], ops[..k])[s].state == Supervised && After(cfg, map[], ops[..k])[s].epoch == e
    {
      assert ops[..n][..n] == ops[..n];
      if k <= n {
        assert ops[..n][..k] == ops[..k];
      } else {
        assert ops[..k] == ops;
        SupervisedByGrant(cfg, After(cfg, map[], ops[..n]), ops[n], s);
      }
    }
  }

  lemma PendingBefore(cfg: Config, ops: seq<Op>, s: string) returns (j: nat)
    requires ops != []
    requires var before := After(cfg, map[], ops[..|ops| - 1]); s in before && before[s].state == HandoffPending
    ensures j < |ops| - 1 && ops[j].Request? && ops[j].station == s
    ensures Throughout(cfg, map[], ops, s, j, |ops| - 1, HandoffPending)
  {
    var n := |ops| - 1;
    j := PendingFromRequest(cfg, ops[..n], s);
    ThroughoutPrefix(cfg, map[], ops, n, s, j, n, HandoffPending);
  }

  // ----- When the fence holds -----

  /** No command that was superseded after `i` calls is accepted after `j`. */
  ghost predicate FencedAt(cfg: Config, ops: seq<Op>, s: string, i: nat, j: nat)
    requires i <= |ops| && j <= |ops|
  {
    forall c: nat :: 0 < c < EpochAt(cfg, map[], ops, s, i) ==> Verdict(After(cfg, map[], ops[..j]), s, c) != Ok
  }

  /** No superseded non-zero command is accepted in any later state of the run. */
  ghost predicate Fenced(cfg: Config, ops: seq<Op>, s: string) {
    forall i: nat, j: nat :: i <= j <= |ops| ==> FencedAt(cfg, ops, s, i, j)
  }

  /** Call `g` is a grant that the controller takes. */
  ghost predicate Taken(cfg: Config, ops: seq<Op>, s: string, g: nat)
    requires g < |ops|
  {
    var before := After(cfg, map[], ops[..g]);
    ops[g].Grant? && ops[g].station == s && s in before && before[s].state == HandoffPending
  }

  function AtLeastOne(e: nat): nat {
    if e == 0 then 1 else e
  }

  ghost predicate NotBelow(cfg: Config, ops: seq<Op>, s: string, i: nat, g: nat)
    requires i <= g < |ops|
  {
    Taken(cfg, ops, s, g) ==> EpochAt(cfg, map[], ops, s, i) <= AtLeastOne(ops[g].epoch)
  }

  /** Every grant taken carries an epoch that no epoch recorded before it exceeds; 0 counts as 1. */
  ghost predicate GrantsRise(cfg: Config, ops: seq<Op>, s: string) {
    forall i: nat, g: nat :: i <= g < |ops| ==> NotBelow(cfg, ops, s, i, g)
  }

  lemma GrantTaken(cfg: Config, ops: seq<Op>, s: string, g: nat)
    requires g < |ops| && Taken(cfg, ops, s, g)
    ensures var t := After(cfg, map[], ops[..g + 1]); s in t && t[s].state == Supervised && t[s].epoch == ops[g].epoch
  {
    assert ops[..g + 1][..g] == ops[..g];
  }

  lemma LowGrantOpensFence(cfg: Config, ops: seq<Op>, s: string, i: nat, g: nat)
    requires i <= g < |ops| && Taken(cfg, ops, s, g) && EpochAt(cfg, map[], ops, s, i) > AtLeastOne(ops[g].epoch)
    ensures !FencedAt(cfg, ops, s, i, g + 1)
  {
    GrantTaken(cfg, ops, s, g);
    var c := AtLeastOne(ops[g].epoch);
    assert Verdict(After(cfg, map[], ops[..g + 1]), s, c) == Ok;
  }

  lemma RisingGrantsFence(cfg: Config, ops: seq<Op>, s: string, i: nat, j: nat, c: nat)
    requires GrantsRise(cfg, ops, s) && i <= j <= |ops| && 0 < c < EpochAt(cfg, map[], ops, s, i)
    ensures Verdict(After(cfg, map[], ops[..j]), s, c) != Ok
  {
    if Verdict(After(cfg, map[], ops[..j]), s, c) == Ok {
      var r, g := SupervisedFromGrant(cfg, ops[..j], s);
      EpochOfOrigin(cfg, ops, s, j, r, g, i);
    }
  }

  /** No epoch recorded up to `j` exceeds the one of the grant still in force at `j`. */
  lemma EpochOfOrigin(cfg: Config, ops: seq<Op>, s: string, j: nat, r: nat, g: nat, i: nat)
    requires GrantsRise(cfg, ops, s) && i <= j <= |ops| && Origin(cfg, ops[..j], s, r, g)
    ensures EpochAt(cfg, map[], ops, s, j) == ops[g].epoch
    ensures EpochAt(cfg, map[], ops, s, i) <= AtLeastOne(ops[g].epoch)
  {
    assert ops[..j][..j] == ops[..j];
    assert ops[..j][..g] == ops[..g];
    assert Taken(cfg, ops, s, g);
    if i <= g {
      assert NotBelow(cfg, ops, s, i, g);
    } else {
      assert ops[..j][..i] == ops[..i];
    }
  }

  /** Fencing over whole runs: superseded commands stay refused exactly when every grant taken rises. */
  lemma FencedIff(cfg: Config, ops: seq<Op>, s: string)
    ensures Fenced(cfg, ops, s) <==> GrantsRise(cfg, ops, s)
  {
    if GrantsRise(cfg, ops, s) {
      forall i: nat, j: nat | i <= j <= |ops| ensures FencedAt(cfg, ops, s, i, j) {
        forall c: nat | 0 < c < EpochAt(cfg, map[], ops, s, i)
          ensures Verdict(After(cfg, map[], ops[..j]), s, c) != Ok
        {
          RisingGrantsFence(cfg, ops, s, i, j, c);
        }
      }
    }
    if Fenced(cfg, ops, s) {
      forall i: nat, g: nat | i <= g < |ops| ensures NotBelow(cfg, ops, s, i, g) {
        if Taken(cfg, ops, s, g) && EpochAt(cfg, map[], ops, s, i) > AtLeastOne(ops[g].epoch) {
          LowGrantOpensFence(cfg, ops, s, i, g);
        }
      }
    }
  }

  // ----- The gap -----

  const RTU := "rtu"
  const SHORT := Config(5000, 10000)

  /** A grant with epoch 7 is revoked by force, and the next grant carries epoch 3. */
  const REVIVAL: seq<Op> := [Request(RTU, 0), Grant(RTU, 7, 0), ForceRelease(RTU), Request(RTU, 0), Grant(RTU, 3, 0)]

  lemma AfterNext(cfg: Config, ops: seq<Op>, k: nat)
    requires k < |ops|
    ensures After(cfg, map[], ops[..k + 1]) == Apply(cfg, After(cfg, map[], ops[..k]), ops[k]).0
  {
    assert ops[..k + 1][..k] == ops[..k];
  }

  /** The state and epoch of the station after the first two calls of that run. */
  lemma RevivalFirst()
    ensures var t := After(SHORT, map[], REVIVAL[..2]); RTU in t && t[RTU].state == Supervised && t[RTU].epoch == 7
  {
    assert REVIVAL[..0] == [];
    AfterNext(SHORT, REVIVAL, 0);
    var t1 := After(SHORT, map[], REVIVAL[..1]);
    assert RTU in t1 && t1[RTU].state == HandoffPending;
    AfterNext(SHORT, REVIVAL, 1);
  }

  /** And after all of them. */
  lemma RevivalSteps()
    ensures var t := After(SHORT, map[], REVIVAL[..2]); RTU in t && t[RTU].state == Supervised && t[RTU].epoch == 7
    ensures var t := After(SHORT, map[], REVIVAL[..5]); RTU in t && t[RTU].state == Supervised && t[RTU].epoch == 3
  {
    RevivalFirst();
    AfterNext(SHORT, REVIVAL, 2);
    var t3 := After(SHORT, map[], REVIVAL[..3]);
    assert RTU in t3 && t3[RTU].state == Autonomous;
    AfterNext(SHORT, REVIVAL, 3);
    var t4 := After(SHORT, map[], REVIVAL[..4]);
    assert RTU in t4 && t4[RTU].state == HandoffPending;
    AfterNext(SHORT, REVIVAL, 4);
  }

  /** In that run command epoch 5 is refused after the first grant and accepted after the second. */
  lemma LowerGrantRevivesCommand()
    ensures Verdict(After(SHORT, map[], REVIVAL[..2]), RTU, 5) == Permission
    ensures Verdict(After(SHORT, map[], REVIVAL[..5]), RTU, 5) == Ok
    ensures !Fenced(SHORT, REVIVAL, RTU)
  {
    RevivalSteps();
    var command: nat := 5;
    assert 0 < command < EpochAt(SHORT, map[], REVIVAL, RTU, 2);
    assert Verdict(After(SHORT, map[], REVIVAL[..5]), RTU, command) == Ok;
    assert !FencedAt(SHORT, REVIVAL, RTU, 2, 5);
  }
}
