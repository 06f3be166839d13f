/** The state of a station after a run of calls, in terms of the calls alone: which one put it there, and that none
    since has taken it out. */
module AuthorityRuns {
  import opened Status
  import opened Authority

  /** Call `k` takes one table to the next. */
  ghost predicate Moves(cfg: Config, ops: seq<Op>, ts: seq<Table>, k: nat)
    requires k < |ops| && |ts| == |ops| + 1
    ensures Moves(cfg, ops, ts, k) ==> ts[k].Keys <= ts[k + 1].Keys
  {
    ts[k + 1] == Apply(cfg, ts[k], ops[k]).0
  }

  /** The tables before and after each call of a run from the empty table. */
  ghost predicate Trace(cfg: Config, ops: seq<Op>, ts: seq<Table>)
    ensures Trace(cfg, ops, ts) ==> |ts| == |ops| + 1 && ts[0] == map[]
  {
    |ts| == |ops| + 1 && ts[0] == map[] && forall k: nat | k < |ops| :: Moves(cfg, ops, ts, k)
  }

  ghost function Tables(cfg: Config, ops: seq<Op>): seq<Table> {
    seq(|ops| + 1, k requires 0 <= k <= |ops| => After(cfg, map[], ops[..k]))
  }

  lemma RunIsTrace(cfg: Config, ops: seq<Op>)
    ensures Trace(cfg, ops, Tables(cfg, ops))
  {
    assert ops[..0] == [];
    forall k: nat | k < |ops| ensures Moves(cfg, ops, Tables(cfg, ops), k) {
      AfterNext(cfg, ops, k);
    }
  }

  lemma TableNext(cfg: Config, ops: seq<Op>, ts: seq<Table>, k: nat)
    requires Trace(cfg, ops, ts) && k < |ops|
    ensures ts[k + 1] == Apply(cfg, ts[k], ops[k]).0
  {
    assert Moves(cfg, ops, ts, k);
  }

  /** What holds at `from` and is kept by every call holds at `to`. */
  lemma {:induction false} Along(p: nat -> bool, from: nat, to: nat)
    requires from <= to && p(from) && forall k: nat | from <= k < to && p(k) :: p(k + 1)
    ensures p(to)
  {
    if from < to {
      Along(p, from, to - 1);
    }
  }

  ghost predicate In(ts: seq<Table>, s: string, k: nat, state: State)
    requires k < |ts|
    ensures In(ts, s, k, state) ==> s in ts[k]
  {
    s in ts[k] && ts[k][s].state == state
  }

  predicate About(op: Op, s: string) {
    !op.Process? && op.station == s
  }

  /** A scan more than the handoff timeout after `since`, on the unsigned 64-bit clock. */
  predicate LateScan(cfg: Config, op: Op, since: nat) {
    op.Process? && (op.now - since) % 0x1_0000_0000_0000_0000 > cfg.handoffTimeout
  }

  // ----- An open handoff -----

  /** Call `q` requests authority over a station that is neither supervised nor pending, and there is room for it. */
  ghost predicate Opens(cfg: Config, ops: seq<Op>, ts: seq<Table>, s: string, q: nat)
    requires |ts| == |ops| + 1 && q < |ops|
  {
    && ops[q].Request? && ops[q].station == s
    && !In(ts, s, q, Supervised) && !In(ts, s, q, HandoffPending)
    && (s in ts[q] || |ts[q]| < 256)
  }

  predicate ClosesHandoff(cfg: Config, op: Op, s: string, since: nat) {
    LateScan(cfg, op, since) || (About(op, s) && (op.Grant? || op.Released? || op.ForceRelease?))
  }

  /** Call `q` opened a handoff that no call before `j` has closed. */
  ghost predicate HandoffOpen(cfg: Config, ops: seq<Op>, ts: seq<Table>, s: string, q: nat, j: nat)
    requires |ts| == |ops| + 1
    ensures HandoffOpen(cfg, ops, ts, s, q, j) ==> q < j <= |ops|
  {
    && q < j <= |ops| && Opens(cfg, ops, ts, s, q)
    && forall k | q < k < j :: !ClosesHandoff(cfg, ops[k], s, ops[q].now)
  }

  /** Pending since a request made at `since`. */
  ghost predicate PendingSince(t: Table, s: string, since: nat)
    ensures PendingSince(t, s, since) ==> s in t
  {
    s in t && t[s].state == HandoffPending && t[s].requestTime == since
  }

  lemma OpeningStep(cfg: Config, ops: seq<Op>, ts: seq<Table>, s: string, q: nat)
    requires Trace(cfg, ops, ts) && q < |ops| && Opens(cfg, ops, ts, s, q)
    ensures PendingSince(ts[q + 1], s, ops[q].now)
  {
    TableNext(cfg, ops, ts, q);
  }

  lemma PendingStep(cfg: Config, t: Table, op: Op, s: string, since: nat)
    requires PendingSince(t, s, since)
    ensures PendingSince(Apply(cfg, t, op).0, s, since) <==> !ClosesHandoff(cfg, op, s, since)
  {
  }

  lemma PendingNext(cfg: Config, ops: seq<Op>, ts: seq<Table>, s: string, k: nat, since: nat)
    requires Trace(cfg, ops, ts) && k < |ops| && PendingSince(ts[k], s, since)
    ensures PendingSince(ts[k + 1], s, since) <==> !ClosesHandoff(cfg, ops[k], s, since)
  {
    TableNext(cfg, ops, ts, k);
    PendingStep(cfg, ts[k], ops[k], s, since);
  }

  lemma HandoffStays(cfg: Config, ops: seq<Op>, ts: seq<Table>, s: string, q: nat, j: nat, k: nat)
    requires Trace(cfg, ops, ts) && HandoffOpen(cfg, ops, ts, s, q, j) && q < k < j && PendingSince(ts[k], s, ops[q].now)
    ensures PendingSince(ts[k + 1], s, ops[q].now)
  {
    assert !ClosesHandoff(cfg, ops[k], s, ops[q].now);
    PendingNext(cfg, ops, ts, s, k, ops[q].now);
  }

  lemma HandoffIsPending(cfg: Config, ops: seq<Op>, ts: seq<Table>, s: string, q: nat, j: nat)
    requires Trace(cfg, ops, ts) && HandoffOpen(cfg, ops, ts, s, q, j)
    ensures PendingSince(ts[j], s, ops[q].now)
  {
    ghost var p := (k: nat) => k < |ts| && PendingSince(ts[k], s, ops[q].now);
    OpeningStep(cfg, ops, ts, s, q);
    forall k: nat | q + 1 <= k < j && p(k) ensures p(k + 1) {
      HandoffStays(cfg, ops, ts, s, q, j, k);
    }
    Along(p, q + 1, j);
  }

  /** A call that makes a station pending opens a handoff. */
  lemma PendingIsOpened(cfg: Config, ops: seq<Op>, ts: seq<Table>, s: string, q: nat)
    requires Trace(cfg, ops, ts) && q < |ops| && !In(ts, s, q, HandoffPending) && In(ts, s, q + 1, HandoffPending)
    ensures Opens(cfg, ops, ts, s, q)
  {
    TableNext(cfg, ops, ts, q);
  }

  lemma StaysPending(cfg: Config, t: Table, op: Op, s: string)
    requires s in t && t[s].state == HandoffPending
    requires s in Apply(cfg, t, op).0 && Apply(cfg, t, op).0[s].state == HandoffPending
    ensures Apply(cfg, t, op).0[s].requestTime == t[s].requestTime
  {
  }

  lemma StillPending(cfg: Config, ops: seq<Op>, ts: seq<Table>, s: string, k: nat)
    requires Trace(cfg, ops, ts) && k < |ops| && In(ts, s, k, HandoffPending) && In(ts, s, k + 1, HandoffPending)
    ensures ts[k + 1][s].requestTime == ts[k][s].requestTime
  {
    TableNext(cfg, ops, ts, k);
    StaysPending(cfg, ts[k], ops[k], s);
  }

  lemma {:induction false} PendingFrom(cfg: Config, ops: seq<Op>, ts: seq<Table>, s: string, j: nat) returns (q: nat)
    requires Trace(cfg, ops, ts) && j <= |ops| && In(ts, s, j, HandoffPending)
    ensures HandoffOpen(cfg, ops, ts, s, q, j)
    decreases j
  {
    var n := j - 1;
    if In(ts, s, n, HandoffPending) {
      q := PendingFrom(cfg, ops, ts, s, n);
      HandoffIsPending(cfg, ops, ts, s, q, n);
      StillPending(cfg, ops, ts, s, n);
      PendingNext(cfg, ops, ts, s, n, ops[q].now);
    } else {
      q := n;
      PendingIsOpened(cfg, ops, ts, s, n);
    }
  }

  /** A handoff is pending exactly when a request opened it and nothing has closed it since. */
  lemma PendingIff(cfg: Config, ops: seq<Op>, ts: seq<Table>, s: string, j: nat)
    requires Trace(cfg, ops, ts) && j <= |ops|
    ensures In(ts, s, j, HandoffPending) <==> exists q: nat :: HandoffOpen(cfg, ops, ts, s, q, j)
  {
    if In(ts, s, j, HandoffPending) {
      var q := PendingFrom(cfg, ops, ts, s, j);
    }
    if q: nat :| HandoffOpen(cfg, ops, ts, s, q, j) {
      HandoffIsPending(cfg, ops, ts, s, q, j);
    }
  }

  // ----- A grant in force -----

  /** Call `g` is a grant that answers an open handoff. */
  ghost predicate Answers(cfg: Config, ops: seq<Op>, ts: seq<Table>, s: string, g: nat)
    requires |ts| == |ops| + 1 && g < |ops|
  {
    ops[g].Grant? && ops[g].station == s && exists q: nat :: HandoffOpen(cfg, ops, ts, s, q, g)
  }

  /** The call gives authority over the station back or takes it away. */
  predicate EndsSupervision(op: Op, s: string) {
    About(op, s) && (op.Release? || op.Released? || op.ForceRelease?)
  }

  /** Call `g` granted authority that no call before `j` has ended. */
  ghost predicate InForce(cfg: Config, ops: seq<Op>, ts: seq<Table>, s: string, g: nat, j: nat)
    requires |ts| == |ops| + 1
    ensures InForce(cfg, ops, ts, s, g, j) ==> g < j <= |ops| && ops[g].Grant?
  {
    && g < j <= |ops| && Answers(cfg, ops, ts, s, g)
    && forall k | g < k < j :: !EndsSupervision(ops[k], s)
  }

  ghost predicate SupervisedUnder(t: Table, s: string, epoch: nat)
    ensures SupervisedUnder(t, s, epoch) ==> s in t
  {
    s in t && t[s].state == Supervised && t[s].epoch == epoch
  }

  lemma SupervisedStep(cfg: Config, t: Table, op: Op, s: string, epoch: nat)
    requires SupervisedUnder(t, s, epoch)
    ensures SupervisedUnder(Apply(cfg, t, op).0, s, epoch) <==> !EndsSupervision(op, s)
    ensures EndsSupervision(op, s) ==> Apply(cfg, t, op).0[s].state != Supervised
  {
  }

  lemma GrantStep(cfg: Config, ops: seq<Op>, ts: seq<Table>, s: string, g: nat)
    requires Trace(cfg, ops, ts) && g < |ops| && Answers(cfg, ops, ts, s, g)
    ensures SupervisedUnder(ts[g + 1], s, ops[g].epoch)
  {
    var q: nat :| HandoffOpen(cfg, ops, ts, s, q, g);
    HandoffIsPending(cfg, ops, ts, s, q, g);
    TableNext(cfg, ops, ts, g);
  }

  lemma SupervisedNext(cfg: Config, ops: seq<Op>, ts: seq<Table>, s: string, k: nat, epoch: nat)
    requires Trace(cfg, ops, ts) && k < |ops| && SupervisedUnder(ts[k], s, epoch)
    ensures SupervisedUnder(ts[k + 1], s, epoch) <==> !EndsSupervision(ops[k], s)
    ensures EndsSupervision(ops[k], s) ==> !In(ts, s, k + 1, Supervised)
  {
    TableNext(cfg, ops, ts, k);
    SupervisedStep(cfg, ts[k], ops[k], s, epoch);
  }

  lemma GrantStays(cfg: Config, ops: seq<Op>, ts: seq<Table>, s: string, g: nat, j: nat, k: nat)
    requires Trace(cfg, ops, ts) && InForce(cfg, ops, ts, s, g, j) && g < k < j && SupervisedUnder(ts[k], s, ops[g].epoch)
    ensures SupervisedUnder(ts[k + 1], s, ops[g].epoch)
  {
    assert !EndsSupervision(ops[k], s);
    SupervisedNext(cfg, ops, ts, s, k, ops[g].epoch);
  }

  lemma GrantIsSupervised(cfg: Config, ops: seq<Op>, ts: seq<Table>, s: string, g: nat, j: nat)
    requires Trace(cfg, ops, ts) && InForce(cfg, ops, ts, s, g, j)
    ensures SupervisedUnder(ts[j], s, ops[g].epoch)
  {
    ghost var p := (k: nat) => k < |ts| && SupervisedUnder(ts[k], s, ops[g].epoch);
    GrantStep(cfg, ops, ts, s, g);
    forall k: nat | g + 1 <= k < j && p(k) ensures p(k + 1) {
      GrantStays(cfg, ops, ts, s, g, j, k);
    }
    Along(p, g + 1, j);
  }

  lemma SupervisedBegins(cfg: Config, ops: seq<Op>, ts: seq<Table>, s: string, k: nat)
    requires Trace(cfg, ops, ts) && k < |ops| && !In(ts, s, k, Supervised) && In(ts, s, k + 1, Supervised)
    ensures ops[k].Grant? && ops[k].station == s && In(ts, s, k, HandoffPending)
  {
    TableNext(cfg, ops, ts, k);
    SupervisedByGrant(cfg, ts[k], ops[k], s);
  }

  lemma {:induction false} SupervisedFrom(cfg: Config, ops: seq<Op>, ts: seq<Table>, s: string, j: nat) returns (g: nat)
    requires Trace(cfg, ops, ts) && j <= |ops| && In(ts, s, j, Supervised)
    ensures InForce(cfg, ops, ts, s, g, j)
    decreases j
  {
    var n := j - 1;
    if In(ts, s, n, Supervised) {
      g := SupervisedFrom(cfg, ops, ts, s, n);
      GrantIsSupervised(cfg, ops, ts, s, g, n);
      SupervisedNext(cfg, ops, ts, s, n, ops[g].epoch);
    } else {
      g := n;
      SupervisedBegins(cfg, ops, ts, s, n);
      PendingIff(cfg, ops, ts, s, n);
    }
  }

  /** A station is supervised exactly while a grant that answered an open handoff is in force. */
  lemma SupervisedIff(cfg: Config, ops: seq<Op>, ts: seq<Table>, s: string, j: nat)
    requires Trace(cfg, ops, ts) && j <= |ops|
    ensures In(ts, s, j, Supervised) <==> exists g: nat :: InForce(cfg, ops, ts, s, g, j)
  {
    if In(ts, s, j, Supervised) {
      var g := SupervisedFrom(cfg, ops, ts, s, j);
    }
    if g: nat :| InForce(cfg, ops, ts, s, g, j) {
      GrantIsSupervised(cfg, ops, ts, s, g, j);
    }
  }

  /** The grant in force admits the command: epoch 0 always, others from the granted epoch on. */
  ghost predicate Admits(cfg: Config, ops: seq<Op>, ts: seq<Table>, s: string, g: nat, j: nat, command: nat)
    requires |ts| == |ops| + 1
    ensures Admits(cfg, ops, ts, s, g, j, command) ==> InForce(cfg, ops, ts, s, g, j)
  {
    InForce(cfg, ops, ts, s, g, j) && (command == 0 || command >= ops[g].epoch)
  }

  /**
   * Exactly which commands are accepted after a run: those that a grant still in force admits, where a grant
   * counts if it answered an open handoff, and is in force until a release, released message or forced release.
   */
  lemma CommandAcceptedIff(cfg: Config, ops: seq<Op>, ts: seq<Table>, s: string, j: nat, command: nat)
    requires Trace(cfg, ops, ts) && j <= |ops|
    ensures Verdict(ts[j], s, command) == Ok <==> exists g: nat :: Admits(cfg, ops, ts, s, g, j, command)
  {
    if Verdict(ts[j], s, command) == Ok {
      var g := SupervisedFrom(cfg, ops, ts, s, j);
      GrantIsSupervised(cfg, ops, ts, s, g, j);
      assert Admits(cfg, ops, ts, s, g, j, command);
    }
    if g: nat :| Admits(cfg, ops, ts, s, g, j, command) {
      GrantIsSupervised(cfg, ops, ts, s, g, j);
    }
  }

  /** Once authority has been given back or taken away, no command passes before the next grant that is taken. */
  lemma NoCommandAfterRelease(cfg: Config, ops: seq<Op>, ts: seq<Table>, s: string, k: nat, j: nat, command: nat) returns (g: nat)
    requires Trace(cfg, ops, ts) && k < j <= |ops| && EndsSupervision(ops[k], s) && Verdict(ts[j], s, command) == Ok
    ensures k < g < j && Answers(cfg, ops, ts, s, g)
  {
    CommandAcceptedIff(cfg, ops, ts, s, j, command);
    g :| Admits(cfg, ops, ts, s, g, j, command);
  }

  // ----- An open release -----

  predicate ClosesRelease(cfg: Config, op: Op, s: string, since: nat) {
    LateScan(cfg, op, since) || (About(op, s) && (op.Request? || op.Released? || op.ForceRelease?))
  }

  /** Call `q` releases authority that was in force, and no call before `j` has completed or cancelled it. */
  ghost predicate ReleaseOpen(cfg: Config, ops: seq<Op>, ts: seq<Table>, s: string, q: nat, j: nat)
    requires |ts| == |ops| + 1
    ensures ReleaseOpen(cfg, ops, ts, s, q, j) ==> q < j <= |ops| && ops[q].Release?
  {
    && q < j <= |ops| && ops[q].Release? && ops[q].station == s && (exists g: nat :: InForce(cfg, ops, ts, s, g, q))
    && forall k | q < k < j :: !ClosesRelease(cfg, ops[k], s, ops[q].now)
  }

  ghost predicate ReleasingSince(t: Table, s: string, since: nat)
    ensures ReleasingSince(t, s, since) ==> s in t
  {
    s in t && t[s].state == Releasing && t[s].requestTime == since
  }

  lemma ReleasingStep(cfg: Config, t: Table, op: Op, s: string, since: nat)
    requires ReleasingSince(t, s, since)
    ensures ReleasingSince(Apply(cfg, t, op).0, s, since) <==> !ClosesRelease(cfg, op, s, since)
    ensures ClosesRelease(cfg, op, s, since) ==> Apply(cfg, t, op).0[s].state != Releasing
  {
  }

  lemma ReleasingNext(cfg: Config, ops: seq<Op>, ts: seq<Table>, s: string, k: nat, since: nat)
    requires Trace(cfg, ops, ts) && k < |ops| && ReleasingSince(ts[k], s, since)
    ensures ReleasingSince(ts[k + 1], s, since) <==> !ClosesRelease(cfg, ops[k], s, since)
    ensures ClosesRelease(cfg, ops[k], s, since) ==> !In(ts, s, k + 1, Releasing)
  {
    TableNext(cfg, ops, ts, k);
    ReleasingStep(cfg, ts[k], ops[k], s, since);
  }

  lemma ReleaseStep(cfg: Config, ops: seq<Op>, ts: seq<Table>, s: string, q: nat)
    requires Trace(cfg, ops, ts) && q < |ops| && ops[q].Release? && ops[q].station == s && In(ts, s, q, Supervised)
    ensures ReleasingSince(ts[q + 1], s, ops[q].now)
  {
    TableNext(cfg, ops, ts, q);
  }

  lemma ReleaseOpened(cfg: Config, ops: seq<Op>, ts: seq<Table>, s: string, q: nat, j: nat)
    requires Trace(cfg, ops, ts) && ReleaseOpen(cfg, ops, ts, s, q, j)
    ensures ReleasingSince(ts[q + 1], s, ops[q].now)
  {
    SupervisedIff(cfg, ops, ts, s, q);
    ReleaseStep(cfg, ops, ts, s, q);
  }

  lemma ReleaseStays(cfg: Config, ops: seq<Op>, ts: seq<Table>, s: string, q: nat, j: nat, k: nat)
    requires Trace(cfg, ops, ts) && ReleaseOpen(cfg, ops, ts, s, q, j) && q < k < j && ReleasingSince(ts[k], s, ops[q].now)
    ensures ReleasingSince(ts[k + 1], s, ops[q].now)
  {
    assert !ClosesRelease(cfg, ops[k], s, ops[q].now);
    ReleasingNext(cfg, ops, ts, s, k, ops[q].now);
  }

  lemma ReleaseIsReleasing(cfg: Config, ops: seq<Op>, ts: seq<Table>, s: string, q: nat, j: nat)
    requires Trace(cfg, ops, ts) && ReleaseOpen(cfg, ops, ts, s, q, j)
    ensures ReleasingSince(ts[j], s, ops[q].now)
  {
    ghost var p := (k: nat) => k < |ts| && ReleasingSince(ts[k], s, ops[q].now);
    ReleaseOpened(cfg, ops, ts, s, q, j);
    forall k: nat | q + 1 <= k < j && p(k) ensures p(k + 1) {
      ReleaseStays(cfg, ops, ts, s, q, j, k);
    }
    Along(p, q + 1, j);
  }

  lemma ReleasingBegins(cfg: Config, ops: seq<Op>, ts: seq<Table>, s: string, k: nat)
    requires Trace(cfg, ops, ts) && k < |ops| && !In(ts, s, k, Releasing) && In(ts, s, k + 1, Releasing)
    ensures ops[k].Release? && ops[k].station == s && In(ts, s, k, Supervised)
  {
    TableNext(cfg, ops, ts, k);
    ReleasingByRelease(cfg, ts[k], ops[k], s);
  }

  lemma ReleasingByRelease(cfg: Config, t: Table, op: Op, s: string)
    requires s in Apply(cfg, t, op).0 && Apply(cfg, t, op).0[s].state == Releasing
    ensures s in t && (t[s].state != Releasing ==> t[s].state == Supervised && op.Release? && op.station == s)
  {
  }

  lemma {:induction false} ReleasingFrom(cfg: Config, ops: seq<Op>, ts: seq<Table>, s: string, j: nat) returns (q: nat)
    requires Trace(cfg, ops, ts) && j <= |ops| && In(ts, s, j, Releasing)
    ensures ReleaseOpen(cfg, ops, ts, s, q, j)
    decreases j
  {
    var n := j - 1;
    if In(ts, s, n, Releasing) {
      q := ReleasingFrom(cfg, ops, ts, s, n);
      ReleaseIsReleasing(cfg, ops, ts, s, q, n);
      ReleasingNext(cfg, ops, ts, s, n, ops[q].now);
    } else {
      q := n;
      ReleasingBegins(cfg, ops, ts, s, n);
      SupervisedIff(cfg, ops, ts, s, n);
    }
  }

  /** A station is being released exactly while a release of authority in force is neither completed nor cancelled. */
  lemma ReleasingIff(cfg: Config, ops: seq<Op>, ts: seq<Table>, s: string, j: nat)
    requires Trace(cfg, ops, ts) && j <= |ops|
    ensures In(ts, s, j, Releasing) <==> exists q: nat :: ReleaseOpen(cfg, ops, ts, s, q, j)
  {
    if In(ts, s, j, Releasing) {
      var q := ReleasingFrom(cfg, ops, ts, s, j);
    }
    if q: nat :| ReleaseOpen(cfg, ops, ts, s, q, j) {
      ReleaseIsReleasing(cfg, ops, ts, s, q, j);
    }
  }

  // ----- Timeouts -----

  /** A scan more than the timeout after the request of an open handoff makes the station autonomous. */
  lemma HandoffTimesOut(cfg: Config, ops: seq<Op>, ts: seq<Table>, s: string, q: nat, j: nat)
    requires Trace(cfg, ops, ts) && HandoffOpen(cfg, ops, ts, s, q, j) && j < |ops| && ops[j].Process?
    requires (ops[j].now - ops[q].now) % 0x1_0000_0000_0000_0000 > cfg.handoffTimeout
    ensures In(ts, s, j + 1, Autonomous) && s in ts[j]
    ensures ts[j + 1][s].epoch == ts[j][s].epoch
    ensures !ts[j + 1][s].controllerOnline
  {
    HandoffIsPending(cfg, ops, ts, s, q, j);
    LateHandoffNext(cfg, ops, ts, s, j, ops[q].now);
  }

  lemma LateHandoffNext(cfg: Config, ops: seq<Op>, ts: seq<Table>, s: string, j: nat, since: nat)
    requires Trace(cfg, ops, ts) && j < |ops| && PendingSince(ts[j], s, since) && LateScan(cfg, ops[j], since)
    ensures s in ts[j + 1]
    ensures ts[j + 1][s] == ts[j][s].(state := Autonomous, controllerOnline := false)
  {
    TableNext(cfg, ops, ts, j);
    LateHandoff(cfg, ts[j], ops[j].now, s, since);
  }

  lemma LateReleaseNext(cfg: Config, ops: seq<Op>, ts: seq<Table>, s: string, j: nat, since: nat)
    requires Trace(cfg, ops, ts) && j < |ops| && ReleasingSince(ts[j], s, since) && LateScan(cfg, ops[j], since)
    ensures s in ts[j + 1]
    ensures ts[j + 1][s]
         == ts[j][s].(state := Autonomous, epoch := (ts[j][s].epoch + 1) % 0x1_0000_0000)
  {
    TableNext(cfg, ops, ts, j);
    LateRelease(cfg, ts[j], ops[j].now, s, since);
  }

  lemma LateHandoff(cfg: Config, t: Table, now: nat, s: string, since: nat)
    requires PendingSince(t, s, since) && LateScan(cfg, Process(now), since)
    ensures Apply(cfg, t, Process(now)).0[s] == t[s].(state := Autonomous, controllerOnline := false)
  {
  }

  lemma LateRelease(cfg: Config, t: Table, now: nat, s: string, since: nat)
    requires ReleasingSince(t, s, since) && LateScan(cfg, Process(now), since)
    ensures Apply(cfg, t, Process(now)).0[s] == t[s].(state := Autonomous, epoch := (t[s].epoch + 1) % 0x1_0000_0000)
  {
  }

  /** So does one after an open release, and the epoch moves on by one in 32 bits. */
  lemma ReleaseTimesOut(cfg: Config, ops: seq<Op>, ts: seq<Table>, s: string, q: nat, j: nat)
    requires Trace(cfg, ops, ts) && ReleaseOpen(cfg, ops, ts, s, q, j) && j < |ops| && ops[j].Process?
    requires (ops[j].now - ops[q].now) % 0x1_0000_0000_0000_0000 > cfg.handoffTimeout
    ensures In(ts, s, j + 1, Autonomous) && s in ts[j]
    ensures ts[j + 1][s].epoch == (ts[j][s].epoch + 1) % 0x1_0000_0000
  {
    ReleaseIsReleasing(cfg, ops, ts, s, q, j);
    LateReleaseNext(cfg, ops, ts, s, j, ops[q].now);
  }

  // ----- Known stations -----

  /** A station is known exactly when some request for it found room. */
  lemma {:induction false} KnownIff(cfg: Config, ops: seq<Op>, ts: seq<Table>, s: string, j: nat)
    requires Trace(cfg, ops, ts) && j <= |ops|
    ensures s in ts[j] <==> exists q: nat | q < j :: Requests(cfg, ops, ts, s, q)
    decreases j
  {
    if j > 0 {
      var n := j - 1;
      KnownIff(cfg, ops, ts, s, n);
      TableNext(cfg, ops, ts, n);
      KnownNext(cfg, ts[n], ops[n], s);
      assert Requests(cfg, ops, ts, s, n) ==> s in ts[j];
    }
  }

  /** Call `q` requests authority over the station, which is known or finds room among 256. */
  ghost predicate Requests(cfg: Config, ops: seq<Op>, ts: seq<Table>, s: string, q: nat)
    requires |ts| == |ops| + 1 && q < |ops|
    ensures Requests(cfg, ops, ts, s, q) ==> ops[q].Request? && ops[q].station == s
  {
    ops[q].Request? && ops[q].station == s && (s in ts[q] || |ts[q]| < 256)
  }

  lemma KnownNext(cfg: Config, t: Table, op: Op, s: string)
    ensures s in Apply(cfg, t, op).0 <==> s in t || (op.Request? && op.station == s && |t| < 256)
  {
  }

  // ----- The answers -----

  /** What every call of a run answers, in terms of the calls before it. */
  ghost function AnswerTo(cfg: Config, ops: seq<Op>, ts: seq<Table>, k: nat): Code
    requires |ts| == |ops| + 1 && k < |ops|
  {
    match ops[k]
    case Request(s, _) =>
      if exists g: nat :: InForce(cfg, ops, ts, s, g, k) then Ok
      else if exists q: nat :: HandoffOpen(cfg, ops, ts, s, q, k) then Busy
      else if s in ts[k] || |ts[k]| < 256 then Ok
      else Full
    case Release(s, _) =>
      if s !in ts[k] then NotFound else if exists g: nat :: InForce(cfg, ops, ts, s, g, k) then Ok else Permission
    case Grant(s, _, _) =>
      if s !in ts[k] then NotFound else if exists q: nat :: HandoffOpen(cfg, ops, ts, s, q, k) then Ok else Protocol
    case Released(s, _) => if s in ts[k] then Ok else NotFound
    case ForceRelease(s) => if s in ts[k] then Ok else NotFound
    case Process(_) => Ok
  }

  lemma CallAnswers(cfg: Config, ops: seq<Op>, ts: seq<Table>, k: nat)
    requires Trace(cfg, ops, ts) && k < |ops|
    ensures Apply(cfg, ts[k], ops[k]).1 == AnswerTo(cfg, ops, ts, k)
  {
    if !ops[k].Process? {
      var s := ops[k].station;
      SupervisedIff(cfg, ops, ts, s, k);
      PendingIff(cfg, ops, ts, s, k);
    }
  }

  // ----- The epoch -----

  /** The epoch recorded for a known station, from the calls: that of the last grant taken or released message, and
      one more, in 32 bits, for every forced release and every release that timed out since; 1 to begin with. */
  ghost predicate EpochFollows(cfg: Config, ops: seq<Op>, ts: seq<Table>, s: string, k: nat)
    requires |ts| == |ops| + 1 && k < |ops|
  {
    s in ts[k + 1] ==>
      ts[k + 1][s].epoch ==
        if s !in ts[k] then 1
        else if Answers(cfg, ops, ts, s, k) || (ops[k].Released? && ops[k].station == s) then ops[k].epoch
        else if ops[k].ForceRelease? && ops[k].station == s then (ts[k][s].epoch + 1) % 0x1_0000_0000
        else if exists q: nat :: ReleaseOpen(cfg, ops, ts, s, q, k) && LateScan(cfg, ops[k], ops[q].now)
        then (ts[k][s].epoch + 1) % 0x1_0000_0000
        else ts[k][s].epoch
  }

  lemma EpochOverRuns(cfg: Config, ops: seq<Op>, ts: seq<Table>, s: string, k: nat)
    requires Trace(cfg, ops, ts) && k < |ops|
    ensures EpochFollows(cfg, ops, ts, s, k)
  {
    TableNext(cfg, ops, ts, k);
    PendingIff(cfg, ops, ts, s, k);
    if In(ts, s, k, Releasing) {
      var q := ReleasingFrom(cfg, ops, ts, s, k);
      ReleaseIsReleasing(cfg, ops, ts, s, q, k);
      EpochOfReleasing(cfg, ts[k], ops[k], s, ops[q].now);
      SameRelease(cfg, ops, ts, s, q, k);
    } else if s in ts[k + 1] {
      NoRelease(cfg, ops, ts, s, k);
      EpochOfOther(cfg, ts[k], ops[k], s);
    }
  }

  lemma NoRelease(cfg: Config, ops: seq<Op>, ts: seq<Table>, s: string, k: nat)
    requires Trace(cfg, ops, ts) && k < |ops| && !In(ts, s, k, Releasing)
    ensures !exists q: nat :: ReleaseOpen(cfg, ops, ts, s, q, k) && LateScan(cfg, ops[k], ops[q].now)
  {
    ReleasingIff(cfg, ops, ts, s, k);
  }

  lemma SameRelease(cfg: Config, ops: seq<Op>, ts: seq<Table>, s: string, q: nat, k: nat)
    requires Trace(cfg, ops, ts) && k < |ops| && ReleaseOpen(cfg, ops, ts, s, q, k)
    ensures (exists p: nat :: ReleaseOpen(cfg, ops, ts, s, p, k) && LateScan(cfg, ops[k], ops[p].now)) <==>
            LateScan(cfg, ops[k], ops[q].now)
  {
    ReleaseIsReleasing(cfg, ops, ts, s, q, k);
    forall p: nat | ReleaseOpen(cfg, ops, ts, s, p, k) ensures ops[p].now == ops[q].now {
      ReleaseIsReleasing(cfg, ops, ts, s, p, k);
    }
  }

  lemma EpochOfReleasing(cfg: Config, t: Table, op: Op, s: string, since: nat)
    requires ReleasingSince(t, s, since)
    ensures var u := Apply(cfg, t, op).0;
            u[s].epoch == if op.Released? && op.station == s then op.epoch
                          else if (op.ForceRelease? && op.station == s) || LateScan(cfg, op, since)
                          then (t[s].epoch + 1) % 0x1_0000_0000
                          else t[s].epoch
  {
  }

  lemma EpochOfOther(cfg: Config, t: Table, op: Op, s: string)
    requires s in Apply(cfg, t, op).0 && (s in t ==> t[s].state != Releasing)
    ensures Apply(cfg, t, op).0[s].epoch ==
            if s !in t then 1
            else if (op.Grant? && op.station == s && t[s].state == HandoffPending) || (op.Released? && op.station == s) then op.epoch
            else if op.ForceRelease? && op.station == s then (t[s].epoch + 1) % 0x1_0000_0000
            else t[s].epoch
  {
  }

  // ----- Who holds authority -----

  /** The recorded holder and the flags agree with the state, and the grant time is that of the grant in force. */
  ghost predicate HeldBy(t: Table, s: string, now: nat)
    requires s in t
  {
    t[s].holder == "CONTROLLER" && t[s].acknowledged && t[s].controllerOnline && t[s].grantTime == now
  }

  ghost predicate Held(t: Table, s: string, now: nat)
    ensures Held(t, s, now) ==> s in t
  {
    s in t && t[s].state == Supervised && HeldBy(t, s, now)
  }

  lemma HeldNext(cfg: Config, t: Table, op: Op, s: string, now: nat)
    requires Held(t, s, now) && !EndsSupervision(op, s)
    ensures Held(Apply(cfg, t, op).0, s, now)
  {
  }

  /** Pending stations are online and unacknowledged. */
  ghost predicate Asked(t: Table, s: string)
    ensures Asked(t, s) ==> s in t
  {
    s in t && t[s].state == HandoffPending && t[s].controllerOnline && !t[s].acknowledged
  }

  lemma AskedNext(cfg: Config, t: Table, op: Op, s: string)
    requires s in Apply(cfg, t, op).0 && Apply(cfg, t, op).0[s].state == HandoffPending
    requires s in t && t[s].state == HandoffPending ==> Asked(t, s)
    ensures Asked(Apply(cfg, t, op).0, s)
  {
  }

  lemma {:induction false} PendingIsAsked(cfg: Config, ops: seq<Op>, ts: seq<Table>, s: string, j: nat)
    requires Trace(cfg, ops, ts) && j <= |ops| && In(ts, s, j, HandoffPending)
    ensures Asked(ts[j], s)
  {
    if j > 0 {
      TableNext(cfg, ops, ts, j - 1);
      if In(ts, s, j - 1, HandoffPending) {
        PendingIsAsked(cfg, ops, ts, s, j - 1);
      }
      AskedNext(cfg, ts[j - 1], ops[j - 1], s);
    }
  }

  lemma GrantHolds(cfg: Config, ops: seq<Op>, ts: seq<Table>, s: string, g: nat)
    requires Trace(cfg, ops, ts) && g < |ops| && Answers(cfg, ops, ts, s, g)
    ensures Held(ts[g + 1], s, ops[g].now)
  {
    PendingIff(cfg, ops, ts, s, g);
    PendingIsAsked(cfg, ops, ts, s, g);
    TableNext(cfg, ops, ts, g);
  }

  lemma HeldStays(cfg: Config, ops: seq<Op>, ts: seq<Table>, s: string, g: nat, j: nat, k: nat)
    requires Trace(cfg, ops, ts) && InForce(cfg, ops, ts, s, g, j) && g < k < j && Held(ts[k], s, ops[g].now)
    ensures Held(ts[k + 1], s, ops[g].now)
  {
    assert !EndsSupervision(ops[k], s);
    TableNext(cfg, ops, ts, k);
    HeldNext(cfg, ts[k], ops[k], s, ops[g].now);
  }

  /** While a grant is in force, the controller is recorded as the holder since that grant. */
  lemma GrantIsRecorded(cfg: Config, ops: seq<Op>, ts: seq<Table>, s: string, g: nat, j: nat)
    requires Trace(cfg, ops, ts) && InForce(cfg, ops, ts, s, g, j)
    ensures Held(ts[j], s, ops[g].now)
  {
    ghost var p := (k: nat) => k < |ts| && Held(ts[k], s, ops[g].now);
    GrantHolds(cfg, ops, ts, s, g);
    forall k: nat | g + 1 <= k < j && p(k) ensures p(k + 1) {
      HeldStays(cfg, ops, ts, s, g, j, k);
    }
    Along(p, g + 1, j);
  }

  /** After a released message or a forced release the station is autonomous and holds authority itself. */
  lemma ReturnedIsRecorded(cfg: Config, ops: seq<Op>, ts: seq<Table>, s: string, k: nat)
    requires Trace(cfg, ops, ts) && k < |ops| && s in ts[k] && About(ops[k], s) && (ops[k].Released? || ops[k].ForceRelease?)
    ensures In(ts, s, k + 1, Autonomous) && ts[k + 1][s].holder == s
    ensures ops[k].Released? ==> !ts[k + 1][s].acknowledged
    ensures ops[k].ForceRelease? ==> !ts[k + 1][s].controllerOnline
  {
    TableNext(cfg, ops, ts, k);
  }
}
