/** What one process step of a pump group does, in terms of the group before it and what the registry reports. */
module LoadSteps {
  import opened LoadBalance

  /** The registry says that the member's station runs; a station it does not know keeps its flag. */
  predicate Runs(m: Member, devices: map<string, bool>) {
    if m.station in devices then devices[m.station] else m.available
  }

  /** The summed capacity of the running members among the first `n`. */
  function RunningCapacity(ms: seq<Member>, devices: map<string, bool>, n: nat): real
    requires n <= |ms|
  {
    if n == 0 then 0.0
    else RunningCapacity(ms, devices, n - 1) + if Runs(ms[n - 1], devices) then ms[n - 1].capacity else 0.0
  }

  /** The load that the running members among the first `n` carry afterwards. */
  function RunningLoad(before: seq<Member>, after: seq<Member>, devices: map<string, bool>, n: nat): real
    requires n <= |before| == |after|
  {
    if n == 0 then 0.0
    else RunningLoad(before, after, devices, n - 1) + if Runs(before[n - 1], devices) then after[n - 1].load else 0.0
  }

  /** There is a demand, a lead, and someone who runs; whoever runs has a capacity. */
  predicate CanCarry(g: Group, devices: map<string, bool>) {
    && g.enabled && g.demand > 0.0 && 0 <= g.lead < |g.members|
    && (exists j :: 0 <= j < |g.members| && Runs(g.members[j], devices))
    && (forall j :: 0 <= j < |g.members| && Runs(g.members[j], devices) ==> g.members[j].capacity > 0.0)
  }

  // ----- The stages -----

  lemma RefreshedAt(g: Group, devices: map<string, bool>, j: nat)
    requires j < |g.members|
    ensures |Refreshed(g, devices).members| == |g.members|
    ensures Refreshed(g, devices).members[j] == g.members[j].(available := Runs(g.members[j], devices))
  {
  }

  lemma DistributedAt(g: Group, j: nat)
    requires CanShare(g) && j < |g.members|
    ensures |Distributed(g).members| == |g.members|
    ensures Distributed(g).members[j] == g.members[j].(load := Distributed(g).members[j].load)
    ensures !g.members[j].available ==> Distributed(g).members[j] == g.members[j]
  {
    if !Idle(g) {
      WalkKeeps(g, Quota(g), |g.members|);
    }
  }

  /** What a member is before the load is shared out. */
  predicate Reports(before: Member, after: Member, running: bool, dt: nat) {
    && after.station == before.station && after.slot == before.slot && after.capacity == before.capacity
    && after.available == running
    && after.runtime == before.runtime + (if before.load > 0.0 then dt else 0)
  }

  lemma ReadiedAt(hasRegistry: bool, g: Group, devices: map<string, bool>, now: nat, dt: nat, j: nat)
    requires g.enabled && CanStep(hasRegistry, g, devices, now) && j < |g.members|
    ensures var r := Readied(hasRegistry, g, devices, now, dt);
            && |r.members| == |g.members| && r.demand == g.demand && r.members[j].load == g.members[j].load
            && Reports(g.members[j], r.members[j], if hasRegistry then Runs(g.members[j], devices) else g.members[j].available, dt)
  {
    RefreshedAt(g, devices, j);
    var seen := Seen(hasRegistry, g, devices);
    assert RotatedWhenDue(seen, now).members == seen.members;
  }

  /**
   * Every member keeps its place and its capacity, is available exactly when the registry says that it runs,
   * and grows older exactly when it carried load; one that does not run keeps its load.
   */
  lemma StepMembers(hasRegistry: bool, g: Group, devices: map<string, bool>, now: nat, dt: nat, j: nat)
    requires g.enabled && CanStep(hasRegistry, g, devices, now) && j < |g.members|
    ensures var after := Stepped(hasRegistry, g, devices, now, dt);
            var running := if hasRegistry then Runs(g.members[j], devices) else g.members[j].available;
            && |after.members| == |g.members|
            && Reports(g.members[j], after.members[j], running, dt)
            && (!hasRegistry || !running ==> after.members[j].load == g.members[j].load)
  {
    ReadiedAt(hasRegistry, g, devices, now, dt, j);
    if hasRegistry {
      DistributedAt(Readied(hasRegistry, g, devices, now, dt), j);
    }
  }

  // ----- Conservation -----

  lemma {:induction false} CapacityOfRunning(g: Group, seen: seq<Member>, devices: map<string, bool>, n: nat)
    requires n <= |g.members| == |seen|
    requires forall j :: 0 <= j < n ==> seen[j].capacity == g.members[j].capacity && seen[j].available == Runs(g.members[j], devices)
    ensures Capacity(seen, n) == RunningCapacity(g.members, devices, n)
  {
    if n > 0 {
      CapacityOfRunning(g, seen, devices, n - 1);
    }
  }

  lemma {:induction false} LoadOfRunning(g: Group, after: seq<Member>, devices: map<string, bool>, n: nat)
    requires n <= |g.members| == |after|
    requires forall j :: 0 <= j < n ==> after[j].available == Runs(g.members[j], devices)
    ensures TotalLoad(after, n) == RunningLoad(g.members, after, devices, n)
  {
    if n > 0 {
      LoadOfRunning(g, after, devices, n - 1);
    }
  }

  lemma CarriesIsSharing(g: Group, devices: map<string, bool>)
    requires CanCarry(g, devices)
    ensures Sharing(Refreshed(g, devices))
  {
    var seen := Refreshed(g, devices);
    forall j | 0 <= j < |g.members| ensures seen.members[j] == g.members[j].(available := Runs(g.members[j], devices)) {
      RefreshedAt(g, devices, j);
    }
    var j :| 0 <= j < |g.members| && Runs(g.members[j], devices);
    assert seen.members[j].available;
  }

  lemma ReadiedSharing(g: Group, devices: map<string, bool>, now: nat, dt: nat)
    requires CanCarry(g, devices)
    ensures CanStep(true, g, devices, now) && Sharing(Readied(true, g, devices, now, dt))
    ensures var r := Readied(true, g, devices, now, dt);
            |r.members| == |g.members| && Capacity(r.members, |g.members|) == RunningCapacity(g.members, devices, |g.members|)
  {
    CarriesIsSharing(g, devices);
    ProcessConserves(g, devices, now, dt);
    var seen := Refreshed(g, devices);
    SharingCanRotate(seen, now);
    SharingAged(RotatedWhenDue(seen, now), dt);
    var r := Readied(true, g, devices, now, dt);
    forall j | 0 <= j < |g.members|
      ensures r.members[j].capacity == g.members[j].capacity && r.members[j].available == Runs(g.members[j], devices)
    {
      ReadiedAt(true, g, devices, now, dt, j);
    }
    CapacityOfRunning(g, r.members, devices, |g.members|);
  }

  /** The duty and the part of its capacity that every running member gets. */
  function Part(g: Group, devices: map<string, bool>): real
    requires RunningCapacity(g.members, devices, |g.members|) > 0.0
  {
    var c := RunningCapacity(g.members, devices, |g.members|);
    if g.demand > c then 1.0 else g.demand / c
  }

  /**
   * With demand D, every running member ends at its capacity times min(1, D / C), where C is the capacity the
   * registry says is running, and together they carry min(D, C).
   */
  lemma StepCarries(g: Group, devices: map<string, bool>, now: nat, dt: nat)
    requires CanCarry(g, devices)
    ensures CanStep(true, g, devices, now) && RunningCapacity(g.members, devices, |g.members|) > 0.0
    ensures var after, n := Stepped(true, g, devices, now, dt).members, |g.members|;
            && |after| == n
            && (forall j :: 0 <= j < n && Runs(g.members[j], devices) ==>
                  after[j].load == g.members[j].capacity * Part(g, devices))
            && RunningLoad(g.members, after, devices, n) ==
               (if g.demand <= RunningCapacity(g.members, devices, n) then g.demand
                else RunningCapacity(g.members, devices, n))
  {
    ReadiedSharing(g, devices, now, dt);
    SharedTotal(Readied(true, g, devices, now, dt));
    var after, n := Stepped(true, g, devices, now, dt).members, |g.members|;
    forall j | 0 <= j < n
      ensures after[j].available == Runs(g.members[j], devices)
      ensures Runs(g.members[j], devices) ==> after[j].load == g.members[j].capacity * Part(g, devices)
    {
      StepMembers(true, g, devices, now, dt, j);
      if Runs(g.members[j], devices) {
        StepLoad(g, devices, now, dt, j);
      }
    }
    LoadOfRunning(g, after, devices, n);
  }

  lemma SharedTotal(r: Group)
    requires Sharing(r)
    ensures Capacity(r.members, |r.members|) > 0.0 && |Distributed(r).members| == |r.members|
    ensures TotalLoad(Distributed(r).members, |r.members|) == Min(r.demand, Capacity(r.members, |r.members|))
  {
    DemandConserved(r);
  }

  lemma StepLoad(g: Group, devices: map<string, bool>, now: nat, dt: nat, j: nat)
    requires CanCarry(g, devices) && j < |g.members| && Runs(g.members[j], devices)
             && RunningCapacity(g.members, devices, |g.members|) > 0.0
    ensures CanStep(true, g, devices, now)
    ensures var after := Stepped(true, g, devices, now, dt).members;
            |after| == |g.members| && after[j].load == g.members[j].capacity * Part(g, devices)
  {
    ReadiedSharing(g, devices, now, dt);
    var r := Readied(true, g, devices, now, dt);
    ReadiedAt(true, g, devices, now, dt, j);
    SharedLoad(r, j);
    PartIsFraction(g, r, devices);
  }

  lemma SharedLoad(r: Group, j: nat)
    requires Sharing(r) && j < |r.members| && r.members[j].available
    ensures Capacity(r.members, |r.members|) > 0.0 && |Distributed(r).members| == |r.members|
    ensures Distributed(r).members[j].load == r.members[j].capacity * FractionOf(r)
  {
    DemandConserved(r);
  }

  lemma PartIsFraction(g: Group, r: Group, devices: map<string, bool>)
    requires r.demand == g.demand && |r.members| == |g.members|
    requires Capacity(r.members, |r.members|) == RunningCapacity(g.members, devices, |g.members|) > 0.0
    ensures FractionOf(r) == Part(g, devices)
  {
    Quotient(g.demand, RunningCapacity(g.members, devices, |g.members|));
  }

  // ----- The writes -----

  /** The write goes to a running member of the group. */
  predicate Reaches(g: Group, devices: map<string, bool>, w: Write) {
    exists j :: 0 <= j < |g.members| && Runs(g.members[j], devices)
      && w.station == g.members[j].station && w.slot == g.members[j].slot
  }

  lemma WrittenAreAvailable(g: Group, k: nat)
    requires CanShare(g) && k < |DistributionWrites(g)|
    ensures exists j :: 0 <= j < |g.members| && g.members[j].available
              && DistributionWrites(g)[k].station == g.members[j].station && DistributionWrites(g)[k].slot == g.members[j].slot
  {
    var served := WalkTo(g, Quota(g), |g.members|).served;
    assert served[k] < |g.members| && g.members[served[k]].available;
  }

  /** No write of a step goes to a member that the registry says is down. */
  lemma WritesReachRunning(g: Group, devices: map<string, bool>, now: nat, dt: nat, k: nat)
    requires CanStep(true, g, devices, now) && k < |StepWrites(true, g, devices, now, dt)|
    ensures Reaches(g, devices, StepWrites(true, g, devices, now, dt)[k])
  {
    var r := Readied(true, g, devices, now, dt);
    WrittenAreAvailable(r, k);
    var w := StepWrites(true, g, devices, now, dt)[k];
    var j :| 0 <= j < |r.members| && r.members[j].available && w.station == r.members[j].station && w.slot == r.members[j].slot;
    ReadiedCount(g, devices, now, dt);
    ReadiedAt(true, g, devices, now, dt, j);
  }

  lemma ReadiedCount(g: Group, devices: map<string, bool>, now: nat, dt: nat)
    requires g.enabled && CanStep(true, g, devices, now)
    ensures |Readied(true, g, devices, now, dt).members| == |g.members|
  {
    var seen := Seen(true, g, devices);
    assert RotatedWhenDue(seen, now).members == seen.members;
  }

  /** `order` lists the running members, each once. */
  predicate ListsRunning(g: Group, devices: map<string, bool>, order: seq<nat>) {
    && (forall j: nat :: j < |g.members| && Runs(g.members[j], devices) ==> j in order)
    && (forall k :: 0 <= k < |order| ==> order[k] < |g.members| && Runs(g.members[order[k]], devices))
    && (forall k, l :: 0 <= k < l < |order| ==> order[k] != order[l])
  }

  /** Each running member is sent exactly one write, with the truncated percentage of its capacity as duty. */
  lemma EveryRunningIsWritten(g: Group, devices: map<string, bool>, now: nat, dt: nat) returns (order: seq<nat>)
    requires CanCarry(g, devices)
    ensures CanStep(true, g, devices, now) && RunningCapacity(g.members, devices, |g.members|) > 0.0
    ensures ListsRunning(g, devices, order) && |StepWrites(true, g, devices, now, dt)| == |order|
    ensures forall k :: 0 <= k < |order| ==>
              StepWrites(true, g, devices, now, dt)[k] == WriteTo(g.members[order[k]], Part(g, devices))
  {
    ReadiedSharing(g, devices, now, dt);
    var r := Readied(true, g, devices, now, dt);
    order := WrittenInOrder(r);
    forall j | 0 <= j < |g.members|
      ensures r.members[j].available == Runs(g.members[j], devices)
      ensures r.members[j].station == g.members[j].station && r.members[j].slot == g.members[j].slot
    {
      ReadiedAt(true, g, devices, now, dt, j);
    }
    assert RunningCapacity(g.members, devices, |g.members|) > 0.0;
    SameDemand(g, devices, now, dt);
    PartIsFraction(g, r, devices);
  }

  /** A duty of `part` of the full capacity, in per cent. */
  function WriteTo(m: Member, part: real): Write {
    Write(m.station, m.slot, Pwm, (part * 100.0).Floor)
  }

  lemma SameDemand(g: Group, devices: map<string, bool>, now: nat, dt: nat)
    requires g.enabled && CanStep(true, g, devices, now)
    ensures Readied(true, g, devices, now, dt).demand == g.demand
  {
  }

  lemma WrittenInOrder(r: Group) returns (order: seq<nat>)
    requires Sharing(r)
    ensures Capacity(r.members, |r.members|) > 0.0
    ensures forall j: nat :: j < |r.members| && r.members[j].available ==> j in order
    ensures forall k :: 0 <= k < |order| ==> order[k] < |r.members| && r.members[order[k]].available
    ensures forall k, l :: 0 <= k < l < |order| ==> order[k] != order[l]
    ensures |DistributionWrites(r)| == |order|
    ensures forall k :: 0 <= k < |order| ==> DistributionWrites(r)[k] == WriteTo(r.members[order[k]], FractionOf(r))
  {
    EveryMemberWrittenOnce(r);
    order := OnTheWay(r, |r.members|);
    forall k | 0 <= k < |order| ensures order[k] < |r.members| && r.members[order[k]].available {
      assert order[k] in order;
    }
  }

  // ----- The lead -----

  /** The rotation interval has passed since the last rotation, on the unsigned 64-bit clock. */
  predicate RotatesAt(g: Group, now: nat) {
    g.rotationInterval > 0 && (now - g.lastRotation) % 0x1_0000_0000_0000_0000 >= g.rotationInterval
  }

  predicate CanLead(m: Member, devices: map<string, bool>) {
    Runs(m, devices) && m.runtime < 0xFFFF_FFFF_FFFF_FFFF
  }

  /** Member `k` is the first running one of least runtime. */
  predicate IsLeastWorn(ms: seq<Member>, devices: map<string, bool>, k: int) {
    && 0 <= k < |ms| && CanLead(ms[k], devices)
    && forall j :: 0 <= j < |ms| && CanLead(ms[j], devices) ==>
         ms[k].runtime < ms[j].runtime || (ms[k].runtime == ms[j].runtime && k <= j)
  }

  /** The place `d` places after `lead` around a circle of `n`. */
  function Around(lead: nat, d: nat, n: nat): (k: nat)
    requires lead < n && d <= n
    ensures k < n
  {
    if lead + d < n then lead + d else lead + d - n
  }

  /** Member `k` is the next running one around the circle, or the lead itself if no other runs. */
  predicate IsNextRunning(ms: seq<Member>, devices: map<string, bool>, lead: nat, k: int)
    requires lead < |ms|
  {
    exists d: nat | 1 <= d <= |ms| :: k == Around(lead, d, |ms|) && (d == |ms| || Runs(ms[k], devices))
      && forall i: nat | 1 <= i < d :: !Runs(ms[Around(lead, i, |ms|)], devices)
  }

  lemma StepKeepsLead(g: Group, devices: map<string, bool>, now: nat, dt: nat)
    requires g.enabled && CanStep(true, g, devices, now)
    ensures var after, turned := Stepped(true, g, devices, now, dt), RotatedWhenDue(Refreshed(g, devices), now);
            after.lead == turned.lead && after.lastRotation == turned.lastRotation
  {
  }

  lemma LeastWorn(g: Group, devices: map<string, bool>, now: nat)
    requires g.wearLeveling
    ensures var r := Rotated(Refreshed(g, devices), now);
            if exists k :: IsLeastWorn(g.members, devices, k) then
              IsLeastWorn(g.members, devices, r.lead) && r.lastRotation == (if r.lead == g.lead then g.lastRotation else now)
            else r.lead == g.lead && r.lastRotation == g.lastRotation
  {
    var seen := Refreshed(g, devices);
    forall j | 0 <= j < |g.members| ensures Candidate(seen.members[j]) == CanLead(g.members[j], devices)
                                         && seen.members[j].runtime == g.members[j].runtime
    {
      RefreshedAt(g, devices, j);
    }
    var low := LowestRuntime(seen.members, |seen.members|);
    if low >= 0 {
      assert IsLeastWorn(g.members, devices, low);
    }
  }

  lemma NextRunning(g: Group, devices: map<string, bool>, now: nat)
    requires !g.wearLeveling && 0 <= g.lead < |g.members|
    ensures IsNextRunning(g.members, devices, g.lead, Rotated(Refreshed(g, devices), now).lead)
    ensures Rotated(Refreshed(g, devices), now).lastRotation == now
  {
    var seen, n := Refreshed(g, devices), |g.members|;
    forall j | 0 <= j < n ensures seen.members[j].available == Runs(g.members[j], devices) {
      RefreshedAt(g, devices, j);
    }
    var d := NextStep(seen, 1);
    forall i: nat | 1 <= i < d ensures !Runs(g.members[Around(g.lead, i, n)], devices) {
      assert Around(g.lead, i, n) == Visited(seen, i);
    }
    assert Visited(seen, d) == Around(g.lead, d, n);
  }

  /**
   * The lead stays until the rotation interval has passed.  Then wear leveling gives it to the first running
   * member of least runtime, and the round robin to the next running member.
   */
  lemma StepLead(g: Group, devices: map<string, bool>, now: nat, dt: nat)
    requires g.enabled && CanStep(true, g, devices, now) && 0 <= g.lead < |g.members|
    ensures var after := Stepped(true, g, devices, now, dt);
            if !RotatesAt(g, now) then after.lead == g.lead && after.lastRotation == g.lastRotation
            else if !g.wearLeveling then IsNextRunning(g.members, devices, g.lead, after.lead) && after.lastRotation == now
            else if exists k :: IsLeastWorn(g.members, devices, k) then
              && IsLeastWorn(g.members, devices, after.lead)
              && after.lastRotation == (if after.lead == g.lead then g.lastRotation else now)
            else after.lead == g.lead && after.lastRotation == g.lastRotation
  {
    StepKeepsLead(g, devices, now, dt);
    if g.wearLeveling {
      LeastWorn(g, devices, now);
    } else {
      NextRunning(g, devices, now);
    }
  }
}
