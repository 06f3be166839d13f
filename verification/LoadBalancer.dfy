/** The load balancer object: a table of groups updated in place, writing to actuators through the
    registry. Registry writes appear as the field `writes`. */
module LoadBalancer {
  import opened Clock
  import opened Common
  import opened Status
  import opened LoadBalance
  import opened LoadSteps

  lemma NextAround(c: nat, n: nat)
    requires c < n
    ensures (c + 1) % n == if c + 1 == n then 0 else c + 1
  {
    if c + 1 == n {} else {}
  }

  /** Where the search for the next lead starts. */
  lemma FirstVisited(g: Group)
    requires g.Led() || (g.lead >= -1 && g.members != [])
    ensures 0 <= (g.lead + 1) % |g.members| == Visited(Anchored(g), 1) < |g.members|
  {
    if g.Led() {
      NextAround(g.lead, |g.members|);
    }
  }

  /** When a full circle finds no other member, the one it ends at is the lead or can run. */
  lemma CircleEnds(g: Group)
    requires g.Led() || (g.lead >= -1 && g.Runs())
    requires forall i :: 1 <= i < |g.members| ==> !g.members[Visited(Anchored(g), i)].available
    ensures var end := Visited(Anchored(g), |g.members|); end == g.lead || g.members[end].available
  {
    if !g.Led() {
      var a := Anchored(g);
      var j :| 0 <= j < |g.members| && g.members[j].available;
      VisitedAtStep(a, j);
    }
  }

  lemma VisitedAtStep(g: Group, j: nat)
    requires g.Led() && j < |g.members|
    ensures 0 <= StepOf(g, j) < |g.members| && Visited(g, StepOf(g, j)) == j
    ensures Visited(g, |g.members|) == g.lead
  {
  }

  lemma WritesOfAppend(g: Group, quota: seq<real>, served: seq<nat>, c: nat)
    requires |quota| == |g.members| && g.WellFormed() && c < |g.members| && g.members[c].available
    requires forall k :: 0 <= k < |served| ==> served[k] < |g.members| && g.members[served[k]].available
    ensures WritesOf(g, quota, served + [c]) == WritesOf(g, quota, served) + [WriteFor(g.members[c], quota[c])]
  {}

  /** The writes of the first `n` groups, group after group. */
  ghost function AllWrites(hasRegistry: bool, groups: seq<Group>, n: nat, devices: map<string, bool>, now: nat, dt: nat)
      : seq<Write>
    requires n <= |groups| && CanStepAll(hasRegistry, groups, devices, now)
  {
    if n == 0 then [] else
      AllWrites(hasRegistry, groups, n - 1, devices, now, dt) + StepWrites(hasRegistry, groups[n - 1], devices, now, dt)
  }

  ghost predicate CanStepAll(hasRegistry: bool, groups: seq<Group>, devices: map<string, bool>, now: nat)
    ensures CanStepAll(hasRegistry, groups, devices, now) ==>
            forall i :: 0 <= i < |groups| ==> CanStep(hasRegistry, groups[i], devices, now)
  {
    forall i :: 0 <= i < |groups| ==> CanStep(hasRegistry, groups[i], devices, now)
  }

  ghost predicate AllReady(groups: seq<Group>) {
    forall i :: 0 <= i < |groups| ==> Ready(groups[i])
  }

  ghost predicate UniqueIds(groups: seq<Group>) {
    forall i, j :: 0 <= i < j < |groups| ==> groups[i].id != groups[j].id
  }

  /** The table after the first `n` groups have been stepped. */
  ghost function AllStepped(hasRegistry: bool, groups: seq<Group>, n: nat, devices: map<string, bool>, now: nat, dt: nat)
      : (r: seq<Group>)
    requires n <= |groups| && CanStepAll(hasRegistry, groups, devices, now)
    ensures |r| == |groups|
  {
    if n == 0 then groups else
      AllStepped(hasRegistry, groups, n - 1, devices, now, dt)[n - 1 := Stepped(hasRegistry, groups[n - 1], devices, now, dt)]
  }

  lemma {:induction false} AllSteppedAt(hasRegistry: bool, groups: seq<Group>, n: nat, devices: map<string, bool>,
                                        now: nat, dt: nat)
    requires n <= |groups| && CanStepAll(hasRegistry, groups, devices, now)
    ensures var r := AllStepped(hasRegistry, groups, n, devices, now, dt);
            forall i :: 0 <= i < |groups| ==>
              r[i] == if i < n then Stepped(hasRegistry, groups[i], devices, now, dt) else groups[i]
  {
    if n > 0 {
      AllSteppedAt(hasRegistry, groups, n - 1, devices, now, dt);
    }
  }

  lemma NotYetStepped(hasRegistry: bool, groups: seq<Group>, n: nat, devices: map<string, bool>, now: nat, dt: nat)
    requires n < |groups| && CanStepAll(hasRegistry, groups, devices, now)
    ensures AllStepped(hasRegistry, groups, n, devices, now, dt)[n] == groups[n]
  {
    AllSteppedAt(hasRegistry, groups, n, devices, now, dt);
  }

  lemma ReplaceKeeps(groups: seq<Group>, i: nat, g: Group)
    requires i < |groups| && UniqueIds(groups) && g.id == groups[i].id
    ensures UniqueIds(groups[i := g])
  {}

  /** A table of ready groups can be processed in any surroundings, and again after that. */
  lemma TableReadyForEver(hasRegistry: bool, groups: seq<Group>, devices: map<string, bool>, now: nat, dt: nat)
    requires AllReady(groups)
    ensures CanStepAll(hasRegistry, groups, devices, now)
    ensures AllReady(AllStepped(hasRegistry, groups, |groups|, devices, now, dt))
  {
    forall i | 0 <= i < |groups|
      ensures CanStep(hasRegistry, groups[i], devices, now) && Ready(Stepped(hasRegistry, groups[i], devices, now, dt))
    {
      ReadyForEver(hasRegistry, groups[i], devices, now, dt);
    }
    AllSteppedAt(hasRegistry, groups, |groups|, devices, now, dt);
  }

  /**
   * What a step with a registry does to a group that has a demand, a lead and a running member: members are
   * available exactly when the registry says that they run, and those carry min(demand, their capacity).
   */
  ghost predicate Carries(before: Group, devices: map<string, bool>, after: Group) {
    && |after.members| == |before.members|
    && (forall j :: 0 <= j < |before.members| ==> after.members[j].available == Runs(before.members[j], devices))
    && RunningLoad(before.members, after.members, devices, |before.members|)
       == Min(before.demand, RunningCapacity(before.members, devices, |before.members|))
  }

  ghost predicate AllCarry(before: seq<Group>, devices: map<string, bool>, after: seq<Group>) {
    |after| == |before| && forall i :: 0 <= i < |before| && CanCarry(before[i], devices) ==>
      Carries(before[i], devices, after[i])
  }

  lemma GroupCarries(g: Group, devices: map<string, bool>, now: nat, dt: nat)
    requires CanCarry(g, devices)
    ensures CanStep(true, g, devices, now) && Carries(g, devices, Stepped(true, g, devices, now, dt))
  {
    StepCarries(g, devices, now, dt);
    var after := Stepped(true, g, devices, now, dt).members;
    forall j | 0 <= j < |g.members| ensures after[j].available == Runs(g.members[j], devices) {
      StepMembers(true, g, devices, now, dt, j);
    }
  }

  lemma TableCarries(groups: seq<Group>, devices: map<string, bool>, now: nat, dt: nat)
    requires CanStepAll(true, groups, devices, now)
    ensures AllCarry(groups, devices, AllStepped(true, groups, |groups|, devices, now, dt))
  {
    AllSteppedAt(true, groups, |groups|, devices, now, dt);
    forall i | 0 <= i < |groups| && CanCarry(groups[i], devices)
      ensures Carries(groups[i], devices, AllStepped(true, groups, |groups|, devices, now, dt)[i])
    {
      GroupCarries(groups[i], devices, now, dt);
    }
  }

  /** Every write goes to a member of some group that the registry says runs. */
  ghost predicate AllReach(groups: seq<Group>, devices: map<string, bool>, ws: seq<Write>) {
    forall k :: 0 <= k < |ws| ==> exists i :: 0 <= i < |groups| && Reaches(groups[i], devices, ws[k])
  }

  lemma {:induction false} TableReaches(groups: seq<Group>, n: nat, devices: map<string, bool>, now: nat, dt: nat)
    requires CanStepAll(true, groups, devices, now) && n <= |groups|
    ensures AllReach(groups, devices, AllWrites(true, groups, n, devices, now, dt))
  {
    if n > 0 {
      TableReaches(groups, n - 1, devices, now, dt);
      var front, last := AllWrites(true, groups, n - 1, devices, now, dt), StepWrites(true, groups[n - 1], devices, now, dt);
      forall k | 0 <= k < |last| ensures Reaches(groups[n - 1], devices, last[k]) {
        WritesReachRunning(groups[n - 1], devices, now, dt, k);
      }
    }
  }

  class Balancer {
    const maxGroups: nat
    var groups: seq<Group>
    var running: bool
    var hasRegistry: bool
    var lastProcess: nat
    var writes: seq<Write>

    ghost predicate Valid()
      reads this
    {
      |groups| <= maxGroups && UniqueIds(groups)
    }

    constructor (maxGroups: nat)
      ensures Valid() && groups == [] && !running && !hasRegistry && writes == [] && this.maxGroups == maxGroups
    {
      this.maxGroups := maxGroups;
      groups, running, hasRegistry, lastProcess, writes := [], false, false, 0, [];
    }

    /** The first group with the given id, or the number of groups. */
    method Find(id: int) returns (i: nat)
      ensures i <= |groups|
      ensures i < |groups| ==> groups[i].id == id
      ensures forall k :: 0 <= k < i ==> groups[k].id != id
    {
      i := 0;
      while i < |groups| && groups[i].id != id
        invariant i <= |groups|
        invariant forall k :: 0 <= k < i ==> groups[k].id != id
      {
        i := i + 1;
      }
    }

    method AddGroup(g: Group, now: nat) returns (res: Code)
      requires Valid()
      modifies this`groups
      ensures Valid()
      ensures forall i :: 0 <= i < |old(groups)| && old(groups)[i].id == g.id ==>
                res == Ok && groups == old(groups)[i := g]
      ensures (forall i :: 0 <= i < |old(groups)| ==> old(groups)[i].id != g.id) ==>
                if |old(groups)| >= maxGroups then res == Full && groups == old(groups)
                else res == Ok && groups == old(groups) + [g.(lastRotation := now)]
    {
      var i := Find(g.id);
      if i < |groups| {
        groups := groups[i := g];
        res := Ok;
      } else if |groups| >= maxGroups {
        res := Full;
      } else {
        groups := groups + [g.(lastRotation := now)];
        res := Ok;
      }
    }

    method FindLowestRuntimeMember(g: Group) returns (lowest: int)
      ensures lowest == LowestRuntime(g.members, |g.members|)
    {
      lowest := -1;
      var least := WORD - 1;
      for i := 0 to |g.members|
        invariant lowest == LowestRuntime(g.members, i)
        invariant least == if lowest == -1 then WORD - 1 else g.members[lowest].runtime
      {
        if g.members[i].available && g.members[i].runtime < least {
          least := g.members[i].runtime;
          lowest := i;
        }
      }
    }

    method TotalCapacity(g: Group) returns (total: real, count: nat)
      ensures total == Capacity(g.members, |g.members|)
      ensures count == 0 <==> forall j :: 0 <= j < |g.members| ==> !g.members[j].available
    {
      total, count := 0.0, 0;
      for i := 0 to |g.members|
        invariant total == Capacity(g.members, i)
        invariant count == 0 <==> forall j :: 0 <= j < i ==> !g.members[j].available
      {
        if g.members[i].available {
          total := total + g.members[i].capacity;
          count := count + 1;
        }
      }
    }

    /** The walk from the lead: one step per member, while demand remains. */
    method ShareOut(g: Group, total: real) returns (members: seq<Member>, sent: seq<Write>)
      requires g.members != [] && g.WellFormed() && total == Capacity(g.members, |g.members|) > 0.0
      ensures members == WalkTo(g, Quota(g), |g.members|).members
      ensures sent == WritesOf(g, Quota(g), WalkTo(g, Quota(g), |g.members|).served)
    {
      var n := |g.members|;
      ghost var quota := Quota(g);
      ghost var served: seq<nat> := [];
      var remaining, current, i := g.demand, g.lead, 0;
      members, sent := g.members, [];
      while i < n && remaining > 0.0
        invariant 0 <= i <= n && current == Visited(g, i)
        invariant WalkTo(g, quota, i) == Walk(members, remaining, served)
        invariant sent == WritesOf(g, quota, served)
      {
        if g.members[current].available {
          var share := Share(g.members[current], total, g.demand);
          WritesOfAppend(g, quota, served, current);
          members := members[current := members[current].(load := share)];
          remaining := remaining - share;
          served := served + [current];
          sent := sent + [WriteFor(g.members[current], share)];
        }
        NextAround(current, n);
        current := (current + 1) % n;
        i := i + 1;
      }
      if i < n {
        WalkStopped(g, quota, i, n);
      }
    }

    /** Distribute the demand of group `k` over its available members. */
    method DistributeLoad(k: nat)
      requires k < |groups| && (hasRegistry ==> CanShare(groups[k]))
      modifies this`groups, this`writes
      ensures groups == if hasRegistry then old(groups)[k := Distributed(old(groups)[k])] else old(groups)
      ensures writes == if hasRegistry then old(writes) + DistributionWrites(old(groups)[k]) else old(writes)
    {
      var g := groups[k];
      if !hasRegistry || g.members == [] {
        return;
      }
      var total, count := TotalCapacity(g);
      if count == 0 {
        NoAvailable(g, |g.members|);
      }
      if count == 0 || total <= 0.0 {
        return;
      }
      var members, sent := ShareOut(g, total);
      groups := groups[k := g.(members := members)];
      writes := writes + sent;
    }
  
    /** Round robin: on to the next available member, back to the lead if there is no other. */
    method NextAvailable(g: Group) returns (lead: nat)
      requires g.Led() || (g.lead >= -1 && g.Runs())
      ensures lead == NextLead(Anchored(g))
    {
      var n := |g.members|;
      ghost var a := Anchored(g);
      ghost var k := 1;
      FirstVisited(g);
      lead := (g.lead + 1) % n;
      while !g.members[lead].available && lead != g.lead
        invariant 1 <= k <= n && lead == Visited(a, k)
        invariant NextStep(a, 1) == NextStep(a, k)
        invariant forall i :: 1 <= i < k ==> !g.members[Visited(a, i)].available
        decreases n - k
      {
        if k == n {
          CircleEnds(g);
        }
        NextAround(lead, n);
        lead := (lead + 1) % n;
        k := k + 1;
      }
    }

    method Rotate(id: int, now: nat) returns (res: Code)
      requires Valid()
      requires forall i :: 0 <= i < |groups| && groups[i].id == id ==> groups[i].CanRotate()
      modifies this`groups
      ensures Valid()
      ensures res == Ok || res == NotFound
      ensures res == NotFound <==> forall i :: 0 <= i < |old(groups)| ==> old(groups)[i].id != id
      ensures res == NotFound ==> groups == old(groups)
      ensures forall i :: 0 <= i < |old(groups)| && old(groups)[i].id == id ==>
                groups == old(groups)[i := Rotated(old(groups)[i], now)]
    {
      var i := Find(id);
      if i == |groups| {
        return NotFound;
      }
      var g := groups[i];
      if g.wearLeveling {
        var lead := FindLowestRuntimeMember(g);
        if lead >= 0 && lead != g.lead {
          groups := groups[i := g.(lead := lead, lastRotation := now)];
        }
      } else {
        var lead := NextAvailable(g);
        groups := groups[i := g.(lead := lead, lastRotation := now)];
      }
      return Ok;
    }

    method RotateWhenDue(i: nat, now: nat)
      requires Valid() && i < |groups| && (RotationDue(groups[i], now) ==> groups[i].CanRotate())
      modifies this`groups
      ensures groups == old(groups)[i := RotatedWhenDue(old(groups)[i], now)]
    {
      if groups[i].rotationInterval > 0 && Elapsed(now, groups[i].lastRotation) >= groups[i].rotationInterval {
        var _ := Rotate(groups[i].id, now);
      }
    }

    method Refresh(i: nat, devices: map<string, bool>)
      requires i < |groups|
      modifies this`groups
      ensures groups == old(groups)[i := Refreshed(old(groups)[i], devices)]
      ensures |groups[i].members| == |old(groups)[i].members|
      ensures forall j :: 0 <= j < |groups[i].members| ==>
                groups[i].members[j].available == Runs(old(groups)[i].members[j], devices)
    {
      var g := groups[i];
      forall j | 0 <= j < |g.members| ensures Refreshed(g, devices).members[j].available == Runs(g.members[j], devices) {
        RefreshedAt(g, devices, j);
      }
      var ms := g.members;
      for j := 0 to |ms|
        invariant |ms| == |g.members|
        invariant forall k :: 0 <= k < j ==> ms[k] == Refreshed(g, devices).members[k]
        invariant forall k :: j <= k < |ms| ==> ms[k] == g.members[k]
      {
        if ms[j].station in devices {
          ms := ms[j := ms[j].(available := devices[ms[j].station])];
        }
      }
      assert ms == Refreshed(g, devices).members;
      groups := groups[i := g.(members := ms)];
    }

    method Age(i: nat, dt: nat)
      requires i < |groups|
      modifies this`groups
      ensures groups == old(groups)[i := Aged(old(groups)[i], dt)]
    {
      var g := groups[i];
      var ms := g.members;
      for j := 0 to |ms|
        invariant |ms| == |g.members|
        invariant forall k :: 0 <= k < j ==> ms[k] == Aged(g, dt).members[k]
        invariant forall k :: j <= k < |ms| ==> ms[k] == g.members[k]
      {
        if ms[j].load > 0.0 {
          ms := ms[j := ms[j].(runtime := ms[j].runtime + dt)];
        }
      }
      assert ms == Aged(g, dt).members;
      groups := groups[i := g.(members := ms)];
    }

    method ReadyGroup(i: nat, devices: map<string, bool>, now: nat, dt: nat)
      requires Valid() && i < |groups| && groups[i].enabled && CanStep(hasRegistry, groups[i], devices, now)
      modifies this`groups
      ensures groups == old(groups)[i := Readied(hasRegistry, old(groups)[i], devices, now, dt)]
    {
      ReplaceKeeps(groups, i, Seen(hasRegistry, groups[i], devices));
      if hasRegistry {
        Refresh(i, devices);
      }
      RotateWhenDue(i, now);
      Age(i, dt);
    }

    /** Refresh, rotate when due, age and share out group `i`. */
    method ProcessGroup(i: nat, devices: map<string, bool>, now: nat, dt: nat)
      requires Valid() && i < |groups|
      requires CanStep(hasRegistry, groups[i], devices, now)
      modifies this`groups, this`writes
      ensures groups == old(groups)[i := Stepped(hasRegistry, old(groups)[i], devices, now, dt)]
      ensures writes == old(writes) + StepWrites(hasRegistry, old(groups)[i], devices, now, dt)
      ensures Valid()
    {
      ReplaceKeeps(groups, i, Stepped(hasRegistry, groups[i], devices, now, dt));
      if groups[i].enabled {
        ReadyGroup(i, devices, now, dt);
        DistributeLoad(i);
      }
    }

    method ProcessAll(devices: map<string, bool>, now: nat, dt: nat)
      requires Valid() && CanStepAll(hasRegistry, groups, devices, now)
      modifies this`groups, this`writes
      ensures Valid()
      ensures groups == AllStepped(hasRegistry, old(groups), |old(groups)|, devices, now, dt)
      ensures writes == old(writes) + AllWrites(hasRegistry, old(groups), |old(groups)|, devices, now, dt)
    {
      ghost var gs, ws := groups, writes;
      ghost var r := hasRegistry;
      for i := 0 to |groups|
        invariant |groups| == |gs| && Valid() && hasRegistry == r
        invariant groups == AllStepped(r, gs, i, devices, now, dt)
        invariant writes == ws + AllWrites(r, gs, i, devices, now, dt)
      {
        NotYetStepped(r, gs, i, devices, now, dt);
        ghost var step := StepWrites(r, gs[i], devices, now, dt);
        Regroup(ws, AllWrites(r, gs, i, devices, now, dt), step);
        ProcessGroup(i, devices, now, dt);
      }
    }

    method Process(devices: map<string, bool>, now: nat) returns (res: Code)
      requires Valid() && (running ==> CanStepAll(hasRegistry, groups, devices, now))
      modifies this`groups, this`writes, this`lastProcess
      ensures Valid() && (old(AllReady(groups)) ==> AllReady(groups))
      ensures running && hasRegistry ==> AllCarry(old(groups), devices, groups)
      ensures |old(writes)| <= |writes| && (hasRegistry ==> AllReach(old(groups), devices, writes[|old(writes)|..]))
      ensures res == if running then Ok else NotInitialized
      ensures lastProcess == if running then now else old(lastProcess)
      ensures var dt := Elapsed(now, old(lastProcess));
              groups == if running then AllStepped(hasRegistry, old(groups), |old(groups)|, devices, now, dt)
                        else old(groups)
      ensures var dt := Elapsed(now, old(lastProcess));
              writes == if running then old(writes) + AllWrites(hasRegistry, old(groups), |old(groups)|, devices, now, dt)
                        else old(writes)
    {
      if !running {
        return NotInitialized;
      }
      if hasRegistry {
        TableCarries(groups, devices, now, Elapsed(now, lastProcess));
        TableReaches(groups, |groups|, devices, now, Elapsed(now, lastProcess));
      }
      if AllReady(groups) {
        TableReadyForEver(hasRegistry, groups, devices, now, Elapsed(now, lastProcess));
      }
      ProcessAll(devices, now, Elapsed(now, lastProcess));
      lastProcess := now;
      return Ok;
    }
  }
}
