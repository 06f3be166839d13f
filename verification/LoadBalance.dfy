/** Load sharing over the members of a pump group: proportional division of the demand on a
    circular walk from the lead member, lead rotation, and the periodic process step. */
module LoadBalance {
  import opened Clock

  datatype Member = Member(station: string, slot: int, capacity: real, load: real, runtime: nat, available: bool)

  datatype Group = Group(
    id: int, enabled: bool, members: seq<Member>, demand: real,
    wearLeveling: bool, rotationInterval: nat, lastRotation: nat, lead: int)
  {
    /** There is a lead. */
    ghost predicate Led() {
      0 <= lead < |members|
    }

    /** Some member can run. */
    ghost predicate Runs() {
      exists j :: 0 <= j < |members| && members[j].available
    }

    /** Wear leveling looks at the runtimes only.  The round robin starts behind the lead and needs it, or a
        member to end at when the lead is out of range. */
    ghost predicate CanRotate() {
      wearLeveling || Led() || (lead >= -1 && Runs())
    }

    /** What the walk relies on. */
    ghost predicate WellFormed() {
      && (members != [] ==> 0 <= lead < |members|)
      && forall j :: 0 <= j < |members| && members[j].available ==> members[j].capacity != 0.0
    }
  }

  datatype Command = Off | Pwm

  /** One actuator write sent to the registry. */
  datatype Write = Write(station: string, slot: int, command: Command, duty: int)

  // ----- Specification of the walk -----

  function AvailableCapacity(m: Member): real {
    if m.available then m.capacity else 0.0
  }

  /** The summed capacity of the available members among the first `n`. */
  function Capacity(members: seq<Member>, n: nat): real
    requires n <= |members|
  {
    if n == 0 then 0.0 else Capacity(members, n - 1) + AvailableCapacity(members[n - 1])
  }

  function Share(m: Member, total: real, demand: real): real
    requires total != 0.0
  {
    var share := (m.capacity / total) * demand;
    if share > m.capacity then m.capacity else share
  }

  function Truncate(x: real): int {
    if x >= 0.0 then x.Floor else -((-x).Floor)
  }

  function WriteFor(m: Member, share: real): Write
    requires m.capacity != 0.0
  {
    Write(m.station, m.slot, if share > 0.0 then Pwm else Off, Truncate((share / m.capacity) * 100.0))
  }

  /** The member visited at step `i` of the walk: `i` places after the lead, around the circle. */
  function Visited(g: Group, i: nat): nat
    requires g.Led() && i <= |g.members|
    ensures Visited(g, i) < |g.members|
  {
    if g.lead + i < |g.members| then g.lead + i else g.lead + i - |g.members|
  }

  /** What the walk has done: the members with their loads, the demand left, and whom it served. */
  datatype Walk = Walk(members: seq<Member>, remaining: real, served: seq<nat>)

  function Serve(w: Walk, c: nat, share: real): Walk
    requires c < |w.members|
  {
    Walk(w.members[c := w.members[c].(load := share)], w.remaining - share, w.served + [c])
  }

  /** The walk after at most `i` steps, member `c` taking `quota[c]`; it stops for good once no
      demand remains. */
  ghost function WalkTo(g: Group, quota: seq<real>, i: nat): (w: Walk)
    requires g.members != [] && g.WellFormed() && |quota| == |g.members| && i <= |g.members|
    ensures |w.members| == |g.members|
    ensures forall k :: 0 <= k < |w.served| ==> w.served[k] < |g.members| && g.members[w.served[k]].available
  {
    if i == 0 then Walk(g.members, g.demand, []) else
      var w := WalkTo(g, quota, i - 1);
      var c := Visited(g, i - 1);
      if w.remaining <= 0.0 || !g.members[c].available then w else Serve(w, c, quota[c])
  }

  ghost function Quota(g: Group): (q: seq<real>)
    requires Capacity(g.members, |g.members|) > 0.0
    ensures |q| == |g.members|
  {
    seq(|g.members|, j requires 0 <= j < |g.members| =>
      Share(g.members[j], Capacity(g.members, |g.members|), g.demand))
  }

  /** The writes for the members served, in that order. */
  ghost function WritesOf(g: Group, quota: seq<real>, served: seq<nat>): (ws: seq<Write>)
    requires |quota| == |g.members| && g.WellFormed()
    requires forall k :: 0 <= k < |served| ==> served[k] < |g.members| && g.members[served[k]].available
  {
    seq(|served|, k requires 0 <= k < |served| => WriteFor(g.members[served[k]], quota[served[k]]))
  }

  ghost predicate Idle(g: Group) {
    g.members == [] || Capacity(g.members, |g.members|) <= 0.0
  }

  ghost predicate CanShare(g: Group) {
    Idle(g) || g.WellFormed()
  }

  /** The group after load distribution, with a registry present. */
  ghost function Distributed(g: Group): Group
    requires CanShare(g)
  {
    if Idle(g) then g else g.(members := WalkTo(g, Quota(g), |g.members|).members)
  }

  ghost function DistributionWrites(g: Group): seq<Write>
    requires CanShare(g)
  {
    if Idle(g) then [] else WritesOf(g, Quota(g), WalkTo(g, Quota(g), |g.members|).served)
  }

  lemma {:induction false} WalkStopped(g: Group, quota: seq<real>, i: nat, n: nat)
    requires g.members != [] && g.WellFormed() && |quota| == |g.members| && i <= n <= |g.members|
    requires WalkTo(g, quota, i).remaining <= 0.0
    ensures WalkTo(g, quota, n) == WalkTo(g, quota, i)
  {
    if i < n {
      WalkStopped(g, quota, i, n - 1);
    }
  }

  /** The walk changes nothing but loads, and those of available members only. */
  lemma {:induction false} WalkKeeps(g: Group, quota: seq<real>, i: nat)
    requires g.members != [] && g.WellFormed() && |quota| == |g.members| && i <= |g.members|
    ensures forall j :: 0 <= j < |g.members| ==>
              WalkTo(g, quota, i).members[j] == g.members[j].(load := WalkTo(g, quota, i).members[j].load)
    ensures forall j :: 0 <= j < |g.members| && !g.members[j].available ==>
              WalkTo(g, quota, i).members[j] == g.members[j]
  {
    if i > 0 {
      WalkKeeps(g, quota, i - 1);
    }
  }

  lemma NoAvailable(g: Group, n: nat)
    requires n <= |g.members|
    requires forall j :: 0 <= j < n ==> !g.members[j].available
    ensures Capacity(g.members, n) == 0.0
  {
    if n > 0 {
      NoAvailable(g, n - 1);
    }
  }

  // ----- Conservation of demand -----

  ghost predicate PositiveCapacities(g: Group) {
    forall j :: 0 <= j < |g.members| && g.members[j].available ==> g.members[j].capacity > 0.0
  }

  function Min(a: real, b: real): real {
    if a <= b then a else b
  }

  /** The fraction of its capacity that every available member runs at. */
  function Fraction(demand: real, total: real): real
    requires total > 0.0
  {
    if demand <= total then demand / total else 1.0
  }

  lemma Quotient(d: real, t: real)
    requires t > 0.0
    ensures d <= t <==> d / t <= 1.0
    ensures d > 0.0 <==> d / t > 0.0
    ensures (d / t) * t == d
  {}

  lemma Scale(c: real, q: real)
    requires c > 0.0
    ensures c * q <= c <==> q <= 1.0
  {}

  lemma QuotientMoves(c: real, t: real, d: real)
    requires t > 0.0
    ensures (c / t) * d == c * (d / t)
  {}

  lemma ScaleLess(f: real, a: real, b: real)
    requires f > 0.0 && a < b
    ensures f * a < f * b
  {}

  lemma ShareIsFraction(m: Member, total: real, demand: real)
    requires m.capacity > 0.0 && total > 0.0
    ensures Share(m, total, demand) == m.capacity * Fraction(demand, total)
  {
    Quotient(demand, total);
    QuotientMoves(m.capacity, total, demand);
    Scale(m.capacity, demand / total);
  }

  function Due(m: Member, share: real): real {
    if m.available then share else 0.0
  }

  /** What the available members among the first `n` are due. */
  ghost function QuotaSum(g: Group, quota: seq<real>, n: nat): real
    requires n <= |g.members| == |quota|
  {
    if n == 0 then 0.0 else QuotaSum(g, quota, n - 1) + Due(g.members[n - 1], quota[n - 1])
  }

  /** What is due on the first `i` steps of the walk. */
  ghost function WalkSum(g: Group, quota: seq<real>, i: nat): real
    requires g.members != [] && g.WellFormed() && i <= |g.members| == |quota|
  {
    if i == 0 then 0.0 else
      var c := Visited(g, i - 1);
      WalkSum(g, quota, i - 1) + Due(g.members[c], quota[c])
  }

  /** A sum around the circle is the sum from the lead to the end and from the start to the lead. */
  lemma {:induction false} WalkSumAt(g: Group, quota: seq<real>, i: nat)
    requires g.members != [] && g.WellFormed() && i <= |g.members| == |quota|
    ensures WalkSum(g, quota, i)
         == if g.lead + i <= |g.members| then QuotaSum(g, quota, g.lead + i) - QuotaSum(g, quota, g.lead)
            else QuotaSum(g, quota, |g.members|) - QuotaSum(g, quota, g.lead)
                 + QuotaSum(g, quota, g.lead + i - |g.members|)
  {
    if i > 0 {
      WalkSumAt(g, quota, i - 1);
    }
  }

  /** Every available member is due something, and the demand covers all that is due. */
  ghost predicate Covered(g: Group, quota: seq<real>) {
    && g.members != [] && g.WellFormed() && |quota| == |g.members|
    && (forall j :: 0 <= j < |g.members| && g.members[j].available ==> quota[j] > 0.0)
    && QuotaSum(g, quota, |g.members|) <= g.demand
  }

  lemma {:induction false} WalkSumGrows(g: Group, quota: seq<real>, i: nat, k: nat)
    requires Covered(g, quota) && i <= k <= |g.members|
    ensures WalkSum(g, quota, i) <= WalkSum(g, quota, k)
  {
    if i < k {
      WalkSumGrows(g, quota, i, k - 1);
    }
  }

  /** Demand lasts until every available member has been served. */
  lemma DemandLasts(g: Group, quota: seq<real>, i: nat)
    requires Covered(g, quota) && i < |g.members| && g.members[Visited(g, i)].available
    ensures g.demand - WalkSum(g, quota, i) > 0.0
  {
    WalkSumGrows(g, quota, i + 1, |g.members|);
    WalkSumAt(g, quota, |g.members|);
  }

  lemma {:induction false} RemainingAt(g: Group, quota: seq<real>, i: nat)
    requires Covered(g, quota) && i <= |g.members|
    ensures WalkTo(g, quota, i).remaining == g.demand - WalkSum(g, quota, i)
  {
    if i > 0 {
      RemainingAt(g, quota, i - 1);
      if g.members[Visited(g, i - 1)].available {
        DemandLasts(g, quota, i - 1);
      }
    }
  }

  /** The step of the walk at which member `j` is visited. */
  ghost function StepOf(g: Group, j: nat): int
    requires g.Led() && j < |g.members|
  {
    if j >= g.lead then j - g.lead else j - g.lead + |g.members|
  }

  ghost function Loaded(m: Member, share: real): Member {
    if m.available then m.(load := share) else m
  }

  /** After `i` steps exactly the available members on those steps carry their share. */
  lemma {:induction false} MembersAt(g: Group, quota: seq<real>, i: nat)
    requires Covered(g, quota) && i <= |g.members|
    ensures forall j :: 0 <= j < |g.members| ==>
              WalkTo(g, quota, i).members[j] == if StepOf(g, j) < i then Loaded(g.members[j], quota[j]) else g.members[j]
  {
    if i > 0 {
      MembersAt(g, quota, i - 1);
      if g.members[Visited(g, i - 1)].available {
        RemainingAt(g, quota, i - 1);
        DemandLasts(g, quota, i - 1);
      }
    }
  }

  /** The available members on the first `i` steps, in walk order. */
  ghost function OnTheWay(g: Group, i: nat): seq<nat>
    requires g.members != [] && g.WellFormed() && i <= |g.members|
  {
    if i == 0 then [] else
      var c := Visited(g, i - 1);
      OnTheWay(g, i - 1) + if g.members[c].available then [c] else []
  }

  lemma {:induction false} ServedAt(g: Group, quota: seq<real>, i: nat)
    requires Covered(g, quota) && i <= |g.members|
    ensures WalkTo(g, quota, i).served == OnTheWay(g, i)
  {
    if i > 0 {
      ServedAt(g, quota, i - 1);
      if g.members[Visited(g, i - 1)].available {
        RemainingAt(g, quota, i - 1);
        DemandLasts(g, quota, i - 1);
      }
    }
  }

  /** The walk passes every available member once. */
  lemma {:induction false} OnTheWayExactly(g: Group, i: nat)
    requires g.members != [] && g.WellFormed() && i <= |g.members|
    ensures forall j: nat :: j in OnTheWay(g, i) <==> j < |g.members| && g.members[j].available && StepOf(g, j) < i
    ensures forall k, l :: 0 <= k < l < |OnTheWay(g, i)| ==> OnTheWay(g, i)[k] != OnTheWay(g, i)[l]
  {
    if i > 0 {
      OnTheWayExactly(g, i - 1);
      var c, before := Visited(g, i - 1), OnTheWay(g, i - 1);
      assert StepOf(g, c) == i - 1;
      assert c !in before;
      assert forall k :: 0 <= k < |before| ==> before[k] in before;
    }
  }

  /** The load carried by the available members among the first `n`. */
  function TotalLoad(members: seq<Member>, n: nat): real
    requires n <= |members|
  {
    if n == 0 then 0.0 else TotalLoad(members, n - 1) + if members[n - 1].available then members[n - 1].load else 0.0
  }

  lemma {:induction false} LoadSum(g: Group, after: seq<Member>, quota: seq<real>, n: nat)
    requires n <= |g.members| == |after| == |quota|
    requires forall j :: 0 <= j < n ==> after[j] == Loaded(g.members[j], quota[j])
    ensures TotalLoad(after, n) == QuotaSum(g, quota, n)
  {
    if n > 0 {
      LoadSum(g, after, quota, n - 1);
    }
  }

  ghost predicate Sharing(g: Group) {
    && g.WellFormed() && PositiveCapacities(g) && g.demand > 0.0
    && exists j :: 0 <= j < |g.members| && g.members[j].available
  }

  lemma {:induction false} CapacityPositive(g: Group, j: nat, n: nat)
    requires PositiveCapacities(g) && j < n <= |g.members| && g.members[j].available
    ensures Capacity(g.members, n) > 0.0
  {
    CapacityNonNegative(g, n - 1);
    if j < n - 1 {
      CapacityPositive(g, j, n - 1);
    }
  }

  lemma {:induction false} CapacityNonNegative(g: Group, n: nat)
    requires PositiveCapacities(g) && n <= |g.members|
    ensures Capacity(g.members, n) >= 0.0
  {
    if n > 0 {
      CapacityNonNegative(g, n - 1);
    }
  }

  ghost function FractionOf(g: Group): real
    requires Capacity(g.members, |g.members|) > 0.0
  {
    Fraction(g.demand, Capacity(g.members, |g.members|))
  }

  lemma CapacityOfSharing(g: Group)
    requires Sharing(g)
    ensures Capacity(g.members, |g.members|) > 0.0
  {
    var j :| 0 <= j < |g.members| && g.members[j].available;
    CapacityPositive(g, j, |g.members|);
  }

  lemma QuotaAt(g: Group, j: nat)
    requires Sharing(g) && j < |g.members| && g.members[j].available
    ensures Capacity(g.members, |g.members|) > 0.0
    ensures Quota(g)[j] == g.members[j].capacity * FractionOf(g)
  {
    CapacityOfSharing(g);
    ShareIsFraction(g.members[j], Capacity(g.members, |g.members|), g.demand);
  }

  lemma Spread(f: real, a: real, b: real)
    ensures f * (a + b) == f * a + b * f
  {}

  /** The member is due the fraction `f` of what it can carry. */
  ghost predicate DueShare(m: Member, quota: real, f: real)
    ensures DueShare(m, quota, f) ==> Due(m, quota) == AvailableCapacity(m) * f
  {
    Due(m, quota) == AvailableCapacity(m) * f
  }

  lemma DueIsFraction(g: Group, j: nat)
    requires Sharing(g) && j < |g.members|
    ensures Capacity(g.members, |g.members|) > 0.0
    ensures DueShare(g.members[j], Quota(g)[j], FractionOf(g))
  {
    CapacityOfSharing(g);
    if g.members[j].available {
      QuotaAt(g, j);
    }
  }

  lemma {:induction false} SumIsFraction(g: Group, quota: seq<real>, f: real, n: nat)
    requires n <= |g.members| == |quota|
    requires forall j :: 0 <= j < n ==> DueShare(g.members[j], quota[j], f)
    ensures QuotaSum(g, quota, n) == f * Capacity(g.members, n)
  {
    if n > 0 {
      SumIsFraction(g, quota, f, n - 1);
      assert DueShare(g.members[n - 1], quota[n - 1], f);
      Spread(f, Capacity(g.members, n - 1), AvailableCapacity(g.members[n - 1]));
    }
  }

  lemma FractionFacts(demand: real, total: real)
    requires demand > 0.0 && total > 0.0
    ensures 0.0 < Fraction(demand, total) <= 1.0
    ensures Fraction(demand, total) * total == Min(demand, total)
  {
    Quotient(demand, total);
  }

  lemma QuotaPositive(g: Group, j: nat)
    requires Sharing(g) && j < |g.members| && g.members[j].available
    ensures Capacity(g.members, |g.members|) > 0.0
    ensures Quota(g)[j] > 0.0
  {
    CapacityOfSharing(g);
    FractionFacts(g.demand, Capacity(g.members, |g.members|));
    QuotaAt(g, j);
    ScaleLess(g.members[j].capacity, 0.0, FractionOf(g));
  }

  lemma QuotaFraction(g: Group)
    requires Sharing(g)
    ensures Capacity(g.members, |g.members|) > 0.0
    ensures QuotaSum(g, Quota(g), |g.members|) == FractionOf(g) * Capacity(g.members, |g.members|)
  {
    CapacityOfSharing(g);
    var f := FractionOf(g);
    forall j | 0 <= j < |g.members| ensures DueShare(g.members[j], Quota(g)[j], f) {
      DueIsFraction(g, j);
    }
    SumIsFraction(g, Quota(g), f, |g.members|);
  }

  lemma QuotaTotal(g: Group)
    requires Sharing(g)
    ensures Capacity(g.members, |g.members|) > 0.0
    ensures QuotaSum(g, Quota(g), |g.members|) == Min(g.demand, Capacity(g.members, |g.members|))
  {
    QuotaFraction(g);
    FractionFacts(g.demand, Capacity(g.members, |g.members|));
  }

  lemma QuotaIsCovered(g: Group)
    requires Sharing(g)
    ensures Capacity(g.members, |g.members|) > 0.0
    ensures Covered(g, Quota(g))
    ensures QuotaSum(g, Quota(g), |g.members|) == Min(g.demand, Capacity(g.members, |g.members|))
  {
    QuotaTotal(g);
    forall j | 0 <= j < |g.members| && g.members[j].available ensures Quota(g)[j] > 0.0 {
      QuotaPositive(g, j);
    }
  }

  /** Conservation: with demand D and available capacity C, every available member ends at
      capacity * min(1, D / C), the others keep their load, and the loads add up to min(D, C). */
  lemma DemandConserved(g: Group)
    requires Sharing(g)
    ensures Capacity(g.members, |g.members|) > 0.0
    ensures |Distributed(g).members| == |g.members|
    ensures forall j :: 0 <= j < |g.members| ==>
              Distributed(g).members[j] == Loaded(g.members[j], g.members[j].capacity * FractionOf(g))
    ensures TotalLoad(Distributed(g).members, |g.members|) == Min(g.demand, Capacity(g.members, |g.members|))
  {
    QuotaIsCovered(g);
    MembersAt(g, Quota(g), |g.members|);
    LoadSum(g, Distributed(g).members, Quota(g), |g.members|);
    forall j | 0 <= j < |g.members|
      ensures Distributed(g).members[j] == Loaded(g.members[j], g.members[j].capacity * FractionOf(g))
    {
      if g.members[j].available {
        QuotaAt(g, j);
      }
    }
  }

  /** Every member of `out` carries the fraction of its capacity, or its old load when unavailable. */
  ghost predicate SharesOut(ms: seq<Member>, fraction: real, out: seq<Member>) {
    |out| == |ms| && forall j :: 0 <= j < |ms| ==> out[j] == Loaded(ms[j], ms[j].capacity * fraction)
  }

  lemma SharedOut(g: Group)
    requires Sharing(g)
    ensures Capacity(g.members, |g.members|) > 0.0
    ensures SharesOut(g.members, FractionOf(g), Distributed(g).members)
  {
    DemandConserved(g);
  }

  lemma SameLoads(ms: seq<Member>, fraction: real, a: seq<Member>, b: seq<Member>)
    requires SharesOut(ms, fraction, a) && SharesOut(ms, fraction, b)
    ensures a == b
  {
    assert forall j :: 0 <= j < |ms| ==> a[j] == b[j];
  }

  /** Who leads does not matter for the loads. */
  lemma LeadIndependent(g: Group, lead: nat)
    requires Sharing(g) && lead < |g.members|
    ensures Distributed(g.(lead := lead)).members == Distributed(g).members
  {
    var g' := g.(lead := lead);
    SharedOut(g);
    SharedOut(g');
    SameLoads(g.members, FractionOf(g), Distributed(g).members, Distributed(g').members);
  }

  /** Without demand nothing is touched: earlier loads stay as they are. */
  lemma NoDemandNoChange(g: Group)
    requires g.WellFormed() && g.demand <= 0.0
    ensures Distributed(g) == g && DistributionWrites(g) == []
  {
    if !Idle(g) {
      WalkStopped(g, Quota(g), 0, |g.members|);
      assert WritesOf(g, Quota(g), []) == [];
    }
  }

  lemma WriteAtFraction(m: Member, f: real)
    requires m.capacity > 0.0 && 0.0 < f <= 1.0
    ensures WriteFor(m, m.capacity * f) == Write(m.station, m.slot, Pwm, (f * 100.0).Floor)
    ensures 0 <= (f * 100.0).Floor <= 100
  {
    ScaleLess(m.capacity, 0.0, f);
    assert (m.capacity * f) / m.capacity == f;
  }

  lemma WriteOfMember(g: Group, j: nat)
    requires Sharing(g) && j < |g.members| && g.members[j].available
    ensures Capacity(g.members, |g.members|) > 0.0
    ensures WriteFor(g.members[j], Quota(g)[j])
         == Write(g.members[j].station, g.members[j].slot, Pwm, (FractionOf(g) * 100.0).Floor)
    ensures 0 <= (FractionOf(g) * 100.0).Floor <= 100
  {
    QuotaAt(g, j);
    FractionFacts(g.demand, Capacity(g.members, |g.members|));
    var m, f := g.members[j], FractionOf(g);
    WriteAtFraction(m, f);
    assert Quota(g)[j] == m.capacity * f;
  }

  /** Each available member is sent exactly one write, a PWM duty between 0 and 100. */
  lemma EveryMemberWrittenOnce(g: Group)
    requires Sharing(g)
    ensures Capacity(g.members, |g.members|) > 0.0
    ensures var order := OnTheWay(g, |g.members|);
            && (forall j: nat :: j in order <==> j < |g.members| && g.members[j].available)
            && (forall k, l :: 0 <= k < l < |order| ==> order[k] != order[l])
            && |DistributionWrites(g)| == |order|
            && (forall k :: 0 <= k < |order| ==> order[k] < |g.members|)
            && (forall k :: 0 <= k < |order| ==>
                 var m, w := g.members[order[k]], DistributionWrites(g)[k];
                 w == Write(m.station, m.slot, Pwm, (FractionOf(g) * 100.0).Floor) && 0 <= w.duty <= 100)
  {
    QuotaIsCovered(g);
    ServedAt(g, Quota(g), |g.members|);
    OnTheWayExactly(g, |g.members|);
    var order := OnTheWay(g, |g.members|);
    forall k | 0 <= k < |order|
      ensures order[k] < |g.members|
      ensures DistributionWrites(g)[k] == Write(g.members[order[k]].station, g.members[order[k]].slot, Pwm,
                                                (FractionOf(g) * 100.0).Floor)
      ensures 0 <= DistributionWrites(g)[k].duty <= 100
    {
      assert order[k] in order;
      WriteOfMember(g, order[k]);
    }
  }

  // ----- Rotation of the lead -----

  /** How many places after the lead the next available member is; a full circle if there is none. */
  ghost function NextStep(g: Group, k: nat): (r: nat)
    requires g.Led() && 1 <= k <= |g.members|
    ensures k <= r <= |g.members|
    ensures r < |g.members| ==> g.members[Visited(g, r)].available
    ensures forall i :: k <= i < r ==> !g.members[Visited(g, i)].available
    decreases |g.members| - k
  {
    if k == |g.members| || g.members[Visited(g, k)].available then k else NextStep(g, k + 1)
  }

  ghost function NextLead(g: Group): nat
    requires g.Led()
  {
    Visited(g, NextStep(g, 1))
  }

  ghost predicate Candidate(m: Member) {
    m.available && m.runtime < WORD - 1
  }

  /** The first available member of least runtime among the first `n`, or -1. */
  ghost function LowestRuntime(members: seq<Member>, n: nat): (r: int)
    requires n <= |members|
    ensures -1 <= r < n
    ensures r == -1 <==> forall j :: 0 <= j < n ==> !Candidate(members[j])
    ensures r >= 0 ==> Candidate(members[r])
    ensures r >= 0 ==> forall j :: 0 <= j < n && Candidate(members[j]) ==>
              members[r].runtime < members[j].runtime || (members[r].runtime == members[j].runtime && r <= j)
  {
    if n == 0 then -1 else
      var r := LowestRuntime(members, n - 1);
      var m := members[n - 1];
      if Candidate(m) && (r == -1 || m.runtime < members[r].runtime) then n - 1 else r
  }

  ghost function Rotated(g: Group, now: nat): Group
    requires g.CanRotate()
  {
    if g.wearLeveling then
      var lead := LowestRuntime(g.members, |g.members|);
      if lead >= 0 && lead != g.lead then g.(lead := lead, lastRotation := now) else g
    else
      g.(lead := NextLead(Anchored(g)), lastRotation := now)
  }

  /** The group with a lead in range: the member before the one the search for the next lead starts at. */
  ghost function Anchored(g: Group): (r: Group)
    requires g.members != []
    ensures r.Led() && (g.Led() ==> r == g)
  {
    var n := |g.members|;
    var first := (g.lead + 1) % n;
    if g.Led() then g else g.(lead := if first == 0 then n - 1 else first - 1)
  }

  /** `t` round-robin rotations with availability unchanged. */
  ghost function Turned(g: Group, t: nat): (r: Group)
    requires g.Led()
    ensures r.Led() && r.members == g.members
  {
    if t == 0 then g else NextTurn(Turned(g, t - 1))
  }

  ghost function NextTurn(g: Group): (r: Group)
    requires g.Led()
    ensures r.Led() && r.members == g.members
  {
    g.(lead := NextLead(g))
  }

  lemma {:induction false} TurnedFirst(g: Group, t: nat)
    requires g.Led()
    ensures Turned(NextTurn(g), t) == Turned(g, t + 1)
  {
    if t > 0 {
      TurnedFirst(g, t - 1);
    }
  }

  /** Round-robin rotation is fair: every available member leads after at most as many rotations as
      it is places away from the current lead. */
  lemma {:induction false} EveryMemberLeads(g: Group, j: nat) returns (t: nat)
    requires g.Led() && j < |g.members| && g.members[j].available
    ensures t <= StepOf(g, j) && Turned(g, t).lead == j
    decreases StepOf(g, j)
  {
    var d := StepOf(g, j);
    if d == 0 {
      t := 0;
    } else {
      assert Visited(g, d) == j;
      assert NextStep(g, 1) <= d;
      var g1 := NextTurn(g);
      assert StepOf(g1, j) == d - NextStep(g, 1);
      var s := EveryMemberLeads(g1, j);
      TurnedFirst(g, s);
      t := s + 1;
    }
  }

  // ----- The periodic step -----

  /** Availability follows the connection state of the registered devices. */
  ghost function Refreshed(g: Group, devices: map<string, bool>): Group {
    g.(members := seq(|g.members|, j requires 0 <= j < |g.members| =>
      if g.members[j].station in devices then g.members[j].(available := devices[g.members[j].station])
      else g.members[j]))
  }

  ghost predicate RotationDue(g: Group, now: nat) {
    g.rotationInterval > 0 && Elapsed(now, g.lastRotation) >= g.rotationInterval
  }

  ghost function RotatedWhenDue(g: Group, now: nat): Group
    requires RotationDue(g, now) ==> g.CanRotate()
  {
    if RotationDue(g, now) then Rotated(g, now) else g
  }

  ghost function Aged(g: Group, dt: nat): Group {
    g.(members := seq(|g.members|, j requires 0 <= j < |g.members| =>
      if g.members[j].load > 0.0 then g.members[j].(runtime := g.members[j].runtime + dt) else g.members[j]))
  }

  /** The group as the registry, if there is one, shows it. */
  ghost function Seen(hasRegistry: bool, g: Group, devices: map<string, bool>): Group {
    if hasRegistry then Refreshed(g, devices) else g
  }

  /** What a process step demands of a group: it can rotate if that is due, and share out the load after that. */
  ghost predicate CanStep(hasRegistry: bool, g: Group, devices: map<string, bool>, now: nat) {
    var seen := Seen(hasRegistry, g, devices);
    g.enabled ==> (RotationDue(seen, now) ==> seen.CanRotate()) && (hasRegistry ==> CanShare(RotatedWhenDue(seen, now)))
  }

  /** A group refreshed, rotated and aged, before the load is shared out. */
  ghost function Readied(hasRegistry: bool, g: Group, devices: map<string, bool>, now: nat, dt: nat): (r: Group)
    requires g.enabled && CanStep(hasRegistry, g, devices, now)
    ensures r.id == g.id && (hasRegistry ==> CanShare(r))
  {
    var rotated := RotatedWhenDue(Seen(hasRegistry, g, devices), now);
    AgedSame(rotated, dt);
    Aged(rotated, dt)
  }

  /** What one process step makes of a group. */
  ghost function Stepped(hasRegistry: bool, g: Group, devices: map<string, bool>, now: nat, dt: nat): (r: Group)
    requires CanStep(hasRegistry, g, devices, now)
    ensures r.id == g.id
  {
    if !g.enabled then g
    else if hasRegistry then Distributed(Readied(hasRegistry, g, devices, now, dt))
    else Readied(hasRegistry, g, devices, now, dt)
  }

  /** The writes of one process step. */
  ghost function StepWrites(hasRegistry: bool, g: Group, devices: map<string, bool>, now: nat, dt: nat): seq<Write>
    requires CanStep(hasRegistry, g, devices, now)
  {
    if hasRegistry && g.enabled then DistributionWrites(Readied(hasRegistry, g, devices, now, dt)) else []
  }

  /** What every configured group brings: a lead in range, members with a capacity. */
  ghost predicate Ready(g: Group) {
    && (if g.members == [] then g.wearLeveling else 0 <= g.lead < |g.members|)
    && forall j :: 0 <= j < |g.members| ==> g.members[j].capacity != 0.0
  }

  /** Every stage of the step keeps a group ready. */
  lemma StagesKeepReady(g: Group, devices: map<string, bool>, now: nat, dt: nat)
    requires Ready(g)
    ensures Ready(Refreshed(g, devices)) && Ready(Rotated(g, now)) && Ready(Aged(g, dt)) && Ready(Distributed(g))
  {
    if !Idle(g) {
      WalkKeeps(g, Quota(g), |g.members|);
    }
  }

  lemma ReadyIsWellFormed(g: Group)
    requires Ready(g)
    ensures g.WellFormed() && g.CanRotate()
  {
  }

  /** So a ready group can take a step in any surroundings, and is ready for the next one. */
  lemma ReadyForEver(hasRegistry: bool, g: Group, devices: map<string, bool>, now: nat, dt: nat)
    requires Ready(g)
    ensures CanStep(hasRegistry, g, devices, now) && Ready(Stepped(hasRegistry, g, devices, now, dt))
  {
    var seen := Seen(hasRegistry, g, devices);
    StagesKeepReady(g, devices, now, dt);
    ReadyIsWellFormed(seen);
    var rotated := RotatedWhenDue(seen, now);
    StagesKeepReady(seen, devices, now, dt);
    ReadyIsWellFormed(rotated);
    StagesKeepReady(rotated, devices, now, dt);
    StagesKeepReady(Aged(rotated, dt), devices, now, dt);
  }

  lemma {:induction false} CapacityCongruent(a: seq<Member>, b: seq<Member>, n: nat)
    requires n <= |a| == |b|
    requires forall j :: 0 <= j < n ==> a[j].capacity == b[j].capacity && a[j].available == b[j].available
    ensures Capacity(a, n) == Capacity(b, n)
  {
    if n > 0 {
      CapacityCongruent(a, b, n - 1);
    }
  }

  /** Ageing changes nothing the walk looks at. */
  lemma AgedSame(g: Group, dt: nat)
    ensures Capacity(Aged(g, dt).members, |g.members|) == Capacity(g.members, |g.members|)
    ensures CanShare(Aged(g, dt)) <==> CanShare(g)
  {
    CapacityCongruent(Aged(g, dt).members, g.members, |g.members|);
    AgedWellFormed(g, dt);
  }

  lemma AgedWellFormed(g: Group, dt: nat)
    ensures Aged(g, dt).WellFormed() <==> g.WellFormed()
  {
    var h := Aged(g, dt);
    forall j | 0 <= j < |g.members| ensures h.members[j].available == g.members[j].available
                                         && h.members[j].capacity == g.members[j].capacity
    {
    }
  }

  lemma SharingCanRotate(g: Group, now: nat)
    requires Sharing(g)
    ensures g.CanRotate() && Sharing(Rotated(g, now))
  {
    var h := Rotated(g, now);
    assert h.members == g.members;
  }

  lemma SharingAged(g: Group, dt: nat)
    requires Sharing(g)
    ensures Sharing(Aged(g, dt))
  {
    AgedWellFormed(g, dt);
    var h := Aged(g, dt);
    var j :| 0 <= j < |g.members| && g.members[j].available;
    assert h.members[j].available;
  }

  /** One process step of an enabled group meets as much of the demand as the running members can. */
  lemma ProcessConserves(g: Group, devices: map<string, bool>, now: nat, dt: nat)
    requires g.enabled && Sharing(Refreshed(g, devices))
    ensures CanStep(true, g, devices, now)
    ensures var after := Stepped(true, g, devices, now, dt);
            && |after.members| == |g.members|
            && TotalLoad(after.members, |g.members|)
               == Min(g.demand, Capacity(Refreshed(g, devices).members, |g.members|))
  {
    var seen := Refreshed(g, devices);
    SharingCanRotate(seen, now);
    var rotated := RotatedWhenDue(seen, now);
    assert rotated.members == seen.members && rotated.demand == g.demand;
    SharingAged(rotated, dt);
    AgedSame(rotated, dt);
    DemandConserved(Aged(rotated, dt));
  }
}
