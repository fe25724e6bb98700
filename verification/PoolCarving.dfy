/** init: carving the pool into one region per expert group, appending the device
    regions, and the column layout of the slots inside a region. Budget shares are
    exact quotients here. */
module PoolCarving {
  import opened Basics
  import opened PoolState
  import opened PoolNoStall

  const MAX_EXPERTS: nat := 512

  /** Experts of equal size; columns are the per-expert strides of their tensors. */
  datatype Group = Group(layers: seq<nat>, columns: seq<nat>, expertSize: nat, totalBytes: nat)

  /** A caller's device region; usable: it has a host-mapped base. */
  datatype DeviceRegion = DeviceRegion(usable: bool, pool: nat, group: nat, nSlots: nat)

  datatype Topology = Topology(nLayers: nat, nExperts: nat, groups: seq<Group>) {

    /** As built by the loader: every group has a layer, no layer is in two groups,
        an expert is as large as its columns together. */
    ghost predicate Valid() {
      && (forall i :: 0 <= i < |groups| ==>
            groups[i].layers != [] && groups[i].expertSize == Before(groups[i].columns, |groups[i].columns|) > 0)
      && (forall i, l :: 0 <= i < |groups| && l in groups[i].layers ==> l < nLayers)
      && (forall i, j, l ::
           0 <= i < |groups| && 0 <= j < |groups| && l in groups[i].layers && l in groups[j].layers ==> i == j)
    }
  }

  datatype Carved =
    | TooManyExperts
    | NoGroups
    | TooSmall
    | Ok(regions: seq<Region>, nSlots: nat, nPools: nat, commit: nat, bases: seq<Option<nat>>)

  // ---- budgets --------------------------------------------------------------------------

  function TotalTo(groups: seq<Group>, n: nat): nat
    requires n <= |groups|
  {
    if n == 0 then 0 else TotalTo(groups, n - 1) + groups[n - 1].totalBytes
  }

  function FloorTo(topo: Topology, n: nat): nat
    requires n <= |topo.groups|
  {
    if n == 0 then 0 else FloorTo(topo, n - 1) + topo.nExperts * topo.groups[n - 1].expertSize
  }

  /** A group's part of the bytes above all floors. */
  function Share(spare: nat, bytes: nat, total: nat): nat
    requires total > 0
  {
    spare * bytes / total
  }

  function Budget(topo: Topology, i: nat, spare: nat, total: nat): nat
    requires i < |topo.groups| && total > 0
  {
    topo.nExperts * topo.groups[i].expertSize + Share(spare, topo.groups[i].totalBytes, total)
  }

  function SlotCount(topo: Topology, i: nat, spare: nat, total: nat): nat
    requires i < |topo.groups| && topo.groups[i].expertSize > 0 && total > 0
  {
    var all := |topo.groups[i].layers| * topo.nExperts;
    var ns := Budget(topo, i, spare, total) / topo.groups[i].expertSize;
    var atLeast := if ns < topo.nExperts then topo.nExperts else ns;
    if atLeast > all then all else atLeast
  }

  /** A region holds at least one full layer, at most the group's experts, and stays in its budget. */
  lemma SlotCountBounds(topo: Topology, i: nat, spare: nat, total: nat)
    requires topo.Valid() && i < |topo.groups| && total > 0
    ensures topo.nExperts <= SlotCount(topo, i, spare, total) <= |topo.groups[i].layers| * topo.nExperts
    ensures SlotCount(topo, i, spare, total) * topo.groups[i].expertSize <= Budget(topo, i, spare, total)
  {
    var es, b, n, ls := topo.groups[i].expertSize, Budget(topo, i, spare, total), topo.nExperts,
        |topo.groups[i].layers|;
    hide Budget;
    MulMono(1, ls, n);
    DivMul(b, es);
    assert b >= n * es by { BudgetAboveFloor(topo, i, spare, total); }
    MulMono(SlotCount(topo, i, spare, total), if b / es < n then n else b / es, es);
  }

  lemma BudgetAboveFloor(topo: Topology, i: nat, spare: nat, total: nat)
    requires i < |topo.groups| && total > 0
    ensures Budget(topo, i, spare, total) >= topo.nExperts * topo.groups[i].expertSize
  {
  }

  /** Bytes of the first n groups' regions. */
  function CommitTo(topo: Topology, counts: seq<nat>, n: nat): nat
    requires n <= |topo.groups| && n <= |counts|
  {
    if n == 0 then 0 else CommitTo(topo, counts, n - 1) + counts[n - 1] * topo.groups[n - 1].expertSize
  }

  function ShareTo(groups: seq<Group>, spare: nat, total: nat, n: nat): nat
    requires n <= |groups| && total > 0
  {
    if n == 0 then 0 else ShareTo(groups, spare, total, n - 1) + Share(spare, groups[n - 1].totalBytes, total)
  }

  lemma {:induction false} SharesFit(groups: seq<Group>, spare: nat, total: nat, n: nat)
    requires n <= |groups| && total > 0
    ensures ShareTo(groups, spare, total, n) * total <= spare * TotalTo(groups, n)
  {
    if n > 0 {
      var tb := groups[n - 1].totalBytes;
      SharesFit(groups, spare, total, n - 1);
      DivMul(spare * tb, total);
      Distribute(ShareTo(groups, spare, total, n - 1), Share(spare, tb, total), total);
      Distribute(TotalTo(groups, n - 1), tb, spare);
    }
  }

  /** The shares together are at most the spare bytes. */
  lemma SharesWithinSpare(groups: seq<Group>, spare: nat)
    requires TotalTo(groups, |groups|) > 0
    ensures ShareTo(groups, spare, TotalTo(groups, |groups|), |groups|) <= spare
  {
    var total := TotalTo(groups, |groups|);
    var shares := ShareTo(groups, spare, total, |groups|);
    SharesFit(groups, spare, total, |groups|);
    if shares > spare { MulMono(spare + 1, shares, total); }
  }

  ghost predicate Counts(topo: Topology, counts: seq<nat>, spare: nat, total: nat, n: nat)
    requires topo.Valid() && n <= |topo.groups| && total > 0
  {
    |counts| == n && forall i :: 0 <= i < n ==> counts[i] == SlotCount(topo, i, spare, total)
  }

  lemma {:induction false} CommitWithinBudgets(topo: Topology, counts: seq<nat>, spare: nat, total: nat, n: nat)
    requires topo.Valid() && n <= |topo.groups| && total > 0
    requires |counts| >= n && forall i :: 0 <= i < n ==> counts[i] == SlotCount(topo, i, spare, total)
    ensures CommitTo(topo, counts, n) <= FloorTo(topo, n) + ShareTo(topo.groups, spare, total, n)
  {
    hide SlotCount, Share;
    if n > 0 {
      CommitWithinBudgets(topo, counts, spare, total, n - 1);
      SlotCountBounds(topo, n - 1, spare, total);
    }
  }

  /** The carved regions never exceed the pool. */
  lemma CommitFits(topo: Topology, counts: seq<nat>, poolBytes: nat)
    requires topo.Valid() && TotalTo(topo.groups, |topo.groups|) > 0 && FloorTo(topo, |topo.groups|) <= poolBytes
    requires Counts(topo, counts, poolBytes - FloorTo(topo, |topo.groups|), TotalTo(topo.groups, |topo.groups|),
               |topo.groups|)
    ensures CommitTo(topo, counts, |topo.groups|) <= poolBytes
  {
    hide SlotCount, Share;
    var n := |topo.groups|;
    var spare, total := poolBytes - FloorTo(topo, n), TotalTo(topo.groups, n);
    CommitWithinBudgets(topo, counts, spare, total, n);
    SharesWithinSpare(topo.groups, spare);
  }

  // ---- init ----------------------------------------------------------------------------------

  /** The slot runs follow each other from slot 0 to slot n. */
  ghost predicate Consecutive(regions: seq<Region>, n: nat) {
    && (regions == [] ==> n == 0)
    && (regions != [] ==> regions[0].first == 0 && regions[|regions| - 1].first + regions[|regions| - 1].count == n)
    && forall i :: 0 < i < |regions| ==> regions[i].first == regions[i - 1].first + regions[i - 1].count
  }

  ghost predicate RamRegion(topo: Topology, counts: seq<nat>, i: nat, r: Region)
    requires i < |topo.groups| && i < |counts|
  {
    r.pool == 0 && r.group == i && r.count == counts[i] && r.geometry == topo.groups[i].expertSize
  }

  predicate Accepted(topo: Topology, v: DeviceRegion) {
    v.usable && v.group < |topo.groups| && v.nSlots > 0
  }

  function AcceptedOf(topo: Topology, vs: seq<DeviceRegion>): seq<DeviceRegion> {
    if vs == [] then []
    else AcceptedOf(topo, vs[..|vs| - 1]) + if Accepted(topo, vs[|vs| - 1]) then [vs[|vs| - 1]] else []
  }

  ghost predicate DeviceRun(topo: Topology, v: DeviceRegion, r: Region) {
    && v.group < |topo.groups|
    && r.pool == v.pool && r.group == v.group && r.count == v.nSlots && r.geometry == topo.groups[v.group].expertSize
  }

  /** What init carves: per group one RAM region of the computed size, then one run
      per accepted device region, all of them back to back. */
  ghost predicate IsCarving(topo: Topology, vs: seq<DeviceRegion>, counts: seq<nat>, regions: seq<Region>,
                            nSlots: nat, nPools: nat)
    requires |counts| == |topo.groups|
  {
    var n := |topo.groups|;
    && |regions| == n + |AcceptedOf(topo, vs)| && Consecutive(regions, nSlots)
    && (forall i :: 0 <= i < n ==> RamRegion(topo, counts, i, regions[i]))
    && (forall i :: 0 <= i < |AcceptedOf(topo, vs)| ==> DeviceRun(topo, AcceptedOf(topo, vs)[i], regions[n + i]))
    && nPools >= 1 && (forall i :: 0 <= i < |regions| ==> regions[i].pool < nPools)
    && (nPools > 1 ==> exists i :: 0 <= i < |regions| && regions[i].pool == nPools - 1)
  }

  lemma AppendRun(regions: seq<Region>, n: nat, r: Region)
    requires Consecutive(regions, n) && r.first == n
    ensures Consecutive(regions + [r], n + r.count)
  {
  }

  method SumGroups(topo: Topology) returns (total: nat, floor: nat)
    ensures total == TotalTo(topo.groups, |topo.groups|) && floor == FloorTo(topo, |topo.groups|)
  {
    total, floor := 0, 0;
    for i := 0 to |topo.groups|
      invariant total == TotalTo(topo.groups, i) && floor == FloorTo(topo, i)
    {
      total := total + topo.groups[i].totalBytes;
      floor := floor + topo.nExperts * topo.groups[i].expertSize;
    }
  }

  method CarveRam(topo: Topology, spare: nat, total: nat) returns (regions: seq<Region>, nSlots: nat, counts: seq<nat>)
    requires topo.Valid() && total > 0
    ensures |regions| == |topo.groups| && Consecutive(regions, nSlots) &&
              Counts(topo, counts, spare, total, |topo.groups|)
    ensures forall i :: 0 <= i < |topo.groups| ==> RamRegion(topo, counts, i, regions[i])
  {
    hide SlotCount, Consecutive;
    regions, nSlots, counts := [], 0, [];
    NoRuns();
    for i := 0 to |topo.groups|
      invariant |regions| == i && Consecutive(regions, nSlots) && Counts(topo, counts, spare, total, i)
      invariant forall j :: 0 <= j < i ==> RamRegion(topo, counts, j, regions[j])
    {
      var g := topo.groups[i];
      var budget := topo.nExperts * g.expertSize + spare * g.totalBytes / total;
      var ns := budget / g.expertSize;
      if ns < topo.nExperts { ns := topo.nExperts; }
      if ns > |g.layers| * topo.nExperts { ns := |g.layers| * topo.nExperts; }
      assert ns == SlotCount(topo, i, spare, total) by { SlotCountIs(topo, i, spare, total, ns); }
      var r := Region(0, i, nSlots, ns, g.expertSize);
      AppendRun(regions, nSlots, r);
      regions, counts := regions + [r], counts + [ns];
      nSlots := nSlots + ns;
    }
  }

  lemma NoRuns()
    ensures Consecutive([], 0)
  {
  }

  lemma SlotCountIs(topo: Topology, i: nat, spare: nat, total: nat, ns: nat)
    requires i < |topo.groups| && topo.groups[i].expertSize > 0 && total > 0
    requires var g := topo.groups[i];
             var q := (topo.nExperts * g.expertSize + spare * g.totalBytes / total) / g.expertSize;
             var m := if q < topo.nExperts then topo.nExperts else q;
             ns == if m > |g.layers| * topo.nExperts then |g.layers| * topo.nExperts else m
    ensures ns == SlotCount(topo, i, spare, total)
  {
  }

  /** Device regions without a base, without a group or without slots are skipped. */
  method AppendDevices(topo: Topology, vs: seq<DeviceRegion>, ram: seq<Region>, ramSlots: nat)
    returns (regions: seq<Region>, nSlots: nat, nPools: nat)
    requires Consecutive(ram, ramSlots) && forall i :: 0 <= i < |ram| ==> ram[i].pool == 0
    ensures ram <= regions && |regions| == |ram| + |AcceptedOf(topo, vs)| && Consecutive(regions, nSlots)
    ensures forall i :: 0 <= i < |AcceptedOf(topo, vs)| ==> DeviceRun(topo, AcceptedOf(topo, vs)[i], regions[|ram| + i])
    ensures nPools >= 1 && forall i :: 0 <= i < |regions| ==> regions[i].pool < nPools
    ensures nPools > 1 ==> exists i :: 0 <= i < |regions| && regions[i].pool == nPools - 1
  {
    hide Consecutive;
    regions, nSlots := ram, ramSlots;
    var maxPool := 0;
    ghost var at := 0;
    for n := 0 to |vs|
      invariant ram <= regions && |regions| == |ram| + |AcceptedOf(topo, vs[..n])| && Consecutive(regions, nSlots)
      invariant forall i ::
                  0 <= i < |AcceptedOf(topo, vs[..n])| ==>
                      DeviceRun(topo, AcceptedOf(topo, vs[..n])[i], regions[|ram| + i])
      invariant forall i :: 0 <= i < |regions| ==> regions[i].pool <= maxPool
      invariant maxPool > 0 ==> 0 <= at < |regions| && regions[at].pool == maxPool
    {
      var v := vs[n];
      assert vs[..n + 1][..n] == vs[..n];
      if !v.usable || v.group >= |topo.groups| || v.nSlots == 0 { continue; }
      var r := Region(v.pool, v.group, nSlots, v.nSlots, topo.groups[v.group].expertSize);
      AppendRun(regions, nSlots, r);
      if v.pool > maxPool { maxPool, at := v.pool, |regions|; }
      regions := regions + [r];
      nSlots := nSlots + v.nSlots;
    }
    assert vs[..|vs|] == vs;
    nPools := maxPool + 1;
  }

  // ---- the RAM allocation -------------------------------------------------------------------------

  /** Bytes of the first n regions that are in pool 0, whoever asked for them. */
  function RamCommit(regions: seq<Region>, n: nat): nat
    requires n <= |regions|
  {
    if n == 0 then 0
    else RamCommit(regions, n - 1) + if regions[n - 1].pool == 0 then regions[n - 1].count * regions[n - 1].geometry
        else 0
  }

  /** Bytes of the accepted device regions that name pool 0. */
  function PoolZeroBytes(topo: Topology, vs: seq<DeviceRegion>): nat {
    if vs == [] then 0
    else
      var v := vs[|vs| - 1];
      PoolZeroBytes(topo, vs[..|vs| - 1])
      + if Accepted(topo, v) && v.pool == 0 then v.nSlots * topo.groups[v.group].expertSize else 0
  }

  /** The second and third pass over the sub-pools: the size of the allocation, and the
      offset of every pool-0 region in it. */
  method PlaceInRam(regions: seq<Region>) returns (commit: nat, bases: seq<Option<nat>>)
    ensures commit == RamCommit(regions, |regions|) && |bases| == |regions|
    ensures forall i ::
              0 <= i < |regions| ==> bases[i] == if regions[i].pool == 0 then Some(RamCommit(regions, i)) else None
  {
    commit, bases := 0, [];
    for i := 0 to |regions|
      invariant commit == RamCommit(regions, i)
    {
      if regions[i].pool == 0 { commit := commit + regions[i].count * regions[i].geometry; }
    }
    var b: nat := 0;
    for i := 0 to |regions|
      invariant b == RamCommit(regions, i) && |bases| == i
      invariant forall j ::
                  0 <= j < i ==> bases[j] == if regions[j].pool == 0 then Some(RamCommit(regions, j)) else None
    {
      if regions[i].pool != 0 {
        bases := bases + [None];
      } else {
        bases := bases + [Some(b)];
        b := b + regions[i].count * regions[i].geometry;
      }
    }
  }

  /** Pool-0 regions lie one after the other inside the allocation. */
  lemma {:induction false} RamRunsApart(regions: seq<Region>, i: nat, n: nat)
    requires i < n <= |regions| && regions[i].pool == 0
    ensures RamCommit(regions, i) + regions[i].count * regions[i].geometry <= RamCommit(regions, n)
  {
    if i < n - 1 { RamRunsApart(regions, i, n - 1); }
  }

  lemma {:induction false} GroupsCommit(topo: Topology, counts: seq<nat>, regions: seq<Region>, n: nat)
    requires n <= |topo.groups| == |counts| && n <= |regions|
    requires forall i :: 0 <= i < n ==> RamRegion(topo, counts, i, regions[i])
    ensures RamCommit(regions, n) == CommitTo(topo, counts, n)
  {
    if n > 0 { GroupsCommit(topo, counts, regions, n - 1); }
  }

  lemma {:induction false} AcceptedBytes(topo: Topology, vs: seq<DeviceRegion>)
    ensures PoolZeroBytes(topo, AcceptedOf(topo, vs)) == PoolZeroBytes(topo, vs)
    ensures forall v :: v in AcceptedOf(topo, vs) ==> Accepted(topo, v) && v in vs
  {
    if vs != [] {
      var n := |vs| - 1;
      AcceptedBytes(topo, vs[..n]);
      var before := AcceptedOf(topo, vs[..n]);
      assert before + [] == before;
      if Accepted(topo, vs[n]) { assert (before + [vs[n]])[..|before|] == before; }
    }
  }

  lemma {:induction false} DevicesCommit(topo: Topology, acc: seq<DeviceRegion>, regions: seq<Region>, at: nat, n: nat)
    requires n <= |acc| && at + n <= |regions| && forall v :: v in acc ==> Accepted(topo, v)
    requires forall i :: 0 <= i < n ==> DeviceRun(topo, acc[i], regions[at + i])
    ensures RamCommit(regions, at + n) == RamCommit(regions, at) + PoolZeroBytes(topo, acc[..n])
  {
    if n > 0 {
      DevicesCommit(topo, acc, regions, at, n - 1);
      assert acc[..n][..n - 1] == acc[..n - 1] && acc[n - 1] in acc;
      assert DeviceRun(topo, acc[n - 1], regions[at + (n - 1)]);
    }
  }

  /** The allocation is the carved regions and, on top of the budget, every accepted
      device region that names pool 0. */
  lemma CommitIsCarvingAndPoolZero(topo: Topology, vs: seq<DeviceRegion>, counts: seq<nat>, regions: seq<Region>,
                                   nSlots: nat, nPools: nat)
    requires |counts| == |topo.groups| && IsCarving(topo, vs, counts, regions, nSlots, nPools)
    ensures RamCommit(regions, |regions|) == CommitTo(topo, counts, |topo.groups|) + PoolZeroBytes(topo, vs)
  {
    hide Consecutive, Accepted, AcceptedOf, PoolZeroBytes, RamCommit, CommitTo, RamRegion, DeviceRun;
    var acc := AcceptedOf(topo, vs);
    GroupsCommit(topo, counts, regions, |topo.groups|);
    AcceptedBytes(topo, vs);
    DevicesCommit(topo, acc, regions, |topo.groups|, |acc|);
    assert acc[..|acc|] == acc;
  }

  lemma {:induction false} NoPoolZeroBytes(topo: Topology, vs: seq<DeviceRegion>)
    requires topo.Valid()
    ensures PoolZeroBytes(topo, vs) == 0 <==> forall v :: v in vs && Accepted(topo, v) ==> v.pool != 0
  {
    if vs != [] {
      var n := |vs| - 1;
      NoPoolZeroBytes(topo, vs[..n]);
      assert vs == vs[..n] + [vs[n]];
      if Accepted(topo, vs[n]) { MulMono(1, vs[n].nSlots, topo.groups[vs[n].group].expertSize); }
    }
  }

  /** init fails exactly for too many experts, no expert bytes, or a pool below the
      floor of one full layer per group; otherwise it carves the pool. */
  method Carve(topo: Topology, poolBytes: nat, vs: seq<DeviceRegion>) returns (c: Carved, ghost counts: seq<nat>)
    requires topo.Valid()
    ensures c.TooManyExperts? <==> topo.nExperts > MAX_EXPERTS
    ensures c.NoGroups? <==> topo.nExperts <= MAX_EXPERTS && TotalTo(topo.groups, |topo.groups|) == 0
    ensures c.TooSmall? <==>
              topo.nExperts <= MAX_EXPERTS && TotalTo(topo.groups, |topo.groups|) > 0 &&
                  FloorTo(topo, |topo.groups|) > poolBytes
    ensures c.Ok? ==>
              && Counts(topo, counts, poolBytes - FloorTo(topo, |topo.groups|), TotalTo(topo.groups, |topo.groups|),
                   |topo.groups|)
              && IsCarving(topo, vs, counts, c.regions, c.nSlots, c.nPools)
              && CommitTo(topo, counts, |topo.groups|) <= poolBytes
              && c.commit == CommitTo(topo, counts, |topo.groups|) + PoolZeroBytes(topo, vs)
              && |c.bases| == |c.regions|
              && (forall i ::
                   0 <= i < |c.regions| ==>
                       c.bases[i] == if c.regions[i].pool == 0 then Some(RamCommit(c.regions, i)) else None)
  {
    counts := [];
    if topo.nExperts > MAX_EXPERTS { return TooManyExperts, counts; }
    var total, floor := SumGroups(topo);
    if total == 0 { return NoGroups, counts; }
    if floor > poolBytes { return TooSmall, counts; }
    hide Consecutive, SlotCount;
    var ram, ramSlots, ns := CarveRam(topo, poolBytes - floor, total);
    var regions, nSlots, nPools := AppendDevices(topo, vs, ram, ramSlots);
    counts := ns;
    CommitFits(topo, counts, poolBytes);
    forall i | 0 <= i < |topo.groups| ensures RamRegion(topo, counts, i, regions[i]) {
      assert regions[i] == ram[i];
    }
    CommitIsCarvingAndPoolZero(topo, vs, counts, regions, nSlots, nPools);
    hide IsCarving, Counts;
    var commit, bases := PlaceInRam(regions);
    c := Ok(regions, nSlots, nPools, commit, bases);
  }

  /** The allocation stays within the pool's budget exactly as far as the device regions that
      name pool 0 fit in what the carving left over; without one it always does. */
  lemma CommitWithinPool(topo: Topology, poolBytes: nat, vs: seq<DeviceRegion>, counts: seq<nat>,
                         regions: seq<Region>, nSlots: nat, nPools: nat)
    requires topo.Valid() && TotalTo(topo.groups, |topo.groups|) > 0 && FloorTo(topo, |topo.groups|) <= poolBytes
    requires Counts(topo, counts, poolBytes - FloorTo(topo, |topo.groups|), TotalTo(topo.groups, |topo.groups|),
               |topo.groups|)
    requires IsCarving(topo, vs, counts, regions, nSlots, nPools)
    ensures RamCommit(regions, |regions|) <= poolBytes <==>
              PoolZeroBytes(topo, vs) <= poolBytes - CommitTo(topo, counts, |topo.groups|)
    ensures (forall v :: v in vs && Accepted(topo, v) ==> v.pool != 0) ==> RamCommit(regions, |regions|) <= poolBytes
  {
    hide IsCarving, Accepted, TotalTo, FloorTo;
    CommitFits(topo, counts, poolBytes);
    CommitIsCarvingAndPoolZero(topo, vs, counts, regions, nSlots, nPools);
    NoPoolZeroBytes(topo, vs);
  }

  // ---- the configuration the protocol runs on ----------------------------------------------------

  lemma {:induction false} RunsApart(regions: seq<Region>, n: nat, i: nat, j: nat)
    requires Consecutive(regions, n) && i <= j < |regions|
    ensures i < j ==> regions[i].first + regions[i].count <= regions[j].first
    ensures regions[j].first + regions[j].count <= n
    decreases |regions| - i
  {
    if i < j {
      RunsApart(regions, n, i + 1, j);
    } else if j < |regions| - 1 {
      RunsApart(regions, n, j + 1, |regions| - 1);
    }
  }

  /** group_of: the group whose layers include the layer. */
  function GroupOf(groups: seq<Group>, layer: nat, i: nat): (g: Option<nat>)
    requires i <= |groups|
    ensures g.Some? ==> g.value < |groups| && layer in groups[g.value].layers
    ensures g.None? ==> forall j :: i <= j < |groups| ==> layer !in groups[j].layers
    decreases |groups| - i
  {
    if i == |groups| then None else if layer in groups[i].layers then Some(i) else GroupOf(groups, layer, i + 1)
  }

  function ConfigOf(topo: Topology, regions: seq<Region>, nSlots: nat, nPools: nat, ring: nat): Config {
    Config(topo.nLayers, topo.nExperts, nPools, nSlots, ring,
           seq(topo.nLayers, (l: nat) => GroupOf(topo.groups, l, 0)), regions)
  }

  /** Every carving is a configuration the protocol's theorems apply to. */
  lemma CarvingIsConfig(topo: Topology, vs: seq<DeviceRegion>, counts: seq<nat>, regions: seq<Region>, nSlots: nat,
                        nPools: nat, ring: nat)
    requires |counts| == |topo.groups| && IsCarving(topo, vs, counts, regions, nSlots, nPools)
    ensures ConfigOf(topo, regions, nSlots, nPools, ring).Valid()
  {
    forall i: nat, j: nat | i <= j < |regions|
      ensures i < j ==> regions[i].first + regions[i].count <= regions[j].first
      ensures regions[j].first + regions[j].count <= nSlots
    {
      RunsApart(regions, nSlots, i, j);
    }
  }

  /** Without an accepted device region the carving of a model whose layers all have experts
      meets the floor that the no-stall theorem needs. */
  lemma CarvingIsRamOnly(topo: Topology, vs: seq<DeviceRegion>, counts: seq<nat>, poolBytes: nat,
                         regions: seq<Region>, nSlots: nat, nPools: nat, ring: nat)
    requires topo.Valid() && TotalTo(topo.groups, |topo.groups|) > 0 && FloorTo(topo, |topo.groups|) <= poolBytes
    requires Counts(topo, counts, poolBytes - FloorTo(topo, |topo.groups|), TotalTo(topo.groups, |topo.groups|),
               |topo.groups|)
    requires AcceptedOf(topo, vs) == [] && IsCarving(topo, vs, counts, regions, nSlots, nPools)
    requires forall l :: 0 <= l < topo.nLayers ==> GroupOf(topo.groups, l, 0).Some?
    ensures RamOnly(ConfigOf(topo, regions, nSlots, nPools, ring))
  {
    hide Consecutive, SlotCount;
    var cfg := ConfigOf(topo, regions, nSlots, nPools, ring);
    CarvingIsConfig(topo, vs, counts, regions, nSlots, nPools, ring);
    forall l: nat | l < cfg.nLayers ensures cfg.Home(l, 0).Some? && cfg.Home(l, 0).value.count >= cfg.nExperts {
      var g := GroupOf(topo.groups, l, 0).value;
      FoundRegion(cfg, g, g, 0);
      SlotCountBounds(topo, g, poolBytes - FloorTo(topo, |topo.groups|), TotalTo(topo.groups, |topo.groups|));
    }
  }

  /** The first RAM region of group g is the one at position g. */
  lemma {:induction false} FoundRegion(cfg: Config, g: nat, at: nat, i: nat)
    requires i <= at < |cfg.regions| && cfg.regions[at].pool == 0 && cfg.regions[at].group == g
    requires forall j :: 0 <= j < at ==> cfg.regions[j].group != g
    ensures cfg.FindRegion(0, g, i) == Some(cfg.regions[at])
    decreases at - i
  {
    if i < at { FoundRegion(cfg, g, at, i + 1); }
  }

  // ---- columns ------------------------------------------------------------------------------------

  /** Strides of the first n columns together. */
  function Before(columns: seq<nat>, n: nat): nat
    requires n <= |columns|
  {
    if n == 0 then 0 else Before(columns, n - 1) + columns[n - 1]
  }

  /** Byte offset of column c in a region of ns slots. */
  function Column(columns: seq<nat>, ns: nat, c: nat): nat
    requires c <= |columns|
  {
    ns * Before(columns, c)
  }

  /** fill_cols: byte offsets of the columns of a region of ns slots. */
  method FillColumns(columns: seq<nat>, ns: nat) returns (offs: seq<nat>, size: nat)
    ensures |offs| == |columns| && forall c :: 0 <= c < |columns| ==> offs[c] == Column(columns, ns, c)
    ensures size == Column(columns, ns, |columns|)
  {
    offs, size := [], 0;
    for c := 0 to |columns|
      invariant |offs| == c && (forall d :: 0 <= d < c ==> offs[d] == Column(columns, ns, d)) &&
                  size == Column(columns, ns, c)
    {
      Distribute(Before(columns, c), columns[c], ns);
      offs := offs + [size];
      size := size + ns * columns[c];
    }
  }

  /** col_slice_ptr: first byte of slot k's slice of column c, counted from the region's base. */
  function Slice(columns: seq<nat>, ns: nat, c: nat, k: nat): nat
    requires c < |columns|
  {
    Column(columns, ns, c) + k * columns[c]
  }

  lemma {:induction false} ColumnMono(columns: seq<nat>, ns: nat, a: nat, b: nat)
    requires a <= b <= |columns|
    ensures Column(columns, ns, a) <= Column(columns, ns, b)
    decreases b
  {
    if a < b {
      ColumnMono(columns, ns, a, b - 1);
      Distribute(Before(columns, b - 1), columns[b - 1], ns);
    }
  }

  /** Column c's slices lie between its offset and the next column's. */
  lemma SliceInColumn(columns: seq<nat>, ns: nat, c: nat, k: nat)
    requires c < |columns| && k < ns
    ensures Column(columns, ns, c) <= Slice(columns, ns, c, k)
    ensures Slice(columns, ns, c, k) + columns[c] <= Column(columns, ns, c + 1)
  {
    Distribute(Before(columns, c), columns[c], ns);
    Distribute(k, 1, columns[c]);
    MulMono(k + 1, ns, columns[c]);
  }

  lemma SameColumn(columns: seq<nat>, ns: nat, c: nat, k: nat, m: nat)
    requires c < |columns| && k < m
    ensures Slice(columns, ns, c, k) + columns[c] <= Slice(columns, ns, c, m)
  {
    hide Column;
    Distribute(k, 1, columns[c]);
    MulMono(k + 1, m, columns[c]);
  }

  lemma SlicesOrdered(columns: seq<nat>, ns: nat, c: nat, k: nat, d: nat, m: nat)
    requires c < |columns| && d < |columns| && k < ns && m < ns && (c < d || (c == d && k < m))
    ensures Slice(columns, ns, c, k) + columns[c] <= Slice(columns, ns, d, m)
  {
    hide Column, Slice;
    if c < d {
      SliceInColumn(columns, ns, c, k);
      SliceInColumn(columns, ns, d, m);
      ColumnMono(columns, ns, c + 1, d);
    } else {
      SameColumn(columns, ns, c, k, m);
    }
  }

  /** No two slices of different slots or columns overlap. */
  lemma SlicesApart(columns: seq<nat>, ns: nat, c: nat, k: nat, d: nat, m: nat)
    requires c < |columns| && d < |columns| && k < ns && m < ns && (c != d || k != m)
    ensures || Slice(columns, ns, c, k) + columns[c] <= Slice(columns, ns, d, m)
            || Slice(columns, ns, d, m) + columns[d] <= Slice(columns, ns, c, k)
  {
    hide Slice;
    if c < d || (c == d && k < m) {
      SlicesOrdered(columns, ns, c, k, d, m);
    } else {
      SlicesOrdered(columns, ns, d, m, c, k);
    }
  }

  /** Base of the i-th RAM region in the pool allocation. */
  function Base(topo: Topology, counts: seq<nat>, i: nat): nat
    requires i <= |topo.groups| == |counts|
  {
    CommitTo(topo, counts, i)
  }

  lemma {:induction false} BaseMono(topo: Topology, counts: seq<nat>, i: nat, j: nat)
    requires i <= j <= |topo.groups| == |counts|
    ensures Base(topo, counts, i) <= Base(topo, counts, j)
    decreases j
  {
    if i < j { BaseMono(topo, counts, i, j - 1); }
  }

  /** Across the whole pool: the bytes of slot k, column c of group i lie inside the
      committed bytes and meet those of no other slot, column or group. */
  lemma PoolBytesApart(topo: Topology, counts: seq<nat>, i: nat, c: nat, k: nat, j: nat, d: nat, m: nat)
    requires topo.Valid() && |counts| == |topo.groups| && i <= j < |topo.groups|
    requires c < |topo.groups[i].columns| && d < |topo.groups[j].columns| && k < counts[i] && m < counts[j]
    requires i != j || c != d || k != m
    ensures var a := Base(topo, counts, i) + Slice(topo.groups[i].columns, counts[i], c, k);
            var b := Base(topo, counts, j) + Slice(topo.groups[j].columns, counts[j], d, m);
            && (a + topo.groups[i].columns[c] <= b || b + topo.groups[j].columns[d] <= a)
            && a + topo.groups[i].columns[c] <= CommitTo(topo, counts, |topo.groups|)
            && b + topo.groups[j].columns[d] <= CommitTo(topo, counts, |topo.groups|)
  {
    SliceInside(topo, counts, i, c, k);
    SliceInside(topo, counts, j, d, m);
    if i < j {
      BaseMono(topo, counts, i + 1, j);
    } else {
      SlicesApart(topo.groups[i].columns, counts[i], c, k, d, m);
    }
  }

  /** A slice lies between its region's base and the next region's. */
  lemma SliceInside(topo: Topology, counts: seq<nat>, i: nat, c: nat, k: nat)
    requires topo.Valid() && |counts| == |topo.groups| && i < |topo.groups| && c < |topo.groups[i].columns| &&
               k < counts[i]
    ensures Slice(topo.groups[i].columns, counts[i], c, k) + topo.groups[i].columns[c] <=
              counts[i] * topo.groups[i].expertSize
    ensures Base(topo, counts, i + 1) == Base(topo, counts, i) + counts[i] * topo.groups[i].expertSize
    ensures Base(topo, counts, i + 1) <= CommitTo(topo, counts, |topo.groups|)
  {
    var columns := topo.groups[i].columns;
    SliceInColumn(columns, counts[i], c, k);
    ColumnMono(columns, counts[i], c + 1, |columns|);
    BaseMono(topo, counts, i + 1, |topo.groups|);
  }
}
