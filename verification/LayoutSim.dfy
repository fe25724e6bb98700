/** The allocators of the layout simulator against the peak of simultaneously
    live bytes. Node k is written at step k and read last at step `last` (or
    never, when last is negative). */
module LayoutSim {
  import opened Basics
  import A = ArenaPacking

  datatype Node = Node(bytes: nat, last: int)

  /** Node k's index is k; last is negative or not before the node itself. */
  ghost predicate WellFormed(nodes: seq<Node>) {
    forall k :: 0 <= k < |nodes| ==> nodes[k].last < 0 || nodes[k].last >= k
  }

  /** Last step at which node k is live. The simulator's Infinity is only ever
      compared with step numbers below |nodes|. */
  function EndOf(nodes: seq<Node>, k: nat): int
    requires k < |nodes|
  {
    if nodes[k].last < 0 then |nodes| else nodes[k].last
  }

  /** Bytes of the first n nodes that are still live at step t. */
  function LiveUpTo(nodes: seq<Node>, t: int, n: nat): nat
    requires n <= |nodes|
  {
    if n == 0 then 0
    else LiveUpTo(nodes, t, n - 1) + if EndOf(nodes, n - 1) >= t then nodes[n - 1].bytes else 0
  }

  function LiveAt(nodes: seq<Node>, t: nat): nat
    requires t < |nodes|
  {
    LiveUpTo(nodes, t, t + 1)
  }

  /** Peak of simultaneously live bytes over the first n steps. */
  function Peak(nodes: seq<Node>, n: nat): (p: nat)
    requires n <= |nodes|
    ensures forall t: nat :: t < n ==> LiveAt(nodes, t) <= p
  {
    if n == 0 then 0
    else
      var before := Peak(nodes, n - 1);
      if LiveAt(nodes, n - 1) > before then LiveAt(nodes, n - 1) else before
  }

  lemma {:induction false} PeakBelow(nodes: seq<Node>, n: nat, bound: nat)
    requires n <= |nodes| && forall t: nat :: t < n ==> LiveAt(nodes, t) <= bound
    ensures Peak(nodes, n) <= bound
  {
    if n > 0 { PeakBelow(nodes, n - 1, bound); }
  }

  // ---- compact2 -------------------------------------------------------------------

  datatype Block = Block(off: nat, size: nat, end: int)

  predicate Apart(a: Block, b: Block) {
    a.off + a.size <= b.off || b.off + b.size <= a.off
  }

  ghost predicate Disjoint(live: seq<Block>) {
    forall i, j :: 0 <= i < j < |live| ==> Apart(live[i], live[j])
  }

  ghost predicate Within(live: seq<Block>, top: nat) {
    forall i :: 0 <= i < |live| ==> live[i].off + live[i].size <= top
  }

  function Total(live: seq<Block>): nat {
    if live == [] then 0 else Total(live[..|live| - 1]) + live[|live| - 1].size
  }

  /** Bytes of the blocks whose owner is live at t. */
  ghost function TotalAt(live: seq<Block>, t: int): nat {
    if live == [] then 0
    else TotalAt(live[..|live| - 1], t) + if live[|live| - 1].end >= t then live[|live| - 1].size else 0
  }

  lemma {:induction false} AllLive(live: seq<Block>, t: int)
    requires forall i :: 0 <= i < |live| ==> live[i].end >= t
    ensures TotalAt(live, t) == Total(live)
  {
    if live != [] { AllLive(live[..|live| - 1], t); }
  }

  lemma Snoc(live: seq<Block>, b: Block, t: int)
    ensures TotalAt(live + [b], t) == TotalAt(live, t) + if b.end >= t then b.size else 0
    ensures Total(live + [b]) == Total(live) + b.size
  {
    assert (live + [b])[..|live|] == live;
  }

  ghost function Addrs(live: seq<Block>): set<nat> {
    if live == [] then {} else Addrs(live[..|live| - 1]) + Range(live[|live| - 1].off, live[|live| - 1].size)
  }

  ghost predicate Holds(live: seq<Block>, x: nat) {
    exists i :: 0 <= i < |live| && live[i].off <= x < live[i].off + live[i].size
  }

  lemma {:induction false} AddrsHeld(live: seq<Block>, x: nat)
    requires x in Addrs(live)
    ensures Holds(live, x)
  {
    var n := |live| - 1;
    if x in Addrs(live[..n]) {
      AddrsHeld(live[..n], x);
      var i :| 0 <= i < n && live[..n][i].off <= x < live[..n][i].off + live[..n][i].size;
      assert live[i].off <= x < live[i].off + live[i].size;
    } else {
      assert live[n].off <= x < live[n].off + live[n].size;
    }
  }

  lemma LastApart(live: seq<Block>, x: nat)
    requires live != [] && Disjoint(live) && Holds(live[..|live| - 1], x)
    ensures x !in Range(live[|live| - 1].off, live[|live| - 1].size)
  {
    var n := |live| - 1;
    var i :| 0 <= i < n && live[..n][i].off <= x < live[..n][i].off + live[..n][i].size;
    assert Apart(live[i], live[n]);
  }

  lemma {:induction false} AddrsSize(live: seq<Block>)
    requires Disjoint(live)
    ensures |Addrs(live)| == Total(live)
  {
    if live != [] {
      var n := |live| - 1;
      AddrsSize(live[..n]);
      var less, more := Addrs(live[..n]), Range(live[n].off, live[n].size);
      forall x | x in less ensures x !in more {
        AddrsHeld(live[..n], x);
        LastApart(live, x);
      }
      assert less !! more;
      assert |less + more| == |less| + |more|;
    }
  }

  /** Disjoint blocks below top are no larger together than top. */
  lemma DisjointFits(live: seq<Block>, top: nat)
    requires Disjoint(live) && Within(live, top)
    ensures Total(live) <= top
  {
    AddrsSize(live);
    forall x | x in Addrs(live) ensures x in Range(0, top) {
      AddrsHeld(live, x);
    }
    SubsetSize(Addrs(live), Range(0, top));
  }

  /** Array.prototype.sort by offset. */
  method SortByOffset(lv: seq<Block>) returns (seg: seq<Block>)
    ensures forall i, j :: 0 <= i < j < |seg| ==> seg[i].off <= seg[j].off
    ensures forall b :: b in seg <==> b in lv
  {
    seg := [];
    for n := 0 to |lv|
      invariant forall i, j :: 0 <= i < j < |seg| ==> seg[i].off <= seg[j].off
      invariant forall b :: b in seg <==> b in lv[..n]
    {
      var j := |seg|;
      while j > 0 && seg[j - 1].off > lv[n].off
        invariant 0 <= j <= |seg| && forall i :: j <= i < |seg| ==> seg[i].off > lv[n].off
      {
        j := j - 1;
      }
      assert lv[..n + 1] == lv[..n] + [lv[n]];
      InsertMembers(seg, lv[n], j);
      seg := seg[..j] + [lv[n]] + seg[j..];
    }
    assert lv[..|lv|] == lv;
  }

  /** placeInGaps: a free range of `need` bytes below occ, if the scan finds one. */
  method PlaceInGaps(lv: seq<Block>, occ: nat, need: nat) returns (r: Option<nat>)
    ensures r.Some? ==> r.value + need <= occ || exists b :: b in lv && r.value + need <= b.off
    ensures r.Some? ==> forall i :: 0 <= i < |lv| ==> Apart(lv[i], Block(r.value, need, 0))
  {
    var seg := SortByOffset(lv);
    var cursor: nat := 0;
    for n := 0 to |seg|
      invariant forall i :: 0 <= i < n ==> seg[i].off + seg[i].size <= cursor
    {
      var b := seg[n];
      if b.off > cursor && b.off - cursor >= need {
        assert b in seg;
        GapIsFree(lv, seg, n, cursor, need);
        return Some(cursor);
      }
      cursor := if cursor > b.off + b.size then cursor else b.off + b.size;
    }
    if occ - cursor >= need {
      GapIsFree(lv, seg, |seg|, cursor, need);
      return Some(cursor);
    }
    return None;
  }

  lemma GapIsFree(lv: seq<Block>, seg: seq<Block>, n: nat, cursor: nat, need: nat)
    requires n <= |seg| && (forall b :: b in seg <==> b in lv)
    requires forall i, j :: 0 <= i < j < |seg| ==> seg[i].off <= seg[j].off
    requires forall i :: 0 <= i < n ==> seg[i].off + seg[i].size <= cursor
    requires n < |seg| ==> seg[n].off >= cursor + need
    ensures forall i :: 0 <= i < |lv| ==> Apart(lv[i], Block(cursor, need, 0))
  {
    forall i | 0 <= i < |lv| ensures Apart(lv[i], Block(cursor, need, 0)) {
      assert lv[i] in lv;
      var j :| 0 <= j < |seg| && seg[j] == lv[i];
    }
  }

  /** Frees the dead blocks. */
  method FreeDead(live: seq<Block>, i: int) returns (r: seq<Block>)
    requires Disjoint(live)
    ensures Disjoint(r) && (forall b :: b in r ==> b in live && b.end >= i)
    ensures forall t: int :: t >= i ==> TotalAt(r, t) == TotalAt(live, t)
  {
    r := [];
    for n := 0 to |live|
      invariant Disjoint(r) && (forall b :: b in r ==> b in live[..n] && b.end >= i)
      invariant forall t: int :: t >= i ==> TotalAt(r, t) == TotalAt(live[..n], t)
    {
      assert live[..n + 1] == live[..n] + [live[n]];
      forall t: int | t >= i
        ensures TotalAt(live[..n + 1], t) == TotalAt(live[..n], t) + if live[n].end >= t then live[n].size else 0
        ensures TotalAt(r + [live[n]], t) == TotalAt(r, t) + if live[n].end >= t then live[n].size else 0
      {
        Snoc(live[..n], live[n], t);
        Snoc(r, live[n], t);
      }
      if live[n].end >= i {
        forall k | 0 <= k < |r| ensures Apart(r[k], live[n]) {
          assert r[k] in r;
          var m :| 0 <= m < n && live[..n][m] == r[k];
          assert live[m] == r[k];
        }
        r := r + [live[n]];
      }
    }
    assert live[..|live|] == live;
  }

  /** Re-packs the live blocks to the front. */
  method Compact(live: seq<Block>) returns (packed: seq<Block>, top: nat)
    ensures Disjoint(packed) && Within(packed, top) && top == Total(live) == Total(packed) && |packed| == |live|
    ensures forall i :: 0 <= i < |live| ==> packed[i].size == live[i].size && packed[i].end == live[i].end
    ensures forall t: int :: TotalAt(packed, t) == TotalAt(live, t)
  {
    packed := [];
    top := 0;
    for n := 0 to |live|
      invariant Disjoint(packed) && Within(packed, top) && top == Total(live[..n]) == Total(packed) && |packed| == n
      invariant forall i :: 0 <= i < n ==> packed[i].size == live[i].size && packed[i].end == live[i].end
      invariant forall t: int :: TotalAt(packed, t) == TotalAt(live[..n], t)
    {
      var b := live[n].(off := top);
      assert live[..n + 1] == live[..n] + [live[n]];
      forall t: int
        ensures TotalAt(packed + [b], t) == TotalAt(live[..n + 1], t)
        ensures Total(live[..n + 1]) == Total(live[..n]) + live[n].size
      {
        Snoc(packed, b, t);
        Snoc(live[..n], live[n], t);
      }
      packed := packed + [b];
      top := top + live[n].size;
    }
    assert live[..|live|] == live;
  }

  function LiveTail(live: seq<Block>): (top: nat)
    ensures Within(live, top)
    ensures top == 0 || exists i :: 0 <= i < |live| && live[i].off + live[i].size == top
  {
    if live == [] then 0
    else
      var n := |live| - 1;
      var rest, e := LiveTail(live[..n]), live[n].off + live[n].size;
      assert live[n].off + live[n].size == e;
      if rest > e then rest else e
  }

  /** State of compact2 before step i. */
  ghost predicate Compacting(nodes: seq<Node>, live: seq<Block>, tail: nat, i: nat)
    requires i <= |nodes|
  {
    && Disjoint(live) && Within(live, tail) && tail == Peak(nodes, i)
    && forall t: int :: t >= i ==> TotalAt(live, t) == LiveUpTo(nodes, t, i)
  }

  lemma InsideTail(live: seq<Block>, live': seq<Block>, tail: nat)
    requires Within(live, tail) && forall b :: b in live' ==> b in live
    ensures Within(live', tail)
  {
    assert forall i :: 0 <= i < |live'| ==> live'[i] in live';
  }

  lemma InsideTop(live: seq<Block>, top: nat, tail: nat)
    requires Within(live, top) && top <= tail
    ensures Within(live, tail)
  {
  }

  lemma GapBelowTail(live: seq<Block>, off: nat, need: nat, occ: nat, tail: nat)
    requires Within(live, tail) && occ <= tail
    requires off + need <= occ || exists b :: b in live && off + need <= b.off
    ensures off + need <= tail
  {
    if b :| b in live && off + need <= b.off {
      var i :| 0 <= i < |live| && live[i] == b;
    }
  }

  /** The new output is placed apart from the live ones, below the tail or right after the compacted blocks. */
  lemma StepDone(nodes: seq<Node>, live: seq<Block>, tail: nat, i: nat, b: Block)
    requires WellFormed(nodes) && i < |nodes| && Disjoint(live) && Within(live, tail) && tail == Peak(nodes, i)
    requires forall t: int :: t >= i ==> TotalAt(live, t) == LiveUpTo(nodes, t, i)
    requires forall k :: 0 <= k < |live| ==> live[k].end >= i
    requires forall k :: 0 <= k < |live| ==> Apart(live[k], b)
    requires b.size == nodes[i].bytes && b.end == EndOf(nodes, i) && (b.off + b.size <= tail || b.off == Total(live))
    ensures Compacting(nodes, live + [b], if tail > b.off + b.size then tail else b.off + b.size, i + 1)
  {
    var more, top := live + [b], if tail > b.off + b.size then tail else b.off + b.size;
    forall t: int | t >= i ensures TotalAt(more, t) == LiveUpTo(nodes, t, i + 1) {
      Snoc(live, b, t);
    }
    AllLive(live, i);
    Snoc(live, b, i);
    assert LiveAt(nodes, i) == Total(live) + b.size;
    assert Disjoint(more);
    DisjointFits(more, top);
  }

  /** One step of compact2: the new output goes into a gap, or after the compacted live blocks. */
  method CompactStep(nodes: seq<Node>, live0: seq<Block>, tail0: nat, i: nat) returns (live: seq<Block>, tail: nat)
    requires WellFormed(nodes) && i < |nodes| && Compacting(nodes, live0, tail0, i)
    ensures Compacting(nodes, live, tail, i + 1)
  {
    hide Peak, LiveUpTo, Disjoint, TotalAt;
    var n := nodes[i];
    live := FreeDead(live0, i);
    InsideTail(live0, live, tail0);
    assert forall k :: 0 <= k < |live| ==> live[k] in live;
    DisjointFits(live, tail0);
    var end := if n.last < 0 then |nodes| else n.last;
    var cur := LiveTail(live);
    var off: nat := 0;
    var r := PlaceInGaps(live, cur, n.bytes);
    if r.Some? {
      off := r.value;
      GapBelowTail(live, off, n.bytes, cur, tail0);
    } else {
      live, cur := Compact(live);
      DisjointFits(live, cur);
      InsideTop(live, cur, tail0);
      r := PlaceInGaps(live, cur, n.bytes);
      if r.Some? {
        off := r.value;
        GapBelowTail(live, off, n.bytes, cur, tail0);
      } else {
        off := cur;
      }
    }
    var b := Block(off, n.bytes, end);
    forall k | 0 <= k < |live| ensures Apart(live[k], b) {
      if r.Some? { assert Apart(live[k], Block(off, n.bytes, 0)); }
    }
    StepDone(nodes, live, tail0, i, b);
    live := live + [b];
    tail := if tail0 > off + n.bytes then tail0 else off + n.bytes;
  }

  /** compact2 reaches the peak of simultaneously live bytes. */
  method Compact2(nodes: seq<Node>) returns (tail: nat)
    requires WellFormed(nodes)
    ensures tail == Peak(nodes, |nodes|)
  {
    var live: seq<Block> := [];
    tail := 0;
    for i := 0 to |nodes|
      invariant Compacting(nodes, live, tail, i)
    {
      live, tail := CompactStep(nodes, live, tail, i);
    }
  }

  // ---- bestfitdec2 ------------------------------------------------------------------

  function Sizes(nodes: seq<Node>): (r: seq<nat>)
    ensures |r| == |nodes| && forall k :: 0 <= k < |nodes| ==> r[k] == nodes[k].bytes
  {
    seq(|nodes|, k requires 0 <= k < |nodes| => nodes[k].bytes)
  }

  function Starts(nodes: seq<Node>): (r: seq<int>)
    ensures |r| == |nodes| && forall k :: 0 <= k < |nodes| ==> r[k] == k
  {
    seq(|nodes|, k => k)
  }

  function Ends(nodes: seq<Node>): (r: seq<int>)
    ensures |r| == |nodes| && forall k :: 0 <= k < |nodes| ==> r[k] == EndOf(nodes, k)
  {
    seq(|nodes|, k requires 0 <= k < |nodes| => EndOf(nodes, k))
  }

  lemma {:induction false} SameLiveBytes(nodes: seq<Node>, t: nat, n: nat)
    requires n <= |nodes|
    ensures A.LiveBytes(Sizes(nodes), Starts(nodes), Ends(nodes), t, n) ==
              LiveUpTo(nodes, t, if n <= t + 1 then n else t + 1)
  {
    if n > 0 { SameLiveBytes(nodes, t, n - 1); }
  }

  /** bestfitdec2 packs like pack_interval: never below the peak, never above all bytes. */
  method BestFitDec(nodes: seq<Node>) returns (arena: nat)
    requires WellFormed(nodes)
    ensures Peak(nodes, |nodes|) <= arena <= Sum(Sizes(nodes))
  {
    var sizes, start, end := Sizes(nodes), Starts(nodes), Ends(nodes);
    var outOff;
    ghost var order, placed;
    outOff, arena, order, placed := A.PackInterval(sizes, start, end);
    A.PackedApart(sizes, start, end, order, placed, outOff, arena);
    A.ArenaWithinSum(sizes, start, end, order, placed, arena);
    forall t: nat | t < |nodes| ensures LiveAt(nodes, t) <= arena {
      A.PeakWithinArena(sizes, start, end, outOff, arena, t);
      SameLiveBytes(nodes, t, |nodes|);
    }
    PeakBelow(nodes, |nodes|, arena);
  }

  // ---- firstfit -----------------------------------------------------------------------

  datatype Slot = Slot(size: nat, end: int)

  function SlotSum(slots: seq<Slot>): nat {
    if slots == [] then 0 else SlotSum(slots[..|slots| - 1]) + slots[|slots| - 1].size
  }

  /** First step at which node k's slot may be reused. */
  function FreeFrom(nodes: seq<Node>, k: nat): int
    requires k < |nodes|
  {
    if nodes[k].last < 0 then |nodes| else nodes[k].last + 1
  }

  /** The slots after the first n nodes: at[k] is the slot of node k; a slot is as
      large as its largest node and no two of its nodes overlap in time. */
  ghost predicate Slotted(nodes: seq<Node>, slots: seq<Slot>, at: seq<nat>)
    requires |at| <= |nodes|
  {
    && (forall k ::
         0 <= k < |at| ==>
             at[k] < |slots| && nodes[k].bytes <= slots[at[k]].size && FreeFrom(nodes, k) <= slots[at[k]].end)
    && (forall j, k :: 0 <= j < k < |at| && at[j] == at[k] ==> FreeFrom(nodes, j) <= k)
  }

  /** Bytes live at t in slots below m, counting the first n nodes. */
  ghost function SlotLive(nodes: seq<Node>, at: seq<nat>, t: int, n: nat, s: nat): nat
    requires n <= |at| <= |nodes|
  {
    if n == 0 then 0
    else SlotLive(nodes, at, t, n - 1, s) + if at[n - 1] == s && EndOf(nodes, n - 1) >= t then nodes[n - 1].bytes else 0
  }

  ghost function AllSlotsLive(nodes: seq<Node>, at: seq<nat>, t: int, n: nat, m: nat): nat
    requires n <= |at| <= |nodes|
    decreases m
  {
    if m == 0 then 0 else AllSlotsLive(nodes, at, t, n, m - 1) + SlotLive(nodes, at, t, n, m - 1)
  }

  lemma {:induction false} OneNodeMore(nodes: seq<Node>, at: seq<nat>, t: int, n: nat, m: nat)
    requires 1 <= n <= |at| <= |nodes|
    ensures AllSlotsLive(nodes, at, t, n, m) == AllSlotsLive(nodes, at, t, n - 1, m) +
              if at[n - 1] < m && EndOf(nodes, n - 1) >= t then nodes[n - 1].bytes else 0
    decreases m
  {
    if m > 0 { OneNodeMore(nodes, at, t, n, m - 1); }
  }

  lemma {:induction false} SlotsHoldAll(nodes: seq<Node>, at: seq<nat>, t: int, n: nat, m: nat)
    requires n <= |at| <= |nodes| && forall k :: 0 <= k < n ==> at[k] < m
    ensures AllSlotsLive(nodes, at, t, n, m) == LiveUpTo(nodes, t, n)
  {
    if n > 0 {
      SlotsHoldAll(nodes, at, t, n - 1, m);
      OneNodeMore(nodes, at, t, n, m);
    } else {
      NoneLive(nodes, at, t, m);
    }
  }

  lemma {:induction false} NoneLive(nodes: seq<Node>, at: seq<nat>, t: int, m: nat)
    requires |at| <= |nodes|
    ensures AllSlotsLive(nodes, at, t, 0, m) == 0
    decreases m
  {
    if m > 0 { NoneLive(nodes, at, t, m - 1); }
  }

  /** At step t a slot holds at most one live node. */
  lemma {:induction false} OneLivePerSlot(nodes: seq<Node>, slots: seq<Slot>, at: seq<nat>, t: nat, n: nat, s: nat)
    requires |at| <= |nodes| && Slotted(nodes, slots, at) && n <= |at| && n <= t + 1 && s < |slots|
    ensures SlotLive(nodes, at, t, n, s) <= slots[s].size
    ensures SlotLive(nodes, at, t, n, s) > 0 ==> exists k :: 0 <= k < n && at[k] == s && EndOf(nodes, k) >= t
  {
    if n > 0 {
      OneLivePerSlot(nodes, slots, at, t, n - 1, s);
    }
  }

  lemma {:induction false} LiveWithinSlots(nodes: seq<Node>, slots: seq<Slot>, at: seq<nat>, t: nat, n: nat, m: nat)
    requires |at| <= |nodes| && Slotted(nodes, slots, at) && n <= |at| && n <= t + 1 && m <= |slots|
    ensures AllSlotsLive(nodes, at, t, n, m) <= SlotSum(slots[..m])
    decreases m
  {
    if m > 0 {
      LiveWithinSlots(nodes, slots, at, t, n, m - 1);
      OneLivePerSlot(nodes, slots, at, t, n, m - 1);
      assert slots[..m][..m - 1] == slots[..m - 1];
    }
  }

  /** First slot whose occupant died, or -1. */
  method FreeSlot(slots: seq<Slot>, i: nat) returns (ch: int)
    ensures ch == -1 || (0 <= ch < |slots| && slots[ch].end <= i)
    ensures forall s :: 0 <= s < (if ch == -1 then |slots| else ch) ==> slots[s].end > i
  {
    for s := 0 to |slots|
      invariant forall j :: 0 <= j < s ==> slots[j].end > i
    {
      if slots[s].end <= i { return s; }
    }
    return -1;
  }

  /** The nodes live at step t. */
  ghost function LiveSet(nodes: seq<Node>, t: nat): set<nat> {
    set k: nat | k < |nodes| && k <= t && t <= EndOf(nodes, k)
  }

  /** holder[s] is the node that occupied slot s last. */
  ghost predicate Held(nodes: seq<Node>, slots: seq<Slot>, at: seq<nat>, holder: seq<nat>)
    requires |at| <= |nodes|
  {
    && |holder| == |slots|
    && forall s ::
         0 <= s < |slots| ==> holder[s] < |at| && at[holder[s]] == s && FreeFrom(nodes, holder[s]) == slots[s].end
  }

  ghost function HolderSet(holder: seq<nat>, n: nat): set<nat>
    requires n <= |holder|
  {
    if n == 0 then {} else HolderSet(holder, n - 1) + {holder[n - 1]}
  }

  lemma {:induction false} HoldersAre(holder: seq<nat>, n: nat, k: nat)
    requires n <= |holder|
    ensures k in HolderSet(holder, n) <==> exists s :: 0 <= s < n && holder[s] == k
  {
    if n > 0 { HoldersAre(holder, n - 1, k); }
  }

  lemma {:induction false} HoldersAreMany(at: seq<nat>, holder: seq<nat>, n: nat)
    requires n <= |holder| && forall s :: 0 <= s < |holder| ==> holder[s] < |at| && at[holder[s]] == s
    ensures |HolderSet(holder, n)| == n
  {
    if n > 0 {
      HoldersAreMany(at, holder, n - 1);
      HoldersAre(holder, n - 1, holder[n - 1]);
    }
  }

  /** When every slot is taken at step i, one node per slot and node i are live. */
  lemma AllTaken(nodes: seq<Node>, slots: seq<Slot>, at: seq<nat>, holder: seq<nat>, i: nat)
    requires WellFormed(nodes) && i == |at| < |nodes| && Held(nodes, slots, at, holder)
    requires forall s :: 0 <= s < |slots| ==> slots[s].end > i
    ensures |LiveSet(nodes, i)| >= |slots| + 1
  {
    HoldersAreMany(at, holder, |holder|);
    var hs := HolderSet(holder, |holder|);
    HoldersAre(holder, |holder|, i);
    assert |hs + {i}| == |slots| + 1;
    forall k | k in hs + {i} ensures k in LiveSet(nodes, i) {
      HoldersAre(holder, |holder|, k);
    }
    SubsetSize(hs + {i}, LiveSet(nodes, i));
  }

  /** Of two nodes in a slot the later one comes after the death of the earlier one. */
  lemma TakenInTurn(nodes: seq<Node>, slots: seq<Slot>, at: seq<nat>, j: nat, k: nat)
    requires |at| <= |nodes| && Slotted(nodes, slots, at) && j < |at| && k < |at| && at[j] == at[k]
    ensures j < k ==> FreeFrom(nodes, j) <= k
  {
  }

  /** Nodes live at one step occupy different slots. */
  lemma {:induction false} LiveInSlots(nodes: seq<Node>, slots: seq<Slot>, at: seq<nat>, live: set<nat>, t: nat, m: nat)
    requires |at| == |nodes| && Slotted(nodes, slots, at) && live <= LiveSet(nodes, t) && t < |nodes|
    requires forall k :: k in live ==> k < |at| && at[k] < m
    ensures |live| <= m
  {
    if m == 0 {
      assert live == {};
    } else {
      var here := set k | k in live && at[k] == m - 1;
      if k :| k in here {
        forall j | j in here ensures j == k {
          TakenInTurn(nodes, slots, at, j, k);
          TakenInTurn(nodes, slots, at, k, j);
        }
        assert here == {k};
        assert live == (live - {k}) + {k};
        LiveInSlots(nodes, slots, at, live - {k}, t, m - 1);
      } else {
        LiveInSlots(nodes, slots, at, live, t, m - 1);
      }
    }
  }

  /** c nodes are live at some step, and at no step more than c. */
  ghost predicate MostLive(nodes: seq<Node>, c: nat) {
    && (forall t: nat :: t < |nodes| ==> |LiveSet(nodes, t)| <= c)
    && (nodes != [] ==> exists t: nat :: t < |nodes| && |LiveSet(nodes, t)| == c)
    && (nodes == [] ==> c == 0)
  }

  lemma SlotsAreMostLive(nodes: seq<Node>, slots: seq<Slot>, at: seq<nat>, peakStep: nat)
    requires |at| == |nodes| && Slotted(nodes, slots, at)
    requires nodes != [] ==> peakStep < |nodes| && |LiveSet(nodes, peakStep)| >= |slots|
    requires nodes == [] ==> slots == []
    ensures MostLive(nodes, |slots|)
  {
    forall t: nat | t < |nodes| ensures |LiveSet(nodes, t)| <= |slots| {
      LiveInSlots(nodes, slots, at, LiveSet(nodes, t), t, |slots|);
    }
  }

  lemma {:induction false} SlotChanged(slots: seq<Slot>, ch: nat, x: Slot)
    requires ch < |slots|
    ensures SlotSum(slots[ch := x]) == SlotSum(slots) + x.size - slots[ch].size
  {
    var n := |slots| - 1;
    if ch < n {
      SlotChanged(slots[..n], ch, x);
      assert slots[ch := x][..n] == slots[..n][ch := x];
    } else {
      assert slots[ch := x][..n] == slots[..n];
    }
  }

  /** What node i does to the slots. */
  function Occupied(slots: seq<Slot>, ch: nat, nb: nat, end: int): seq<Slot>
    requires ch <= |slots|
  {
    if ch == |slots| then slots + [Slot(nb, if end > 0 then end else 0)]
    else slots[ch :=
        Slot(if slots[ch].size > nb then slots[ch].size else nb, if slots[ch].end > end then slots[ch].end else end)]
  }

  lemma OccupySlotted(nodes: seq<Node>, slots: seq<Slot>, at: seq<nat>, ch: nat)
    requires |at| < |nodes| && Slotted(nodes, slots, at) && ch <= |slots| && (ch < |slots| ==> slots[ch].end <= |at|)
    ensures Slotted(nodes, Occupied(slots, ch, nodes[|at|].bytes, FreeFrom(nodes, |at|)), at + [ch])
  {
    hide FreeFrom;
  }

  lemma OccupyHeld(nodes: seq<Node>, slots: seq<Slot>, at: seq<nat>, holder: seq<nat>, ch: nat)
    requires WellFormed(nodes) && |at| < |nodes| && Held(nodes, slots, at, holder) && ch <= |slots| &&
               (ch < |slots| ==> slots[ch].end <= |at|)
    ensures |holder| == |slots|
    ensures Held(nodes, Occupied(slots, ch, nodes[|at|].bytes, FreeFrom(nodes, |at|)), at + [ch],
                 if ch == |slots| then holder + [|at|] else holder[ch := |at|])
  {
    assert FreeFrom(nodes, |at|) > |at|;
    hide FreeFrom;
  }

  lemma OccupySum(slots: seq<Slot>, ch: nat, nb: nat, end: int)
    requires ch <= |slots|
    ensures SlotSum(Occupied(slots, ch, nb, end)) <= SlotSum(slots) + nb
  {
    if ch < |slots| {
      SlotChanged(slots, ch, Occupied(slots, ch, nb, end)[ch]);
    } else {
      assert Occupied(slots, ch, nb, end)[..|slots|] == slots;
    }
  }

  /** firstfit is never below the peak nor above all bytes, and opens exactly as many
      slots as nodes are live at once at most. */
  method FirstFit(nodes: seq<Node>) returns (total: nat, ghost used: nat)
    requires WellFormed(nodes)
    ensures Peak(nodes, |nodes|) <= total <= Sum(Sizes(nodes))
    ensures MostLive(nodes, used)
  {
    hide Slotted, Held, LiveSet, SlotSum, Sum, WellFormed, EndOf;
    var slots: seq<Slot> := [];
    ghost var at: seq<nat>, holder: seq<nat>, peakStep: nat := [], [], 0;
    NothingSlotted(nodes);
    for i := 0 to |nodes|
      invariant |at| == i && Slotted(nodes, slots, at) && Held(nodes, slots, at, holder)
      invariant SlotSum(slots) <= Sum(Sizes(nodes)[..i])
      invariant if i == 0 then slots == [] else peakStep < i && |LiveSet(nodes, peakStep)| >= |slots|
    {
      var nb, end := nodes[i].bytes, FreeFrom(nodes, i);
      var ch := FreeSlot(slots, i);
      ghost var fits: nat := if ch < 0 then |slots| else ch;
      OccupySlotted(nodes, slots, at, fits);
      OccupyHeld(nodes, slots, at, holder, fits);
      OccupySum(slots, fits, nb, end);
      SizesSnoc(nodes, i);
      if ch < 0 {
        AllTaken(nodes, slots, at, holder, i);
        peakStep := i;
        holder := holder + [i];
      } else {
        holder := holder[ch := i];
      }
      ghost var was := slots;
      if ch < 0 {
        ch := |slots|;
        slots := slots + [Slot(0, 0)];
      }
      var before := slots[ch];
      slots := slots[ch :=
          Slot(if before.size > nb then before.size else nb, if before.end > end then before.end else end)];
      assert slots == Occupied(was, fits, nb, end);
      at := at + [fits];
    }
    SlotsAreMostLive(nodes, slots, at, peakStep);
    SlotsAbovePeak(nodes, slots, at);
    assert Sizes(nodes)[..|nodes|] == Sizes(nodes);
    used := |slots|;
    total := Together(slots);
  }

  /** The sum of the slot sizes. */
  method Together(slots: seq<Slot>) returns (total: nat)
    ensures total == SlotSum(slots)
  {
    total := 0;
    for s := 0 to |slots|
      invariant total == SlotSum(slots[..s])
    {
      assert slots[..s + 1][..s] == slots[..s];
      total := total + slots[s].size;
    }
    assert slots[..|slots|] == slots;
  }

  lemma NothingSlotted(nodes: seq<Node>)
    ensures Slotted(nodes, [], []) && Held(nodes, [], [], []) && SlotSum([]) == 0
  {
  }

  lemma SizesSnoc(nodes: seq<Node>, i: nat)
    requires i < |nodes|
    ensures Sum(Sizes(nodes)[..i + 1]) == Sum(Sizes(nodes)[..i]) + nodes[i].bytes
  {
    assert Sizes(nodes)[..i + 1][..i] == Sizes(nodes)[..i];
  }

  lemma SlotsAbovePeak(nodes: seq<Node>, slots: seq<Slot>, at: seq<nat>)
    requires |at| == |nodes| && Slotted(nodes, slots, at)
    ensures Peak(nodes, |nodes|) <= SlotSum(slots)
  {
    assert slots[..|slots|] == slots;
    forall t: nat | t < |nodes| ensures LiveAt(nodes, t) <= SlotSum(slots) {
      SlotsHoldAll(nodes, at, t, t + 1, |slots|);
      LiveWithinSlots(nodes, slots, at, t, t + 1, |slots|);
    }
    PeakBelow(nodes, |nodes|, SlotSum(slots));
  }

  // ---- lowerBound -------------------------------------------------------------------

  /** An allocation (positive) or a free (negative) at a time. */
  datatype Event = Event(time: int, delta: int)

  /** Last step of node k as lowerBound counts it. */
  function LastStep(nodes: seq<Node>, k: nat): int
    requires k < |nodes|
  {
    if nodes[k].last < 0 then |nodes| - 1 else nodes[k].last
  }

  /** Events 2k and 2k + 1 are the allocation and the free of node k. */
  ghost predicate EventsOf(nodes: seq<Node>, events: seq<Event>) {
    && |events| == 2 * |nodes|
    && forall k: nat :: k < |nodes| ==>
         events[2 * k] == Event(k, nodes[k].bytes) &&
             events[2 * k + 1] == Event(LastStep(nodes, k) + 1, 0 - nodes[k].bytes)
  }

  predicate Earlier(events: seq<Event>, x: nat, y: nat)
    requires x < |events| && y < |events|
  {
    events[x].time < events[y].time || (events[x].time == events[y].time && x < y)
  }

  /** perm lists some event indices in stable time order. */
  ghost predicate StableOrder(events: seq<Event>, perm: seq<nat>) {
    && (forall k :: 0 <= k < |perm| ==> perm[k] < |events|)
    && forall i, j :: 0 <= i < j < |perm| ==> Earlier(events, perm[i], perm[j])
  }

  lemma InsertStable(events: seq<Event>, perm: seq<nat>, n: nat, j: nat)
    requires StableOrder(events, perm) && n < |events| && j <= |perm| && forall x: nat :: x in perm <==> x < n
    requires (j > 0 ==> events[perm[j - 1]].time <= events[n].time)
    requires forall k :: j <= k < |perm| ==> events[perm[k]].time > events[n].time
    ensures StableOrder(events, perm[..j] + [n] + perm[j..])
    ensures forall x: nat :: x in perm[..j] + [n] + perm[j..] <==> x < n + 1
  {
    InsertMembers(perm, n, j);
    assert forall k :: 0 <= k < |perm| ==> perm[k] in perm;
    forall k | 0 <= k < j ensures Earlier(events, perm[k], n) {
      assert k == j - 1 || Earlier(events, perm[k], perm[j - 1]);
    }
    var r := perm[..j] + [n] + perm[j..];
    forall a, b | 0 <= a < b < |r| ensures Earlier(events, r[a], r[b]) {
      if a < j && b > j { assert Earlier(events, perm[a], perm[b - 1]); }
    }
  }

  /** Array.prototype.sort by time; the sort is stable. */
  method SortByTime(events: seq<Event>) returns (sorted: seq<Event>, ghost perm: seq<nat>)
    ensures |sorted| == |perm| && StableOrder(events, perm) &&
              forall k :: 0 <= k < |perm| ==> sorted[k] == events[perm[k]]
    ensures forall x: nat :: x in perm <==> x < |events|
  {
    sorted, perm := [], [];
    for n := 0 to |events|
      invariant |sorted| == |perm| && StableOrder(events, perm) &&
                  forall k :: 0 <= k < |perm| ==> sorted[k] == events[perm[k]]
      invariant forall x: nat :: x in perm <==> x < n
    {
      var j := |sorted|;
      while j > 0 && sorted[j - 1].time > events[n].time
        invariant 0 <= j <= |sorted| && forall k :: j <= k < |sorted| ==> sorted[k].time > events[n].time
      {
        j := j - 1;
      }
      InsertStable(events, perm, n, j);
      sorted := sorted[..j] + [events[n]] + sorted[j..];
      perm := perm[..j] + [n] + perm[j..];
    }
  }

  /** Bytes allocated less bytes freed by the events in `done`, over the first n nodes. */
  ghost function Net(nodes: seq<Node>, done: set<nat>, n: nat): int
    requires n <= |nodes|
  {
    if n == 0 then 0
    else Net(nodes, done, n - 1) + (if 2 * (n - 1) in done then nodes[n - 1].bytes else 0)
                                 - (if 2 * (n - 1) + 1 in done then nodes[n - 1].bytes else 0)
  }

  lemma {:induction false} NetAdd(nodes: seq<Node>, events: seq<Event>, done: set<nat>, x: nat, n: nat)
    requires EventsOf(nodes, events) && n <= |nodes| && x < |events| && x !in done
    ensures Net(nodes, done + {x}, n) == Net(nodes, done, n) + if x < 2 * n then events[x].delta else 0
  {
    if n > 0 {
      NetAdd(nodes, events, done, x, n - 1);
      assert events[2 * (n - 1)] == Event(n - 1, nodes[n - 1].bytes);
    }
  }

  /** The events up to and including x in time order. */
  ghost predicate UpTo(events: seq<Event>, done: set<nat>, x: nat)
    requires x < |events|
  {
    forall y: nat :: y in done <==> y < |events| && (y == x || Earlier(events, y, x))
  }

  /** Right after the allocation of node t the live bytes are allocated. */
  lemma {:induction false} NetAtAlloc(nodes: seq<Node>, events: seq<Event>, done: set<nat>, t: nat, n: nat)
    requires WellFormed(nodes) && EventsOf(nodes, events) && t < |nodes| && n <= |nodes| && UpTo(events, done, 2 * t)
    ensures Net(nodes, done, n) == LiveUpTo(nodes, t, if n <= t + 1 then n else t + 1)
  {
    if n > 0 {
      NetAtAlloc(nodes, events, done, t, n - 1);
      var j := n - 1;
      assert events[2 * j] == Event(j, nodes[j].bytes) && events[2 * j + 1].time == LastStep(nodes, j) + 1;
      assert events[2 * t].time == t;
      assert 2 * j in done <==> j <= t;
      assert 2 * j + 1 in done <==> LastStep(nodes, j) + 1 <= t;
    }
  }

  /** After a free at time u no more than the live bytes of an earlier step are allocated. */
  lemma {:induction false} NetAtFree(nodes: seq<Node>, events: seq<Event>, done: set<nat>, k: nat, t: nat, n: nat)
    requires WellFormed(nodes) && EventsOf(nodes, events) && k < |nodes| && n <= |nodes| &&
               UpTo(events, done, 2 * k + 1)
    requires t == if LastStep(nodes, k) < |nodes| then LastStep(nodes, k) else |nodes| - 1
    ensures Net(nodes, done, n) <= LiveUpTo(nodes, t, if n <= t + 1 then n else t + 1)
  {
    if n > 0 {
      NetAtFree(nodes, events, done, k, t, n - 1);
      var j := n - 1;
      assert events[2 * j] == Event(j, nodes[j].bytes) && events[2 * j + 1].time == LastStep(nodes, j) + 1;
      assert events[2 * k + 1].time == LastStep(nodes, k) + 1;
      assert 2 * j in done ==> j <= t;
      assert EndOf(nodes, j) < t ==> 2 * j + 1 in done;
    }
  }

  /** The k-th event in time order closes a prefix. */
  lemma PrefixIsUpTo(events: seq<Event>, perm: seq<nat>, done: set<nat>, k: nat)
    requires StableOrder(events, perm) && (forall x: nat :: x in perm <==> x < |events|) && k < |perm|
    requires forall x :: x in done <==> x in perm[..k]
    ensures perm[k] !in done && perm[k] < |events| && UpTo(events, done + {perm[k]}, perm[k])
  {
    var x := perm[k];
    forall y: nat ensures y in done + {x} <==> y < |events| && (y == x || Earlier(events, y, x)) {
      if y in done {
        var i :| 0 <= i < k && perm[..k][i] == y;
        assert perm[i] == y;
      }
      if y < |events| && Earlier(events, y, x) {
        assert y in perm;
        var i :| 0 <= i < |perm| && perm[i] == y;
        assert i < k && perm[..k][i] == y;
      }
    }
    assert forall i :: 0 <= i < k ==> perm[..k][i] == perm[i] && perm[i] != x;
  }

  /** What is allocated after a prefix of the events never exceeds the peak, and
      reaches the live bytes of step t at the allocation of node t. */
  lemma {:induction false} NetBounds(nodes: seq<Node>, events: seq<Event>, done: set<nat>, x: nat)
    requires WellFormed(nodes) && EventsOf(nodes, events) && x < |events| && UpTo(events, done, x)
    ensures Net(nodes, done, |nodes|) <= Peak(nodes, |nodes|)
    ensures x % 2 == 0 ==> Net(nodes, done, |nodes|) == LiveAt(nodes, x / 2)
  {
    var k := x / 2;
    if x % 2 == 0 {
      NetAtAlloc(nodes, events, done, k, |nodes|);
      assert LiveAt(nodes, k) <= Peak(nodes, |nodes|);
    } else {
      var t := if LastStep(nodes, k) < |nodes| then LastStep(nodes, k) else |nodes| - 1;
      NetAtFree(nodes, events, done, k, t, |nodes|);
      assert LiveAt(nodes, t) <= Peak(nodes, |nodes|);
    }
  }

  /** The event list, in node order. */
  method BuildEvents(nodes: seq<Node>) returns (events: seq<Event>)
    ensures EventsOf(nodes, events)
  {
    events := [];
    for k := 0 to |nodes|
      invariant |events| == 2 * k
      invariant forall j: nat :: j < k ==>
                  events[2 * j] == Event(j, nodes[j].bytes) &&
                      events[2 * j + 1] == Event(LastStep(nodes, j) + 1, 0 - nodes[j].bytes)
    {
      events := events + [Event(k, nodes[k].bytes)];
      events := events + [Event(LastStep(nodes, k) + 1, 0 - nodes[k].bytes)];
    }
  }

  /** lowerBound is the peak of simultaneously live bytes. */
  method LowerBound(nodes: seq<Node>) returns (peak: int)
    requires WellFormed(nodes)
    ensures peak == Peak(nodes, |nodes|)
  {
    var events := BuildEvents(nodes);
    var sorted;
    ghost var perm;
    sorted, perm := SortByTime(events);
    var cur := 0;
    peak := 0;
    ghost var done: set<nat> := {};
    NothingDone(nodes, |nodes|);
    hide EventsOf, Net, Peak, StableOrder, LiveUpTo, WellFormed, UpTo, LiveAt;
    for k := 0 to |sorted|
      invariant cur == Net(nodes, done, |nodes|) && 0 <= peak <= Peak(nodes, |nodes|)
      invariant forall x :: x in done <==> x in perm[..k]
      invariant forall t: nat :: t < |nodes| && 2 * t in done ==> LiveAt(nodes, t) <= peak
    {
      var x := perm[k];
      PrefixIsUpTo(events, perm, done, k);
      NetAdd(nodes, events, done, x, |nodes|);
      assert perm[..k + 1] == perm[..k] + [x];
      done := done + {x};
      NetBounds(nodes, events, done, x);
      cur := cur + sorted[k].delta;
      if cur > peak { peak := cur; }
    }
    assert perm[..|perm|] == perm;
    PeakBelow(nodes, |nodes|, peak);
  }

  lemma {:induction false} NothingDone(nodes: seq<Node>, n: nat)
    requires n <= |nodes|
    ensures Net(nodes, {}, n) == 0
  {
    if n > 0 { NothingDone(nodes, n - 1); }
  }
}
