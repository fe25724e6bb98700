/** Result-buffer layout of one layer: live intervals of the closure's outputs,
    best-fit-decreasing packing into one shared block, and what reuse of the
    block means for the values that are read. */
module ArenaPacking {
  import opened Basics

  /** A compute node: output bytes and, per source, the producing node or -1. */
  datatype Node = Node(size: nat, srcs: seq<int>)

  /** A placed output: byte offset, size, live interval [start, end], node index. */
  datatype Block = Block(off: nat, size: nat, start: int, end: int, ni: nat)

  predicate TimeOverlap(s: int, e: int, s': int, e': int) {
    !(e < s' || e' < s)
  }

  predicate SpaceOverlap(o: nat, n: nat, o': nat, n': nat) {
    o < o' + n' && o' < o + n
  }

  predicate Clash(p: Block, s: int, e: int, off: nat, nb: nat) {
    TimeOverlap(s, e, p.start, p.end) && SpaceOverlap(off, nb, p.off, p.size)
  }

  ghost predicate Feasible(placed: seq<Block>, s: int, e: int, off: nat, nb: nat) {
    forall i :: 0 <= i < |placed| ==> !Clash(placed[i], s, e, off, nb)
  }

  /** Lowest offset that does not clash with the placed blocks. */
  ghost predicate Lowest(placed: seq<Block>, s: int, e: int, off: nat, nb: nat) {
    Feasible(placed, s, e, off, nb) && forall o: nat :: o < off ==> !Feasible(placed, s, e, o, nb)
  }

  function Ends(placed: seq<Block>): nat {
    if placed == [] then 0 else Ends(placed[..|placed| - 1]) + placed[|placed| - 1].off + placed[|placed| - 1].size
  }

  lemma {:induction false} EndBound(placed: seq<Block>, i: nat)
    requires i < |placed|
    ensures placed[i].off + placed[i].size <= Ends(placed)
  {
    if i < |placed| - 1 { EndBound(placed[..|placed| - 1], i); }
  }

  // ---- placing one block -----------------------------------------------------------

  /** The furthest end of the blocks that clash at off, or -1. */
  method Furthest(placed: seq<Block>, s: int, e: int, off: nat, nb: nat) returns (furthest: int)
    ensures furthest == -1 ==> Feasible(placed, s, e, off, nb)
    ensures furthest != -1 ==>
              exists i ::
                  0 <= i < |placed| && Clash(placed[i], s, e, off, nb) && placed[i].off + placed[i].size == furthest
    ensures forall i ::
              0 <= i < |placed| && Clash(placed[i], s, e, off, nb) ==> placed[i].off + placed[i].size <= furthest
    ensures furthest == -1 || furthest > off
  {
    furthest := -1;
    for n := 0 to |placed|
      invariant furthest == -1 ||
                  exists i ::
                      0 <= i < n && Clash(placed[i], s, e, off, nb) && placed[i].off + placed[i].size == furthest
      invariant forall i :: 0 <= i < n && Clash(placed[i], s, e, off, nb) ==> placed[i].off + placed[i].size <= furthest
    {
      var p := placed[n];
      if !(e < p.start || p.end < s) {
        if off < p.off + p.size && p.off < off + nb {
          furthest := if furthest > p.off + p.size then furthest else p.off + p.size;
        }
      }
    }
  }

  /** Jumping to the furthest blocker never skips a feasible offset, and ends. */
  method FindOffset(placed: seq<Block>, s: int, e: int, nb: nat) returns (off: nat)
    ensures Lowest(placed, s, e, off, nb)
    ensures off == 0 || exists i :: 0 <= i < |placed| && off == placed[i].off + placed[i].size
  {
    off := 0;
    while true
      invariant forall o: nat :: o < off ==> !Feasible(placed, s, e, o, nb)
      invariant off == 0 || exists i :: 0 <= i < |placed| && off == placed[i].off + placed[i].size
      decreases Ends(placed) - off
    {
      var furthest := Furthest(placed, s, e, off, nb);
      if furthest < 0 { break; }
      ghost var i :| 0 <= i < |placed| && Clash(placed[i], s, e, off, nb) && placed[i].off + placed[i].size == furthest;
      EndBound(placed, i);
      forall o: nat | o < furthest ensures !Feasible(placed, s, e, o, nb) {
        if o >= off { assert Clash(placed[i], s, e, o, nb); }
      }
      off := furthest;
    }
  }

  // ---- placing all blocks --------------------------------------------------------------

  /** Block i stands for node order[i], at the lowest feasible offset among its
      predecessors, which is 0 or the end of one of them. */
  ghost predicate PlacedAt(sizes: seq<nat>, start: seq<int>, end: seq<int>, order: seq<nat>, placed: seq<Block>, i: nat)
    requires |sizes| == |start| == |end| && i < |placed| <= |order| && order[i] < |sizes|
  {
    var p := placed[i];
    && p.ni == order[i] && p.size == sizes[p.ni] && p.start == start[p.ni] && p.end == end[p.ni]
    && Lowest(placed[..i], p.start, p.end, p.off, p.size)
    && (p.off == 0 || exists j :: 0 <= j < i && p.off == placed[j].off + placed[j].size)
  }

  ghost predicate PlacedInOrder(sizes: seq<nat>, start: seq<int>, end: seq<int>, order: seq<nat>, placed: seq<Block>)
    requires |sizes| == |start| == |end|
  {
    && |placed| <= |order| && (forall i :: 0 <= i < |order| ==> order[i] < |sizes|)
    && (forall i :: 0 <= i < |placed| ==> placed[i].ni == order[i])
    && forall i :: 0 <= i < |placed| ==> PlacedAt(sizes, start, end, order, placed, i)
  }

  lemma PlaceNext(sizes: seq<nat>, start: seq<int>, end: seq<int>, order: seq<nat>, placed: seq<Block>, p: Block)
    requires |sizes| == |start| == |end| && PlacedInOrder(sizes, start, end, order, placed) && |placed| < |order|
    requires p.ni == order[|placed|] && p.size == sizes[p.ni] && p.start == start[p.ni] && p.end == end[p.ni]
    requires Lowest(placed, p.start, p.end, p.off, p.size)
    requires p.off == 0 || exists j :: 0 <= j < |placed| && p.off == placed[j].off + placed[j].size
    ensures PlacedInOrder(sizes, start, end, order, placed + [p])
  {
    hide Lowest;
    var more := placed + [p];
    forall i | 0 <= i < |more| ensures PlacedAt(sizes, start, end, order, more, i) {
      if i < |placed| {
        assert more[..i] == placed[..i] && PlacedAt(sizes, start, end, order, placed, i);
      } else {
        assert more[..i] == placed;
      }
    }
  }

  ghost predicate ArenaIs(placed: seq<Block>, arena: nat) {
    && (forall i :: 0 <= i < |placed| ==> placed[i].off + placed[i].size <= arena)
    && (arena == 0 || exists i :: 0 <= i < |placed| && placed[i].off + placed[i].size == arena)
  }

  lemma GrowArena(placed: seq<Block>, arena: nat)
    requires placed != [] && ArenaIs(placed[..|placed| - 1], arena)
    ensures var top := placed[|placed| - 1].off + placed[|placed| - 1].size;
            ArenaIs(placed, if arena > top then arena else top)
  {
    var before := placed[..|placed| - 1];
    forall i | 0 <= i < |placed| - 1 ensures placed[i] == before[i] {
    }
    if arena > 0 {
      var i :| 0 <= i < |before| && before[i].off + before[i].size == arena;
      assert placed[i] == before[i];
    }
  }

  /** pack_interval. */
  method PackInterval(sizes: seq<nat>, start: seq<int>, end: seq<int>)
    returns (outOff: seq<int>, arena: nat, ghost order: seq<nat>, ghost placed: seq<Block>)
    requires |sizes| == |start| == |end|
    ensures SizeOrder(sizes, order) && |order| == |sizes| == |placed| == |outOff| &&
              forall x: nat :: x < |sizes| ==> x in order
    ensures PlacedInOrder(sizes, start, end, order, placed)
    ensures forall i :: 0 <= i < |placed| ==> outOff[placed[i].ni] == placed[i].off
    ensures ArenaIs(placed, arena)
  {
    var c := |sizes|;
    outOff := seq(c, _ => -1);
    hide PlacedAt, Lowest;
    arena := 0;
    var ord := SortBySize(sizes);
    order := ord;
    var put: seq<Block> := [];
    for n := 0 to |ord|
      invariant |put| == n && PlacedInOrder(sizes, start, end, ord, put) && ArenaIs(put, arena)
    {
      var ni := ord[n];
      var off := FindOffset(put, start[ni], end[ni], sizes[ni]);
      PlaceNext(sizes, start, end, ord, put, Block(off, sizes[ni], start[ni], end[ni], ni));
      ghost var before := put;
      put := put + [Block(off, sizes[ni], start[ni], end[ni], ni)];
      assert put[..n] == before;
      assert put[n].off + put[n].size == off + sizes[ni];
      GrowArena(put, arena);
      arena := if arena > off + sizes[ni] then arena else off + sizes[ni];
    }
    placed := put;
    for n := 0 to |put|
      invariant |outOff| == c && forall i :: 0 <= i < n ==> outOff[put[i].ni] == put[i].off
    {
      outOff := outOff[put[n].ni := put[n].off];
      assert forall i :: 0 <= i < n ==> LargerFirst(sizes, ord[i], ord[n]);
    }
  }

  // ---- what a packing is -----------------------------------------------------------------

  /** Every output has its own offset inside the block, and outputs that are live
      at the same time do not share a byte. */
  ghost predicate Packed(sizes: seq<nat>, start: seq<int>, end: seq<int>, outOff: seq<int>, arena: nat) {
    && |sizes| == |start| == |end| == |outOff|
    && (forall a :: 0 <= a < |sizes| ==> 0 <= outOff[a] && outOff[a] + sizes[a] <= arena)
    && forall a, b :: 0 <= a < b < |sizes| && TimeOverlap(start[a], end[a], start[b], end[b]) ==>
         !SpaceOverlap(outOff[a], sizes[a], outOff[b], sizes[b])
  }

  lemma IndexIn(order: seq<nat>, x: nat) returns (i: nat)
    requires x in order
    ensures i < |order| && order[i] == x
  {
    i :| 0 <= i < |order| && order[i] == x;
  }

  lemma PlacedApart(sizes: seq<nat>, start: seq<int>, end: seq<int>, order: seq<nat>, placed: seq<Block>, i: nat,
                    j: nat)
    requires |sizes| == |start| == |end| && PlacedInOrder(sizes, start, end, order, placed) && i < j < |placed|
    ensures !Clash(placed[i], placed[j].start, placed[j].end, placed[j].off, placed[j].size)
  {
    assert PlacedAt(sizes, start, end, order, placed, j);
    assert placed[..j][i] == placed[i];
  }

  /** pack_interval separates every pair with overlapping live intervals. */
  lemma PackedApart(sizes: seq<nat>, start: seq<int>, end: seq<int>, order: seq<nat>, placed: seq<Block>,
                    outOff: seq<int>, arena: nat)
    requires |sizes| == |start| == |end| == |placed| == |outOff| == |order|
    requires PlacedInOrder(sizes, start, end, order, placed) && ArenaIs(placed, arena)
    requires forall x: nat :: x < |sizes| ==> x in order
    requires forall i :: 0 <= i < |placed| ==> outOff[placed[i].ni] == placed[i].off
    ensures Packed(sizes, start, end, outOff, arena)
  {
    forall a: nat | a < |sizes| ensures 0 <= outOff[a] && outOff[a] + sizes[a] <= arena {
      var i := IndexIn(order, a);
      assert PlacedAt(sizes, start, end, order, placed, i);
    }
    forall a: nat, b: nat | a < b < |sizes| && TimeOverlap(start[a], end[a], start[b], end[b])
      ensures !SpaceOverlap(outOff[a], sizes[a], outOff[b], sizes[b])
    {
      var i := IndexIn(order, a);
      var j := IndexIn(order, b);
      assert PlacedAt(sizes, start, end, order, placed, i) && PlacedAt(sizes, start, end, order, placed, j);
      if i < j {
        PlacedApart(sizes, start, end, order, placed, i, j);
      } else {
        PlacedApart(sizes, start, end, order, placed, j, i);
      }
    }
  }

  // ---- bounds on the block size ---------------------------------------------------------------

  function PlacedSum(placed: seq<Block>): nat {
    if placed == [] then 0 else PlacedSum(placed[..|placed| - 1]) + placed[|placed| - 1].size
  }

  /** A block ends no higher than the sizes placed so far add up to. */
  lemma {:induction false} EndWithinSum(sizes: seq<nat>, start: seq<int>, end: seq<int>, order: seq<nat>,
                                        placed: seq<Block>, i: nat)
    requires |sizes| == |start| == |end| && PlacedInOrder(sizes, start, end, order, placed) && i < |placed|
    ensures placed[i].off + placed[i].size <= PlacedSum(placed[..i + 1])
  {
    assert PlacedAt(sizes, start, end, order, placed, i);
    assert placed[..i + 1][..i] == placed[..i];
    if placed[i].off > 0 {
      var j :| 0 <= j < i && placed[i].off == placed[j].off + placed[j].size;
      EndWithinSum(sizes, start, end, order, placed, j);
      SumGrows(placed, j + 1, i);
    }
  }

  lemma {:induction false} SumGrows(placed: seq<Block>, j: nat, i: nat)
    requires j <= i <= |placed|
    ensures PlacedSum(placed[..j]) <= PlacedSum(placed[..i])
  {
    if j < i {
      SumGrows(placed, j, i - 1);
      assert placed[..i][..i - 1] == placed[..i - 1];
    }
  }

  ghost function PickSum(sizes: seq<nat>, xs: seq<nat>): nat
    requires forall i :: 0 <= i < |xs| ==> xs[i] < |sizes|
  {
    if xs == [] then 0 else PickSum(sizes, xs[..|xs| - 1]) + sizes[xs[|xs| - 1]]
  }

  lemma {:induction false} PlacedSumIsPick(sizes: seq<nat>, start: seq<int>, end: seq<int>, order: seq<nat>,
                                           placed: seq<Block>, n: nat)
    requires |sizes| == |start| == |end| && PlacedInOrder(sizes, start, end, order, placed) && n <= |placed|
    ensures PlacedSum(placed[..n]) == PickSum(sizes, order[..n])
  {
    if n > 0 {
      PlacedSumIsPick(sizes, start, end, order, placed, n - 1);
      assert PlacedAt(sizes, start, end, order, placed, n - 1);
      assert placed[..n][..n - 1] == placed[..n - 1] && order[..n][..n - 1] == order[..n - 1];
    }
  }

  ghost predicate NoRepeat(xs: seq<nat>, n: nat) {
    && (forall i :: 0 <= i < |xs| ==> xs[i] < n)
    && forall i, j :: 0 <= i < j < |xs| ==> xs[i] != xs[j]
  }

  /** Sizes picked without repetition add up to at most the sum of all. */
  lemma {:induction false} PickWithinSum(sizes: seq<nat>, xs: seq<nat>)
    requires NoRepeat(xs, |sizes|)
    ensures PickSum(sizes, xs) <= Sum(sizes)
  {
    if sizes != [] {
      var n := |sizes| - 1;
      if n in xs {
        var i := IndexIn(xs, n);
        var rest := xs[..i] + xs[i + 1..];
        RemovePick(sizes, xs, i);
        SameSizes(sizes, n, rest);
        PickWithinSum(sizes[..n], rest);
      } else {
        SameSizes(sizes, n, xs);
        PickWithinSum(sizes[..n], xs);
      }
    }
  }

  lemma {:induction false} RemovePick(sizes: seq<nat>, xs: seq<nat>, i: nat)
    requires i < |xs| && forall k :: 0 <= k < |xs| ==> xs[k] < |sizes|
    ensures PickSum(sizes, xs) == PickSum(sizes, xs[..i] + xs[i + 1..]) + sizes[xs[i]]
    decreases |xs|
  {
    var n := |xs| - 1;
    if i < n {
      RemovePick(sizes, xs[..n], i);
      assert xs[..n][..i] + xs[..n][i + 1..] == (xs[..i] + xs[i + 1..])[..n - 1];
    } else {
      assert xs[..i] + xs[i + 1..] == xs[..n];
    }
  }

  lemma {:induction false} SameSizes(sizes: seq<nat>, n: nat, xs: seq<nat>)
    requires n <= |sizes| && forall i :: 0 <= i < |xs| ==> xs[i] < n
    ensures PickSum(sizes, xs) == PickSum(sizes[..n], xs)
  {
    if xs != [] { SameSizes(sizes, n, xs[..|xs| - 1]); }
  }

  lemma NoRepeatPrefix(sizes: seq<nat>, order: seq<nat>)
    requires SizeOrder(sizes, order)
    ensures forall n :: 0 <= n <= |order| ==> NoRepeat(order[..n], |sizes|)
  {
    forall a, b | 0 <= a < b < |order| ensures order[a] != order[b] {
      assert LargerFirst(sizes, order[a], order[b]);
    }
  }

  /** The block is no larger than all outputs side by side. */
  lemma ArenaWithinSum(sizes: seq<nat>, start: seq<int>, end: seq<int>, order: seq<nat>, placed: seq<Block>, arena: nat)
    requires |sizes| == |start| == |end| && SizeOrder(sizes, order)
    requires PlacedInOrder(sizes, start, end, order, placed) && ArenaIs(placed, arena)
    ensures arena <= Sum(sizes)
  {
    NoRepeatPrefix(sizes, order);
    if arena > 0 {
      var i: nat :| i < |placed| && placed[i].off + placed[i].size == arena;
      hide PlacedInOrder, SizeOrder, Sum, PickSum, PlacedSum, NoRepeat;
      EndWithinSum(sizes, start, end, order, placed, i);
      PlacedSumIsPick(sizes, start, end, order, placed, i + 1);
      PickWithinSum(sizes, order[..i + 1]);
    }
  }

  /** Bytes of the outputs among the first n that are live at time t. */
  ghost function LiveBytes(sizes: seq<nat>, start: seq<int>, end: seq<int>, t: int, n: nat): nat
    requires |sizes| == |start| == |end| && n <= |sizes|
  {
    if n == 0 then 0
    else LiveBytes(sizes, start, end, t, n - 1) + if start[n - 1] <= t <= end[n - 1] then sizes[n - 1] else 0
  }

  /** The addresses those outputs occupy. */
  ghost function LiveAddrs(sizes: seq<nat>, start: seq<int>, end: seq<int>, outOff: seq<int>, t: int, n: nat): set<nat>
    requires |sizes| == |start| == |end| == |outOff| && n <= |sizes|
  {
    if n == 0 then {}
    else LiveAddrs(sizes, start, end, outOff, t, n - 1) +
         if start[n - 1] <= t <= end[n - 1] then Range(outOff[n - 1], sizes[n - 1]) else {}
  }

  /** Output b's addresses are none of those of earlier outputs live at t. */
  lemma LiveApart(sizes: seq<nat>, start: seq<int>, end: seq<int>, outOff: seq<int>, arena: nat, t: int, b: nat, x: nat)
    requires Packed(sizes, start, end, outOff, arena) && b < |sizes| && start[b] <= t <= end[b]
    requires exists a :: 0 <= a < b && start[a] <= t <= end[a] && outOff[a] <= x < outOff[a] + sizes[a]
    ensures x !in Range(outOff[b], sizes[b])
  {
    var a :| 0 <= a < b && start[a] <= t <= end[a] && outOff[a] <= x < outOff[a] + sizes[a];
    assert TimeOverlap(start[a], end[a], start[b], end[b]);
    assert !SpaceOverlap(outOff[a], sizes[a], outOff[b], sizes[b]);
  }

  lemma {:induction false} LiveAddrsSize(sizes: seq<nat>, start: seq<int>, end: seq<int>, outOff: seq<int>,
                                         arena: nat, t: int, n: nat)
    requires Packed(sizes, start, end, outOff, arena) && n <= |sizes|
    ensures |LiveAddrs(sizes, start, end, outOff, t, n)| == LiveBytes(sizes, start, end, t, n)
    ensures forall x :: x in LiveAddrs(sizes, start, end, outOff, t, n) ==>
              exists a :: 0 <= a < n && start[a] <= t <= end[a] && outOff[a] <= x < outOff[a] + sizes[a]
  {
    if n > 0 {
      LiveAddrsSize(sizes, start, end, outOff, arena, t, n - 1);
      assert outOff[n - 1] >= 0;
      hide Packed, Range;
      var less, b := LiveAddrs(sizes, start, end, outOff, t, n - 1), n - 1;
      if start[b] <= t <= end[b] {
        var more := Range(outOff[b], sizes[b]);
        forall x | x in less ensures x !in more {
          LiveApart(sizes, start, end, outOff, arena, t, b, x);
        }
        assert less !! more;
        assert |less + more| == |less| + |more|;
      }
    }
  }

  /** The block is no smaller than the bytes live at any one time. */
  lemma PeakWithinArena(sizes: seq<nat>, start: seq<int>, end: seq<int>, outOff: seq<int>, arena: nat, t: int)
    requires Packed(sizes, start, end, outOff, arena)
    ensures LiveBytes(sizes, start, end, t, |sizes|) <= arena
  {
    LiveAddrsSize(sizes, start, end, outOff, arena, t, |sizes|);
    var addrs := LiveAddrs(sizes, start, end, outOff, t, |sizes|);
    forall x | x in addrs ensures x in Range(0, arena) {
      var a :| 0 <= a < |sizes| && start[a] <= t <= end[a] && outOff[a] <= x < outOff[a] + sizes[a];
    }
    SubsetSize(addrs, Range(0, arena));
  }

  // ---- liveness and self-check -------------------------------------------------------------------

  predicate Reads(nodes: seq<Node>, c: nat, p: nat)
    requires c < |nodes|
  {
    exists s :: 0 <= s < |nodes[c].srcs| && nodes[c].srcs[s] == p
  }

  /** u is the last node after p that reads p, or -1 when none does. */
  ghost predicate IsLastUse(nodes: seq<Node>, p: nat, u: int, from: nat) {
    && (u == -1 || (p < u < |nodes| && u >= from && Reads(nodes, u, p)))
    && forall c :: from <= c < |nodes| && c > p && c > u ==> !Reads(nodes, c, p)
  }

  /** The backward last-use loop. */
  method LastUse(nodes: seq<Node>) returns (lastUse: seq<int>)
    ensures |lastUse| == |nodes| && forall p :: 0 <= p < |nodes| ==> IsLastUse(nodes, p, lastUse[p], 0)
  {
    var size := |nodes|;
    lastUse := seq(size, _ => -1);
    var c := size - 1;
    while c >= 0
      invariant -1 <= c < size && |lastUse| == size
      invariant forall p :: 0 <= p < size ==> IsLastUse(nodes, p, lastUse[p], c + 1)
    {
      ghost var before := lastUse;
      for s := 0 to |nodes[c].srcs|
        invariant |lastUse| == size
        invariant forall p :: 0 <= p < size ==>
                    lastUse[p] ==
                      if before[p] < 0 && p < c && (exists i :: 0 <= i < s && nodes[c].srcs[i] == p) then c
                      else before[p]
      {
        var p := nodes[c].srcs[s];
        if p >= 0 && p < c && lastUse[p] < 0 {
          lastUse := lastUse[p := c];
        }
      }
      forall p | 0 <= p < size ensures IsLastUse(nodes, p, lastUse[p], c) {
        assert IsLastUse(nodes, p, before[p], c + 1);
        assert Reads(nodes, c, p) <==> exists i :: 0 <= i < |nodes[c].srcs| && nodes[c].srcs[i] == p;
      }
      c := c - 1;
    }
  }

  function EndOf(lastUse: int, size: nat): int {
    if lastUse < 0 then size else lastUse
  }

  /** A layout of one layer. */
  ghost predicate IsLayout(nodes: seq<Node>, lastUse: seq<int>, outOff: seq<int>, arena: nat) {
    && |lastUse| == |nodes| && (forall p :: 0 <= p < |nodes| ==> IsLastUse(nodes, p, lastUse[p], 0))
    && Packed(Sizes(nodes), Starts(nodes), EndsOf(lastUse), outOff, arena)
  }

  function Sizes(nodes: seq<Node>): (r: seq<nat>)
    ensures |r| == |nodes| && forall i :: 0 <= i < |nodes| ==> r[i] == nodes[i].size
  {
    seq(|nodes|, i requires 0 <= i < |nodes| => nodes[i].size)
  }

  function Starts(nodes: seq<Node>): (r: seq<int>)
    ensures |r| == |nodes| && forall i :: 0 <= i < |nodes| ==> r[i] == i
  {
    seq(|nodes|, i => i)
  }

  function EndsOf(lastUse: seq<int>): (r: seq<int>)
    ensures |r| == |lastUse| && forall i :: 0 <= i < |lastUse| ==> r[i] == EndOf(lastUse[i], |lastUse|)
  {
    seq(|lastUse|, i requires 0 <= i < |lastUse| => EndOf(lastUse[i], |lastUse|))
  }

  /** The layout self-check. */
  method SelfCheck(sizes: seq<nat>, lastUse: seq<int>, outOff: seq<int>) returns (ok: bool)
    requires |sizes| == |lastUse| == |outOff|
    ensures ok <==> forall a, b ::
              0 <= a < b < |sizes| && TimeOverlap(a, EndOf(lastUse[a], |sizes|), b, EndOf(lastUse[b], |sizes|)) ==>
                      outOff[a] + sizes[a] <= outOff[b] || outOff[b] + sizes[b] <= outOff[a]
  {
    var size := |sizes|;
    ok := true;
    var a := 0;
    while a < size && ok
      invariant 0 <= a <= size
      invariant ok <==> forall x, b ::
                  0 <= x < a && x < b < size && TimeOverlap(x, EndOf(lastUse[x], size), b, EndOf(lastUse[b], size)) ==>
                          outOff[x] + sizes[x] <= outOff[b] || outOff[b] + sizes[b] <= outOff[x]
    {
      for b := a + 1 to size
        invariant ok <==> forall x ::
                    a < x < b && TimeOverlap(a, EndOf(lastUse[a], size), x, EndOf(lastUse[x], size)) ==>
                            outOff[a] + sizes[a] <= outOff[x] || outOff[x] + sizes[x] <= outOff[a]
      {
        var la, lb := EndOf(lastUse[a], size), EndOf(lastUse[b], size);
        if !(a > lb || b > la) {
          if !(outOff[a] + sizes[a] <= outOff[b] || outOff[b] + sizes[b] <= outOff[a]) {
            ok := false;
          }
        }
      }
      a := a + 1;
    }
  }

  /** Liveness, packing and self-check of one layer: the self-check can never fail. */
  method LayOut(nodes: seq<Node>) returns (lastUse: seq<int>, outOff: seq<int>, bytes: nat, layoutOk: bool)
    ensures IsLayout(nodes, lastUse, outOff, bytes) && layoutOk
    ensures bytes <= Sum(Sizes(nodes))
    ensures forall t: int :: LiveBytes(Sizes(nodes), Starts(nodes), EndsOf(lastUse), t, |nodes|) <= bytes
  {
    hide PlacedInOrder, SizeOrder, ArenaIs, Packed, IsLastUse, Sum, LiveBytes;
    lastUse := LastUse(nodes);
    var sizes, start, end := Sizes(nodes), Starts(nodes), EndsOf(lastUse);
    ghost var order, placed;
    outOff, bytes, order, placed := PackInterval(sizes, start, end);
    PackedApart(sizes, start, end, order, placed, outOff, bytes);
    ArenaWithinSum(sizes, start, end, order, placed, bytes);
    forall t: int ensures LiveBytes(sizes, start, end, t, |sizes|) <= bytes {
      PeakWithinArena(sizes, start, end, outOff, bytes, t);
    }
    layoutOk := SelfCheck(sizes, lastUse, outOff);
    PackedChecks(sizes, lastUse, start, end, outOff, bytes);
  }

  lemma PackedChecks(sizes: seq<nat>, lastUse: seq<int>, start: seq<int>, end: seq<int>, outOff: seq<int>, arena: nat)
    requires Packed(sizes, start, end, outOff, arena) && |lastUse| == |sizes|
    requires forall i :: 0 <= i < |sizes| ==> start[i] == i && end[i] == EndOf(lastUse[i], |sizes|)
    ensures forall a, b ::
              0 <= a < b < |sizes| && TimeOverlap(a, EndOf(lastUse[a], |sizes|), b, EndOf(lastUse[b], |sizes|)) ==>
              outOff[a] + sizes[a] <= outOff[b] || outOff[b] + sizes[b] <= outOff[a]
  {
    forall a, b | 0 <= a < b < |sizes| && TimeOverlap(a, EndOf(lastUse[a], |sizes|), b, EndOf(lastUse[b], |sizes|))
      ensures outOff[a] + sizes[a] <= outOff[b] || outOff[b] + sizes[b] <= outOff[a]
    {
      assert TimeOverlap(start[a], end[a], start[b], end[b]);
      assert !SpaceOverlap(outOff[a], sizes[a], outOff[b], sizes[b]);
    }
  }

  // ---- reuse preserves meaning --------------------------------------------------------------------

  /** Sources are external or earlier nodes. */
  ghost predicate Topological(nodes: seq<Node>) {
    forall c, s :: 0 <= c < |nodes| && 0 <= s < |nodes[c].srcs| ==> nodes[c].srcs[s] < c
  }

  /** The closure's operations: what node c computes from its source values, and
      the bytes of its external sources. */
  ghost predicate FitsSizes<B(!new)>(nodes: seq<Node>, f: (nat, seq<seq<B>>) -> seq<B>) {
    forall c: nat, ins: seq<seq<B>> :: c < |nodes| ==> |f(c, ins)| == nodes[c].size
  }

  /** Value of node c when every output has a buffer of its own. */
  ghost function Value<B(!new)>(nodes: seq<Node>, f: (nat, seq<seq<B>>) -> seq<B>, ext: (nat, nat) -> seq<B>,
                         c: nat): seq<B>
    requires Topological(nodes) && c < |nodes|
  {
    f(c, seq(|nodes[c].srcs|, s requires 0 <= s < |nodes[c].srcs| =>
           if nodes[c].srcs[s] >= 0 then Value(nodes, f, ext, nodes[c].srcs[s]) else ext(c, s)))
  }

  ghost predicate Inside(nodes: seq<Node>, outOff: seq<int>, arena: nat) {
    |outOff| == |nodes| && forall a :: 0 <= a < |nodes| ==> 0 <= outOff[a] && outOff[a] + nodes[a].size <= arena
  }

  /** The source values node c finds in the shared block. */
  ghost function Loaded<B(!new)>(nodes: seq<Node>, ext: (nat, nat) -> seq<B>, outOff: seq<int>, mem: seq<B>,
                          c: nat): seq<seq<B>>
    requires Topological(nodes) && Inside(nodes, outOff, |mem|) && c < |nodes|
  {
    seq(|nodes[c].srcs|, s requires 0 <= s < |nodes[c].srcs| =>
      var p := nodes[c].srcs[s];
      if p >= 0 then mem[outOff[p]..outOff[p] + nodes[p].size] else ext(c, s))
  }

  /** The shared block after the first n nodes ran in order, each writing at its offset. */
  ghost function Shared<B(!new)>(nodes: seq<Node>, f: (nat, seq<seq<B>>) -> seq<B>, ext: (nat, nat) -> seq<B>,
                          outOff: seq<int>, mem: seq<B>, n: nat): (r: seq<B>)
    requires Topological(nodes) && FitsSizes(nodes, f) && Inside(nodes, outOff, |mem|) && n <= |nodes|
    ensures |r| == |mem|
  {
    if n == 0 then mem
    else
      var m, c := Shared(nodes, f, ext, outOff, mem, n - 1), n - 1;
      Put(m, outOff[c], f(c, Loaded(nodes, ext, outOff, m, c)))
  }

  /** The block after v is written at off. */
  ghost function Put<B>(m: seq<B>, off: nat, v: seq<B>): (r: seq<B>)
    requires off + |v| <= |m|
    ensures |r| == |m| && r[off..off + |v|] == v
  {
    m[..off] + v + m[off + |v|..]
  }

  /** Writing one output leaves a disjoint range as it was. */
  lemma PutElsewhere<B>(m: seq<B>, off: nat, v: seq<B>, o: nat, n: nat)
    requires off + |v| <= |m| && o + n <= |m| && !SpaceOverlap(off, |v|, o, n)
    ensures Put(m, off, v)[o..o + n] == m[o..o + n]
  {
  }

  lemma SharedStep<B(!new)>(nodes: seq<Node>, f: (nat, seq<seq<B>>) -> seq<B>, ext: (nat, nat) -> seq<B>,
                     outOff: seq<int>, mem: seq<B>, c: nat)
    requires Topological(nodes) && FitsSizes(nodes, f) && Inside(nodes, outOff, |mem|) && c < |nodes|
    ensures var m := Shared(nodes, f, ext, outOff, mem, c);
            var v := f(c, Loaded(nodes, ext, outOff, m, c));
            |v| == nodes[c].size && Shared(nodes, f, ext, outOff, mem, c + 1) == Put(m, outOff[c], v)
  {
  }

  /** p's result is still needed after the first n nodes. */
  predicate Live(lastUse: seq<int>, p: nat, n: nat)
    requires p < |lastUse|
  {
    p < n <= EndOf(lastUse[p], |lastUse|)
  }

  /** After any number of nodes every result that is still needed is intact. */
  lemma {:induction false} LiveResultsIntact<B(!new)>(nodes: seq<Node>, f: (nat, seq<seq<B>>) -> seq<B>,
                                               ext: (nat, nat) -> seq<B>,
                                          lastUse: seq<int>, outOff: seq<int>, arena: nat, mem: seq<B>, n: nat, p: nat)
    requires Topological(nodes) && FitsSizes(nodes, f) && IsLayout(nodes, lastUse, outOff, arena) && |mem| == arena
    requires n <= |nodes| && p < |nodes| && Live(lastUse, p, n)
    ensures Inside(nodes, outOff, arena)
    ensures Shared(nodes, f, ext, outOff, mem, n)[outOff[p]..outOff[p] + nodes[p].size] == Value(nodes, f, ext, p)
    decreases n, 0
  {
    hide IsLayout, Shared, Put, Value, Loaded, FitsSizes, Topological;
    LayoutInside(nodes, lastUse, outOff, arena);
    var c := n - 1;
    ReadsAreValues(nodes, f, ext, lastUse, outOff, arena, mem, c);
    SharedStep(nodes, f, ext, outOff, mem, c);
    if p != c {
      LiveResultsIntact(nodes, f, ext, lastUse, outOff, arena, mem, c, p);
      OthersKept(nodes, f, ext, lastUse, outOff, arena, mem, c, p);
    }
  }

  /** Node c's write leaves every other result that is still needed as it was. */
  lemma OthersKept<B(!new)>(nodes: seq<Node>, f: (nat, seq<seq<B>>) -> seq<B>, ext: (nat, nat) -> seq<B>,
                            lastUse: seq<int>, outOff: seq<int>, arena: nat, mem: seq<B>, c: nat, p: nat)
    requires Topological(nodes) && FitsSizes(nodes, f) && IsLayout(nodes, lastUse, outOff, arena) && |mem| == arena
    requires p < c < |nodes| && Live(lastUse, p, c + 1) && Inside(nodes, outOff, arena)
    ensures Shared(nodes, f, ext, outOff, mem, c + 1)[outOff[p]..outOff[p] + nodes[p].size] ==
            Shared(nodes, f, ext, outOff, mem, c)[outOff[p]..outOff[p] + nodes[p].size]
  {
    hide IsLayout, Shared, Put, Value, Loaded, FitsSizes, Topological, Live;
    LivePairApart(nodes, lastUse, outOff, arena, p, c);
    SharedStep(nodes, f, ext, outOff, mem, c);
    var m := Shared(nodes, f, ext, outOff, mem, c);
    PutElsewhere(m, outOff[c], f(c, Loaded(nodes, ext, outOff, m, c)), outOff[p], nodes[p].size);
  }

  /** A result still needed when node c runs does not share bytes with c's output. */
  lemma LivePairApart(nodes: seq<Node>, lastUse: seq<int>, outOff: seq<int>, arena: nat, p: nat, c: nat)
    requires IsLayout(nodes, lastUse, outOff, arena) && Inside(nodes, outOff, arena) && p < |nodes| && c < |nodes|
    ensures p < c && Live(lastUse, p, c + 1) ==> !SpaceOverlap(outOff[c], nodes[c].size, outOff[p], nodes[p].size)
  {
    if p < c && Live(lastUse, p, c + 1) {
      var sizes, start, end := Sizes(nodes), Starts(nodes), EndsOf(lastUse);
      EndAfter(nodes, lastUse, c);
      assert TimeOverlap(start[p], end[p], start[c], end[c]);
      assert !SpaceOverlap(outOff[p], sizes[p], outOff[c], sizes[c]);
    }
  }

  lemma EndAfter(nodes: seq<Node>, lastUse: seq<int>, c: nat)
    requires |lastUse| == |nodes| && c < |nodes| && IsLastUse(nodes, c, lastUse[c], 0)
    ensures EndOf(lastUse[c], |nodes|) > c
  {
  }

  /** Every read of every node returns exactly what its producer computed. */
  lemma {:induction false} ReadsAreValues<B(!new)>(nodes: seq<Node>, f: (nat, seq<seq<B>>) -> seq<B>,
                                            ext: (nat, nat) -> seq<B>,
                                       lastUse: seq<int>, outOff: seq<int>, arena: nat, mem: seq<B>, c: nat)
    requires Topological(nodes) && FitsSizes(nodes, f) && IsLayout(nodes, lastUse, outOff, arena) && |mem| == arena &&
               c < |nodes|
    ensures Inside(nodes, outOff, arena)
    ensures f(c, Loaded(nodes, ext, outOff, Shared(nodes, f, ext, outOff, mem, c), c)) == Value(nodes, f, ext, c)
    ensures forall s :: 0 <= s < |nodes[c].srcs| && nodes[c].srcs[s] >= 0 ==>
              Loaded(nodes, ext, outOff, Shared(nodes, f, ext, outOff, mem, c), c)[s] ==
                  Value(nodes, f, ext, nodes[c].srcs[s])
    decreases c, 1
  {
    LayoutInside(nodes, lastUse, outOff, arena);
    hide Packed, IsLastUse, Shared, FitsSizes;
    var m := Shared(nodes, f, ext, outOff, mem, c);
    var ins := Loaded(nodes, ext, outOff, m, c);
    forall s | 0 <= s < |nodes[c].srcs| && nodes[c].srcs[s] >= 0
      ensures ins[s] == Value(nodes, f, ext, nodes[c].srcs[s])
    {
      var p := nodes[c].srcs[s];
      ReaderKeepsAlive(nodes, lastUse, c, p);
      LiveResultsIntact(nodes, f, ext, lastUse, outOff, arena, mem, c, p);
    }
    assert ins == seq(|nodes[c].srcs|, s requires 0 <= s < |nodes[c].srcs| =>
           if nodes[c].srcs[s] >= 0 then Value(nodes, f, ext, nodes[c].srcs[s]) else ext(c, s));
  }

  lemma LayoutInside(nodes: seq<Node>, lastUse: seq<int>, outOff: seq<int>, arena: nat)
    requires IsLayout(nodes, lastUse, outOff, arena)
    ensures Inside(nodes, outOff, arena)
  {
    var sizes := Sizes(nodes);
    forall a | 0 <= a < |nodes| ensures 0 <= outOff[a] && outOff[a] + nodes[a].size <= arena {
      assert sizes[a] == nodes[a].size;
    }
  }

  lemma ReaderKeepsAlive(nodes: seq<Node>, lastUse: seq<int>, c: nat, p: nat)
    requires |lastUse| == |nodes| && p < c < |nodes| && Reads(nodes, c, p) && IsLastUse(nodes, p, lastUse[p], 0)
    ensures Live(lastUse, p, c)
  {
  }

  /** Buffer reuse preserves meaning: whatever the block held before, every node
      computes the same value as with separate buffers, and results that nothing
      in the layer reads are still there at the end. */
  lemma ReusePreservesMeaning<B(!new)>(nodes: seq<Node>, f: (nat, seq<seq<B>>) -> seq<B>, ext: (nat, nat) -> seq<B>,
                           lastUse: seq<int>, outOff: seq<int>, arena: nat, mem: seq<B>)
    requires Topological(nodes) && FitsSizes(nodes, f) && IsLayout(nodes, lastUse, outOff, arena) && |mem| == arena
    ensures Inside(nodes, outOff, arena)
    ensures forall c: nat :: c < |nodes| ==>
              f(c, Loaded(nodes, ext, outOff, Shared(nodes, f, ext, outOff, mem, c), c)) == Value(nodes, f, ext, c)
    ensures forall p: nat :: p < |nodes| && (forall c :: p < c < |nodes| ==> !Reads(nodes, c, p)) ==>
              Shared(nodes, f, ext, outOff, mem, |nodes|)[outOff[p]..outOff[p] + nodes[p].size] ==
                  Value(nodes, f, ext, p)
  {
    LayoutInside(nodes, lastUse, outOff, arena);
    forall c: nat | c < |nodes|
      ensures f(c, Loaded(nodes, ext, outOff, Shared(nodes, f, ext, outOff, mem, c), c)) == Value(nodes, f, ext, c)
    {
      ReadsAreValues(nodes, f, ext, lastUse, outOff, arena, mem, c);
    }
    forall p: nat | p < |nodes| && (forall c :: p < c < |nodes| ==> !Reads(nodes, c, p))
      ensures Shared(nodes, f, ext, outOff, mem, |nodes|)[outOff[p]..outOff[p] + nodes[p].size] ==
                Value(nodes, f, ext, p)
    {
      assert IsLastUse(nodes, p, lastUse[p], 0);
      LiveResultsIntact(nodes, f, ext, lastUse, outOff, arena, mem, |nodes|, p);
    }
  }
}
