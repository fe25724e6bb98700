/** The single V3 file: its copies and fills, and that chunk strips put together are
    the bytes of the single file. */
module SingleFile {
  import opened Basics
  import opened StripLayout
  import W = StripWriter

  lemma {:induction false} SourceConcat(a: seq<W.Item>, b: seq<W.Item>, x: int)
    ensures W.SourceAt(a + b, x) == if W.SourceAt(b, x).Some? then W.SourceAt(b, x) else W.SourceAt(a, x)
  {
    if b == [] {
      assert a + b == a;
    } else {
      assert (a + b)[..|a + b| - 1] == a + b[..|b| - 1];
      SourceConcat(a, b[..|b| - 1], x);
    }
  }

  ghost predicate Misses(content: seq<W.Item>, x: int) {
    forall i :: 0 <= i < |content| ==> !(content[i].logOff <= x < content[i].logOff + content[i].len)
  }

  lemma {:induction false} SourceMisses(content: seq<W.Item>, x: int)
    requires Misses(content, x)
    ensures W.SourceAt(content, x) == None
  {
    if content != [] { SourceMisses(content[..|content| - 1], x); }
  }

  /** One copy per segment of an item, at its place in the file. */
  method ItemOps(srcs: seq<W.Seg>, dst: nat) returns (ops: seq<W.Op>)
    ensures forall pos :: W.Landed(ops, pos) == W.SegAt(srcs, pos - dst)
  {
    ops := [];
    for n := 0 to |srcs|
      invariant forall pos :: W.Landed(ops, pos) == W.SegAt(srcs[..n], pos - dst)
    {
      var g := srcs[n];
      var op := W.Op(g.file, g.off, g.len, dst + g.inOff);
      assert srcs[..n + 1][..n] == srcs[..n] && (ops + [op])[..|ops|] == ops;
      ops := ops + [op];
    }
    assert srcs[..|srcs|] == srcs;
  }

  lemma {:induction false} SegInside(srcs: seq<W.Seg>, size: nat, r: int)
    requires SrcsWithin(srcs, size) && W.SegAt(srcs, r).Some?
    ensures 0 <= r < size
  {
    var g := srcs[|srcs| - 1];
    if !(g.inOff <= r < g.inOff + g.len) { SegInside(srcs[..|srcs| - 1], size, r); }
  }

  /** The copies so far leave exactly what the items placed so far supply. */
  ghost predicate Leaves(ops: seq<W.Op>, placed: seq<W.Item>) {
    forall pos :: W.Landed(ops, pos) == W.SourceAt(placed, pos)
  }

  lemma PlaceItem(ops: seq<W.Op>, placed: seq<W.Item>, more: seq<W.Op>, it: W.Item)
    requires Leaves(ops, placed) && SrcsWithin(it.srcs, it.len) &&
               forall pos :: W.Landed(more, pos) == W.SegAt(it.srcs, pos - it.logOff)
    ensures Leaves(ops + more, placed + [it])
  {
    assert (placed + [it])[..|placed|] == placed;
    forall pos ensures W.Landed(ops + more, pos) == W.SourceAt(placed + [it], pos) {
      W.LandedConcat(ops, more, pos);
      if W.SegAt(it.srcs, pos - it.logOff).Some? { SegInside(it.srcs, it.len, pos - it.logOff); }
    }
  }

  /** Dense tensors at their logical offsets. */
  ghost function PlacedDense(items: seq<Dense>, n: nat): seq<W.Item>
    requires n <= |items|
  {
    if n == 0 then [] else PlacedDense(items, n - 1) + [W.Item(Off(items, n - 1), items[n - 1].size, items[n - 1].srcs)]
  }

  /** The first n branches of a block, at its place in the file. */
  ghost function PlacedBlock(bs: seq<Branch>, e: nat, off: nat, n: nat): seq<W.Item>
    requires n <= |bs| && forall i :: 0 <= i < |bs| ==> e < |bs[i].srcs|
  {
    if n == 0 then []
    else
      PlacedBlock(bs, e, off, n - 1)
      + [W.Item(off + BranchOff(bs, n - 1), bs[n - 1].perExpert, bs[n - 1].srcs[e])]
  }

  ghost function PlacedBlocks(m: Model, blocks: seq<Block>, n: nat): seq<W.Item>
    requires ValidSrcs(m) && n <= |blocks| && forall i :: 0 <= i < |blocks| ==> blocks[i].expert < m.nExpert
  {
    if n == 0 then []
    else
      var b := blocks[n - 1];
      BranchSrcs(m, b.layer);
      PlacedBlocks(m, blocks, n - 1)
      + PlacedBlock(LayerBranches(m, b.layer), b.expert, b.off,
          |LayerBranches(m, b.layer)|)
  }

  method DenseOps(m: Model, items: seq<Dense>) returns (ops: seq<W.Op>)
    requires ValidSrcs(m) && forall d :: d in items ==> d in m.dense
    ensures Leaves(ops, PlacedDense(items, |items|))
  {
    var off := Offsets(items);
    hide Off, AlignUp, Aligned;
    ops := [];
    for i := 0 to |items|
      invariant Leaves(ops, PlacedDense(items, i))
    {
      assert items[i] in items;
      var more := ItemOps(items[i].srcs, off[i]);
      PlaceItem(ops, PlacedDense(items, i), more, W.Item(Off(items, i), items[i].size, items[i].srcs));
      ops := ops + more;
    }
  }

  method BlockOps(m: Model, b: Block, ops0: seq<W.Op>, ghost placed: seq<W.Item>) returns (ops: seq<W.Op>)
    requires ValidSrcs(m) && b.expert < m.nExpert && Leaves(ops0, placed)
    ensures forall i :: 0 <= i < |LayerBranches(m, b.layer)| ==> b.expert < |LayerBranches(m, b.layer)[i].srcs|
    ensures Leaves(ops, placed + PlacedBlock(LayerBranches(m, b.layer), b.expert, b.off, |LayerBranches(m, b.layer)|))
  {
    BranchSrcs(m, b.layer);
    var bs := LayerBranches(m, b.layer);
    hide AlignUp, Aligned, Leaves, LayerBranches, ValidSrcs;
    ops := ops0;
    var boff: nat := 0;
    assert placed + [] == placed;
    for i := 0 to |bs|
      invariant boff == BranchOff(bs, i) && Leaves(ops, placed + PlacedBlock(bs, b.expert, b.off, i))
    {
      var it := W.Item(b.off + boff, bs[i].perExpert, bs[i].srcs[b.expert]);
      var more := ItemOps(it.srcs, it.logOff);
      PlaceItem(ops, placed + PlacedBlock(bs, b.expert, b.off, i), more, it);
      assert placed + PlacedBlock(bs, b.expert, b.off, i) + [it] == placed + PlacedBlock(bs, b.expert, b.off, i + 1);
      ops := ops + more;
      boff := AlignUp(boff + bs[i].perExpert);
    }
  }

  /** The copies of write_single for V3: dense tensors, then expert blocks. */
  method SingleOps(m: Model, p: Plan) returns (ops: seq<W.Op>)
    requires PlanOk(m, p) && ValidSrcs(m)
    ensures forall i :: 0 <= i < |p.blocks| ==> p.blocks[i].expert < m.nExpert
    ensures Leaves(ops, PlacedDense(p.items, |p.items|) + PlacedBlocks(m, p.blocks, |p.blocks|))
  {
    hide PlanOk, ValidSrcs, Leaves, PlacedDense, Off, AlignUp, Aligned, BlocksFollow, SecOk, LayerBranches, PlacedBlock;
    PlanParts(m, p);
    forall d | d in p.items ensures d in m.dense { SameMembers(m, p, d); }
    ops := DenseOps(m, p.items);
    ghost var dense := PlacedDense(p.items, |p.items|);
    assert dense + [] == dense;
    for k := 0 to |p.blocks|
      invariant Leaves(ops, dense + PlacedBlocks(m, p.blocks, k))
    {
      ghost var before := PlacedBlocks(m, p.blocks, k);
      ops := BlockOps(m, p.blocks[k], ops, dense + before);
      ghost var bs := LayerBranches(m, p.blocks[k].layer);
      assert dense + before + PlacedBlock(bs, p.blocks[k].expert, p.blocks[k].off, |bs|) ==
             dense + (before + PlacedBlock(bs, p.blocks[k].expert, p.blocks[k].off, |bs|));
    }
  }

  // ---- single file and units agree ---------------------------------------------------------------------------------

  /** Inside a section only the section's tensors supply bytes. */
  lemma {:induction false} SectionAgrees(m: Model, items: seq<Dense>, s: Sec, pos: int, n: nat)
    requires SecOk(m, items, s) && n <= |items| && s.start <= pos < s.start + s.size
    ensures W.SourceAt(PlacedDense(items, n), pos) == W.SourceAt(SectionContent(items, s, n), pos - s.start)
  {
    if n > 0 {
      SectionAgrees(m, items, s, pos, n - 1);
      SectionItem(m, items, s, pos, n - 1);
      hide Off, AlignUp, Aligned, SecOk;
      var k := n - 1;
      var it := W.Item(Off(items, k), items[k].size, items[k].srcs);
      assert PlacedDense(items, n) == PlacedDense(items, k) + [it];
      LastItem(PlacedDense(items, k), it, pos);
      if InSection(items[k], s.cat, s.layer) {
        LastItem(SectionContent(items, s, k), W.Item(Rel(Off(items, k), s.start), items[k].size, items[k].srcs),
            pos - s.start);
      }
    }
  }

  lemma LastItem(content: seq<W.Item>, it: W.Item, x: int)
    ensures W.SourceAt(content + [it], x) ==
              if it.logOff <= x < it.logOff + it.len && W.SegAt(it.srcs, x - it.logOff).Some?
              then W.SegAt(it.srcs, x - it.logOff)
              else W.SourceAt(content, x)
  {
    assert (content + [it])[..|content|] == content;
  }

  lemma SectionItem(m: Model, items: seq<Dense>, s: Sec, pos: int, k: nat)
    requires SecOk(m, items, s) && k < |items| && s.start <= pos < s.start + s.size
    ensures InSection(items[k], s.cat, s.layer) ==> s.start <= Off(items, k)
    ensures !InSection(items[k], s.cat, s.layer) ==> !(Off(items, k) <= pos < Off(items, k) + items[k].size)
  {
    hide AlignUp, Aligned, Off;
    OffMonotone(items, k, k + 1);
    if InSection(items[k], s.cat, s.layer) {
      SectionStarts(m, items, s, k);
    } else if Off(items, k) <= pos < Off(items, k) + items[k].size {
      SecRange(m, items, s, k);
    }
  }

  lemma {:induction false} DenseMisses(items: seq<Dense>, pos: int, n: nat)
    requires n <= |items| && pos >= Off(items, |items|)
    ensures Misses(PlacedDense(items, n), pos)
  {
    if n > 0 {
      DenseMisses(items, pos, n - 1);
      OffMonotone(items, n - 1, |items|);
    }
  }

  /** A block's branches supply, at the block's place, what the unit says. */
  lemma {:induction false} BlockAgrees(bs: seq<Branch>, e: nat, off: nat, pos: int, n: nat)
    requires n <= |bs| && forall i :: 0 <= i < |bs| ==> e < |bs[i].srcs|
    ensures W.SourceAt(PlacedBlock(bs, e, off, n), pos) == W.SourceAt(BlockContent(bs, e, n), pos - off)
  {
    hide AlignUp, Aligned, BranchOff;
    if n > 0 {
      BlockAgrees(bs, e, off, pos, n - 1);
      LastItem(PlacedBlock(bs, e, off, n - 1),
          W.Item(off + BranchOff(bs, n - 1), bs[n - 1].perExpert, bs[n - 1].srcs[e]), pos);
      LastItem(BlockContent(bs, e, n - 1), W.Item(BranchOff(bs, n - 1), bs[n - 1].perExpert, bs[n - 1].srcs[e]),
          pos - off);
    }
  }

  /** A block's branches lie inside the block. */
  lemma {:induction false} BlockMisses(bs: seq<Branch>, e: nat, off: nat, pos: int, n: nat)
    requires n <= |bs| && (forall i :: 0 <= i < |bs| ==> e < |bs[i].srcs|) &&
               (pos < off || pos >= off + BranchOff(bs, |bs|))
    ensures Misses(PlacedBlock(bs, e, off, n), pos)
  {
    hide AlignUp, Aligned, BranchOff;
    if n > 0 {
      BlockMisses(bs, e, off, pos, n - 1);
      BranchOffMonotone(bs, n - 1, |bs|);
    }
  }

  /** Blocks that do not hold a position supply nothing there. */
  lemma {:induction false} BlocksMiss(m: Model, blocks: seq<Block>, start: nat, end: nat, pos: int, n: nat)
    requires ValidSrcs(m) && n <= |blocks| && BlocksFollow(m, blocks, start, end)
    requires forall i :: 0 <= i < n ==> !(blocks[i].off <= pos < blocks[i].off + blocks[i].size)
    ensures W.SourceAt(PlacedBlocks(m, blocks, n), pos) == None
  {
    if n > 0 {
      BlocksMiss(m, blocks, start, end, pos, n - 1);
      var b := blocks[n - 1];
      BranchSrcs(m, b.layer);
      var bs := LayerBranches(m, b.layer);
      BlockMisses(bs, b.expert, b.off, pos, |bs|);
      SourceMisses(PlacedBlock(bs, b.expert, b.off, |bs|), pos);
      SourceConcat(PlacedBlocks(m, blocks, n - 1), PlacedBlock(bs, b.expert, b.off, |bs|), pos);
    }
  }

  lemma {:induction false} BlocksAgree(m: Model, blocks: seq<Block>, start: nat, end: nat, pos: int, i: nat, n: nat)
    requires ValidSrcs(m) && i < n <= |blocks| && BlocksFollow(m, blocks, start, end) &&
               blocks[i].off <= pos < blocks[i].off + blocks[i].size
    ensures forall k ::
              0 <= k < |LayerBranches(m, blocks[i].layer)| ==>
                  blocks[i].expert < |LayerBranches(m, blocks[i].layer)[k].srcs|
    ensures W.SourceAt(PlacedBlocks(m, blocks, n), pos) ==
              W.SourceAt(BlockContent(LayerBranches(m, blocks[i].layer), blocks[i].expert,
                  |LayerBranches(m, blocks[i].layer)|), pos - blocks[i].off)
  {
    hide AlignUp, Aligned, BranchOff, BlockContent, PlacedBlock, Branches, ValidSrcs;
    var b := blocks[n - 1];
    BranchSrcs(m, blocks[i].layer);
    BranchSrcs(m, b.layer);
    var bs := LayerBranches(m, b.layer);
    BlockAgrees(bs, b.expert, b.off, pos, |bs|);
    SourceConcat(PlacedBlocks(m, blocks, n - 1), PlacedBlock(bs, b.expert, b.off, |bs|), pos);
    if i < n - 1 {
      BlocksAgree(m, blocks, start, end, pos, i, n - 1);
      BlocksAscend(m, blocks, start, end, i, n - 1);
      BlockMisses(bs, b.expert, b.off, pos, |bs|);
      SourceMisses(PlacedBlock(bs, b.expert, b.off, |bs|), pos);
    } else {
      forall k: nat | k < i ensures !(blocks[k].off <= pos < blocks[k].off + blocks[k].size) {
        BlocksAscend(m, blocks, start, end, k, i);
      }
      BlocksMiss(m, blocks, start, end, pos, n - 1);
    }
  }

  /** The single V3 file holds, at every byte of every unit, what the unit's image says:
      so chunk strips put together are the single file's bytes. */
  lemma SingleFileIsUnits(m: Model, p: Plan, units: seq<W.Unit>, ops: seq<W.Op>, u: nat, x: nat)
    requires PlanOk(m, p) && ValidSrcs(m) && UnitsOk(m, p, units) && u < |units| && x < units[u].size
    requires forall i :: 0 <= i < |p.blocks| ==> p.blocks[i].expert < m.nExpert
    requires Leaves(ops, PlacedDense(p.items, |p.items|) + PlacedBlocks(m, p.blocks, |p.blocks|))
    ensures W.Landed(ops, units[u].off + x) == W.SourceAt(units[u].content, x)
  {
    hide PlanOk, ValidSrcs, UnitIs, PlacedDense, PlacedBlocks, Off, AlignUp, Aligned;
    var pos := units[u].off + x;
    SourceConcat(PlacedDense(p.items, |p.items|), PlacedBlocks(m, p.blocks, |p.blocks|), pos);
    if u < |p.sections| {
      SectionByte(m, p, units, u, pos);
    } else {
      BlockByte(m, p, units, u, pos);
    }
  }

  lemma SectionByte(m: Model, p: Plan, units: seq<W.Unit>, u: nat, pos: nat)
    requires PlanOk(m, p) && ValidSrcs(m) && UnitsOk(m, p, units) && u < |p.sections| && u < |units| &&
               Holds(units, u, pos)
    ensures W.SourceAt(PlacedDense(p.items, |p.items|), pos) == W.SourceAt(units[u].content, pos - units[u].off)
    ensures forall i :: 0 <= i < |p.blocks| ==> p.blocks[i].expert < m.nExpert
    ensures W.SourceAt(PlacedBlocks(m, p.blocks, |p.blocks|), pos) == None
  {
    hide PlanOk, ValidSrcs, Off, AlignUp, Aligned, UnitIs, SecOk, PlacedBlocks, PlacedDense, SectionContent,
        BlocksFollow;
    PlanParts(m, p);
    SecAt(m, p, units, u);
    SectionAgrees(m, p.items, p.sections[u], pos, |p.items|);
    SecBelowBlocks(m, p, p.sections[u]);
    forall i: nat | i < |p.blocks| ensures !(p.blocks[i].off <= pos < p.blocks[i].off + p.blocks[i].size) {
      BlockAfterStart(m, p, i);
    }
    BlocksMiss(m, p.blocks, p.blocksStart, p.end, pos, |p.blocks|);
  }

  lemma BlockByte(m: Model, p: Plan, units: seq<W.Unit>, u: nat, pos: nat)
    requires PlanOk(m, p) && ValidSrcs(m) && UnitsOk(m, p, units) && |p.sections| <= u < |units| && Holds(units, u, pos)
    ensures forall i :: 0 <= i < |p.blocks| ==> p.blocks[i].expert < m.nExpert
    ensures W.SourceAt(PlacedDense(p.items, |p.items|), pos) == None
    ensures W.SourceAt(PlacedBlocks(m, p.blocks, |p.blocks|), pos) == W.SourceAt(units[u].content, pos - units[u].off)
  {
    hide PlanOk, ValidSrcs, Off, AlignUp, Aligned, PlacedBlocks, PlacedDense, BlocksFollow, BlockContent,
        LayerBranches, BlockSize;
    PlanParts(m, p);
    DenseBelowBlocks(m, p);
    var i := u - |p.sections|;
    BlockAt(m, p, units, u);
    BlockAfterStart(m, p, i);
    DenseMisses(p.items, pos, |p.items|);
    SourceMisses(PlacedDense(p.items, |p.items|), pos);
    BlocksAgree(m, p.blocks, p.blocksStart, p.end, pos, i, |p.blocks|);
    assert UnitIs(m, p, units[u], u);
  }

  // ---- the fills ---------------------------------------------------------------------------------------------------

  /** One of the first n branches of a block holds byte r of the block. */
  ghost predicate InBranch(bs: seq<Branch>, n: nat, r: int)
    requires n <= |bs|
  {
    exists j :: 0 <= j < n && BranchOff(bs, j) <= r < BranchOff(bs, j) + bs[j].perExpert
  }

  /** Where the first n branches of a block end. */
  function EndOf(bs: seq<Branch>, n: nat): (e: nat)
    requires n <= |bs|
    ensures e <= BranchOff(bs, n)
  {
    if n == 0 then 0 else BranchOff(bs, n - 1) + bs[n - 1].perExpert
  }

  /** The fills are exactly the bytes of the block below `cursor` that none of n branches holds. */
  ghost predicate Gaps(fills: seq<W.Fill>, off: nat, cursor: nat, bs: seq<Branch>, n: nat)
    requires n <= |bs|
  {
    W.FillsInside(fills, off, off + cursor) && Exact(fills, off, cursor, bs, n)
  }

  ghost predicate Exact(fills: seq<W.Fill>, off: nat, cursor: nat, bs: seq<Branch>, n: nat)
    requires n <= |bs|
  {
    forall pos :: off <= pos < off + cursor ==> (W.Filled(fills, pos) <==> !InBranch(bs, n, pos - off))
  }

  /** The fills with the gap from `cursor` to `to` added, if there is one. */
  function WithGap(fills: seq<W.Fill>, off: nat, cursor: nat, to: nat): seq<W.Fill> {
    if cursor < to then fills + [W.Fill(off + cursor, to - cursor)] else fills
  }

  lemma BeforeEnd(bs: seq<Branch>, n: nat, r: int)
    requires n <= |bs| && InBranch(bs, n, r)
    ensures r < EndOf(bs, n)
  {
    hide AlignUp, Aligned, BranchOff;
    var j :| 0 <= j < n && BranchOff(bs, j) <= r < BranchOff(bs, j) + bs[j].perExpert;
    if j < n - 1 { BranchOffMonotone(bs, j, n - 1); }
  }

  lemma MoreInside(fills: seq<W.Fill>, f: W.Fill, lo: nat, mid: nat, hi: nat)
    requires W.FillsInside(fills, lo, mid) && lo <= mid < hi && f == W.Fill(mid, hi - mid)
    ensures W.FillsInside(fills + [f], lo, hi)
  {
  }

  /** After the last branch so far there are only pads. */
  lemma GapTo(fills: seq<W.Fill>, off: nat, bs: seq<Branch>, n: nat, to: nat)
    requires n <= |bs| && EndOf(bs, n) <= to && Gaps(fills, off, EndOf(bs, n), bs, n)
    ensures Gaps(WithGap(fills, off, EndOf(bs, n), to), off, to, bs, n)
  {
    hide EndOf, Exact, W.FillsInside;
    var cursor := EndOf(bs, n);
    if cursor < to {
      var f := W.Fill(off + cursor, to - cursor);
      MoreInside(fills, f, off, off + cursor, off + to);
      ExactTo(fills, f, off, bs, n);
    }
  }

  lemma ExactTo(fills: seq<W.Fill>, f: W.Fill, off: nat, bs: seq<Branch>, n: nat)
    requires n <= |bs| && Gaps(fills, off, EndOf(bs, n), bs, n) && f.dst == off + EndOf(bs, n)
    ensures Exact(fills + [f], off, EndOf(bs, n) + f.len, bs, n)
  {
    hide EndOf, InBranch, Gaps, W.Filled;
    forall pos | off <= pos < f.dst + f.len ensures W.Filled(fills + [f], pos) <==> !InBranch(bs, n, pos - off) {
      GapAt(fills, f, off, bs, n, pos);
    }
  }

  lemma GapAt(fills: seq<W.Fill>, f: W.Fill, off: nat, bs: seq<Branch>, n: nat, pos: int)
    requires n <= |bs| && Gaps(fills, off, EndOf(bs, n), bs, n)
    requires f.dst == off + EndOf(bs, n) && off <= pos < f.dst + f.len
    ensures W.Filled(fills + [f], pos) <==> !InBranch(bs, n, pos - off)
  {
    hide EndOf, InBranch, BranchOff, AlignUp, Aligned, W.Filled, W.FillsInside;
    W.FilledSnoc(fills, f, pos);
    if pos >= f.dst {
      if InBranch(bs, n, pos - off) { BeforeEnd(bs, n, pos - off); }
    }
  }

  /** The next branch holds the bytes from its offset to its end. */
  lemma NextBranch(fills: seq<W.Fill>, off: nat, bs: seq<Branch>, n: nat)
    requires n < |bs| && Gaps(fills, off, BranchOff(bs, n), bs, n)
    ensures Gaps(fills, off, EndOf(bs, n + 1), bs, n + 1)
  {
    hide AlignUp, Aligned, BranchOff;
    forall pos | off <= pos < off + EndOf(bs, n + 1) ensures W.Filled(fills, pos) <==> !InBranch(bs, n + 1, pos - off) {
      if pos >= off + BranchOff(bs, n) {
        W.NotFilledBeyond(fills, off, off + BranchOff(bs, n), pos);
      }
    }
  }

  method BlockFills(m: Model, b: Block) returns (fills: seq<W.Fill>)
    requires b.size == BlockSize(m, b.layer)
    ensures Gaps(fills, b.off, b.size, LayerBranches(m, b.layer), |LayerBranches(m, b.layer)|)
  {
    hide Gaps, Aligned, AlignUp, BranchOff, EndOf, LayerBranches;
    var bs := LayerBranches(m, b.layer);
    fills := [];
    var cursor, boff: nat := 0, 0;
    NoGap(b.off, bs);
    for i := 0 to |bs|
      invariant boff == BranchOff(bs, i) && cursor == EndOf(bs, i) && Gaps(fills, b.off, cursor, bs, i)
    {
      NextOffset(bs, i);
      GapTo(fills, b.off, bs, i, boff);
      if boff > cursor { fills := fills + [W.Fill(b.off + cursor, boff - cursor)]; }
      NextBranch(fills, b.off, bs, i);
      cursor := boff + bs[i].perExpert;
      boff := AlignUp(boff + bs[i].perExpert);
    }
    GapTo(fills, b.off, bs, |bs|, b.size);
    if cursor < b.size { fills := fills + [W.Fill(b.off + cursor, b.size - cursor)]; }
  }

  lemma NoGap(off: nat, bs: seq<Branch>)
    ensures Gaps([], off, 0, bs, 0) && BranchOff(bs, 0) == 0 == EndOf(bs, 0)
  {
  }

  lemma NextOffset(bs: seq<Branch>, i: nat)
    requires i < |bs|
    ensures BranchOff(bs, i + 1) == AlignUp(BranchOff(bs, i) + bs[i].perExpert)
    ensures EndOf(bs, i + 1) == BranchOff(bs, i) + bs[i].perExpert
  {
    hide AlignUp, Aligned;
  }

  /** Byte pos is in the block and in none of its branches. */
  ghost predicate Pad(m: Model, b: Block, pos: int) {
    b.off <= pos < b.off + b.size && !InBranch(LayerBranches(m, b.layer), |LayerBranches(m, b.layer)|, pos - b.off)
  }

  /** The fills are exactly the pads of the first n blocks. */
  ghost predicate FillsPads(m: Model, blocks: seq<Block>, n: nat, fills: seq<W.Fill>)
    requires n <= |blocks|
  {
    forall pos :: W.Filled(fills, pos) <==> exists k :: 0 <= k < n && Pad(m, blocks[k], pos)
  }

  lemma BlockPads(m: Model, b: Block, fills: seq<W.Fill>, pos: int)
    requires Gaps(fills, b.off, b.size, LayerBranches(m, b.layer), |LayerBranches(m, b.layer)|)
    ensures W.Filled(fills, pos) <==> Pad(m, b, pos)
  {
    hide InBranch, LayerBranches;
    if pos < b.off || pos >= b.off + b.size { W.NotFilledOutside(fills, b.off, b.off + b.size, pos); }
  }

  /** The fills of write_single. */
  method SingleFills(m: Model, p: Plan) returns (fills: seq<W.Fill>)
    requires PlanOk(m, p)
    ensures FillsPads(m, p.blocks, |p.blocks|, fills)
  {
    PlanParts(m, p);
    hide PlanOk, Gaps, FillsPads, BlockSize;
    fills := [];
    NothingFilled(m, p.blocks);
    for k := 0 to |p.blocks|
      invariant FillsPads(m, p.blocks, k, fills)
    {
      var more := BlockFills(m, p.blocks[k]);
      NextPads(m, p.blocks, k, fills, more);
      fills := fills + more;
    }
  }

  lemma NextPads(m: Model, blocks: seq<Block>, k: nat, fills: seq<W.Fill>, more: seq<W.Fill>)
    requires k < |blocks| && FillsPads(m, blocks, k, fills)
    requires Gaps(more, blocks[k].off, blocks[k].size, LayerBranches(m, blocks[k].layer),
               |LayerBranches(m, blocks[k].layer)|)
    ensures FillsPads(m, blocks, k + 1, fills + more)
  {
    hide Gaps, Pad, W.Filled, LayerBranches;
    forall pos ensures W.Filled(fills + more, pos) <==> exists i :: 0 <= i < k + 1 && Pad(m, blocks[i], pos) {
      BlockPads(m, blocks[k], more, pos);
      W.FilledConcat(fills, more, pos);
    }
  }

  lemma NothingFilled(m: Model, blocks: seq<Block>)
    ensures FillsPads(m, blocks, 0, [])
  {
  }

  // ---- the whole file --------------------------------------------------------------------------------------------

  /** Copies and fills of the single file. */
  ghost predicate SingleOk(m: Model, p: Plan, file: W.File)
    requires PlanOk(m, p) && ValidSrcs(m)
  {
    PlanParts(m, p);
    && Leaves(file.ops, PlacedDense(p.items, |p.items|) + PlacedBlocks(m, p.blocks, |p.blocks|))
    && FillsPads(m, p.blocks, |p.blocks|, file.fills)
  }

  /** write_single for V3. */
  method WriteSingle(m: Model) returns (p: Plan, file: W.File)
    requires ValidSrcs(m)
    ensures PlanOk(m, p) && SingleOk(m, p, file)
  {
    p := BuildPlan(m);
    hide PlanOk, ValidSrcs, Leaves, FillsPads, PlacedDense, PlacedBlocks;
    var ops := SingleOps(m, p);
    var fills := SingleFills(m, p);
    file := W.File(ops, fills);
  }

  lemma {:induction false} PadMisses(bs: seq<Branch>, e: nat, r: int, n: nat)
    requires n <= |bs| && (forall i :: 0 <= i < |bs| ==> e < |bs[i].srcs|) && !InBranch(bs, |bs|, r)
    ensures Misses(BlockContent(bs, e, n), r)
  {
    hide AlignUp, Aligned, BranchOff;
    if n > 0 { PadMisses(bs, e, r, n - 1); }
  }

  /** The fills overwrite nothing that was copied. */
  lemma FillsMissCopies(m: Model, p: Plan, file: W.File, pos: int)
    requires PlanOk(m, p) && ValidSrcs(m) && SingleOk(m, p, file) && W.Filled(file.fills, pos)
    ensures W.Landed(file.ops, pos) == None
  {
    hide PlanOk, ValidSrcs, W.Filled, W.Landed, W.SourceAt, PlacedDense, PlacedBlocks, Off, AlignUp, Aligned,
        BranchOff, BlocksFollow, InBranch;
    PlanParts(m, p);
    var k :| 0 <= k < |p.blocks| && Pad(m, p.blocks[k], pos);
    var b := p.blocks[k];
    var bs := LayerBranches(m, b.layer);
    BlockAfterStart(m, p, k);
    DenseMisses(p.items, pos, |p.items|);
    SourceMisses(PlacedDense(p.items, |p.items|), pos);
    BlocksAgree(m, p.blocks, p.blocksStart, p.end, pos, k, |p.blocks|);
    PadMisses(bs, b.expert, pos - b.off, |bs|);
    SourceMisses(BlockContent(bs, b.expert, |bs|), pos - b.off);
    SourceConcat(PlacedDense(p.items, |p.items|), PlacedBlocks(m, p.blocks, |p.blocks|), pos);
  }

  /** Both writers write the same bytes: for every number of files and every usable ratio the
      strips of a unit, read from the chunk files one after the other, are byte for byte what
      the single file holds at the unit's place, fills included. */
  lemma ChunksEqualSingle(m: Model, p: Plan, units: seq<W.Unit>, single: W.File, src: (nat, nat) -> nat,
                          n: nat, ratio: seq<nat>, files: seq<W.File>, slices: seq<seq<nat>>, u: nat, x: nat)
    requires PlanOk(m, p) && ValidSrcs(m) && UnitsOk(m, p, units) && SingleOk(m, p, single)
    requires W.ChunksOk(units, n, ratio, files, slices) && u < |units| && x < units[u].size
    ensures |W.Joined(src, slices, u, files, n)| == units[u].size
    ensures W.Joined(src, slices, u, files, n)[x] == W.FileByte(src, single, units[u].off + x)
  {
    hide PlanOk, ValidSrcs, UnitIs, W.Joined, W.Filled, PlacedDense, PlacedBlocks, FillsPads;
    PlanParts(m, p);
    W.StripsReassemble(src, units, n, ratio, files, slices, u);
    SingleFileIsUnits(m, p, units, single.ops, u, x);
    if W.Filled(single.fills, units[u].off + x) {
      FillsMissCopies(m, p, single, units[u].off + x);
    }
  }
}
