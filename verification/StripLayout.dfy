/** The logical layout of a converted model: tensor offsets, sections, expert
    blocks, the units made of them, and the single-file image. */
module StripLayout {
  import opened Basics
  import W = StripWriter

  datatype Category = Global | PerLayer | Meta

  /** A dense tensor. */
  datatype Dense = Dense(cat: Category, layer: int, size: nat, srcs: seq<W.Seg>)

  /** An expert tensor: bytes per expert, and the source segments of each expert. */
  datatype Branch = Branch(layer: int, perExpert: nat, srcs: seq<seq<W.Seg>>)

  datatype Model = Model(dense: seq<Dense>, branches: seq<Branch>, nLayer: nat, nExpert: nat)

  // ---- alignment -------------------------------------------------------------------

  predicate Aligned(n: nat) {
    n % W.ALIGN == 0
  }

  function AlignUp(n: nat): (r: nat)
    ensures n <= r < n + W.ALIGN && Aligned(r)
    ensures Aligned(n) ==> r == n
  {
    (n + W.ALIGN - 1) / W.ALIGN * W.ALIGN
  }

  // ---- order and offsets ----------------------------------------------------------------

  function Rank(c: Category): nat {
    match c case Global => 0 case PerLayer => 1 case Meta => 2
  }

  /** The order of two tensors in the file. */
  predicate Sooner(a: Dense, b: Dense) {
    Rank(a.cat) < Rank(b.cat) || (Rank(a.cat) == Rank(b.cat) && a.layer < b.layer)
  }

  ghost predicate InFileOrder(items: seq<Dense>) {
    forall i, j :: 0 <= i < j < |items| ==> !Sooner(items[j], items[i])
  }

  /** std::stable_sort by category, then layer. */
  method OrderItems(dense: seq<Dense>) returns (items: seq<Dense>)
    ensures InFileOrder(items) && multiset(items) == multiset(dense)
  {
    items := [];
    for n := 0 to |dense|
      invariant InFileOrder(items) && multiset(items) == multiset(dense[..n])
    {
      var j := |items|;
      while j > 0 && Sooner(dense[n], items[j - 1])
        invariant 0 <= j <= |items| && forall i :: j <= i < |items| ==> Sooner(dense[n], items[i])
      {
        j := j - 1;
      }
      assert dense[..n + 1] == dense[..n] + [dense[n]];
      assert items == items[..j] + items[j..];
      InsertOrdered(items, dense[n], j);
      items := items[..j] + [dense[n]] + items[j..];
    }
    assert dense[..|dense|] == dense;
  }

  lemma InsertOrdered(items: seq<Dense>, x: Dense, j: nat)
    requires InFileOrder(items) && j <= |items| && (j > 0 ==> !Sooner(x, items[j - 1]))
    requires forall i :: j <= i < |items| ==> Sooner(x, items[i])
    ensures InFileOrder(items[..j] + [x] + items[j..])
  {
    forall i | 0 <= i < j ensures !Sooner(x, items[i]) {
      assert i == j - 1 || !Sooner(items[j - 1], items[i]);
    }
    var r := items[..j] + [x] + items[j..];
    forall a, b | 0 <= a < b < |r| ensures !Sooner(r[b], r[a]) {
      if a < j && b > j { assert !Sooner(items[b - 1], items[a]); }
    }
  }

  /** Logical offset of item i: every tensor is padded to the alignment. */
  function Off(items: seq<Dense>, i: nat): (o: nat)
    requires i <= |items|
    ensures Aligned(o)
  {
    if i == 0 then 0 else AlignUp(Off(items, i - 1) + items[i - 1].size)
  }

  lemma {:induction false} OffMonotone(items: seq<Dense>, i: nat, j: nat)
    requires i <= j <= |items|
    ensures Off(items, i) <= Off(items, j)
    ensures i < j ==> Off(items, i) + items[i].size <= Off(items, j)
  {
    if i < j { OffMonotone(items, i, j - 1); }
  }

  lemma OffZero(items: seq<Dense>)
    ensures Off(items, 0) == 0
  {
  }

  lemma OffNext(items: seq<Dense>, i: nat)
    requires i < |items|
    ensures Off(items, i + 1) == AlignUp(Off(items, i) + items[i].size)
  {
    hide AlignUp, Aligned;
  }

  method Offsets(items: seq<Dense>) returns (off: seq<nat>)
    ensures |off| == |items| && forall i :: 0 <= i < |off| ==> off[i] == Off(items, i)
  {
    OffZero(items);
    hide AlignUp, Aligned, Off;
    off := [];
    var cur := 0;
    for i := 0 to |items|
      invariant |off| == i && cur == Off(items, i) && forall j :: 0 <= j < i ==> off[j] == Off(items, j)
    {
      OffNext(items, i);
      off := off + [cur];
      cur := AlignUp(cur + items[i].size);
    }
  }

  // ---- sections -----------------------------------------------------------------------------

  /** The tensors of one section: a category, and for layered ones the layer. */
  predicate InSection(d: Dense, cat: Category, layer: int) {
    d.cat == cat && (cat == Global || d.layer == layer)
  }

  ghost predicate Empty(items: seq<Dense>, cat: Category, layer: int) {
    forall i :: 0 <= i < |items| ==> !InSection(items[i], cat, layer)
  }

  /** Items a..b are exactly the items of the section. */
  ghost predicate Stretch(items: seq<Dense>, cat: Category, layer: int, a: nat, b: nat) {
    && a <= b < |items|
    && forall i :: 0 <= i < |items| ==> (InSection(items[i], cat, layer) <==> a <= i <= b)
  }

  /** Min offset and aligned max end over the tensors of a section. */
  method Section(items: seq<Dense>, off: seq<nat>, cat: Category, layer: int)
    returns (found: bool, start: nat, size: nat, a: nat, b: nat)
    requires InFileOrder(items) && |off| == |items| && forall i :: 0 <= i < |off| ==> off[i] == Off(items, i)
    ensures found <==> !Empty(items, cat, layer)
    ensures found ==> Stretch(items, cat, layer, a, b) && start == Off(items, a) && start + size == Off(items, b + 1)
  {
    hide AlignUp, Aligned, InFileOrder, Off;
    found, start, a, b := false, 0, 0, 0;
    var last := 0;
    for i := 0 to |items|
      invariant found ==> a <= b < i && InSection(items[a], cat, layer) && InSection(items[b], cat, layer)
      invariant found ==> start == Off(items, a) && last == Off(items, b) + items[b].size
      invariant forall j :: 0 <= j < i && InSection(items[j], cat, layer) ==> found && a <= j <= b
    {
      if InSection(items[i], cat, layer) {
        if found { OffMonotone(items, a, i); OffMonotone(items, b, i); }
        start := if found then W.Min(start, off[i]) else off[i];
        last := if found then W.Max(last, off[i] + items[i].size) else off[i] + items[i].size;
        if !found { a := i; }
        b := i;
        found := true;
      }
    }
    size := 0;
    if found {
      StretchBetween(items, cat, layer, a, b);
      OffMonotone(items, a, b);
      OffNext(items, b);
      size := AlignUp(last) - start;
    }
  }

  lemma StretchBetween(items: seq<Dense>, cat: Category, layer: int, a: nat, b: nat)
    requires InFileOrder(items) && a <= b < |items| && InSection(items[a], cat, layer) &&
               InSection(items[b], cat, layer)
    requires forall j :: 0 <= j < |items| && InSection(items[j], cat, layer) ==> a <= j <= b
    ensures Stretch(items, cat, layer, a, b)
  {
    forall i | a <= i <= b ensures InSection(items[i], cat, layer) {
      assert i == a || !Sooner(items[i], items[a]);
      assert i == b || !Sooner(items[b], items[i]);
    }
  }

  // ---- expert blocks ---------------------------------------------------------------------------

  /** Expert tensors of one layer, in order. */
  function Branches(m: Model, layer: nat, n: nat): seq<Branch>
    requires n <= |m.branches|
  {
    if n == 0 then []
    else Branches(m, layer, n - 1) + if m.branches[n - 1].layer == layer then [m.branches[n - 1]] else []
  }

  function LayerBranches(m: Model, layer: nat): seq<Branch> {
    Branches(m, layer, |m.branches|)
  }

  /** Offset of branch i inside an expert block. */
  function BranchOff(bs: seq<Branch>, i: nat): (o: nat)
    requires i <= |bs|
    ensures Aligned(o)
  {
    if i == 0 then 0 else AlignUp(BranchOff(bs, i - 1) + bs[i - 1].perExpert)
  }

  lemma {:induction false} BranchOffMonotone(bs: seq<Branch>, i: nat, j: nat)
    requires i <= j <= |bs|
    ensures BranchOff(bs, i) <= BranchOff(bs, j)
    ensures i < j ==> BranchOff(bs, i) + bs[i].perExpert <= BranchOff(bs, j)
  {
    hide Aligned;
    if i < j { BranchOffMonotone(bs, i, j - 1); }
  }

  /** Size of one expert block of a layer. */
  function BlockSize(m: Model, layer: nat): nat {
    BranchOff(LayerBranches(m, layer), |LayerBranches(m, layer)|)
  }

  /** One expert block. */
  datatype Block = Block(layer: nat, expert: nat, off: nat, size: nat)

  /** Blocks by layer, then expert, one after the other from `start` to `end`. */
  ghost predicate BlocksFollow(m: Model, blocks: seq<Block>, start: nat, end: nat) {
    && (forall i :: 0 <= i < |blocks| ==>
          blocks[i].layer < m.nLayer && blocks[i].expert < m.nExpert && blocks[i].size == BlockSize(m, blocks[i].layer))
    && (forall i, j :: 0 <= i < j < |blocks| ==>
          blocks[i].layer < blocks[j].layer ||
              (blocks[i].layer == blocks[j].layer && blocks[i].expert < blocks[j].expert))
    && (forall i :: 0 < i < |blocks| ==> blocks[i].off == blocks[i - 1].off + blocks[i - 1].size)
    && (if blocks == [] then start == end
        else blocks[0].off == start && end == blocks[|blocks| - 1].off + blocks[|blocks| - 1].size)
  }

  ghost predicate HasBlock(blocks: seq<Block>, l: nat, e: nat) {
    exists i :: 0 <= i < |blocks| && blocks[i].layer == l && blocks[i].expert == e
  }

  /** Blocks of the layers below l, and of layer l for the experts below e. */
  ghost predicate BlocksUpTo(m: Model, blocks: seq<Block>, start: nat, end: nat, l: nat, e: nat) {
    && BlocksFollow(m, blocks, start, end)
    && (forall i :: 0 <= i < |blocks| ==> blocks[i].layer < l || (blocks[i].layer == l && blocks[i].expert < e))
    && (forall k: nat, x: nat :: (k < l && x < m.nExpert) || (k == l && x < e) ==> HasBlock(blocks, k, x))
  }

  lemma BlockAdded(m: Model, blocks: seq<Block>, start: nat, end: nat, l: nat, e: nat, b: Block)
    requires BlocksUpTo(m, blocks, start, end, l, e) && b == Block(l, e, end, BlockSize(m, l)) && l < m.nLayer &&
               e < m.nExpert
    ensures BlocksUpTo(m, blocks + [b], start, end + b.size, l, e + 1)
  {
    hide BlockSize;
    var more := blocks + [b];
    assert more[|blocks|] == b;
    forall k: nat, x: nat | HasBlock(blocks, k, x) ensures HasBlock(more, k, x) {
      var i :| 0 <= i < |blocks| && blocks[i].layer == k && blocks[i].expert == x;
      assert more[i] == blocks[i];
    }
  }

  method BuildBlocks(m: Model, start: nat) returns (blocks: seq<Block>, end: nat)
    ensures BlocksFollow(m, blocks, start, end)
    ensures forall l: nat, e: nat :: l < m.nLayer && e < m.nExpert ==> HasBlock(blocks, l, e)
  {
    blocks, end := [], start;
    for l := 0 to m.nLayer
      invariant BlocksUpTo(m, blocks, start, end, l, 0)
    {
      var bs := LayerBranches(m, l);
      var boff: nat := 0;
      for i := 0 to |bs|
        invariant boff == BranchOff(bs, i)
      {
        boff := AlignUp(boff + bs[i].perExpert);
      }
      hide AlignUp, BranchOff, BlocksFollow;
      for e := 0 to m.nExpert
        invariant BlocksUpTo(m, blocks, start, end, l, e)
      {
        BlockAdded(m, blocks, start, end, l, e, Block(l, e, end, boff));
        blocks := blocks + [Block(l, e, end, boff)];
        end := end + boff;
      }
    }
  }

  // ---- the plan ------------------------------------------------------------------------------------

  /** A section of dense tensors: items first..last. */
  datatype Sec = Sec(cat: Category, layer: int, start: nat, size: nat, first: nat, last: nat)

  datatype Plan = Plan(items: seq<Dense>, sections: seq<Sec>, blocks: seq<Block>, blocksStart: nat, end: nat)

  predicate KeyInRange(m: Model, cat: Category, layer: int) {
    if cat == Global then layer == 0 else 0 <= layer < m.nLayer
  }

  ghost predicate SecOk(m: Model, items: seq<Dense>, s: Sec) {
    && KeyInRange(m, s.cat, s.layer) && Stretch(items, s.cat, s.layer, s.first, s.last)
    && s.start == Off(items, s.first) && s.start + s.size == Off(items, s.last + 1)
  }

  ghost predicate HasSection(sections: seq<Sec>, cat: Category, layer: int) {
    exists i :: 0 <= i < |sections| && sections[i].cat == cat && sections[i].layer == layer
  }

  /** Sections are right, one for each key. */
  ghost predicate SectionsOk(m: Model, items: seq<Dense>, sections: seq<Sec>) {
    && (forall i :: 0 <= i < |sections| ==> SecOk(m, items, sections[i]))
    && (forall i, j ::
         0 <= i < j < |sections| ==> sections[i].cat != sections[j].cat || sections[i].layer != sections[j].layer)
  }

  ghost predicate PlanOk(m: Model, p: Plan) {
    && InFileOrder(p.items) && multiset(p.items) == multiset(m.dense)
    && SectionsOk(m, p.items, p.sections)
    && (forall cat, layer ::
         KeyInRange(m, cat, layer) && !Empty(p.items, cat, layer) ==> HasSection(p.sections, cat, layer))
    && (!Empty(p.items, Global, 0) ==> p.sections != [] && p.sections[0].cat == Global)
    && p.blocksStart == Off(p.items, |p.items|) && BlocksFollow(m, p.blocks, p.blocksStart, p.end)
    && forall l: nat, e: nat :: l < m.nLayer && e < m.nExpert ==> HasBlock(p.blocks, l, e)
  }

  /** The sections of one layered category. */
  method LayerSections(m: Model, items: seq<Dense>, off: seq<nat>, cat: Category) returns (secs: seq<Sec>)
    requires InFileOrder(items) && |off| == |items| && (forall i :: 0 <= i < |off| ==> off[i] == Off(items, i)) &&
               cat != Global
    ensures SectionsOk(m, items, secs) && forall i :: 0 <= i < |secs| ==> secs[i].cat == cat
    ensures forall l :: 0 <= l < m.nLayer && !Empty(items, cat, l) ==> HasSection(secs, cat, l)
  {
    secs := [];
    hide Stretch, Off, Empty, InFileOrder;
    for l := 0 to m.nLayer
      invariant SectionsOk(m, items, secs) && forall i :: 0 <= i < |secs| ==> secs[i].cat == cat && secs[i].layer < l
      invariant forall k :: 0 <= k < l && !Empty(items, cat, k) ==> HasSection(secs, cat, k)
    {
      var found, start, size, a, b := Section(items, off, cat, l);
      if found {
        var sec := Sec(cat, l, start, size, a, b);
        SectionAdded(secs, sec);
        secs := secs + [sec];
      }
    }
  }

  lemma SectionAdded(secs: seq<Sec>, s: Sec)
    ensures forall c, l :: HasSection(secs, c, l) ==> HasSection(secs + [s], c, l)
    ensures HasSection(secs + [s], s.cat, s.layer)
  {
    var more := secs + [s];
    assert more[|secs|] == s;
    forall c, l | HasSection(secs, c, l) ensures HasSection(more, c, l) {
      var i :| 0 <= i < |secs| && secs[i].cat == c && secs[i].layer == l;
      assert more[i] == secs[i];
    }
  }

  /** Where the dense tensors end, aligned. */
  method DenseEnd(items: seq<Dense>, off: seq<nat>) returns (end: nat)
    requires |off| == |items| && forall i :: 0 <= i < |off| ==> off[i] == Off(items, i)
    ensures end == Off(items, |items|)
  {
    hide AlignUp, Off, Aligned;
    var realEnd: nat := 0;
    for i := 0 to |items|
      invariant i > 0 ==> realEnd == Off(items, i - 1) + items[i - 1].size
      invariant i == 0 ==> realEnd == 0
    {
      if i > 0 { OffMonotone(items, i - 1, i); }
      realEnd := W.Max(realEnd, off[i] + items[i].size);
    }
    if items == [] {
      OffZero(items);
      ZeroAligned();
    } else {
      OffNext(items, |items| - 1);
    }
    end := AlignUp(realEnd);
  }

  lemma ZeroAligned()
    ensures AlignUp(0) == 0
  {
  }

  /** build_plan for V3. */
  method BuildPlan(m: Model) returns (p: Plan)
    ensures PlanOk(m, p)
  {
    hide AlignUp, Off, InFileOrder, Stretch, Empty, Aligned, BlocksFollow, SectionsOk, SecOk, HasSection, HasBlock,
        PlanOk;
    var items := OrderItems(m.dense);
    var off := Offsets(items);
    var blocksStart := DenseEnd(items, off);
    var blocks, end := BuildBlocks(m, blocksStart);
    var sections: seq<Sec> := [];
    var found, start, size, a, b := Section(items, off, Global, 0);
    if found { sections := [Sec(Global, 0, start, size, a, b)]; }
    GlobalDone(m, items, sections, found, start, size, a, b);
    var perLayer := LayerSections(m, items, off, PerLayer);
    var meta := LayerSections(m, items, off, Meta);
    SectionsTogether(m, items, sections, perLayer, meta);
    p := Plan(items, sections + perLayer + meta, blocks, blocksStart, end);
    PlanTogether(m, p);
  }

  lemma PlanTogether(m: Model, p: Plan)
    requires InFileOrder(p.items) && multiset(p.items) == multiset(m.dense) && SectionsOk(m, p.items, p.sections)
    requires forall cat, layer ::
               KeyInRange(m, cat, layer) && !Empty(p.items, cat, layer) ==> HasSection(p.sections, cat, layer)
    requires !Empty(p.items, Global, 0) ==> p.sections != [] && p.sections[0].cat == Global
    requires p.blocksStart == Off(p.items, |p.items|) && BlocksFollow(m, p.blocks, p.blocksStart, p.end)
    requires forall l: nat, e: nat :: l < m.nLayer && e < m.nExpert ==> HasBlock(p.blocks, l, e)
    ensures PlanOk(m, p)
  {
    hide Off, InFileOrder, Stretch, Empty, BlocksFollow, SectionsOk, HasSection, HasBlock;
  }

  lemma GlobalDone(m: Model, items: seq<Dense>, sections: seq<Sec>, found: bool, start: nat, size: nat, a: nat, b: nat)
    requires found <==> !Empty(items, Global, 0)
    requires found ==> Stretch(items, Global, 0, a, b) && start == Off(items, a) && start + size == Off(items, b + 1)
    requires sections == if found then [Sec(Global, 0, start, size, a, b)] else []
    ensures SectionsOk(m, items, sections)
    ensures !Empty(items, Global, 0) ==> HasSection(sections, Global, 0) && sections != [] && sections[0].cat == Global
  {
    hide Off;
    if found { assert sections[0].cat == Global && sections[0].layer == 0; }
  }

  /** Sections of different categories have different keys. */
  lemma SectionsTogether(m: Model, items: seq<Dense>, global: seq<Sec>, perLayer: seq<Sec>, meta: seq<Sec>)
    requires SectionsOk(m, items, global) && SectionsOk(m, items, perLayer) && SectionsOk(m, items, meta)
    requires forall i :: 0 <= i < |global| ==> global[i].cat == Global
    requires forall i :: 0 <= i < |perLayer| ==> perLayer[i].cat == PerLayer
    requires forall i :: 0 <= i < |meta| ==> meta[i].cat == Meta
    requires !Empty(items, Global, 0) ==> HasSection(global, Global, 0)
    requires forall l :: 0 <= l < m.nLayer && !Empty(items, PerLayer, l) ==> HasSection(perLayer, PerLayer, l)
    requires forall l :: 0 <= l < m.nLayer && !Empty(items, Meta, l) ==> HasSection(meta, Meta, l)
    ensures SectionsOk(m, items, global + perLayer + meta)
    ensures forall cat, layer ::
              KeyInRange(m, cat, layer) && !Empty(items, cat, layer) ==>
                  HasSection(global + perLayer + meta, cat, layer)
  {
    hide SecOk, Empty;
    var all := global + perLayer + meta;
    forall cat, layer | KeyInRange(m, cat, layer) && !Empty(items, cat, layer) ensures HasSection(all, cat, layer) {
      match cat
      case Global =>
        var i :| 0 <= i < |global| && global[i].cat == cat && global[i].layer == layer;
        assert all[i] == global[i];
      case PerLayer =>
        var i :| 0 <= i < |perLayer| && perLayer[i].cat == cat && perLayer[i].layer == layer;
        assert all[|global| + i] == perLayer[i];
      case Meta =>
        var i :| 0 <= i < |meta| && meta[i].cat == cat && meta[i].layer == layer;
        assert all[|global| + |perLayer| + i] == meta[i];
    }
  }

  // ---- units ------------------------------------------------------------------------------------------

  /** Offset of a tensor inside its section. */
  function Rel(off: nat, start: nat): nat {
    if off >= start then off - start else 0
  }

  /** Content of a dense section: its tensors at their offsets inside it. */
  ghost function SectionContent(items: seq<Dense>, s: Sec, n: nat): seq<W.Item>
    requires n <= |items|
  {
    if n == 0 then []
    else if InSection(items[n - 1], s.cat, s.layer) then
      SectionContent(items, s, n - 1) + [W.Item(Rel(Off(items, n - 1), s.start), items[n - 1].size, items[n - 1].srcs)]
    else SectionContent(items, s, n - 1)
  }

  /** Content of a block: the expert's part of every branch. */
  ghost function BlockContent(bs: seq<Branch>, e: nat, n: nat): seq<W.Item>
    requires n <= |bs| && forall i :: 0 <= i < |bs| ==> e < |bs[i].srcs|
  {
    if n == 0 then []
    else BlockContent(bs, e, n - 1) + [W.Item(BranchOff(bs, n - 1), bs[n - 1].perExpert, bs[n - 1].srcs[e])]
  }

  /** Segments lie within their tensor, and every expert tensor has segments for every expert. */
  ghost predicate ValidSrcs(m: Model) {
    && (forall d :: d in m.dense ==> SrcsWithin(d.srcs, d.size))
    && (forall i :: 0 <= i < |m.branches| ==>
          |m.branches[i].srcs| == m.nExpert &&
              forall e :: 0 <= e < m.nExpert ==> SrcsWithin(m.branches[i].srcs[e], m.branches[i].perExpert))
  }

  ghost predicate SrcsWithin(srcs: seq<W.Seg>, size: nat) {
    forall k :: 0 <= k < |srcs| ==> srcs[k].inOff + srcs[k].len <= size
  }

  lemma {:induction false} BranchesIn(m: Model, layer: nat, n: nat)
    requires n <= |m.branches|
    ensures forall i :: 0 <= i < |Branches(m, layer, n)| ==> Branches(m, layer, n)[i] in m.branches
  {
    if n > 0 { BranchesIn(m, layer, n - 1); }
  }

  lemma BranchSrcs(m: Model, layer: nat)
    requires ValidSrcs(m)
    ensures forall i :: 0 <= i < |LayerBranches(m, layer)| ==>
              |LayerBranches(m, layer)[i].srcs| == m.nExpert &&
              forall e ::
                  0 <= e < m.nExpert ==>
                      SrcsWithin(LayerBranches(m, layer)[i].srcs[e], LayerBranches(m, layer)[i].perExpert)
  {
    BranchesIn(m, layer, |m.branches|);
  }

  lemma SectionStarts(m: Model, items: seq<Dense>, s: Sec, i: nat)
    requires SecOk(m, items, s) && i < |items| && InSection(items[i], s.cat, s.layer)
    ensures s.start <= Off(items, i)
  {
    OffMonotone(items, s.first, i);
  }

  /** Unit u of the plan: a section, or an expert block. */
  ghost predicate UnitIs(m: Model, p: Plan, unit: W.Unit, u: nat)
    requires PlanOk(m, p) && ValidSrcs(m) && u < |p.sections| + |p.blocks|
  {
    if u < |p.sections| then
      var s := p.sections[u];
      unit == W.Unit(s.start, s.size, SectionContent(p.items, s, |p.items|))
    else
      var b := p.blocks[u - |p.sections|];
      BranchSrcs(m, b.layer);
      unit == W.Unit(b.off, b.size, BlockContent(LayerBranches(m, b.layer), b.expert, |LayerBranches(m, b.layer)|))
  }

  ghost predicate UnitsOk(m: Model, p: Plan, units: seq<W.Unit>)
    requires PlanOk(m, p) && ValidSrcs(m)
  {
    |units| == |p.sections| + |p.blocks| && forall u :: 0 <= u < |units| ==> UnitIs(m, p, units[u], u)
  }

  method SectionUnit(m: Model, items: seq<Dense>, off: seq<nat>, s: Sec) returns (unit: W.Unit)
    requires SecOk(m, items, s) && |off| == |items| && forall i :: 0 <= i < |off| ==> off[i] == Off(items, i)
    ensures unit == W.Unit(s.start, s.size, SectionContent(items, s, |items|))
  {
    hide Off, AlignUp, Aligned, SecOk;
    var content: seq<W.Item> := [];
    for i := 0 to |items|
      invariant content == SectionContent(items, s, i)
    {
      if InSection(items[i], s.cat, s.layer) {
        SectionStarts(m, items, s, i);
        content := content + [W.Item(off[i] - s.start, items[i].size, items[i].srcs)];
      }
    }
    unit := W.Unit(s.start, s.size, content);
  }

  method BlockUnit(m: Model, b: Block) returns (unit: W.Unit)
    requires ValidSrcs(m) && b.expert < m.nExpert
    ensures forall i :: 0 <= i < |LayerBranches(m, b.layer)| ==> b.expert < |LayerBranches(m, b.layer)[i].srcs|
    ensures unit == W.Unit(b.off, b.size,
              BlockContent(LayerBranches(m, b.layer), b.expert, |LayerBranches(m, b.layer)|))
  {
    BranchSrcs(m, b.layer);
    var bs := LayerBranches(m, b.layer);
    var content: seq<W.Item> := [];
    var boff: nat := 0;
    for i := 0 to |bs|
      invariant boff == BranchOff(bs, i) && content == BlockContent(bs, b.expert, i)
    {
      content := content + [W.Item(boff, bs[i].perExpert, bs[i].srcs[b.expert])];
      boff := AlignUp(boff + bs[i].perExpert);
    }
    unit := W.Unit(b.off, b.size, content);
  }

  ghost predicate HasGlobal(m: Model) {
    exists d :: d in m.dense && d.cat == Global
  }

  /** One unit for each section and each block. */
  method AllUnits(m: Model, p: Plan) returns (units: seq<W.Unit>)
    requires PlanOk(m, p) && ValidSrcs(m)
    ensures UnitsOk(m, p, units)
  {
    units := [];
    var off := Offsets(p.items);
    hide PlanOk, ValidSrcs, Off, SectionContent, BlockContent, SecOk;
    for k := 0 to |p.sections|
      invariant |units| == k && forall u :: 0 <= u < k ==> UnitIs(m, p, units[u], u)
    {
      PlanParts(m, p);
      var unit := SectionUnit(m, p.items, off, p.sections[k]);
      units := units + [unit];
    }
    for k := 0 to |p.blocks|
      invariant |units| == |p.sections| + k && forall u :: 0 <= u < |units| ==> UnitIs(m, p, units[u], u)
    {
      PlanParts(m, p);
      var unit := BlockUnit(m, p.blocks[k]);
      units := units + [unit];
    }
  }

  /** build_units. None where the source reads the bounds of a global section that is not there. */
  method BuildUnits(m: Model, p: Plan) returns (r: Option<seq<W.Unit>>)
    requires PlanOk(m, p) && ValidSrcs(m)
    ensures r.Some? <==> HasGlobal(m)
    ensures r.Some? ==> UnitsOk(m, p, r.value)
  {
    GlobalFirst(m, p);
    hide PlanOk, ValidSrcs, UnitsOk, HasGlobal;
    if p.sections == [] || p.sections[0].cat != Global { return None; }
    var units := AllUnits(m, p);
    r := Some(units);
  }

  /** The global section comes first, if there is one. */
  lemma GlobalFirst(m: Model, p: Plan)
    requires PlanOk(m, p)
    ensures HasGlobal(m) <==> p.sections != [] && p.sections[0].cat == Global
  {
    hide BlocksFollow, InFileOrder, HasSection, Off;
    if HasGlobal(m) {
      var d :| d in m.dense && d.cat == Global;
      SameMembers(m, p, d);
      var k: nat :| k < |p.items| && p.items[k] == d;
      assert InSection(p.items[k], Global, 0);
    }
    if p.sections != [] && p.sections[0].cat == Global {
      var s := p.sections[0];
      assert SecOk(m, p.items, s);
      assert InSection(p.items[s.first], s.cat, s.layer);
      SameMembers(m, p, p.items[s.first]);
    }
  }

  lemma PlanParts(m: Model, p: Plan)
    requires PlanOk(m, p)
    ensures forall i :: 0 <= i < |p.sections| ==> SecOk(m, p.items, p.sections[i])
    ensures forall i :: 0 <= i < |p.blocks| ==> p.blocks[i].expert < m.nExpert
    ensures BlocksFollow(m, p.blocks, p.blocksStart, p.end) && p.blocksStart == Off(p.items, |p.items|)
  {
    hide Off, AlignUp, Aligned, InFileOrder, BlockSize;
  }

  // ---- the units tile the data area ------------------------------------------------------------------------

  predicate Holds(units: seq<W.Unit>, u: nat, pos: nat)
    requires u < |units|
  {
    units[u].off <= pos < units[u].off + units[u].size
  }

  ghost predicate Held(units: seq<W.Unit>, pos: nat) {
    exists u :: 0 <= u < |units| && Holds(units, u, pos)
  }

  /** Every byte of the data area is in exactly one unit. */
  ghost predicate Tiled(units: seq<W.Unit>, end: nat) {
    && (forall pos: nat :: pos < end ==> Held(units, pos))
    && (forall pos: nat, u, v ::
         0 <= u < |units| && 0 <= v < |units| && Holds(units, u, pos) && Holds(units, v, pos) ==> u == v)
  }

  /** A tensor that lands in no section. */
  predicate Dropped(m: Model, d: Dense) {
    d.cat != Global && !(0 <= d.layer < m.nLayer)
  }

  lemma SecAt(m: Model, p: Plan, units: seq<W.Unit>, u: nat)
    requires PlanOk(m, p) && ValidSrcs(m) && UnitsOk(m, p, units) && u < |p.sections|
    ensures units[u].off == p.sections[u].start && units[u].size == p.sections[u].size &&
              SecOk(m, p.items, p.sections[u])
    ensures units[u].content == SectionContent(p.items, p.sections[u], |p.items|)
  {
    assert UnitIs(m, p, units[u], u);
  }

  lemma BlockAt(m: Model, p: Plan, units: seq<W.Unit>, u: nat)
    requires PlanOk(m, p) && ValidSrcs(m) && UnitsOk(m, p, units) && |p.sections| <= u < |units|
    ensures var b := p.blocks[u - |p.sections|];
            && units[u].off == b.off && units[u].size == b.size && b.expert < m.nExpert
            && b.size == BlockSize(m, b.layer)
  {
    assert UnitIs(m, p, units[u], u);
  }

  /** A position inside a section is inside its stretch of items. */
  lemma SecRange(m: Model, items: seq<Dense>, s: Sec, k: nat)
    requires SecOk(m, items, s) && k < |items| && s.start < Off(items, k + 1) && Off(items, k) < s.start + s.size
    ensures s.first <= k <= s.last && InSection(items[k], s.cat, s.layer)
  {
    hide AlignUp, Aligned, Off;
    if k < s.first { OffMonotone(items, k + 1, s.first); }
    if k > s.last { OffMonotone(items, s.last + 1, k); }
  }

  /** The item whose padded range holds a position. */
  lemma {:induction false} ItemAt(items: seq<Dense>, pos: nat, n: nat) returns (k: nat)
    requires n <= |items| && pos < Off(items, n)
    ensures k < n && Off(items, k) <= pos < Off(items, k + 1)
  {
    hide AlignUp, Aligned;
    if pos >= Off(items, n - 1) {
      k := n - 1;
    } else {
      k := ItemAt(items, pos, n - 1);
    }
  }

  lemma {:induction false} BlockHolding(m: Model, blocks: seq<Block>, start: nat, end: nat, pos: nat) returns (i: nat)
    requires BlocksFollow(m, blocks, start, end) && start <= pos < end
    ensures i < |blocks| && blocks[i].off <= pos < blocks[i].off + blocks[i].size
    decreases |blocks|
  {
    hide BlockSize;
    var n := |blocks| - 1;
    if pos >= blocks[n].off {
      i := n;
    } else {
      i := BlockHolding(m, blocks[..n], start, blocks[n].off, pos);
    }
  }

  lemma {:induction false} BlocksAscend(m: Model, blocks: seq<Block>, start: nat, end: nat, i: nat, j: nat)
    requires BlocksFollow(m, blocks, start, end) && i < j < |blocks|
    ensures start <= blocks[i].off && blocks[i].off + blocks[i].size <= blocks[j].off &&
              blocks[j].off + blocks[j].size <= end
    decreases j
  {
    hide BlockSize;
    BlockBounds(m, blocks, start, end, i);
    BlockBounds(m, blocks, start, end, j);
    if i + 1 < j { BlocksAscend(m, blocks, start, end, i, j - 1); }
  }

  lemma {:induction false} BlockBounds(m: Model, blocks: seq<Block>, start: nat, end: nat, i: nat)
    requires BlocksFollow(m, blocks, start, end) && i < |blocks|
    ensures start <= blocks[i].off && blocks[i].off + blocks[i].size <= end
    decreases |blocks|
  {
    hide BlockSize;
    var n := |blocks| - 1;
    if n > 0 {
      BlockBounds(m, blocks[..n], start, blocks[n].off, if i < n then i else n - 1);
    }
  }

  lemma SecsApart(m: Model, items: seq<Dense>, s: Sec, t: Sec, pos: nat)
    requires SecOk(m, items, s) && SecOk(m, items, t) && (s.cat != t.cat || s.layer != t.layer)
    requires s.start <= pos < s.start + s.size
    ensures !(t.start <= pos < t.start + t.size)
  {
    hide AlignUp, Aligned, Off;
    if t.start <= pos < t.start + t.size {
      OffMonotone(items, s.last + 1, |items|);
      var k := ItemAt(items, pos, |items|);
      SecRange(m, items, s, k);
      SecRange(m, items, t, k);
    }
  }

  lemma SecBelowBlocks(m: Model, p: Plan, s: Sec)
    requires PlanOk(m, p) && SecOk(m, p.items, s)
    ensures s.start + s.size <= p.blocksStart
  {
    hide AlignUp, Aligned, Off, BlocksFollow, InFileOrder;
    OffMonotone(p.items, s.last + 1, |p.items|);
  }

  lemma SecsDiffer(m: Model, p: Plan, i: nat, j: nat)
    requires PlanOk(m, p) && i < j < |p.sections|
    ensures SecOk(m, p.items, p.sections[i]) && SecOk(m, p.items, p.sections[j])
    ensures p.sections[i].cat != p.sections[j].cat || p.sections[i].layer != p.sections[j].layer
  {
    hide SecOk, Off, AlignUp, Aligned, InFileOrder, BlocksFollow;
  }

  /** No byte is in two units. */
  lemma UnitsApart(m: Model, p: Plan, units: seq<W.Unit>, u: nat, v: nat, pos: nat)
    requires PlanOk(m, p) && ValidSrcs(m) && UnitsOk(m, p, units) && u < v < |units| && Holds(units, u, pos)
    ensures !Holds(units, v, pos)
  {
    hide PlanOk, ValidSrcs, Off, AlignUp, Aligned, UnitIs, SecOk, BlockSize, BlocksFollow;
    PlanParts(m, p);
    var n := |p.sections|;
    if v < n {
      SecAt(m, p, units, u);
      SecAt(m, p, units, v);
      SecsDiffer(m, p, u, v);
      SecsApart(m, p.items, p.sections[u], p.sections[v], pos);
    } else if u < n {
      SecAt(m, p, units, u);
      BlockAt(m, p, units, v);
      SecBelowBlocks(m, p, p.sections[u]);
      BlockBounds(m, p.blocks, p.blocksStart, p.end, v - n);
    } else {
      BlockAt(m, p, units, u);
      BlockAt(m, p, units, v);
      BlocksAscend(m, p.blocks, p.blocksStart, p.end, u - n, v - n);
    }
  }

  /** A tensor of a section has its padded range inside the section. */
  lemma SecHolds(m: Model, items: seq<Dense>, s: Sec, k: nat, pos: nat)
    requires SecOk(m, items, s) && k < |items| && InSection(items[k], s.cat, s.layer) &&
               Off(items, k) <= pos < Off(items, k + 1)
    ensures s.start <= pos < s.start + s.size
  {
    hide AlignUp, Aligned, Off;
    assert s.first <= k <= s.last;
    OffMonotone(items, s.first, k);
    OffMonotone(items, k + 1, s.last + 1);
  }

  lemma SectionOf(m: Model, p: Plan, k: nat) returns (u: nat)
    requires PlanOk(m, p) && k < |p.items| && !Dropped(m, p.items[k])
    ensures u < |p.sections| && InSection(p.items[k], p.sections[u].cat, p.sections[u].layer)
  {
    hide AlignUp, Aligned;
    hide InFileOrder, BlocksFollow, Off, SectionsOk;
    var d := p.items[k];
    var layer := if d.cat == Global then 0 else d.layer;
    assert InSection(d, d.cat, layer);
    assert !Empty(p.items, d.cat, layer) && KeyInRange(m, d.cat, layer);
    u :| 0 <= u < |p.sections| && p.sections[u].cat == d.cat && p.sections[u].layer == layer;
  }

  /** A tensor that is in some section has its padded range in that section's unit. */
  lemma TensorInUnit(m: Model, p: Plan, units: seq<W.Unit>, k: nat, pos: nat) returns (u: nat)
    requires PlanOk(m, p) && ValidSrcs(m) && UnitsOk(m, p, units) && k < |p.items| && !Dropped(m, p.items[k])
    requires Off(p.items, k) <= pos < Off(p.items, k + 1)
    ensures u < |p.sections| && u < |units| && Holds(units, u, pos)
  {
    u := SectionOf(m, p, k);
    hide PlanOk, ValidSrcs, SecOk, Off, UnitIs;
    SecAt(m, p, units, u);
    SecHolds(m, p.items, p.sections[u], k, pos);
  }

  lemma SameMembers(m: Model, p: Plan, d: Dense)
    requires PlanOk(m, p)
    ensures d in m.dense <==> d in p.items
  {
    assert d in multiset(m.dense) <==> d in multiset(p.items);
  }

  /** The padded range of a tensor without bytes is empty. */
  lemma EmptyTensor(items: seq<Dense>, k: nat)
    requires k < |items| && items[k].size == 0
    ensures Off(items, k + 1) == Off(items, k)
  {
    hide Aligned;
  }

  /** The units tile the data area exactly when every layered tensor with bytes has a
      layer of the model; no byte is ever in two units. */
  lemma UnitsTileIffNoneDropped(m: Model, p: Plan, units: seq<W.Unit>)
    requires PlanOk(m, p) && ValidSrcs(m) && UnitsOk(m, p, units)
    ensures Tiled(units, p.end) <==> forall d :: d in m.dense && d.size > 0 ==> !Dropped(m, d)
  {
    forall pos: nat, u: nat, v: nat | u < |units| && v < |units| && Holds(units, u, pos) && Holds(units, v, pos)
      ensures u == v
    {
      if u < v { UnitsApart(m, p, units, u, v, pos); } else if v < u { UnitsApart(m, p, units, v, u, pos); }
    }
    if forall d :: d in m.dense && d.size > 0 ==> !Dropped(m, d) {
      forall pos: nat | pos < p.end ensures Held(units, pos) {
        var u := Holder(m, p, units, pos);
      }
    } else {
      var d :| d in m.dense && d.size > 0 && Dropped(m, d);
      SameMembers(m, p, d);
      var k: nat :| k < |p.items| && p.items[k] == d;
      NobodyHolds(m, p, units, k, Off(p.items, k));
    }
  }

  lemma Holder(m: Model, p: Plan, units: seq<W.Unit>, pos: nat) returns (u: nat)
    requires PlanOk(m, p) && ValidSrcs(m) && UnitsOk(m, p, units) && pos < p.end
    requires forall d :: d in m.dense && d.size > 0 ==> !Dropped(m, d)
    ensures u < |units| && Holds(units, u, pos)
  {
    DenseBelowBlocks(m, p);
    hide PlanOk, ValidSrcs, SecOk, UnitIs, Off, AlignUp, Aligned, UnitsOk;
    if pos < p.blocksStart {
      var k := ItemAt(p.items, pos, |p.items|);
      if p.items[k].size == 0 { EmptyTensor(p.items, k); }
      assert p.items[k] in p.items;
      SameMembers(m, p, p.items[k]);
      u := TensorInUnit(m, p, units, k, pos);
    } else {
      u := BlockHolder(m, p, units, pos);
    }
  }

  lemma BlockHolder(m: Model, p: Plan, units: seq<W.Unit>, pos: nat) returns (u: nat)
    requires PlanOk(m, p) && ValidSrcs(m) && UnitsOk(m, p, units) && p.blocksStart <= pos < p.end
    ensures u < |units| && Holds(units, u, pos)
  {
    hide UnitIs, Off, AlignUp, Aligned, SectionsOk, InFileOrder, BlockSize;
    var i := BlockHolding(m, p.blocks, p.blocksStart, p.end, pos);
    u := |p.sections| + i;
    BlockAt(m, p, units, u);
  }

  /** No byte of a dropped tensor is in a unit. */
  lemma NobodyHolds(m: Model, p: Plan, units: seq<W.Unit>, k: nat, pos: nat)
    requires PlanOk(m, p) && ValidSrcs(m) && UnitsOk(m, p, units) && k < |p.items| && Dropped(m, p.items[k])
    requires Off(p.items, k) <= pos < Off(p.items, k) + p.items[k].size
    ensures pos < p.end && !Held(units, pos)
  {
    hide PlanOk, ValidSrcs, SecOk, UnitIs, Off, AlignUp, Aligned, Dropped;
    OffMonotone(p.items, k, k + 1);
    OffMonotone(p.items, k + 1, |p.items|);
    BlocksEnd(m, p);
    DenseBelowBlocks(m, p);
    forall u: nat | u < |units| ensures !Holds(units, u, pos) {
      if u < |p.sections| {
        SecAt(m, p, units, u);
        DroppedOutside(m, p.items, p.sections[u], k, pos);
      } else {
        BlockAt(m, p, units, u);
        BlockAfterStart(m, p, u - |p.sections|);
      }
    }
  }

  lemma DroppedOutside(m: Model, items: seq<Dense>, s: Sec, k: nat, pos: nat)
    requires SecOk(m, items, s) && k < |items| && Dropped(m, items[k])
    requires Off(items, k) <= pos < Off(items, k) + items[k].size
    ensures !(s.start <= pos < s.start + s.size)
  {
    hide AlignUp, Aligned, Off;
    OffMonotone(items, k, k + 1);
    if s.start <= pos < s.start + s.size {
      SecRange(m, items, s, k);
    }
  }

  lemma BlockAfterStart(m: Model, p: Plan, i: nat)
    requires PlanOk(m, p) && i < |p.blocks|
    ensures p.blocksStart <= p.blocks[i].off
  {
    hide AlignUp, Aligned, Off, InFileOrder, SectionsOk;
    BlockBounds(m, p.blocks, p.blocksStart, p.end, i);
  }

  lemma DenseBelowBlocks(m: Model, p: Plan)
    requires PlanOk(m, p)
    ensures p.blocksStart == Off(p.items, |p.items|)
  {
    hide AlignUp, Aligned, Off, InFileOrder, SectionsOk, BlocksFollow;
  }

  lemma BlocksEnd(m: Model, p: Plan)
    requires PlanOk(m, p)
    ensures p.blocksStart <= p.end
  {
    hide AlignUp, Aligned, Off, InFileOrder, SectionsOk;
    if p.blocks != [] { BlockBounds(m, p.blocks, p.blocksStart, p.end, 0); }
  }

  /** Unit sizes are multiples of 4096, so the chunk writer never finds one that is not. */
  lemma UnitsAligned(m: Model, p: Plan, units: seq<W.Unit>)
    requires PlanOk(m, p) && ValidSrcs(m) && UnitsOk(m, p, units)
    ensures forall u :: 0 <= u < |units| ==> units[u].size % W.ALIGN == 0
  {
    forall u: nat | u < |units| ensures Aligned(units[u].size) {
      UnitAligned(m, p, units, u);
    }
  }

  lemma UnitAligned(m: Model, p: Plan, units: seq<W.Unit>, u: nat)
    requires PlanOk(m, p) && ValidSrcs(m) && UnitsOk(m, p, units) && u < |units|
    ensures Aligned(units[u].size)
  {
    hide PlanOk, ValidSrcs, UnitIs, Off, AlignUp, Aligned, BranchOff;
    if u < |p.sections| {
      SecAt(m, p, units, u);
      var s := p.sections[u];
      AlignedDifference(Off(p.items, s.first), Off(p.items, s.last + 1), s.size);
    } else {
      BlockAt(m, p, units, u);
    }
  }

  lemma AlignedDifference(a: nat, b: nat, d: nat)
    requires Aligned(a) && Aligned(b) && a + d == b
    ensures Aligned(d)
  {
  }

  datatype Outcome =
    | TooFewChunks
    | NoGlobalSection
    | Written(result: W.Result, plan: Plan, units: seq<W.Unit>)

  /** The units of a plan, and what became of them. */
  ghost predicate WrittenOk(m: Model, n: nat, ratio: seq<nat>, o: Outcome)
    requires ValidSrcs(m) && o.Written?
  {
    && PlanOk(m, o.plan) && UnitsOk(m, o.plan, o.units)
    && (if W.RatioOk(n, ratio) then o.result.Files? && W.ChunksOk(o.units, n, ratio, o.result.files, o.result.slices)
        else o.result == W.BadRatio)
  }

  /** Converting a model to chunks: the alignment error cannot happen, and with at least one
      chunk, a global section and a usable ratio the conversion succeeds. */
  method ConvertToChunks(m: Model, n: int, ratio: seq<nat>) returns (o: Outcome)
    requires ValidSrcs(m)
    ensures o == TooFewChunks <==> n < 1
    ensures o == NoGlobalSection <==> n >= 1 && !HasGlobal(m)
    ensures o.Written? ==> WrittenOk(m, n, ratio, o)
  {
    if n < 1 { return TooFewChunks; }
    var p := BuildPlan(m);
    var built := BuildUnits(m, p);
    if built.None? { return NoGlobalSection; }
    var units := built.value;
    GlobalFirst(m, p);
    UnitsAligned(m, p, units);
    hide PlanOk, ValidSrcs, HasGlobal, UnitIs;
    var r := W.WriteChunks(units, n, ratio);
    o := Written(r, p, units);
  }
}
