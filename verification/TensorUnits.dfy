/** Which tensors the units of a plan carry: every byte of every tensor is in exactly
    one unit, unless a tensor names a layer the model does not have. */
module TensorUnits {
  import opened Basics
  import opened StripLayout
  import opened SingleFile
  import W = StripWriter

  /** The bytes of a dense tensor, or one expert's bytes of an expert tensor. */
  datatype Piece = Piece(len: nat, srcs: seq<W.Seg>)

  /** One piece, unless it has no bytes. */
  function One(len: nat, srcs: seq<W.Seg>): multiset<Piece> {
    if len == 0 then multiset{} else multiset{Piece(len, srcs)}
  }

  /** The pieces a unit's content carries. */
  function Carried(content: seq<W.Item>): multiset<Piece> {
    if content == [] then multiset{}
    else Carried(content[..|content| - 1]) + One(content[|content| - 1].len, content[|content| - 1].srcs)
  }

  /** The pieces the first n units carry, each as often as it is carried. */
  function CarriedBy(units: seq<W.Unit>, n: nat): multiset<Piece>
    requires n <= |units|
  {
    if n == 0 then multiset{} else CarriedBy(units, n - 1) + Carried(units[n - 1].content)
  }

  function DensePieces(dense: seq<Dense>): multiset<Piece> {
    if dense == [] then multiset{}
    else DensePieces(dense[..|dense| - 1]) + One(dense[|dense| - 1].size, dense[|dense| - 1].srcs)
  }

  /** An expert tensor's pieces for the experts below n. */
  function Parts(b: Branch, n: nat): multiset<Piece>
    requires n <= |b.srcs|
  {
    if n == 0 then multiset{} else Parts(b, n - 1) + One(b.perExpert, b.srcs[n - 1])
  }

  function ExpertPieces(branches: seq<Branch>): multiset<Piece> {
    if branches == [] then multiset{}
    else ExpertPieces(branches[..|branches| - 1]) + Parts(branches[|branches| - 1], |branches[|branches| - 1].srcs|)
  }

  /** An expert tensor that layer_experts skips. */
  predicate Skipped(m: Model, b: Branch) {
    !(0 <= b.layer < m.nLayer)
  }

  /** Every tensor with bytes has its place: a layer of the model, where it needs one. */
  ghost predicate NothingLost(m: Model) {
    && (forall d :: d in m.dense && d.size > 0 ==> !Dropped(m, d))
    && (forall b :: b in m.branches && b.perExpert > 0 && |b.srcs| > 0 ==> !Skipped(m, b))
  }

  // ---- kept and lost ---------------------------------------------------------------------

  function KeptDense(m: Model, dense: seq<Dense>): multiset<Piece> {
    if dense == [] then multiset{}
    else
      var d := dense[|dense| - 1];
      KeptDense(m, dense[..|dense| - 1]) + if Dropped(m, d) then multiset{} else One(d.size, d.srcs)
  }

  function KeptParts(m: Model, branches: seq<Branch>): multiset<Piece> {
    if branches == [] then multiset{}
    else
      var b := branches[|branches| - 1];
      KeptParts(m, branches[..|branches| - 1]) + if Skipped(m, b) then multiset{} else Parts(b, |b.srcs|)
  }

  lemma NoPiece(len: nat, srcs: seq<W.Seg>)
    ensures One(len, srcs) == multiset{} <==> len == 0
  {
  }

  ghost predicate NoneDropped(m: Model, dense: seq<Dense>) {
    forall d :: d in dense && d.size > 0 ==> !Dropped(m, d)
  }

  lemma NoneDroppedSnoc(m: Model, dense: seq<Dense>)
    requires dense != []
    ensures var n := |dense| - 1;
            NoneDropped(m, dense) <==> NoneDropped(m, dense[..n]) && (dense[n].size > 0 ==> !Dropped(m, dense[n]))
  {
    assert dense == dense[..|dense| - 1] + [dense[|dense| - 1]];
  }

  lemma {:induction false} KeepDense(m: Model, dense: seq<Dense>)
    ensures KeptDense(m, dense) <= DensePieces(dense)
    ensures KeptDense(m, dense) == DensePieces(dense) <==> NoneDropped(m, dense)
  {
    hide NoneDropped, Dropped, One;
    if dense == [] {
      NoneOfNone(m);
    } else {
      var n := |dense| - 1;
      KeepDense(m, dense[..n]);
      NoneDroppedSnoc(m, dense);
      var d := dense[n];
      NoPiece(d.size, d.srcs);
      var lost := if Dropped(m, d) then One(d.size, d.srcs) else multiset{};
      Sizes(KeptDense(m, dense[..n]), DensePieces(dense[..n]), KeptDense(m, dense), One(d.size, d.srcs), lost);
    }
  }

  lemma NoneOfNone(m: Model)
    ensures NoneDropped(m, []) && NoneSkipped(m, [])
  {
  }

  /** Two steps that each lose something or nothing lose nothing together iff neither does. */
  lemma Sizes(kept: multiset<Piece>, all: multiset<Piece>, kept': multiset<Piece>, more: multiset<Piece>,
              lost: multiset<Piece>)
    requires kept <= all && kept' + lost == kept + more && lost <= more
    ensures kept' <= all + more
    ensures kept' == all + more <==> kept == all && lost == multiset{}
  {
    assert |kept' + lost| == |kept + more|;
    assert all == kept + (all - kept);
    forall x: Piece ensures kept'[x] + lost[x] == kept[x] + more[x] {
      assert (kept' + lost)[x] == (kept + more)[x];
    }
    if kept' == all + more {
      assert |all + more| == |kept| + |all - kept| + |more|;
      assert |all - kept| == 0 == |lost|;
    }
  }

  lemma {:induction false} NoParts(b: Branch, n: nat)
    requires n <= |b.srcs|
    ensures Parts(b, n) == multiset{} <==> n == 0 || b.perExpert == 0
  {
    if n > 0 { NoParts(b, n - 1); }
  }

  ghost predicate NoneSkipped(m: Model, branches: seq<Branch>) {
    forall b :: b in branches && b.perExpert > 0 && |b.srcs| > 0 ==> !Skipped(m, b)
  }

  lemma NoneSkippedSnoc(m: Model, branches: seq<Branch>)
    requires branches != []
    ensures var n := |branches| - 1;
            var b := branches[n];
            NoneSkipped(m, branches) <==>
                NoneSkipped(m, branches[..n]) && (b.perExpert > 0 && |b.srcs| > 0 ==> !Skipped(m, b))
  {
    assert branches == branches[..|branches| - 1] + [branches[|branches| - 1]];
  }

  lemma {:induction false} KeepParts(m: Model, branches: seq<Branch>)
    ensures KeptParts(m, branches) <= ExpertPieces(branches)
    ensures KeptParts(m, branches) == ExpertPieces(branches) <==> NoneSkipped(m, branches)
  {
    hide NoneSkipped, Skipped, Parts;
    if branches == [] {
      NoneOfNone(m);
    } else {
      var n := |branches| - 1;
      KeepParts(m, branches[..n]);
      NoneSkippedSnoc(m, branches);
      var b := branches[n];
      NoParts(b, |b.srcs|);
      var lost := if Skipped(m, b) then Parts(b, |b.srcs|) else multiset{};
      Sizes(KeptParts(m, branches[..n]), ExpertPieces(branches[..n]), KeptParts(m, branches), Parts(b, |b.srcs|), lost);
    }
  }

  /** What is kept does not depend on the order of the tensors. */
  lemma {:induction false} KeptPermuted(m: Model, a: seq<Dense>, b: seq<Dense>)
    requires multiset(a) == multiset(b)
    ensures KeptDense(m, a) == KeptDense(m, b)
    decreases |a|
  {
    assert |a| == |multiset(a)| == |multiset(b)| == |b|;
    if a != [] {
      var n := |a| - 1;
      assert a == a[..n] + [a[n]];
      assert a[n] in multiset(b);
      var j :| 0 <= j < |b| && b[j] == a[n];
      var rest := b[..j] + b[j + 1..];
      assert b == b[..j] + [b[j]] + b[j + 1..];
      assert multiset(a) == multiset(a[..n]) + multiset{a[n]} && multiset(b) == multiset(rest) + multiset{a[n]};
      assert multiset(a[..n]) == multiset(a) - multiset{a[n]} == multiset(rest);
      KeptPermuted(m, a[..n], rest);
      KeptSplit(m, b[..j], b[j], b[j + 1..]);
      KeptConcat(m, a[..n], [a[n]]);
    }
  }

  lemma {:induction false} KeptConcat(m: Model, xs: seq<Dense>, ys: seq<Dense>)
    ensures KeptDense(m, xs + ys) == KeptDense(m, xs) + KeptDense(m, ys)
  {
    hide Dropped, One;
    if ys == [] {
      assert xs + ys == xs;
    } else {
      var n := |ys| - 1;
      assert (xs + ys)[..|xs| + n] == xs + ys[..n];
      KeptConcat(m, xs, ys[..n]);
    }
  }

  lemma KeptSplit(m: Model, xs: seq<Dense>, d: Dense, ys: seq<Dense>)
    ensures KeptDense(m, xs + [d] + ys) == KeptDense(m, xs + ys) + KeptDense(m, [d])
  {
    KeptConcat(m, xs + [d], ys);
    KeptConcat(m, xs, [d]);
    KeptConcat(m, xs, ys);
  }

  // ---- sections ------------------------------------------------------------------------------

  /** What the first j sections carry of the first n tensors. */
  ghost function SecsCarried(items: seq<Dense>, secs: seq<Sec>, j: nat, n: nat): multiset<Piece>
    requires j <= |secs| && n <= |items|
  {
    if j == 0 then multiset{} else SecsCarried(items, secs, j - 1, n) + Carried(SectionContent(items, secs[j - 1], n))
  }

  ghost predicate InSome(d: Dense, secs: seq<Sec>, j: nat)
    requires j <= |secs|
  {
    exists i :: 0 <= i < j && InSection(d, secs[i].cat, secs[i].layer)
  }

  lemma CarriedSnoc(content: seq<W.Item>, it: W.Item)
    ensures Carried(content + [it]) == Carried(content) + One(it.len, it.srcs)
  {
    assert (content + [it])[..|content|] == content;
  }

  /** Keys tell sections apart, so a tensor is in at most one. */
  lemma OneSection(m: Model, p: Plan, d: Dense, i: nat, j: nat)
    requires PlanOk(m, p) && i < j < |p.sections| && InSection(d, p.sections[i].cat, p.sections[i].layer)
    ensures !InSection(d, p.sections[j].cat, p.sections[j].layer)
  {
    SecsDiffer(m, p, i, j);
    hide PlanOk, Stretch, Off, AlignUp, Aligned;
  }

  lemma SectionCarriesNext(items: seq<Dense>, s: Sec, n: nat)
    requires n < |items|
    ensures Carried(SectionContent(items, s, n + 1)) ==
              Carried(SectionContent(items, s, n))
              + if InSection(items[n], s.cat, s.layer) then One(items[n].size, items[n].srcs) else multiset{}
  {
    hide InSection, Off, AlignUp, Aligned, Carried;
    if InSection(items[n], s.cat, s.layer) {
      CarriedSnoc(SectionContent(items, s, n), W.Item(Rel(Off(items, n), s.start), items[n].size, items[n].srcs));
    }
  }

  /** The next tensor adds its piece to the one section it is in. */
  lemma {:induction false} SecsCarryNext(m: Model, p: Plan, j: nat, n: nat)
    requires PlanOk(m, p) && j <= |p.sections| && n < |p.items|
    ensures SecsCarried(p.items, p.sections, j, n + 1) ==
              SecsCarried(p.items, p.sections, j, n)
              + if InSome(p.items[n], p.sections, j) then One(p.items[n].size, p.items[n].srcs) else multiset{}
  {
    hide PlanOk, Off, AlignUp, Aligned, InSection, Carried, SectionContent, One;
    if j > 0 {
      SecsCarryNext(m, p, j - 1, n);
      var s, d := p.sections[j - 1], p.items[n];
      SectionCarriesNext(p.items, s, n);
      if InSection(d, s.cat, s.layer) {
        forall i | 0 <= i < j - 1 ensures !InSection(d, p.sections[i].cat, p.sections[i].layer) {
          if InSection(d, p.sections[i].cat, p.sections[i].layer) { OneSection(m, p, d, i, j - 1); }
        }
      }
    }
  }

  lemma InSomeUnlessDropped(m: Model, p: Plan, n: nat)
    requires PlanOk(m, p) && n < |p.items|
    ensures InSome(p.items[n], p.sections, |p.sections|) <==> !Dropped(m, p.items[n])
  {
    if !Dropped(m, p.items[n]) {
      var u := SectionOf(m, p, n);
    } else {
      PlanParts(m, p);
      hide PlanOk, Off, AlignUp, Aligned, Stretch;
      forall i | 0 <= i < |p.sections| ensures !InSection(p.items[n], p.sections[i].cat, p.sections[i].layer) {
        assert SecOk(m, p.items, p.sections[i]);
      }
    }
  }

  lemma {:induction false} NothingCarried(items: seq<Dense>, secs: seq<Sec>, j: nat)
    requires j <= |secs|
    ensures SecsCarried(items, secs, j, 0) == multiset{}
  {
    if j > 0 { NothingCarried(items, secs, j - 1); }
  }

  /** The sections together carry every tensor that is in some section, once. */
  lemma {:induction false} SecsCarry(m: Model, p: Plan, n: nat)
    requires PlanOk(m, p) && n <= |p.items|
    ensures SecsCarried(p.items, p.sections, |p.sections|, n) == KeptDense(m, p.items[..n])
  {
    hide PlanOk, Off, AlignUp, Aligned, InSome, Dropped, SecsCarried;
    if n == 0 {
      NothingCarried(p.items, p.sections, |p.sections|);
    } else {
      SecsCarry(m, p, n - 1);
      SecsCarryNext(m, p, |p.sections|, n - 1);
      InSomeUnlessDropped(m, p, n - 1);
      assert p.items[..n][..n - 1] == p.items[..n - 1];
    }
  }

  // ---- expert blocks -----------------------------------------------------------------------------

  /** What a block carries of the first n expert tensors. */
  ghost function BlockPart(m: Model, b: Block, n: nat): multiset<Piece>
    requires n <= |m.branches| && forall i :: 0 <= i < n ==> b.expert < |m.branches[i].srcs|
  {
    if n == 0 then multiset{}
    else
      var br := m.branches[n - 1];
      BlockPart(m, b, n - 1) + if br.layer == b.layer then One(br.perExpert, br.srcs[b.expert]) else multiset{}
  }

  ghost function PartsOf(bs: seq<Branch>, e: nat): multiset<Piece>
    requires forall i :: 0 <= i < |bs| ==> e < |bs[i].srcs|
  {
    if bs == [] then multiset{}
    else PartsOf(bs[..|bs| - 1], e) + One(bs[|bs| - 1].perExpert, bs[|bs| - 1].srcs[e])
  }

  lemma CarriedNothing()
    ensures Carried([]) == multiset{}
  {
  }

  lemma {:induction false} BlockContentCarries(bs: seq<Branch>, e: nat, n: nat)
    requires n <= |bs| && forall i :: 0 <= i < |bs| ==> e < |bs[i].srcs|
    ensures Carried(BlockContent(bs, e, n)) == PartsOf(bs[..n], e)
  {
    hide BranchOff, AlignUp, Aligned, One, Carried;
    if n == 0 {
      CarriedNothing();
    } else {
      BlockContentCarries(bs, e, n - 1);
      CarriedSnoc(BlockContent(bs, e, n - 1), W.Item(BranchOff(bs, n - 1), bs[n - 1].perExpert, bs[n - 1].srcs[e]));
      assert bs[..n][..n - 1] == bs[..n - 1];
    }
  }

  lemma {:induction false} LayerPartsOf(m: Model, b: Block, n: nat)
    requires n <= |m.branches| && forall i :: 0 <= i < n ==> b.expert < |m.branches[i].srcs|
    ensures forall i :: 0 <= i < |Branches(m, b.layer, n)| ==> b.expert < |Branches(m, b.layer, n)[i].srcs|
    ensures PartsOf(Branches(m, b.layer, n), b.expert) == BlockPart(m, b, n)
  {
    hide PartsOf, One;
    if n > 0 {
      LayerPartsOf(m, b, n - 1);
      var bs := Branches(m, b.layer, n - 1);
      PartsSnoc(bs, m.branches[n - 1], b.expert);
      assert bs + [] == bs;
    } else {
      assert PartsOf([], b.expert) == multiset{} by { NoPartsOf(b.expert); }
    }
  }

  lemma PartsSnoc(bs: seq<Branch>, br: Branch, e: nat)
    requires (forall i :: 0 <= i < |bs| ==> e < |bs[i].srcs|) && e < |br.srcs|
    ensures PartsOf(bs + [br], e) == PartsOf(bs, e) + One(br.perExpert, br.srcs[e])
  {
    assert (bs + [br])[..|bs|] == bs;
  }

  lemma NoPartsOf(e: nat)
    ensures PartsOf([], e) == multiset{}
  {
  }

  /** What the first k blocks carry of the first n expert tensors. */
  ghost function BlocksCarried(m: Model, blocks: seq<Block>, k: nat, n: nat): multiset<Piece>
    requires k <= |blocks| && n <= |m.branches| && AllExperts(m, blocks)
  {
    if k == 0 then multiset{} else BlocksCarried(m, blocks, k - 1, n) + BlockPart(m, blocks[k - 1], n)
  }

  /** Every expert tensor has segments for the expert of every block. */
  ghost predicate AllExperts(m: Model, blocks: seq<Block>) {
    forall k, i :: 0 <= k < |blocks| && 0 <= i < |m.branches| ==> blocks[k].expert < |m.branches[i].srcs|
  }

  /** The pieces of expert tensor br in the first k blocks. */
  ghost function InBlocks(blocks: seq<Block>, br: Branch, k: nat): multiset<Piece>
    requires k <= |blocks| && forall i :: 0 <= i < |blocks| ==> blocks[i].expert < |br.srcs|
  {
    if k == 0 then multiset{}
    else
      var b := blocks[k - 1];
      InBlocks(blocks, br, k - 1) + if br.layer == b.layer then One(br.perExpert, br.srcs[b.expert]) else multiset{}
  }

  lemma {:induction false} BlocksCarryNext(m: Model, blocks: seq<Block>, k: nat, n: nat)
    requires k <= |blocks| && n < |m.branches| && AllExperts(m, blocks)
    ensures BlocksCarried(m, blocks, k, n + 1) == BlocksCarried(m, blocks, k, n) + InBlocks(blocks, m.branches[n], k)
  {
    if k > 0 { BlocksCarryNext(m, blocks, k - 1, n); }
  }

  lemma {:induction false} NoneInBlocks(blocks: seq<Block>, br: Branch, k: nat)
    requires k <= |blocks| && (forall i :: 0 <= i < |blocks| ==> blocks[i].expert < |br.srcs|)
    requires forall i :: 0 <= i < |blocks| ==> br.layer != blocks[i].layer
    ensures InBlocks(blocks, br, k) == multiset{}
  {
    if k > 0 { NoneInBlocks(blocks, br, k - 1); }
  }

  ghost predicate BlockAmong(blocks: seq<Block>, k: nat, l: nat, e: nat)
    requires k <= |blocks|
  {
    exists i :: 0 <= i < k && blocks[i].layer == l && blocks[i].expert == e
  }

  /** Blocks come in the order of the experts, so the first k of them have a layer's
      experts up to some number, each once. */
  lemma {:induction false} InBlocksUpTo(m: Model, blocks: seq<Block>, start: nat, end: nat, br: Branch, l: nat, k: nat)
    returns (e: nat)
    requires BlocksFollow(m, blocks, start, end) && k <= |blocks| && br.layer == l < m.nLayer && |br.srcs| == m.nExpert
    requires forall x: nat :: x < m.nExpert ==> HasBlock(blocks, l, x)
    ensures forall i :: 0 <= i < |blocks| ==> blocks[i].expert < |br.srcs|
    ensures e <= m.nExpert && InBlocks(blocks, br, k) == Parts(br, e)
    ensures forall x: nat :: x < m.nExpert ==> (BlockAmong(blocks, k, l, x) <==> x < e)
  {
    hide BlocksFollow, HasBlock, BlockAmong, Parts, One;
    FollowExperts(m, blocks, start, end);
    if k == 0 {
      e := 0;
      NoneAmong(blocks, br, l);
    } else {
      e := InBlocksUpTo(m, blocks, start, end, br, l, k - 1);
      var b := blocks[k - 1];
      if b.layer == l {
        NextExpert(m, blocks, start, end, l, k - 1, e);
        assert Parts(br, e + 1) == Parts(br, e) + One(br.perExpert, br.srcs[e]) by { PartsNext(br, e); }
        AmongNext(blocks, k, l, e);
        e := e + 1;
      } else {
        OtherAmong(blocks, k, l);
      }
    }
  }

  lemma FollowExperts(m: Model, blocks: seq<Block>, start: nat, end: nat)
    requires BlocksFollow(m, blocks, start, end)
    ensures forall i :: 0 <= i < |blocks| ==> blocks[i].expert < m.nExpert && blocks[i].layer < m.nLayer
  {
    hide BlockSize;
  }

  lemma NoneAmong(blocks: seq<Block>, br: Branch, l: nat)
    ensures Parts(br, 0) == multiset{} && forall x: nat :: !BlockAmong(blocks, 0, l, x)
  {
  }

  lemma OtherAmong(blocks: seq<Block>, k: nat, l: nat)
    requires 0 < k <= |blocks| && blocks[k - 1].layer != l
    ensures forall x: nat :: BlockAmong(blocks, k, l, x) <==> BlockAmong(blocks, k - 1, l, x)
  {
    forall x: nat ensures BlockAmong(blocks, k, l, x) <==> BlockAmong(blocks, k - 1, l, x) {
      if BlockAmong(blocks, k, l, x) {
        var i :| 0 <= i < k && blocks[i].layer == l && blocks[i].expert == x;
        assert i != k - 1;
      }
    }
  }

  lemma PartsNext(br: Branch, e: nat)
    requires e < |br.srcs|
    ensures Parts(br, e + 1) == Parts(br, e) + One(br.perExpert, br.srcs[e])
  {
  }

  lemma AmongNext(blocks: seq<Block>, k: nat, l: nat, e: nat)
    requires 0 < k <= |blocks| && blocks[k - 1].layer == l && blocks[k - 1].expert == e
    ensures forall x: nat :: BlockAmong(blocks, k, l, x) <==> x == e || BlockAmong(blocks, k - 1, l, x)
  {
    forall x: nat ensures BlockAmong(blocks, k, l, x) <==> x == e || BlockAmong(blocks, k - 1, l, x) {
      if x == e {
        assert blocks[k - 1].layer == l && blocks[k - 1].expert == e;
      } else if BlockAmong(blocks, k, l, x) {
        var i :| 0 <= i < k && blocks[i].layer == l && blocks[i].expert == x;
        assert i != k - 1;
      }
    }
  }

  lemma AllAmong(blocks: seq<Block>, l: nat, e: nat)
    requires HasBlock(blocks, l, e)
    ensures BlockAmong(blocks, |blocks|, l, e)
  {
  }

  /** The next block of a layer is the next expert's. */
  lemma NextExpert(m: Model, blocks: seq<Block>, start: nat, end: nat, l: nat, k: nat, e: nat)
    requires BlocksFollow(m, blocks, start, end) && k < |blocks| && blocks[k].layer == l && e <= m.nExpert
    requires forall x: nat :: x < m.nExpert ==> HasBlock(blocks, l, x) && (BlockAmong(blocks, k, l, x) <==> x < e)
    ensures blocks[k].expert == e < m.nExpert
  {
    hide BlockSize;
    if e > 0 {
      assert BlockAmong(blocks, k, l, e - 1);
      var i :| 0 <= i < k && blocks[i].layer == l && blocks[i].expert == e - 1;
    }
    assert e <= blocks[k].expert < m.nExpert;
    assert HasBlock(blocks, l, e) && !BlockAmong(blocks, k, l, e);
    var i :| 0 <= i < |blocks| && blocks[i].layer == l && blocks[i].expert == e;
  }

  /** The blocks carry an expert tensor's pieces once each, if the model has its layer. */
  lemma InAllBlocks(m: Model, blocks: seq<Block>, start: nat, end: nat, br: Branch)
    requires BlocksFollow(m, blocks, start, end) && |br.srcs| == m.nExpert
    requires forall l: nat, e: nat :: l < m.nLayer && e < m.nExpert ==> HasBlock(blocks, l, e)
    ensures forall i :: 0 <= i < |blocks| ==> blocks[i].expert < |br.srcs|
    ensures InBlocks(blocks, br, |blocks|) == if Skipped(m, br) then multiset{} else Parts(br, |br.srcs|)
  {
    hide BlockSize, Parts;
    if Skipped(m, br) {
      NoneInBlocks(blocks, br, |blocks|);
    } else {
      var e := InBlocksUpTo(m, blocks, start, end, br, br.layer, |blocks|);
      if e < m.nExpert {
        AllAmong(blocks, br.layer, e);
        assert false;
      }
    }
  }

  lemma {:induction false} NoBranches(m: Model, blocks: seq<Block>, k: nat)
    requires k <= |blocks| && AllExperts(m, blocks)
    ensures BlocksCarried(m, blocks, k, 0) == multiset{}
  {
    if k > 0 { NoBranches(m, blocks, k - 1); }
  }

  lemma {:induction false} BlocksCarry(m: Model, blocks: seq<Block>, start: nat, end: nat, n: nat)
    requires BlocksFollow(m, blocks, start, end) && n <= |m.branches| && AllExperts(m, blocks)
    requires forall i :: 0 <= i < |m.branches| ==> |m.branches[i].srcs| == m.nExpert
    requires forall l: nat, e: nat :: l < m.nLayer && e < m.nExpert ==> HasBlock(blocks, l, e)
    ensures BlocksCarried(m, blocks, |blocks|, n) == KeptParts(m, m.branches[..n])
  {
    hide BlocksFollow, BlocksCarried, InBlocks, HasBlock, Parts;
    if n == 0 {
      NoBranches(m, blocks, |blocks|);
    } else {
      BlocksCarry(m, blocks, start, end, n - 1);
      BlocksCarryNext(m, blocks, |blocks|, n - 1);
      InAllBlocks(m, blocks, start, end, m.branches[n - 1]);
      assert m.branches[..n][..n - 1] == m.branches[..n - 1];
    }
  }

  // ---- all units ---------------------------------------------------------------------------------------

  lemma BlockExperts(m: Model, p: Plan)
    requires PlanOk(m, p) && ValidSrcs(m)
    ensures AllExperts(m, p.blocks)
  {
    hide PlanOk, BlocksFollow;
    PlanParts(m, p);
  }

  lemma {:induction false} SectionUnitsCarry(m: Model, p: Plan, units: seq<W.Unit>, u: nat)
    requires PlanOk(m, p) && ValidSrcs(m) && UnitsOk(m, p, units) && u <= |p.sections|
    ensures u <= |units| && CarriedBy(units, u) == SecsCarried(p.items, p.sections, u, |p.items|)
  {
    hide PlanOk, ValidSrcs, UnitIs, SecOk, SectionContent, Carried;
    if u > 0 {
      SectionUnitsCarry(m, p, units, u - 1);
      SecAt(m, p, units, u - 1);
    }
  }

  lemma BlockContentAt(m: Model, p: Plan, units: seq<W.Unit>, u: nat)
    requires PlanOk(m, p) && ValidSrcs(m) && UnitsOk(m, p, units) && |p.sections| <= u < |units|
    ensures u - |p.sections| < |p.blocks|
    ensures var b := p.blocks[u - |p.sections|];
            var bs := LayerBranches(m, b.layer);
            (forall i :: 0 <= i < |bs| ==> b.expert < |bs[i].srcs|) &&
                units[u].content == BlockContent(bs, b.expert, |bs|)
  {
    hide PlanOk, ValidSrcs, Branches, BlockContent;
    PlanParts(m, p);
    BranchSrcs(m, p.blocks[u - |p.sections|].layer);
    assert UnitIs(m, p, units[u], u);
  }

  lemma BlockCarries(m: Model, p: Plan, units: seq<W.Unit>, u: nat)
    requires PlanOk(m, p) && ValidSrcs(m) && UnitsOk(m, p, units) && |p.sections| <= u < |units|
    ensures AllExperts(m, p.blocks)
    ensures Carried(units[u].content) == BlockPart(m, p.blocks[u - |p.sections|], |m.branches|)
  {
    BlockExperts(m, p);
    BlockContentAt(m, p, units, u);
    hide PlanOk, ValidSrcs, UnitsOk, BlockContent, PartsOf, Branches, BlockPart, Carried;
    var b := p.blocks[u - |p.sections|];
    var bs := LayerBranches(m, b.layer);
    LayerPartsOf(m, b, |m.branches|);
    BlockContentCarries(bs, b.expert, |bs|);
    assert bs[..|bs|] == bs;
  }

  lemma {:induction false} BlockUnitsCarry(m: Model, p: Plan, units: seq<W.Unit>, k: nat)
    requires PlanOk(m, p) && ValidSrcs(m) && UnitsOk(m, p, units) && k <= |p.blocks|
    ensures AllExperts(m, p.blocks) && |p.sections| + k <= |units|
    ensures CarriedBy(units, |p.sections| + k) ==
              CarriedBy(units, |p.sections|) + BlocksCarried(m, p.blocks, k, |m.branches|)
  {
    hide PlanOk, ValidSrcs, UnitsOk, Carried, BlockPart, AllExperts;
    BlockExperts(m, p);
    UnitCount(m, p, units);
    if k > 0 {
      BlockUnitsCarry(m, p, units, k - 1);
      BlockCarries(m, p, units, |p.sections| + k - 1);
    }
  }

  lemma UnitCount(m: Model, p: Plan, units: seq<W.Unit>)
    requires PlanOk(m, p) && ValidSrcs(m) && UnitsOk(m, p, units)
    ensures |units| == |p.sections| + |p.blocks|
  {
    hide PlanOk, ValidSrcs, UnitIs;
  }

  lemma BranchExperts(m: Model)
    requires ValidSrcs(m)
    ensures forall i :: 0 <= i < |m.branches| ==> |m.branches[i].srcs| == m.nExpert
  {
  }

  /** The units carry, once each, the tensors that have their place and nothing else. */
  lemma UnitsCarry(m: Model, p: Plan, units: seq<W.Unit>)
    requires PlanOk(m, p) && ValidSrcs(m) && UnitsOk(m, p, units)
    ensures CarriedBy(units, |units|) == KeptDense(m, m.dense) + KeptParts(m, m.branches)
  {
    hide PlanOk, ValidSrcs, UnitsOk, BlocksFollow, CarriedBy, SecsCarried, BlocksCarried, KeptDense, KeptParts,
        AllExperts, HasBlock;
    UnitCount(m, p, units);
    BranchExperts(m);
    SectionUnitsCarry(m, p, units, |p.sections|);
    BlockUnitsCarry(m, p, units, |p.blocks|);
    SecsCarry(m, p, |p.items|);
    assert p.items[..|p.items|] == p.items && m.branches[..|m.branches|] == m.branches;
    PlanParts(m, p);
    AllBlocksThere(m, p);
    KeptPermuted(m, p.items, m.dense);
    BlocksCarry(m, p.blocks, p.blocksStart, p.end, |m.branches|);
  }

  lemma AllBlocksThere(m: Model, p: Plan)
    requires PlanOk(m, p)
    ensures multiset(p.items) == multiset(m.dense)
    ensures forall l: nat, e: nat :: l < m.nLayer && e < m.nExpert ==> HasBlock(p.blocks, l, e)
  {
    hide InFileOrder, SectionsOk, BlocksFollow, Off;
  }

  /** Conservation: over all units every tensor's bytes and every expert's bytes of every
      expert tensor occur exactly as often as in the model, exactly when every layered tensor
      and every expert tensor with bytes names a layer of the model. */
  lemma EveryPieceOnceIffNothingLost(m: Model, p: Plan, units: seq<W.Unit>)
    requires PlanOk(m, p) && ValidSrcs(m) && UnitsOk(m, p, units)
    ensures CarriedBy(units, |units|) == DensePieces(m.dense) + ExpertPieces(m.branches) <==> NothingLost(m)
  {
    UnitsCarry(m, p, units);
    KeepDense(m, m.dense);
    KeepParts(m, m.branches);
    hide PlanOk, ValidSrcs, UnitsOk, KeptDense, KeptParts, DensePieces, ExpertPieces, CarriedBy, Dropped, Skipped;
    BothKept(KeptDense(m, m.dense), DensePieces(m.dense), KeptParts(m, m.branches), ExpertPieces(m.branches));
  }

  lemma BothKept(a: multiset<Piece>, a': multiset<Piece>, b: multiset<Piece>, b': multiset<Piece>)
    requires a <= a' && b <= b'
    ensures a + b == a' + b' <==> a == a' && b == b'
  {
    assert a' == a + (a' - a) && b' == b + (b' - b);
    if a + b == a' + b' {
      assert |a + b| == |a| + |b| && |a' + b'| == |a| + |a' - a| + |b| + |b' - b|;
      assert |a' - a| == 0 == |b' - b|;
    }
  }

  // ---- what is carried is read ---------------------------------------------------------------------------

  /** Items in order, one after the other. */
  ghost predicate Stacked(content: seq<W.Item>) {
    forall i, j :: 0 <= i < j < |content| ==> content[i].logOff + content[i].len <= content[j].logOff
  }

  /** In stacked content every item supplies its own bytes at its place. */
  lemma {:induction false} StackedReads(content: seq<W.Item>, c: nat, r: nat)
    requires Stacked(content) && c < |content| && r < content[c].len
    ensures W.SourceAt(content, content[c].logOff + r) == W.SegAt(content[c].srcs, r)
  {
    var n := |content| - 1;
    if c < n {
      StackedReads(content[..n], c, r);
    } else {
      SourceMisses(content[..n], content[c].logOff + r);
    }
  }

  ghost predicate EndsBy(content: seq<W.Item>, end: int) {
    forall i :: 0 <= i < |content| ==> content[i].logOff + content[i].len <= end
  }

  lemma StackOne(content: seq<W.Item>, it: W.Item, end: int)
    requires Stacked(content) && EndsBy(content, it.logOff) && it.logOff + it.len <= end
    ensures Stacked(content + [it]) && EndsBy(content + [it], end)
  {
  }

  lemma {:induction false} SectionStacked(m: Model, items: seq<Dense>, s: Sec, n: nat)
    requires SecOk(m, items, s) && n <= |items|
    ensures Stacked(SectionContent(items, s, n)) && EndsBy(SectionContent(items, s, n), Off(items, n) - s.start)
  {
    hide Off, AlignUp, Aligned, SecOk, InSection;
    if n > 0 {
      SectionStacked(m, items, s, n - 1);
      OffMonotone(items, n - 1, n);
      if InSection(items[n - 1], s.cat, s.layer) {
        SectionStarts(m, items, s, n - 1);
        StackOne(SectionContent(items, s, n - 1),
            W.Item(Rel(Off(items, n - 1), s.start), items[n - 1].size, items[n - 1].srcs),
                 Off(items, n) - s.start);
      }
    }
  }

  lemma {:induction false} BlockStacked(bs: seq<Branch>, e: nat, n: nat)
    requires n <= |bs| && forall i :: 0 <= i < |bs| ==> e < |bs[i].srcs|
    ensures Stacked(BlockContent(bs, e, n)) && EndsBy(BlockContent(bs, e, n), BranchOff(bs, n))
  {
    hide BranchOff, AlignUp, Aligned;
    if n > 0 {
      BlockStacked(bs, e, n - 1);
      BranchOffMonotone(bs, n - 1, n);
      StackOne(BlockContent(bs, e, n - 1), W.Item(BranchOff(bs, n - 1), bs[n - 1].perExpert, bs[n - 1].srcs[e]),
          BranchOff(bs, n));
    }
  }

  /** The section's tensors end where the section does. */
  lemma SectionEnds(m: Model, items: seq<Dense>, s: Sec)
    requires SecOk(m, items, s)
    ensures SectionContent(items, s, |items|) == SectionContent(items, s, s.last + 1)
  {
    hide Off, AlignUp, Aligned;
    AfterLast(items, s, s.last + 1, |items|);
  }

  lemma {:induction false} AfterLast(items: seq<Dense>, s: Sec, a: nat, n: nat)
    requires a <= n <= |items| && forall i :: a <= i < n ==> !InSection(items[i], s.cat, s.layer)
    ensures SectionContent(items, s, n) == SectionContent(items, s, a)
  {
    hide InSection, Off;
    if a < n { AfterLast(items, s, a, n - 1); }
  }

  /** Every byte of every piece a unit carries is read at the piece's place in the unit. */
  lemma CarriedIsRead(m: Model, p: Plan, units: seq<W.Unit>, u: nat, c: nat, r: nat)
    requires PlanOk(m, p) && ValidSrcs(m) && UnitsOk(m, p, units) && u < |units|
    requires c < |units[u].content| && r < units[u].content[c].len
    ensures units[u].content[c].logOff + r < units[u].size
    ensures W.SourceAt(units[u].content, units[u].content[c].logOff + r) == W.SegAt(units[u].content[c].srcs, r)
  {
    hide PlanOk, ValidSrcs, UnitsOk, Stacked;
    UnitStacked(m, p, units, u);
    StackedReads(units[u].content, c, r);
  }

  lemma UnitStacked(m: Model, p: Plan, units: seq<W.Unit>, u: nat)
    requires PlanOk(m, p) && ValidSrcs(m) && UnitsOk(m, p, units) && u < |units|
    ensures Stacked(units[u].content) && EndsBy(units[u].content, units[u].size)
  {
    hide PlanOk, ValidSrcs, SecOk, SectionContent, BlockContent, Stacked, EndsBy, Branches, Off, AlignUp, Aligned,
        BranchOff;
    if u < |p.sections| {
      SecAt(m, p, units, u);
      var s := p.sections[u];
      SectionEnds(m, p.items, s);
      SectionBounds(m, p.items, s);
      SectionStacked(m, p.items, s, s.last + 1);
    } else {
      BlockAt(m, p, units, u);
      var b := p.blocks[u - |p.sections|];
      BranchSrcs(m, b.layer);
      assert UnitIs(m, p, units[u], u);
      BlockStacked(LayerBranches(m, b.layer), b.expert, |LayerBranches(m, b.layer)|);
    }
  }

  lemma SectionBounds(m: Model, items: seq<Dense>, s: Sec)
    requires SecOk(m, items, s)
    ensures s.last < |items| && s.start + s.size == Off(items, s.last + 1)
  {
  }

  // ---- what is lost ---------------------------------------------------------------------------------------------

  lemma {:induction false} PlacedStacked(items: seq<Dense>, n: nat)
    requires n <= |items|
    ensures Stacked(PlacedDense(items, n)) && EndsBy(PlacedDense(items, n), Off(items, n)) &&
              |PlacedDense(items, n)| == n
    ensures forall k :: 0 <= k < n ==> PlacedDense(items, n)[k] == W.Item(Off(items, k), items[k].size, items[k].srcs)
  {
    hide Off, AlignUp, Aligned;
    if n > 0 {
      PlacedStacked(items, n - 1);
      OffMonotone(items, n - 1, n);
      StackOne(PlacedDense(items, n - 1), W.Item(Off(items, n - 1), items[n - 1].size, items[n - 1].srcs),
          Off(items, n));
    }
  }

  /** The bytes of a dropped dense tensor: the single file has them, no unit does. */
  lemma DroppedIsInSingleFileOnly(m: Model, p: Plan, units: seq<W.Unit>, k: nat, r: nat)
    requires PlanOk(m, p) && ValidSrcs(m) && UnitsOk(m, p, units)
    requires k < |p.items| && Dropped(m, p.items[k]) && r < p.items[k].size
    ensures Off(p.items, k) + r < p.end && !Held(units, Off(p.items, k) + r)
    ensures W.SourceAt(PlacedDense(p.items, |p.items|), Off(p.items, k) + r) == W.SegAt(p.items[k].srcs, r)
  {
    hide PlanOk, ValidSrcs, UnitsOk, Stacked, EndsBy, Off, AlignUp, Aligned, Dropped, PlacedDense;
    NobodyHolds(m, p, units, k, Off(p.items, k) + r);
    PlacedStacked(p.items, |p.items|);
    StackedReads(PlacedDense(p.items, |p.items|), k, r);
  }

  /** A model of one layer with a dense tensor of layer 1. */
  const STRAY_TENSOR :=
      Model([Dense(Global, 0, 1, [W.Seg(0, 0, 1, 0)]), Dense(PerLayer, 1, 1, [W.Seg(0, 1, 1, 0)])], [], 1, 0)

  /** Its second tensor lies at byte 4096 of the data area: the single file has its byte,
      and the chunk files do not. */
  lemma StrayTensor(p: Plan, units: seq<W.Unit>)
    requires PlanOk(STRAY_TENSOR, p) && ValidSrcs(STRAY_TENSOR) && UnitsOk(STRAY_TENSOR, p, units)
    ensures ValidSrcs(STRAY_TENSOR) && p.items == STRAY_TENSOR.dense && Off(p.items, 1) == 4096 < p.end
    ensures !Held(units, 4096) && W.SourceAt(PlacedDense(p.items, 2), 4096) == Some(W.Loc(0, 1))
  {
    OnlyOrder(p);
    DroppedIsInSingleFileOnly(STRAY_TENSOR, p, units, 1, 0);
  }

  lemma OnlyOrder(p: Plan)
    requires PlanOk(STRAY_TENSOR, p)
    ensures p.items == STRAY_TENSOR.dense
  {
    hide Off, SectionsOk, BlocksFollow;
    var a, b := STRAY_TENSOR.dense[0], STRAY_TENSOR.dense[1];
    assert |p.items| == |multiset(p.items)| == |multiset(STRAY_TENSOR.dense)| == 2;
    assert p.items == [p.items[0], p.items[1]];
    assert multiset(p.items) == multiset{a, b};
    assert multiset{p.items[0], p.items[1]}[a] == 1 && multiset{p.items[0], p.items[1]}[b] == 1;
    assert Sooner(a, b) && !Sooner(p.items[1], p.items[0]);
  }

  /** A model of one layer with an expert tensor of layer 1. */
  const STRAY_EXPERT := Model([Dense(Global, 0, 1, [W.Seg(0, 0, 1, 0)])], [Branch(1, 1, [[W.Seg(0, 1, 1, 0)]])], 1, 1)

  /** Its units tile the data area, yet no unit carries the expert's byte. */
  lemma StrayExpert(p: Plan, units: seq<W.Unit>)
    requires PlanOk(STRAY_EXPERT, p) && ValidSrcs(STRAY_EXPERT) && UnitsOk(STRAY_EXPERT, p, units)
    ensures Tiled(units, p.end) && CarriedBy(units, |units|) == multiset{Piece(1, [W.Seg(0, 0, 1, 0)])}
    ensures ExpertPieces(STRAY_EXPERT.branches) == multiset{Piece(1, [W.Seg(0, 1, 1, 0)])}
  {
    hide PlanOk, ValidSrcs, UnitsOk, Tiled;
    UnitsTileIffNoneDropped(STRAY_EXPERT, p, units);
    UnitsCarry(STRAY_EXPERT, p, units);
    var d, b := STRAY_EXPERT.dense[0], STRAY_EXPERT.branches[0];
    assert KeptDense(STRAY_EXPERT, []) == multiset{} && KeptDense(STRAY_EXPERT, [d]) == One(d.size, d.srcs);
    assert KeptParts(STRAY_EXPERT, []) == multiset{} && KeptParts(STRAY_EXPERT, [b]) == multiset{};
    assert Parts(b, 1) == One(1, b.srcs[0]) && ExpertPieces([b]) == Parts(b, 1);
  }
}
