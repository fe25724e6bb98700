/** The compact-chain bucket engine: rounds of the mix plan are gathered, computed,
    folded and scatter-added per target, and the targets are summed. Expert
    outputs are an uninterpreted integer function of column, expert and weight. */
module BucketEngine {
  import B = Basics
  import M = MixPlan
  import S = ScatterPlan

  /** One output element of a layer: activation columns, routing weights and the expert function. */
  datatype Layer<!C, !W> = Layer(act: seq<C>, wt: seq<seq<W>>, expert: (C, int, W) -> int) {

    predicate Fits(r: M.Routing) {
      |act| == r.nT && |wt| == r.nT && forall t :: 0 <= t < |wt| ==> |wt[t]| == r.nK
    }

    /** What slot k of token t contributes. */
    function Part(r: M.Routing, c: M.Cell): int
      requires r.Valid() && Fits(r) && c.t < r.nT && c.k < r.nK
    {
      expert(act[c.t], r.Id(c.t, c.k), wt[c.t][c.k])
    }
  }

  /** The unsplit mixture of token t: all slots whose expert lives in some pool. */
  function Mixture<C, W>(r: M.Routing, l: Layer<C, W>, t: nat, k: nat): int
    requires r.Valid() && l.Fits(r) && t < r.nT && k <= r.nK
  {
    if k == 0 then 0
    else Mixture(r, l, t, k - 1) + if r.PoolOf(t, k - 1) >= 0 then l.Part(r, M.Cell(t, k - 1)) else 0
  }

  // ---- fold ---------------------------------------------------------------------

  /** Sum of the first n slots of a column. */
  function SumSlots(col: seq<int>, n: nat): int
    requires n <= |col|
  {
    if n == 0 then 0 else SumSlots(col, n - 1) + col[n - 1]
  }

  ghost predicate Matrix(m: seq<seq<int>>, nt: nat, nw: nat) {
    |m| == nt && forall i :: 0 <= i < nt ==> |m[i]| == nw
  }

  /** dst := cur + slot s, column by column. */
  method AddSlot(weighted: seq<seq<int>>, nt: nat, nw: nat, s: nat, src: array<int>, dst: array<int>)
    requires Matrix(weighted, nt, nw) && 1 <= s < nw && src != dst && src.Length == dst.Length == nt
    requires s > 1 ==> forall j :: 0 <= j < nt ==> src[j] == SumSlots(weighted[j], s)
    modifies dst
    ensures forall j :: 0 <= j < nt ==> dst[j] == SumSlots(weighted[j], s + 1)
  {
    for i := 0 to nt
      invariant forall j :: 0 <= j < i ==> dst[j] == SumSlots(weighted[j], s + 1)
      invariant s > 1 ==> forall j :: 0 <= j < nt ==> src[j] == SumSlots(weighted[j], s)
    {
      assert SumSlots(weighted[i], 1) == weighted[i][0];
      dst[i] := (if s == 1 then weighted[i][0] else src[i]) + weighted[i][s];
    }
  }

  /** The large fold: two buffers in turn, one slot added at a time. */
  method FoldByAdd(weighted: seq<seq<int>>, nt: nat, nw: nat) returns (perToken: seq<int>)
    requires Matrix(weighted, nt, nw) && nw >= 2
    ensures |perToken| == nt && forall i :: 0 <= i < nt ==> perToken[i] == SumSlots(weighted[i], nw)
  {
    var accA, accB := new int[nt], new int[nt];
    var cur := accB;
    for s := 1 to nw
      invariant cur == (if s % 2 == 0 then accA else accB)
      invariant s > 1 ==> forall i :: 0 <= i < nt ==> cur[i] == SumSlots(weighted[i], s)
    {
      var dst := if s % 2 == 1 then accA else accB;
      AddSlot(weighted, nt, nw, s, cur, dst);
      cur := dst;
    }
    perToken := cur[..];
  }

  /** append_expert_fold: either way every column becomes the sum of its slots. */
  method AppendExpertFold(weighted: seq<seq<int>>, nt: nat, nw: nat, ne0: nat) returns (perToken: seq<int>)
    requires Matrix(weighted, nt, nw) && nw >= 1
    ensures |perToken| == nt && forall i :: 0 <= i < nt ==> perToken[i] == SumSlots(weighted[i], nw)
  {
    var foldBytes := nw * ne0 * nt * 4;
    if nw >= 2 && foldBytes >= 16 * 1024 * 1024 {
      perToken := FoldByAdd(weighted, nt, nw);
    } else {
      perToken := [];
      for i := 0 to nt
        invariant |perToken| == i && forall j :: 0 <= j < i ==> perToken[j] == SumSlots(weighted[j], nw)
      {
        var sum := 0;
        for s := 0 to nw
          invariant sum == SumSlots(weighted[i], s)
        {
          sum := sum + weighted[i][s];
        }
        perToken := perToken + [sum];
      }
    }
  }

  // ---- gather and compute -------------------------------------------------------------

  /** A round of a complete plan. */
  ghost predicate InPlan(r: M.Routing, ids: seq<int>, cells: seq<M.Cell>, rd: M.Round, rows: seq<nat>)
    requires r.Valid()
  {
    M.InRange(r, cells) && ids == M.IdsOf(r, cells) && M.Rectangle(r, cells, rd, rows)
  }

  /** What row a of the round sums to. */
  ghost function RowSum<C, W>(r: M.Routing, l: Layer<C, W>, cells: seq<M.Cell>, rd: M.Round, a: nat, w: nat): int
    requires r.Valid() && l.Fits(r) && M.InRange(r, cells)
    requires forall s: nat :: s < w ==> M.At(rd, a, s) < |cells|
  {
    if w == 0 then 0 else RowSum(r, l, cells, rd, a, w - 1) + l.Part(r, cells[M.At(rd, a, w - 1)])
  }

  /** rows of a round over every token are all the tokens in order. */
  lemma {:induction false} FullRows(rows: seq<nat>, n: nat)
    requires M.Ascending(rows) && |rows| == n && forall i :: 0 <= i < n ==> rows[i] < n
    ensures forall i :: 0 <= i < n ==> rows[i] == i
  {
    forall i | 0 <= i < n ensures rows[i] >= i {
      AtLeastIndex(rows, i);
    }
    forall i | 0 <= i < n ensures rows[i] <= i {
      AtMostIndex(rows, n, i);
    }
  }

  lemma {:induction false} AtLeastIndex(rows: seq<nat>, i: nat)
    requires M.Ascending(rows) && i < |rows|
    ensures rows[i] >= i
  {
    if i > 0 { AtLeastIndex(rows, i - 1); }
  }

  lemma {:induction false} AtMostIndex(rows: seq<nat>, n: nat, i: nat)
    requires M.Ascending(rows) && i < |rows| && forall j :: 0 <= j < |rows| ==> rows[j] < n
    ensures rows[i] + (|rows| - 1 - i) < n
    decreases |rows| - i
  {
    if i + 1 < |rows| { AtMostIndex(rows, n, i + 1); }
  }

  /** The slots of a row that is as wide as the layer are all slots in order. */
  lemma FullRow(r: M.Routing, cells: seq<M.Cell>, rd: M.Round, rows: seq<nat>, a: nat)
    requires r.Valid() && M.Rectangle(r, cells, rd, rows) && rd.width == r.nK && a < rd.nActive
    ensures forall s: nat :: s < r.nK ==> M.At(rd, a, s) < |cells| && cells[M.At(rd, a, s)].k == s
  {
    var ks := seq(r.nK, s requires 0 <= s < r.nK => cells[M.At(rd, a, s)].k);
    forall i, j | 0 <= i < j < r.nK ensures ks[i] < ks[j] {
    }
    FullRows(ks, r.nK);
    forall s: nat | s < r.nK ensures cells[M.At(rd, a, s)].k == s {
      assert ks[s] == s;
    }
  }

  /** The original token of every row: slot 0 of the row. */
  method RoundTokens(cells: seq<M.Cell>, rd: M.Round, ghost r: M.Routing, ghost rows: seq<nat>)
    returns (tRound: seq<nat>)
    requires r.Valid() && M.Rectangle(r, cells, rd, rows)
    ensures tRound == rows
  {
    tRound := [];
    for a := 0 to rd.nActive
      invariant tRound == rows[..a]
    {
      tRound := tRound + [cells[M.At(rd, a, 0)].t];
    }
    assert rows[..rd.nActive] == rows;
  }

  lemma RowsValid(r: M.Routing, cells: seq<M.Cell>, rd: M.Round, rows: seq<nat>)
    requires r.Valid() && M.Rectangle(r, cells, rd, rows)
    ensures S.ValidIds(rows, r.nT) && 0 < |rows| <= r.nT
    ensures rd.width <= r.nK
    ensures |rows| == r.nT ==> S.IsFull(rows, r.nT)
  {
    forall a | 0 <= a < |rows| ensures rows[a] < r.nT {
      assert M.OfRow(r, cells[M.At(rd, a, 0)], rows[a], rd.pool);
    }
    AtMostIndex(rows, r.nT, 0);
    if |rows| == r.nT { FullRows(rows, r.nT); }
    var ks := seq(rd.width, s requires 0 <= s < rd.width => cells[M.At(rd, 0, s)].k);
    AtMostIndex(ks, r.nK, 0);
  }

  /** One cell of the round in tight order: column i, slot s. */
  ghost predicate Gathered<C(!new), W(!new)>(r: M.Routing, l: Layer<C, W>, cells: seq<M.Cell>, rd: M.Round,
                             order: seq<nat>,
                                 weighted: seq<seq<int>>)
    requires r.Valid() && l.Fits(r) && M.InRange(r, cells)
  {
    && Matrix(weighted, rd.nActive, rd.width) && |order| == rd.nActive
    && forall i: nat, s: nat :: i < rd.nActive && s < rd.width ==>
         && order[i] < rd.nActive && M.At(rd, order[i], s) < |cells|
         && weighted[i][s] == l.Part(r, cells[M.At(rd, order[i], s)])
  }

  /** Gathers and computes the round: the activation of column i is that of its
      token (the identity for a round over every token), the weight of slot s is
      that of its cell (the identity for a round over every cell). */
  method ComputeRound<C(!new), W(!new)>(r: M.Routing, l: Layer<C, W>, ids: seq<int>, cells: seq<M.Cell>, rd: M.Round,
                            order: seq<nat>, tRound: seq<nat>, ghost rows: seq<nat>, ghost segs: seq<S.Seg>)
    returns (weighted: seq<seq<int>>)
    requires r.Valid() && l.Fits(r) && InPlan(r, ids, cells, rd, rows) && tRound == rows &&
               S.IsPlan(rows, r.nT, order, segs)
    ensures Gathered(r, l, cells, rd, order, weighted)
  {
    RowsValid(r, cells, rd, rows);
    var tokFull := rd.nActive == r.nT;
    var cellFull := tokFull && rd.width == r.nK;
    if tokFull { S.FullPlanIsIdentity(rows, r.nT, order, segs); }
    hide S.IsPlan, M.Routing.Id, M.Routing.PoolOf;
    OrderBound(rows, r.nT, order, segs);
    weighted := [];
    for i := 0 to rd.nActive
      invariant |weighted| == i
      invariant forall j :: 0 <= j < i ==> |weighted[j]| == rd.width
      invariant forall j: nat, s: nat :: j < i && s < rd.width ==>
                  M.At(rd, order[j], s) < |cells| && weighted[j][s] == l.Part(r, cells[M.At(rd, order[j], s)])
    {
      var a := order[i];
      var cur := if tokFull then l.act[i] else l.act[tRound[a]];
      if cellFull { FullRow(r, cells, rd, rows, a); }
      var col: seq<int> := [];
      for s := 0 to rd.width
        invariant |col| == s
        invariant forall q: nat :: q < s ==> M.At(rd, a, q) < |cells| && col[q] == l.Part(r, cells[M.At(rd, a, q)])
      {
        var c := cells[M.At(rd, a, s)];
        assert M.OfRow(r, c, rows[a], rd.pool);
        var e := ids[M.At(rd, a, s)];
        var w := if cellFull then l.wt[i][s] else l.wt[c.t][c.k];
        col := col + [l.expert(cur, e, w)];
      }
      weighted := weighted + [col];
    }
  }

  lemma OrderBound(rows: seq<nat>, nT: nat, order: seq<nat>, segs: seq<S.Seg>)
    requires S.IsPlan(rows, nT, order, segs)
    ensures |order| == |rows| && forall i :: 0 <= i < |order| ==> order[i] < |rows|
  {
  }

  lemma {:induction false} FoldIsRowSum<C, W>(r: M.Routing, l: Layer<C, W>, cells: seq<M.Cell>, rd: M.Round, a: nat,
                                              col: seq<int>, w: nat)
    requires r.Valid() && l.Fits(r) && M.InRange(r, cells) && w <= |col|
    requires forall s: nat :: s < w ==> M.At(rd, a, s) < |cells| && col[s] == l.Part(r, cells[M.At(rd, a, s)])
    ensures SumSlots(col, w) == RowSum(r, l, cells, rd, a, w)
  {
    if w > 0 { FoldIsRowSum(r, l, cells, rd, a, col, w - 1); }
  }

  // ---- sums ---------------------------------------------------------------------------

  /** What the first n cells contribute to token t. */
  ghost function SumTo<C, W>(r: M.Routing, l: Layer<C, W>, cells: seq<M.Cell>, t: nat, n: nat): int
    requires r.Valid() && l.Fits(r) && M.InRange(r, cells) && n <= |cells|
  {
    if n == 0 then 0
    else SumTo(r, l, cells, t, n - 1) + if cells[n - 1].t == t then l.Part(r, cells[n - 1]) else 0
  }

  /** What the first n rows of a round contribute to token t. */
  ghost function RowsSum<C, W>(r: M.Routing, l: Layer<C, W>, cells: seq<M.Cell>, rd: M.Round, rows: seq<nat>, t: nat,
                               n: nat): int
    requires r.Valid() && l.Fits(r) && M.InRange(r, cells) && M.Rectangle(r, cells, rd, rows) && n <= rd.nActive
  {
    if n == 0 then 0
    else RowsSum(r, l, cells, rd, rows, t, n - 1) + if rows[n - 1] == t then RowSum(r, l, cells, rd, n - 1, rd.width)
        else 0
  }

  lemma {:induction false} RowAdds<C, W>(r: M.Routing, l: Layer<C, W>, cells: seq<M.Cell>, rd: M.Round,
                                         rows: seq<nat>, t: nat, a: nat, w: nat)
    requires r.Valid() && l.Fits(r) && M.InRange(r, cells) && M.Rectangle(r, cells, rd, rows) && a < rd.nActive &&
               w <= rd.width
    ensures rd.off + a * rd.width + w <= |cells|
    ensures SumTo(r, l, cells, t, rd.off + a * rd.width + w) ==
              SumTo(r, l, cells, t, rd.off + a * rd.width) + if rows[a] == t then RowSum(r, l, cells, rd, a, w) else 0
  {
    assert M.At(rd, a, 0) < |cells|;
    if w > 0 {
      RowAdds(r, l, cells, rd, rows, t, a, w - 1);
      assert M.At(rd, a, w - 1) < |cells| && M.OfRow(r, cells[M.At(rd, a, w - 1)], rows[a], rd.pool);
    }
  }

  lemma {:induction false} RowsAdd<C, W>(r: M.Routing, l: Layer<C, W>, cells: seq<M.Cell>, rd: M.Round,
                                         rows: seq<nat>, t: nat, n: nat)
    requires r.Valid() && l.Fits(r) && M.InRange(r, cells) && M.Rectangle(r, cells, rd, rows) && n <= rd.nActive
    ensures rd.off + n * rd.width <= |cells|
    ensures SumTo(r, l, cells, t, rd.off + n * rd.width) ==
              SumTo(r, l, cells, t, rd.off) + RowsSum(r, l, cells, rd, rows, t, n)
  {
    if n == 0 {
      assert M.At(rd, 0, 0) < |cells|;
    } else {
      RowsAdd(r, l, cells, rd, rows, t, n - 1);
      RowAdds(r, l, cells, rd, rows, t, n - 1, rd.width);
      M.OneMoreRow(n - 1, rd.width);
    }
  }

  lemma {:induction false} RowsSumAt<C, W>(r: M.Routing, l: Layer<C, W>, cells: seq<M.Cell>, rd: M.Round,
                                           rows: seq<nat>, t: nat, n: nat)
    requires r.Valid() && l.Fits(r) && M.InRange(r, cells) && M.Rectangle(r, cells, rd, rows) && n <= rd.nActive
    ensures forall a: nat :: a < rd.nActive && rows[a] == t ==>
              RowsSum(r, l, cells, rd, rows, t, n) == if a < n then RowSum(r, l, cells, rd, a, rd.width) else 0
    ensures (forall a: nat :: a < rd.nActive ==> rows[a] != t) ==> RowsSum(r, l, cells, rd, rows, t, n) == 0
  {
    if n > 0 { RowsSumAt(r, l, cells, rd, rows, t, n - 1); }
  }

  /** What the first n tight columns add to token t. */
  ghost function ColSum(perToken: seq<int>, rows: seq<nat>, order: seq<nat>, t: nat, n: nat): int
    requires n <= |perToken| == |order| && forall i :: 0 <= i < |order| ==> order[i] < |rows|
  {
    if n == 0 then 0
    else ColSum(perToken, rows, order, t, n - 1) + if rows[order[n - 1]] == t then perToken[n - 1] else 0
  }

  ghost predicate Injective(rows: seq<nat>, order: seq<nat>) {
    && (forall i :: 0 <= i < |order| ==> order[i] < |rows|)
    && forall i, j :: 0 <= i < |order| && 0 <= j < |order| && i != j ==> rows[order[i]] != rows[order[j]]
  }

  lemma {:induction false} ColSumAt(perToken: seq<int>, rows: seq<nat>, order: seq<nat>, t: nat, n: nat)
    requires n <= |perToken| == |order| && Injective(rows, order)
    ensures forall i: nat :: i < |order| && rows[order[i]] == t ==>
              ColSum(perToken, rows, order, t, n) == if i < n then perToken[i] else 0
    ensures (forall i: nat :: i < |order| ==> rows[order[i]] != t) ==> ColSum(perToken, rows, order, t, n) == 0
  {
    if n > 0 { ColSumAt(perToken, rows, order, t, n - 1); }
  }

  lemma PlanInjective(rows: seq<nat>, nT: nat, order: seq<nat>, segs: seq<S.Seg>)
    requires S.ValidIds(rows, nT) && S.IsPlan(rows, nT, order, segs)
    ensures Injective(rows, order)
  {
    forall i, j | 0 <= i < |order| && 0 <= j < |order| && i != j ensures rows[order[i]] != rows[order[j]] {
      assert order[i] != order[j];
    }
  }

  /** The tight columns add to every token exactly what the round's cells contribute. */
  lemma ColumnsAreRows<C(!new), W(!new)>(r: M.Routing, l: Layer<C, W>, cells: seq<M.Cell>, rd: M.Round, rows: seq<nat>,
                             order: seq<nat>, segs: seq<S.Seg>, perToken: seq<int>, t: nat)
    requires r.Valid() && l.Fits(r) && M.InRange(r, cells) && M.Rectangle(r, cells, rd, rows) &&
               S.IsPlan(rows, r.nT, order, segs)
    requires |perToken| == |order|
    requires forall i ::
               0 <= i < |order| ==> order[i] < rd.nActive && perToken[i] == RowSum(r, l, cells, rd, order[i], rd.width)
    ensures Injective(rows, order)
    ensures ColSum(perToken, rows, order, t, |order|) == RowsSum(r, l, cells, rd, rows, t, rd.nActive)
  {
    RowsValid(r, cells, rd, rows);
    PlanInjective(rows, r.nT, order, segs);
    S.OrderIsPermutation(rows, r.nT, order, segs);
    OrderBound(rows, r.nT, order, segs);
    ColSumAt(perToken, rows, order, t, |order|);
    RowsSumAt(r, l, cells, rd, rows, t, rd.nActive);
    hide *;
    if t in rows {
      var a: nat :| a < |rows| && rows[a] == t;
      assert a in order;
      var i: nat :| i < |order| && order[i] == a;
      assert rows[order[i]] == t;
      assert perToken[i] == RowSum(r, l, cells, rd, order[i], rd.width);
    } else {
      assert forall a: nat :: a < |rows| ==> rows[a] in rows;
      assert forall i: nat :: i < |order| ==> rows[order[i]] in rows;
    }
  }

  // ---- scatter-add --------------------------------------------------------------------

  /** The ggml_acc of one segment into the accumulator row of target q. */
  method AddSegment(accs: array2<int>, q: nat, perToken: seq<int>, seg: S.Seg,
                    ghost rows: seq<nat>, ghost nT: nat, ghost order: seq<nat>)
    requires q < accs.Length0 && accs.Length1 == nT && |perToken| == |order| && S.SegOk(rows, nT, order, seg)
    requires forall i :: 0 <= i < |order| ==> order[i] < |rows|
    modifies accs
    ensures forall p, t :: 0 <= p < accs.Length0 && 0 <= t < nT ==>
              accs[p, t] == old(accs[p, t]) +
                if p != q then 0
                else ColSum(perToken, rows, order, t, seg.src + seg.len) - ColSum(perToken, rows, order, t, seg.src)
  {
    for i := 0 to seg.len
      invariant forall p, t :: 0 <= p < accs.Length0 && 0 <= t < nT ==>
                  accs[p, t] == old(accs[p, t]) +
                    if p != q then 0
                    else ColSum(perToken, rows, order, t, seg.src + i) - ColSum(perToken, rows, order, t, seg.src)
    {
      var at := seg.dst + i * seg.delta;
      assert S.SegAt(rows, nT, order, seg, i);
      accs[q, at] := accs[q, at] + perToken[seg.src + i];
    }
  }

  /** One ggml_acc per segment into the accumulator row of target q. */
  method ScatterAdd(accs: array2<int>, q: nat, perToken: seq<int>, segs: seq<S.Seg>,
                    ghost rows: seq<nat>, ghost nT: nat, ghost order: seq<nat>)
    requires q < accs.Length0 && accs.Length1 == nT && |perToken| == |order|
    requires S.ValidIds(rows, nT) && S.IsPlan(rows, nT, order, segs)
    modifies accs
    ensures forall i :: 0 <= i < |order| ==> order[i] < |rows|
    ensures forall p, t :: 0 <= p < accs.Length0 && 0 <= t < nT ==>
              accs[p, t] == old(accs[p, t]) + if p == q then ColSum(perToken, rows, order, t, |order|) else 0
  {
    OrderBound(rows, nT, order, segs);
    SegBounds(rows, nT, order, segs);
    hide S.IsPlan, S.ValidIds, S.SegOk;
    ghost var done := 0;
    for n := 0 to |segs|
      invariant done == (if n < |segs| then segs[n].src else |order|) <= |order|
      invariant forall p, t :: 0 <= p < accs.Length0 && 0 <= t < nT ==>
                  accs[p, t] == old(accs[p, t]) + if p == q then ColSum(perToken, rows, order, t, done) else 0
    {
      AddSegment(accs, q, perToken, segs[n], rows, nT, order);
      done := segs[n].src + segs[n].len;
    }
  }

  lemma SegBounds(rows: seq<nat>, nT: nat, order: seq<nat>, segs: seq<S.Seg>)
    requires S.IsPlan(rows, nT, order, segs)
    ensures forall n :: 0 <= n < |segs| ==>
              && segs[n].src + segs[n].len == (if n + 1 < |segs| then segs[n + 1].src else |order|)
              && S.SegOk(rows, nT, order, segs[n])
    ensures (if segs == [] then |order| == 0 else segs[0].src == 0)
  {
  }

  // ---- targets --------------------------------------------------------------------------

  /** Accumulator row of a pool: 0 is the CPU, i + 1 the i-th device target; a
      pool without a device target is computed on the CPU. */
  function TargetOf(targets: seq<nat>, pool: nat): (q: nat)
    ensures q <= |targets|
  {
    if targets == [] then 0
    else if targets[|targets| - 1] == pool then |targets|
    else TargetOf(targets[..|targets| - 1], pool)
  }

  /** One device target per distinct non-RAM pool that has an execution context. */
  method DeviceTargets(rounds: seq<M.Round>, devPools: set<nat>) returns (targets: seq<nat>)
    ensures forall p ::
              p in targets <==> p != 0 && p in devPools && exists i :: 0 <= i < |rounds| && rounds[i].pool == p
    ensures forall i, j :: 0 <= i < j < |targets| ==> targets[i] != targets[j]
  {
    targets := [];
    for n := 0 to |rounds|
      invariant forall p :: p in targets <==> p != 0 && p in devPools && exists i :: 0 <= i < n && rounds[i].pool == p
      invariant forall i, j :: 0 <= i < j < |targets| ==> targets[i] != targets[j]
    {
      var p := rounds[n].pool;
      if p != 0 && p !in targets && p in devPools {
        targets := targets + [p];
      }
    }
  }

  ghost predicate Complete(r: M.Routing, ids: seq<int>, cells: seq<M.Cell>, rounds: seq<M.Round>)
    requires r.Valid()
  {
    M.InRange(r, cells) && M.IsPlan(r, ids, cells, rounds)
  }

  /** Offset of round i, or the end of the cells. */
  function OffAt(rounds: seq<M.Round>, i: nat, n: nat): nat {
    if i < |rounds| then rounds[i].off else n
  }

  ghost predicate Ordered(rounds: seq<M.Round>, n: nat) {
    && OffAt(rounds, 0, n) == 0
    && forall i :: 0 <= i < |rounds| ==> M.End(rounds[i]) == OffAt(rounds, i + 1, n) && M.End(rounds[i]) <= n
  }

  lemma {:induction false} TilesOrdered(rounds: seq<M.Round>, n: nat)
    requires M.Tiles(rounds, n)
    ensures Ordered(rounds, n)
  {
    hide M.End;
    if |rounds| > 0 {
      var m := |rounds| - 1;
      var few, off := rounds[..m], rounds[m].off;
      assert M.Tiles(few, off);
      TilesOrdered(few, off);
      forall i | 0 <= i < |rounds| ensures M.End(rounds[i]) == OffAt(rounds, i + 1, n) && M.End(rounds[i]) <= n {
        if i < m {
          assert rounds[i] == few[i] && OffAt(few, i + 1, off) == OffAt(rounds, i + 1, n);
        }
      }
      assert OffAt(few, 0, off) == OffAt(rounds, 0, n);
    }
  }

  /** What the first n rounds add to token t in target q. */
  ghost function TargetSum<C, W>(r: M.Routing, l: Layer<C, W>, cells: seq<M.Cell>, rounds: seq<M.Round>,
                                 targets: seq<nat>, q: nat, t: nat, n: nat): int
    requires r.Valid() && l.Fits(r) && M.InRange(r, cells) && Ordered(rounds, |cells|) && n <= |rounds|
  {
    if n == 0 then 0
    else
      var rd := rounds[n - 1];
      TargetSum(r, l, cells, rounds, targets, q, t, n - 1) +
      if TargetOf(targets, rd.pool) == q then SumTo(r, l, cells, t, M.End(rd)) - SumTo(r, l, cells, t, rd.off) else 0
  }

  /** The first m targets together. */
  ghost function AllTargets<C, W>(r: M.Routing, l: Layer<C, W>, cells: seq<M.Cell>, rounds: seq<M.Round>,
                                  targets: seq<nat>, m: nat, t: nat, n: nat): int
    requires r.Valid() && l.Fits(r) && M.InRange(r, cells) && Ordered(rounds, |cells|) && n <= |rounds|
    decreases m
  {
    if m == 0 then 0
    else AllTargets(r, l, cells, rounds, targets, m - 1, t, n) + TargetSum(r, l, cells, rounds, targets, m - 1, t, n)
  }

  /** What round n - 1 contributes to token t. */
  ghost function RoundSum<C, W>(r: M.Routing, l: Layer<C, W>, cells: seq<M.Cell>, rounds: seq<M.Round>, t: nat,
                                n: nat): int
    requires r.Valid() && l.Fits(r) && M.InRange(r, cells) && Ordered(rounds, |cells|) && 1 <= n <= |rounds|
  {
    SumTo(r, l, cells, t, M.End(rounds[n - 1])) - SumTo(r, l, cells, t, rounds[n - 1].off)
  }

  lemma TargetStep<C, W>(r: M.Routing, l: Layer<C, W>, cells: seq<M.Cell>, rounds: seq<M.Round>, targets: seq<nat>,
                         q: nat, t: nat, n: nat)
    requires r.Valid() && l.Fits(r) && M.InRange(r, cells) && Ordered(rounds, |cells|) && 1 <= n <= |rounds|
    ensures TargetSum(r, l, cells, rounds, targets, q, t, n) == TargetSum(r, l, cells, rounds, targets, q, t, n - 1) +
              if TargetOf(targets, rounds[n - 1].pool) == q then RoundSum(r, l, cells, rounds, t, n) else 0
  {
    hide SumTo, TargetOf;
  }

  lemma {:induction false} OneRoundMore<C, W>(r: M.Routing, l: Layer<C, W>, cells: seq<M.Cell>, rounds: seq<M.Round>,
                                              targets: seq<nat>, m: nat, t: nat, n: nat)
    requires r.Valid() && l.Fits(r) && M.InRange(r, cells) && Ordered(rounds, |cells|) && 1 <= n <= |rounds|
    ensures AllTargets(r, l, cells, rounds, targets, m, t, n) == AllTargets(r, l, cells, rounds, targets, m, t, n - 1) +
              if TargetOf(targets, rounds[n - 1].pool) < m then RoundSum(r, l, cells, rounds, t, n) else 0
    decreases m
  {
    hide TargetSum, TargetOf, RoundSum, Ordered, M.InRange;
    if m > 0 {
      OneRoundMore(r, l, cells, rounds, targets, m - 1, t, n);
      TargetStep(r, l, cells, rounds, targets, m - 1, t, n);
    }
  }

  lemma OffBefore(rounds: seq<M.Round>, n: nat, i: nat)
    requires Ordered(rounds, n) && 1 <= i <= |rounds|
    ensures M.End(rounds[i - 1]) <= n
    ensures rounds[i - 1].off == if i == 1 then 0 else M.End(rounds[i - 2])
  {
    assert OffAt(rounds, i - 1, n) == rounds[i - 1].off;
    if i > 1 { assert M.End(rounds[i - 2]) == OffAt(rounds, i - 1, n); }
  }

  /** All targets together hold what all cells contribute. */
  lemma {:induction false} TargetsTogether<C, W>(r: M.Routing, l: Layer<C, W>, cells: seq<M.Cell>,
                                                 rounds: seq<M.Round>, targets: seq<nat>, t: nat, n: nat)
    requires r.Valid() && l.Fits(r) && M.InRange(r, cells) && Ordered(rounds, |cells|) && n <= |rounds|
    ensures AllTargets(r, l, cells, rounds, targets, |targets| + 1, t, n) ==
              SumTo(r, l, cells, t, if n == 0 then 0 else M.End(rounds[n - 1]))
  {
    NoRounds(r, l, cells, rounds, targets, |targets| + 1, t);
    NoCells(r, l, cells, t);
    if n > 0 { RoundSumIs(r, l, cells, rounds, t, n); }
    hide *;
    if n > 0 {
      OffBefore(rounds, |cells|, n);
      TargetsTogether(r, l, cells, rounds, targets, t, n - 1);
      OneRoundMore(r, l, cells, rounds, targets, |targets| + 1, t, n);
    }
  }

  lemma RoundSumIs<C, W>(r: M.Routing, l: Layer<C, W>, cells: seq<M.Cell>, rounds: seq<M.Round>, t: nat, n: nat)
    requires r.Valid() && l.Fits(r) && M.InRange(r, cells) && Ordered(rounds, |cells|) && 1 <= n <= |rounds|
    ensures RoundSum(r, l, cells, rounds, t, n) ==
              SumTo(r, l, cells, t, M.End(rounds[n - 1])) - SumTo(r, l, cells, t, rounds[n - 1].off)
  {
  }

  lemma NoCells<C, W>(r: M.Routing, l: Layer<C, W>, cells: seq<M.Cell>, t: nat)
    requires r.Valid() && l.Fits(r) && M.InRange(r, cells)
    ensures SumTo(r, l, cells, t, 0) == 0
  {
  }

  lemma {:induction false} NoRounds<C, W>(r: M.Routing, l: Layer<C, W>, cells: seq<M.Cell>, rounds: seq<M.Round>,
                                          targets: seq<nat>, m: nat, t: nat)
    requires r.Valid() && l.Fits(r) && M.InRange(r, cells) && Ordered(rounds, |cells|)
    ensures AllTargets(r, l, cells, rounds, targets, m, t, 0) == 0
    decreases m
  {
    hide Ordered, SumTo, M.InRange, TargetOf;
    if m > 0 { NoRounds(r, l, cells, rounds, targets, m - 1, t); }
  }

  // ---- the exact cover gives the mixture ----------------------------------------------------

  /** Contribution to token t of the first n cells in slots below k. */
  ghost function SumBelow<C, W>(r: M.Routing, l: Layer<C, W>, cells: seq<M.Cell>, t: nat, k: nat, n: nat): int
    requires r.Valid() && l.Fits(r) && M.InRange(r, cells) && n <= |cells|
  {
    if n == 0 then 0
    else SumBelow(r, l, cells, t, k, n - 1)
         + if cells[n - 1].t == t && cells[n - 1].k < k then l.Part(r, cells[n - 1]) else 0
  }

  lemma CountCell(cells: seq<M.Cell>, n: nat, c: M.Cell)
    requires 0 < n <= |cells|
    ensures multiset(cells[..n])[c] == multiset(cells[..n - 1])[c] + if cells[n - 1] == c then 1 else 0
  {
    assert cells[..n] == cells[..n - 1] + [cells[n - 1]];
  }

  lemma OneTimesMore(m: nat, x: int)
    ensures (m + 1) * x == m * x + x
  {
  }

  lemma {:induction false} OneSlotMore<C, W>(r: M.Routing, l: Layer<C, W>, cells: seq<M.Cell>, t: nat, k: nat, n: nat)
    requires r.Valid() && l.Fits(r) && M.InRange(r, cells) && n <= |cells| && t < r.nT && k < r.nK
    ensures SumBelow(r, l, cells, t, k + 1, n) ==
              SumBelow(r, l, cells, t, k, n) + multiset(cells[..n])[M.Cell(t, k)] * l.Part(r, M.Cell(t, k))
  {
    hide Layer.Part;
    if n > 0 {
      OneSlotMore(r, l, cells, t, k, n - 1);
      CountCell(cells, n, M.Cell(t, k));
      OneTimesMore(multiset(cells[..n - 1])[M.Cell(t, k)], l.Part(r, M.Cell(t, k)));
    } else {
      assert cells[..n] == [];
    }
  }

  lemma {:induction false} SlotsToMixture<C, W>(r: M.Routing, l: Layer<C, W>, cells: seq<M.Cell>, t: nat, k: nat)
    requires r.Valid() && l.Fits(r) && M.InRange(r, cells) && t < r.nT && k <= r.nK
    requires forall c: M.Cell :: multiset(cells)[c] == if M.Routed(r, c) then 1 else 0
    ensures SumBelow(r, l, cells, t, k, |cells|) == Mixture(r, l, t, k)
  {
    if k == 0 {
      NoSlots(r, l, cells, t, |cells|);
    } else {
      SlotsToMixture(r, l, cells, t, k - 1);
      OneSlotMore(r, l, cells, t, k - 1, |cells|);
      assert cells[..|cells|] == cells;
      assert multiset(cells)[M.Cell(t, k - 1)] == if r.PoolOf(t, k - 1) >= 0 then 1 else 0;
    }
  }

  lemma {:induction false} NoSlots<C, W>(r: M.Routing, l: Layer<C, W>, cells: seq<M.Cell>, t: nat, n: nat)
    requires r.Valid() && l.Fits(r) && M.InRange(r, cells) && n <= |cells|
    ensures SumBelow(r, l, cells, t, 0, n) == 0
  {
    if n > 0 { NoSlots(r, l, cells, t, n - 1); }
  }

  lemma {:induction false} AllSlots<C, W>(r: M.Routing, l: Layer<C, W>, cells: seq<M.Cell>, t: nat, n: nat)
    requires r.Valid() && l.Fits(r) && M.InRange(r, cells) && n <= |cells|
    ensures SumBelow(r, l, cells, t, r.nK, n) == SumTo(r, l, cells, t, n)
  {
    if n > 0 { AllSlots(r, l, cells, t, n - 1); }
  }

  /** Summing the cells of a complete plan gives the unsplit mixture. */
  lemma CoverIsMixture<C, W>(r: M.Routing, l: Layer<C, W>, cells: seq<M.Cell>, t: nat)
    requires r.Valid() && l.Fits(r) && M.InRange(r, cells) && t < r.nT
    requires forall c: M.Cell :: multiset(cells)[c] == if M.Routed(r, c) then 1 else 0
    ensures SumTo(r, l, cells, t, |cells|) == Mixture(r, l, t, r.nK)
  {
    AllSlots(r, l, cells, t, |cells|);
    SlotsToMixture(r, l, cells, t, r.nK);
  }

  // ---- the layer ------------------------------------------------------------------------------

  /** layer_fold: the sum over the target accumulators, the CPU's first. */
  method LayerFold(accs: array2<int>) returns (out: seq<int>)
    requires accs.Length0 >= 1
    ensures |out| == accs.Length1 && forall t :: 0 <= t < |out| ==> out[t] == SumRows(accs, t, accs.Length0)
  {
    out := seq(accs.Length1, _ => 0);
    var first := true;
    for q := 0 to accs.Length0
      invariant |out| == accs.Length1 && first == (q == 0)
      invariant q > 0 ==> forall t :: 0 <= t < |out| ==> out[t] == SumRows(accs, t, q)
    {
      var next: seq<int> := [];
      for i := 0 to accs.Length1
        invariant |next| == i && forall t :: 0 <= t < i ==> next[t] == SumRows(accs, t, q + 1)
      {
        next := next + [if first then accs[q, i] else out[i] + accs[q, i]];
      }
      out := next;
      first := false;
    }
  }

  ghost function SumRows(accs: array2<int>, t: nat, n: nat): int
    requires n <= accs.Length0 && t < accs.Length1
    reads accs
  {
    if n == 0 then 0 else SumRows(accs, t, n - 1) + accs[n - 1, t]
  }

  lemma {:induction false} RowsAreTargets<C, W>(r: M.Routing, l: Layer<C, W>, cells: seq<M.Cell>,
                                                rounds: seq<M.Round>, targets: seq<nat>, accs: array2<int>, t: nat,
                                                m: nat)
    requires r.Valid() && l.Fits(r) && M.InRange(r, cells) && Ordered(rounds, |cells|) && t < accs.Length1 &&
               m <= accs.Length0
    requires forall q :: 0 <= q < m ==> accs[q, t] == TargetSum(r, l, cells, rounds, targets, q, t, |rounds|)
    ensures SumRows(accs, t, m) == AllTargets(r, l, cells, rounds, targets, m, t, |rounds|)
    decreases m
  {
    if m > 0 { RowsAreTargets(r, l, cells, rounds, targets, accs, t, m - 1); }
  }

  /** One round up to its folded tight columns. */
  method FoldRound<C(!new), W(!new)>(r: M.Routing, l: Layer<C, W>, ne0: nat, ids: seq<int>, cells: seq<M.Cell>,
                     rd: M.Round, ghost rows: seq<nat>)
    returns (perToken: seq<int>, order: seq<nat>, segs: seq<S.Seg>)
    requires r.Valid() && l.Fits(r) && InPlan(r, ids, cells, rd, rows)
    ensures S.IsPlan(rows, r.nT, order, segs) && |perToken| == |order| == rd.nActive
    ensures forall i ::
              0 <= i < |order| ==> order[i] < rd.nActive && perToken[i] == RowSum(r, l, cells, rd, order[i], rd.width)
  {
    var tRound := RoundTokens(cells, rd, r, rows);
    RowsValid(r, cells, rd, rows);
    order, segs := S.BuildScatterPlan(tRound, r.nT);
    OrderBound(rows, r.nT, order, segs);
    var weighted := ComputeRound(r, l, ids, cells, rd, order, tRound, rows, segs);
    perToken := AppendExpertFold(weighted, rd.nActive, rd.width, ne0);
    forall i | 0 <= i < |order|
      ensures perToken[i] == RowSum(r, l, cells, rd, order[i], rd.width)
    {
      FoldIsRowSum(r, l, cells, rd, order[i], weighted[i], rd.width);
    }
  }

  /** Tokens whose whole answer a single full round gives, in place. */
  lemma DirectIsMixture<C(!new), W(!new)>(r: M.Routing, l: Layer<C, W>, ids: seq<int>, cells: seq<M.Cell>,
                          rd: M.Round, rows: seq<nat>,
                              perToken: seq<int>, order: seq<nat>, segs: seq<S.Seg>, t: nat)
    requires r.Valid() && l.Fits(r) && Complete(r, ids, cells, [rd]) && InPlan(r, ids, cells, rd, rows) &&
               rd.nActive == r.nT && t < r.nT
    requires S.IsPlan(rows, r.nT, order, segs) && |perToken| == |order| == rd.nActive
    requires forall i ::
               0 <= i < |order| ==> order[i] < rd.nActive && perToken[i] == RowSum(r, l, cells, rd, order[i], rd.width)
    ensures perToken[t] == Mixture(r, l, t, r.nK)
  {
    RowsValid(r, cells, rd, rows);
    S.FullPlanIsIdentity(rows, r.nT, order, segs);
    RowsAdd(r, l, cells, rd, rows, t, rd.nActive);
    RowsSumAt(r, l, cells, rd, rows, t, rd.nActive);
    assert rows[t] == t;
    CoverIsMixture(r, l, cells, t);
  }

  datatype Status = Success | NoWork | Failed

  /** A token's output is its unsplit mixture. */
  ghost predicate IsMixture<C(!new), W(!new)>(r: M.Routing, l: Layer<C, W>, out: seq<int>)
    requires r.Valid() && l.Fits(r)
  {
    |out| == r.nT && forall t :: 0 <= t < r.nT ==> out[t] == Mixture(r, l, t, r.nK)
  }

  /** What the layer finds on the host: the widest output row of its nodes, the device pools
      whose arena and stage can be allocated, the experts whose pin names a slot of some
      sub-pool, and whether the graph of a round can be built. */
  datatype Host = Host(dOut: int, arenas: set<nat>, pinned: set<int>, builds: bool)

  /** The cell's expert is pinned, and its pool can compute: in RAM, or on a device with an arena. */
  predicate CanCompute(r: M.Routing, devPools: set<nat>, h: Host, c: M.Cell)
    requires r.Valid() && c.t < r.nT && c.k < r.nK
  {
    var p := r.PoolOf(c.t, c.k);
    r.Id(c.t, c.k) in h.pinned && (p > 0 && p in devPools ==> p in h.arenas)
  }

  ghost predicate CanRun(r: M.Routing, devPools: set<nat>, h: Host)
    requires r.Valid()
  {
    && h.dOut > 0 && h.builds
    && (exists c: M.Cell :: M.Routed(r, c))
    && (forall c: M.Cell :: M.Routed(r, c) ==> CanCompute(r, devPools, h, c))
  }

  lemma OrderedAt(rounds: seq<M.Round>, n: nat, i: nat)
    requires Ordered(rounds, n) && i < |rounds|
    ensures rounds[i].off == OffAt(rounds, i, n) && M.End(rounds[i]) == OffAt(rounds, i + 1, n) <= n
  {
    hide M.End;
  }

  lemma OrderedEnds(rounds: seq<M.Round>, n: nat)
    requires Ordered(rounds, n)
    ensures OffAt(rounds, 0, n) == 0 && OffAt(rounds, |rounds|, n) == n
  {
    hide M.End;
  }

  lemma {:induction false} RoundAt(rounds: seq<M.Round>, n: nat, x: nat, m: nat) returns (i: nat)
    requires Ordered(rounds, n) && m <= |rounds| && x < OffAt(rounds, m, n)
    ensures i < |rounds| && rounds[i].off <= x < M.End(rounds[i])
  {
    hide Ordered, OffAt, M.End;
    OrderedEnds(rounds, n);
    OrderedAt(rounds, n, m - 1);
    if x >= rounds[m - 1].off {
      i := m - 1;
    } else {
      i := RoundAt(rounds, n, x, m - 1);
    }
  }

  lemma RowAndSlot(y: nat, w: nat, n: nat)
    requires y < n * w
    ensures w > 0 && y / w < n && y / w * w + y % w == y
  {
  }

  /** The cells of a round are of its pool, and every routed cell is in a round of its pool. */
  lemma RoundPools(r: M.Routing, ids: seq<int>, cells: seq<M.Cell>, rounds: seq<M.Round>, i: nat) returns (c: M.Cell)
    requires r.Valid() && Complete(r, ids, cells, rounds) && i < |rounds|
    ensures M.Routed(r, c) && r.PoolOf(c.t, c.k) == rounds[i].pool
  {
    assert M.IsRectangle(r, cells, rounds[i]);
    var rows :| M.Rectangle(r, cells, rounds[i], rows);
    c := cells[M.At(rounds[i], 0, 0)];
    assert M.OfRow(r, c, rows[0], rounds[i].pool);
  }

  lemma CellInRound(r: M.Routing, ids: seq<int>, cells: seq<M.Cell>, rounds: seq<M.Round>, x: nat) returns (i: nat)
    requires r.Valid() && Complete(r, ids, cells, rounds) && x < |cells|
    ensures i < |rounds| && r.PoolOf(cells[x].t, cells[x].k) == rounds[i].pool
  {
    PlanOrdered(r, ids, cells, rounds);
    OrderedEnds(rounds, |cells|);
    i := RoundAt(rounds, |cells|, x, |rounds|);
    hide Ordered;
    assert M.IsRectangle(r, cells, rounds[i]);
    var rows :| M.Rectangle(r, cells, rounds[i], rows);
    CellOfRound(r, cells, rounds[i], rows, x);
  }

  lemma CellOfRound(r: M.Routing, cells: seq<M.Cell>, rd: M.Round, rows: seq<nat>, x: nat)
    requires r.Valid() && M.InRange(r, cells) && M.Rectangle(r, cells, rd, rows) && rd.off <= x < M.End(rd) &&
               x < |cells|
    ensures r.PoolOf(cells[x].t, cells[x].k) == rd.pool
  {
    RowAndSlot(x - rd.off, rd.width, rd.nActive);
    var a, s := (x - rd.off) / rd.width, (x - rd.off) % rd.width;
    assert M.At(rd, a, s) == x;
    RowCell(r, cells, rd, rows, a, s);
  }

  lemma RowCell(r: M.Routing, cells: seq<M.Cell>, rd: M.Round, rows: seq<nat>, a: nat, s: nat)
    requires r.Valid() && M.Rectangle(r, cells, rd, rows) && a < rd.nActive && s < rd.width
    ensures M.At(rd, a, s) < |cells| && M.OfRow(r, cells[M.At(rd, a, s)], rows[a], rd.pool)
  {
  }

  /** An arena for every device target. */
  method EnsureArenas(targets: seq<nat>, h: Host) returns (ok: bool)
    ensures ok <==> forall p :: p in targets ==> p in h.arenas
  {
    for i := 0 to |targets|
      invariant forall p :: p in targets[..i] ==> p in h.arenas
    {
      if targets[i] !in h.arenas { return false; }
      assert targets[..i + 1] == targets[..i] + [targets[i]];
    }
    assert targets[..|targets|] == targets;
    ok := true;
  }

  /** The ids of every round are staged: each of its cells' experts has a pinned slot. */
  method StageIds(ids: seq<int>, rounds: seq<M.Round>, h: Host) returns (ok: bool)
    requires Ordered(rounds, |ids|)
    ensures ok <==> forall x :: 0 <= x < |ids| ==> ids[x] in h.pinned
  {
    hide OffAt, M.At, M.End, Ordered;
    var done: nat := 0;
    OrderedEnds(rounds, |ids|);
    for i := 0 to |rounds|
      invariant done == OffAt(rounds, i, |ids|) <= |ids| && forall x :: 0 <= x < done ==> ids[x] in h.pinned
    {
      OrderedAt(rounds, |ids|, i);
      var rd := rounds[i];
      RoundEnds(rd);
      for a := 0 to rd.nActive
        invariant done == M.At(rd, a, 0) <= |ids| && forall x :: 0 <= x < done ==> ids[x] in h.pinned
      {
        WithinRound(rd, a);
        for s := 0 to rd.width
          invariant done == M.At(rd, a, 0) + s <= |ids| && forall x :: 0 <= x < done ==> ids[x] in h.pinned
        {
          if ids[done] !in h.pinned { return false; }
          done := done + 1;
        }
      }
    }
    ok := true;
  }

  lemma RoundEnds(rd: M.Round)
    ensures M.At(rd, 0, 0) == rd.off && M.At(rd, rd.nActive, 0) == M.End(rd)
  {
  }

  lemma WithinRound(rd: M.Round, a: nat)
    requires a < rd.nActive
    ensures M.At(rd, a, 0) + rd.width == M.At(rd, a + 1, 0) <= M.End(rd)
  {
    var w := rd.width;
    assert (a + 1) * w == a * w + w;
    B.MulMono(a + 1, rd.nActive, w);
  }

  /** What the checks on targets and ids find is what they mean for the routed cells. */
  lemma ChecksMeanCanCompute(r: M.Routing, ids: seq<int>, cells: seq<M.Cell>, rounds: seq<M.Round>, targets: seq<nat>,
                             devPools: set<nat>, h: Host)
    requires r.Valid() && Complete(r, ids, cells, rounds)
    requires forall p ::
               p in targets <==> p != 0 && p in devPools && exists i :: 0 <= i < |rounds| && rounds[i].pool == p
    ensures (forall p :: p in targets ==> p in h.arenas) && (forall x :: 0 <= x < |ids| ==> ids[x] in h.pinned)
            <==> forall c: M.Cell :: M.Routed(r, c) ==> CanCompute(r, devPools, h, c)
  {
    if (forall p :: p in targets ==> p in h.arenas) && (forall x :: 0 <= x < |ids| ==> ids[x] in h.pinned) {
      forall c: M.Cell | M.Routed(r, c) ensures CanCompute(r, devPools, h, c) {
        assert multiset(cells)[c] == 1;
        var x: nat :| x < |cells| && cells[x] == c;
        assert ids[x] == r.Id(c.t, c.k);
        var i := CellInRound(r, ids, cells, rounds, x);
        assert rounds[i].pool == r.PoolOf(c.t, c.k);
      }
    }
    if forall c: M.Cell :: M.Routed(r, c) ==> CanCompute(r, devPools, h, c) {
      forall p | p in targets ensures p in h.arenas {
        var i: nat :| i < |rounds| && rounds[i].pool == p;
        var c := RoundPools(r, ids, cells, rounds, i);
        assert CanCompute(r, devPools, h, c);
      }
      forall x | 0 <= x < |ids| ensures ids[x] in h.pinned {
        var c := cells[x];
        assert multiset(cells)[c] > 0;
        assert CanCompute(r, devPools, h, c);
      }
    }
  }

  /** The part of the layer after the checks. */
  method RunRounds<C(!new), W(!new)>(r: M.Routing, l: Layer<C, W>, ne0: nat, ids: seq<int>, cells: seq<M.Cell>,
                     rounds: seq<M.Round>,
                                     targets: seq<nat>, outContiguous: bool) returns (out: seq<int>)
    requires r.Valid() && l.Fits(r) && Complete(r, ids, cells, rounds) && rounds != []
    requires forall i, j :: 0 <= i < j < |targets| ==> targets[i] != targets[j]
    ensures IsMixture(r, l, out)
  {
    var directOut := |rounds| == 1 && rounds[0].nActive == r.nT && rounds[0].width == r.nK && outContiguous;
    if directOut {
      ghost var rows :| M.Rectangle(r, cells, rounds[0], rows);
      var perToken, order, segs := FoldRound(r, l, ne0, ids, cells, rounds[0], rows);
      assert rounds == [rounds[0]];
      out := perToken;
      forall t | 0 <= t < r.nT ensures out[t] == Mixture(r, l, t, r.nK) {
        DirectIsMixture(r, l, ids, cells, rounds[0], rows, perToken, order, segs, t);
      }
    } else {
      out := Accumulate(r, l, ne0, ids, cells, rounds, targets);
    }
  }

  /** exec_layer_burst_chain_buckets: whatever the routing, the expert placement and the
      device targets, the layer output is the unsplit mixture; it fails exactly when there is
      nothing to compute, no output row, a device without an arena, an expert without a pinned
      slot, or a graph that cannot be built. */
  method ExecLayer<C(!new), W(!new)>(r: M.Routing, l: Layer<C, W>, ne0: nat, devPools: set<nat>, h: Host,
                     outContiguous: bool)
    returns (status: Status, out: seq<int>)
    requires r.Valid() && l.Fits(r)
    ensures status == NoWork <==> r.nT == 0 || r.nK == 0
    ensures status == Failed <==> status != NoWork && !CanRun(r, devPools, h)
    ensures status == Success ==> IsMixture(r, l, out)
  {
    out := [];
    if r.nT == 0 || r.nK == 0 { return NoWork, out; }
    var ids, cells, rounds := M.BuildMixPlan(r);
    EmptyIffUnrouted(r, ids, cells, rounds);
    if |rounds| == 0 { return Failed, out; }
    hide Complete, IsMixture, CanCompute;
    if h.dOut <= 0 { return Failed, out; }
    var targets := DeviceTargets(rounds, devPools);
    ChecksMeanCanCompute(r, ids, cells, rounds, targets, devPools, h);
    PlanOrdered(r, ids, cells, rounds);
    var arenas := EnsureArenas(targets, h);
    if !arenas { return Failed, out; }
    var staged := StageIds(ids, rounds, h);
    if !staged || !h.builds { return Failed, out; }
    out := RunRounds(r, l, ne0, ids, cells, rounds, targets, outContiguous);
    status := Success;
  }

  lemma PlanOrdered(r: M.Routing, ids: seq<int>, cells: seq<M.Cell>, rounds: seq<M.Round>)
    requires r.Valid() && Complete(r, ids, cells, rounds)
    ensures Ordered(rounds, |ids|)
  {
    TilesOrdered(rounds, |cells|);
  }

  lemma EmptyIffUnrouted(r: M.Routing, ids: seq<int>, cells: seq<M.Cell>, rounds: seq<M.Round>)
    requires r.Valid() && M.IsPlan(r, ids, cells, rounds)
    ensures Complete(r, ids, cells, rounds)
    ensures rounds == [] <==> forall c: M.Cell :: !M.Routed(r, c)
  {
    if rounds == [] {
      forall c: M.Cell ensures !M.Routed(r, c) {
        assert multiset(cells)[c] == 0;
      }
    } else {
      assert M.IsRectangle(r, cells, rounds[0]);
      var rows :| M.Rectangle(r, cells, rounds[0], rows);
      var c := cells[M.At(rounds[0], 0, 0)];
      assert M.Routed(r, c);
    }
  }

  /** The targets' accumulators after n rounds. */
  ghost predicate Summed<C(!new), W(!new)>(r: M.Routing, l: Layer<C, W>, cells: seq<M.Cell>, rounds: seq<M.Round>,
                           targets: seq<nat>, n: nat, accs: array2<int>)
    requires r.Valid() && l.Fits(r) && M.InRange(r, cells) && Ordered(rounds, |cells|) && n <= |rounds|
    reads accs
  {
    && accs.Length0 == |targets| + 1 && accs.Length1 == r.nT
    && forall q, t ::
         0 <= q <= |targets| && 0 <= t < r.nT ==> accs[q, t] == TargetSum(r, l, cells, rounds, targets, q, t, n)
  }

  lemma SummedIsMixture<C(!new), W(!new)>(r: M.Routing, l: Layer<C, W>, ids: seq<int>, cells: seq<M.Cell>,
                          rounds: seq<M.Round>, targets: seq<nat>, accs: array2<int>, out: seq<int>)
    requires r.Valid() && l.Fits(r) && Complete(r, ids, cells, rounds) && Ordered(rounds, |cells|) && rounds != []
    requires Summed(r, l, cells, rounds, targets, |rounds|, accs)
    requires |out| == r.nT && forall t :: 0 <= t < r.nT ==> out[t] == SumRows(accs, t, |targets| + 1)
    ensures IsMixture(r, l, out)
  {
    var m := |rounds|;
    assert M.End(rounds[m - 1]) == OffAt(rounds, m, |cells|) == |cells|;
    forall t | 0 <= t < r.nT ensures out[t] == Mixture(r, l, t, r.nK) {
      RowsAreTargets(r, l, cells, rounds, targets, accs, t, |targets| + 1);
      TargetsTogether(r, l, cells, rounds, targets, t, m);
      CoverIsMixture(r, l, cells, t);
    }
  }

  lemma NextTargetSum<C(!new), W(!new)>(r: M.Routing, l: Layer<C, W>, cells: seq<M.Cell>, rounds: seq<M.Round>,
                        targets: seq<nat>, q: nat, t: nat, n: nat)
    requires r.Valid() && l.Fits(r) && M.InRange(r, cells) && Ordered(rounds, |cells|) && n < |rounds|
    ensures var rd := rounds[n];
            TargetSum(r, l, cells, rounds, targets, q, t, n + 1) == TargetSum(r, l, cells, rounds, targets, q, t, n) +
              if TargetOf(targets, rd.pool) == q then SumTo(r, l, cells, t, M.End(rd)) - SumTo(r, l, cells, t, rd.off)
                  else 0
  {
  }

  /** The round loop and the exit fold. */
  method Accumulate<C(!new), W(!new)>(r: M.Routing, l: Layer<C, W>, ne0: nat, ids: seq<int>, cells: seq<M.Cell>,
                      rounds: seq<M.Round>, targets: seq<nat>)
    returns (out: seq<int>)
    requires r.Valid() && l.Fits(r) && Complete(r, ids, cells, rounds) && rounds != []
    ensures IsMixture(r, l, out)
  {
    TilesOrdered(rounds, |cells|);
    hide Ordered, M.IsPlan;
    var accs := new int[|targets| + 1, r.nT]((_, _) => 0);
    for n := 0 to |rounds|
      invariant Summed(r, l, cells, rounds, targets, n, accs)
    {
      AddRound(r, l, ne0, ids, cells, rounds, targets, n, accs);
    }
    out := LayerFold(accs);
    SummedIsMixture(r, l, ids, cells, rounds, targets, accs, out);
  }

  method AddRound<C(!new), W(!new)>(r: M.Routing, l: Layer<C, W>, ne0: nat, ids: seq<int>, cells: seq<M.Cell>,
                    rounds: seq<M.Round>,
                        targets: seq<nat>, n: nat, accs: array2<int>)
    requires r.Valid() && l.Fits(r) && Complete(r, ids, cells, rounds) && Ordered(rounds, |cells|) && n < |rounds|
    requires Summed(r, l, cells, rounds, targets, n, accs)
    modifies accs
    ensures Summed(r, l, cells, rounds, targets, n + 1, accs)
  {
    var rd := rounds[n];
    assert M.IsRectangle(r, cells, rd);
    ghost var rows :| M.Rectangle(r, cells, rd, rows);
    var perToken, order, segs := FoldRound(r, l, ne0, ids, cells, rd, rows);
    RowsValid(r, cells, rd, rows);
    var q := TargetOf(targets, rd.pool);
    RoundColumns(r, l, cells, rd, rows, order, segs, perToken);
    hide Ordered, M.IsPlan, S.IsPlan, M.Rectangle, M.IsRectangle, RowSum, ColSum, SumTo, Complete, TargetSum,
        S.ValidIds, M.End, TargetOf;
    ScatterAdd(accs, q, perToken, segs, rows, r.nT, order);
    forall p, t | 0 <= p <= |targets| && 0 <= t < r.nT
      ensures accs[p, t] == TargetSum(r, l, cells, rounds, targets, p, t, n + 1)
    {
      NextTargetSum(r, l, cells, rounds, targets, p, t, n);
    }
  }

  /** What the tight columns of a round add is what its cells contribute. */
  lemma {:induction false} RoundColumns<C(!new), W(!new)>(r: M.Routing, l: Layer<C, W>, cells: seq<M.Cell>,
                                          rd: M.Round, rows: seq<nat>,
                           order: seq<nat>, segs: seq<S.Seg>, perToken: seq<int>)
    requires r.Valid() && l.Fits(r) && M.InRange(r, cells) && M.Rectangle(r, cells, rd, rows) &&
               S.IsPlan(rows, r.nT, order, segs)
    requires |perToken| == |order|
    requires forall i ::
               0 <= i < |order| ==> order[i] < rd.nActive && perToken[i] == RowSum(r, l, cells, rd, order[i], rd.width)
    ensures Injective(rows, order) && M.End(rd) <= |cells|
    ensures forall t: nat ::
              ColSum(perToken, rows, order, t, |order|) ==
                  SumTo(r, l, cells, t, M.End(rd)) - SumTo(r, l, cells, t, rd.off)
  {
    assert |rows| == rd.nActive;
    ColumnsAreRows(r, l, cells, rd, rows, order, segs, perToken, 0);
    RowsAdd(r, l, cells, rd, rows, 0, rd.nActive);
    assert M.End(rd) == rd.off + rd.nActive * rd.width;
    hide RowSum, SumTo, M.Rectangle, M.InRange, S.IsPlan, ColSum, RowsSum, Injective, M.End, M.Routing.PoolOf, S.IsBest;
    forall t: nat
      ensures Injective(rows, order) && M.End(rd) <= |cells|
      ensures ColSum(perToken, rows, order, t, |order|) ==
                SumTo(r, l, cells, t, M.End(rd)) - SumTo(r, l, cells, t, rd.off)
    {
      ColumnsAreRows(r, l, cells, rd, rows, order, segs, perToken, t);
      RowsAdd(r, l, cells, rd, rows, t, rd.nActive);
    }
  }
}
