/** Greedy decomposition of a set of token ids into arithmetic runs, and the
    column order that goes with it. */
module ScatterPlan {
  import opened Basics

  /** acc column dst + i * delta receives tight column src + i, for i < len. */
  datatype Seg = Seg(src: nat, dst: nat, len: nat, delta: nat)

  // ---- runs --------------------------------------------------------------------

  ghost predicate IsRun(s: set<nat>, dst: nat, delta: nat, len: nat) {
    delta >= 1 && len >= 1 && forall i: nat :: i < len ==> dst + i * delta in s
  }

  /** Longer first, then smaller delta, then smaller start. */
  predicate Better(dst: nat, delta: nat, len: nat, dst': nat, delta': nat, len': nat) {
    || len > len'
    || (len == len' && delta < delta')
    || (len == len' && delta == delta' && dst < dst')
  }

  /** A run of s that no other run of s beats. */
  ghost predicate IsBest(s: set<nat>, dst: nat, delta: nat, len: nat) {
    && IsRun(s, dst, delta, len)
    && forall dst': nat, delta': nat, len': nat ::
         IsRun(s, dst', delta', len') ==> !Better(dst', delta', len', dst, delta, len)
  }

  /** Members of s at v, v + d, v + 2d, ... up to the first absent one. */
  ghost function RunLen(s: set<nat>, nT: nat, v: nat, d: nat): nat
    requires d >= 1
    decreases nT - v
  {
    if v < nT && v in s then 1 + RunLen(s, nT, v + d, d) else 0
  }

  ghost predicate Below(s: set<nat>, nT: nat) {
    forall v :: v in s ==> v < nT
  }

  lemma {:induction false} RunLenIsRun(s: set<nat>, nT: nat, v: nat, d: nat)
    requires d >= 1
    ensures forall i: nat :: i < RunLen(s, nT, v, d) ==> v + i * d in s
    decreases nT - v
  {
    if v < nT && v in s {
      RunLenIsRun(s, nT, v + d, d);
      forall i: nat | i < RunLen(s, nT, v, d) ensures v + i * d in s {
        if i > 0 {
          assert (v + d) + (i - 1) * d == v + i * d;
        }
      }
    }
  }

  lemma {:induction false} RunFits(s: set<nat>, nT: nat, v: nat, d: nat, len: nat)
    requires d >= 1 && Below(s, nT) && forall i: nat :: i < len ==> v + i * d in s
    ensures len <= RunLen(s, nT, v, d)
    decreases len
  {
    if len > 0 {
      assert v + 0 * d in s;
      forall i: nat | i < len - 1 ensures (v + d) + i * d in s {
        assert v + (i + 1) * d in s;
      }
      RunFits(s, nT, v + d, d, len - 1);
    }
  }

  /** Every member lies on a chain whose start is no later and whose run no shorter. */
  lemma {:induction false} ChainStart(s: set<nat>, nT: nat, v: nat, d: nat) returns (w: nat)
    requires d >= 1 && Below(s, nT) && v in s
    ensures w in s && w <= v && (w >= d ==> w - d !in s)
    ensures RunLen(s, nT, w, d) >= RunLen(s, nT, v, d) && (w < v ==> RunLen(s, nT, w, d) > RunLen(s, nT, v, d))
    decreases v
  {
    w := v;
    if v >= d && v - d in s {
      w := ChainStart(s, nT, v - d, d);
    }
  }

  /** A run with step d spans at most range / d + 1 members. */
  lemma RunLenBound(s: set<nat>, nT: nat, v: nat, d: nat, lo: nat, hi: nat)
    requires d >= 1 && v in s && lo <= hi && forall x :: x in s ==> lo <= x <= hi
    ensures RunLen(s, nT, v, d) <= (hi - lo) / d + 1
  {
    var len := RunLen(s, nT, v, d);
    if len > 0 {
      RunLenIsRun(s, nT, v, d);
      assert v + (len - 1) * d in s;
      DivBound(len - 1, d, hi - lo);
    }
  }

  lemma DivBound(q: nat, d: nat, r: nat)
    requires d >= 1 && q * d <= r
    ensures q <= r / d
  {
    if q > r / d {
      MulMono(r / d + 1, q, d);
    }
  }

  lemma DivShrinks(r: nat, d: nat, e: nat)
    requires 1 <= d <= e
    ensures r / e <= r / d
  {
    assert (r / e) * d <= (r / e) * e <= r;
    DivBound(r / e, d, r);
  }

  // ---- best_run -----------------------------------------------------------------

  ghost predicate Ascending(xs: seq<nat>) {
    forall i, j :: 0 <= i < j < |xs| ==> xs[i] < xs[j]
  }

  /** rem lists the members of s in ascending order. */
  ghost predicate Lists(rem: seq<nat>, s: set<nat>) {
    Ascending(rem) && forall v :: v in rem <==> v in s
  }

  /** inSet marks exactly the members of s. */
  ghost predicate Marks(inSet: seq<bool>, s: set<nat>) {
    forall v: nat :: v in s <==> v < |inSet| && inSet[v]
  }

  /** Length of the chain at v: the inner walk. */
  method Walk(inSet: seq<bool>, ghost s: set<nat>, v: nat, d: nat) returns (len: nat)
    requires d >= 1 && Marks(inSet, s)
    ensures len == RunLen(s, |inSet|, v, d)
  {
    len := 0;
    var u := v;
    while u < |inSet| && inSet[u]
      invariant len + RunLen(s, |inSet|, u, d) == RunLen(s, |inSet|, v, d)
      decreases |inSet| - u
    {
      len := len + 1;
      u := u + d;
    }
  }

  /** best for step d: the longest chain, the smallest start among equals. */
  ghost predicate BestForStep(s: set<nat>, nT: nat, d: nat, start: nat, len: nat)
    requires d >= 1
  {
    && start in s && len == RunLen(s, nT, start, d)
    && forall v :: v in s ==> RunLen(s, nT, v, d) <= len && (RunLen(s, nT, v, d) == len ==> start <= v)
  }

  /** One step of the delta sweep; chain starts alone decide. */
  method BestOfStep(inSet: seq<bool>, rem: seq<nat>, ghost s: set<nat>, d: nat) returns (start: nat, len: nat)
    requires d >= 1 && Marks(inSet, s) && Lists(rem, s) && rem != []
    ensures BestForStep(s, |inSet|, d, start, len) && len >= 1 && start in s && len == RunLen(s, |inSet|, start, d)
  {
    start, len := 0, 0;
    ghost var nT := |inSet|;
    for n := 0 to |rem|
      invariant len > 0 ==> start in s && len == RunLen(s, nT, start, d)
      invariant forall j :: 0 <= j < n && IsStart(s, rem[j], d) ==>
                  len > 0 && RunLen(s, nT, rem[j], d) <= len && (RunLen(s, nT, rem[j], d) == len ==> start <= rem[j])
      invariant len > 0 ==> exists j :: 0 <= j < n && rem[j] == start
    {
      var v := rem[n];
      assert v in rem;
      if v >= d && inSet[v - d] {
        assert !IsStart(s, v, d);
      } else {
        var l := Walk(inSet, s, v, d);
        if l > len {
          len, start := l, v;
        }
      }
    }
    forall v | v in s
      ensures len > 0 && RunLen(s, nT, v, d) <= len && (RunLen(s, nT, v, d) == len ==> start <= v)
    {
      var w := ChainStart(s, nT, v, d);
      assert IsStart(s, w, d);
      var j :| 0 <= j < |rem| && rem[j] == w;
    }
    assert rem[0] in s;
  }

  ghost predicate IsStart(s: set<nat>, v: nat, d: nat) {
    v in s && (v >= d ==> v - d !in s)
  }

  /** No run with a step in [1, limit) beats (start, delta, len). */
  ghost predicate BestBelow(s: set<nat>, nT: nat, limit: nat, start: nat, delta: nat, len: nat) {
    forall d: nat, v: nat :: 1 <= d < limit && v in s ==> !Better(v, d, RunLen(s, nT, v, d), start, delta, len)
  }

  lemma BestOverall(s: set<nat>, nT: nat, limit: nat, start: nat, delta: nat, len: nat)
    requires Below(s, nT) && delta >= 1 && len == RunLen(s, nT, start, delta) && len >= 1 && delta < limit
    requires BestBelow(s, nT, limit, start, delta, len)
    requires forall d: nat, v: nat :: d >= limit && v in s ==> RunLen(s, nT, v, d) <= len
    ensures IsBest(s, start, delta, len)
  {
    RunLenIsRun(s, nT, start, delta);
    forall dst': nat, delta': nat, len': nat | IsRun(s, dst', delta', len')
      ensures !Better(dst', delta', len', start, delta, len)
    {
      RunFits(s, nT, dst', delta', len');
      assert dst' + 0 * delta' in s;
      if delta' < limit {
        assert !Better(dst', delta', RunLen(s, nT, dst', delta'), start, delta, len);
      }
    }
  }

  /** Steps of at least d give runs of at most range / d + 1. */
  lemma StepRange(s: set<nat>, nT: nat, d: nat, lo: nat, hi: nat)
    requires d >= 1 && lo <= hi && forall x :: x in s ==> lo <= x <= hi
    ensures forall e: nat, v: nat :: e >= d && v in s ==> RunLen(s, nT, v, e) <= (hi - lo) / d + 1
  {
    forall e: nat, v: nat | e >= d && v in s ensures RunLen(s, nT, v, e) <= (hi - lo) / d + 1 {
      RunLenBound(s, nT, v, e, lo, hi);
      DivShrinks(hi - lo, d, e);
    }
  }

  ghost function From(s: set<nat>, v: nat): set<nat> {
    set x | x in s && x >= v
  }

  /** A run has no more members than s. */
  lemma {:induction false} RunInside(s: set<nat>, nT: nat, v: nat, d: nat)
    requires d >= 1
    ensures RunLen(s, nT, v, d) <= |From(s, v)|
    decreases nT - v
  {
    if v < nT && v in s {
      RunInside(s, nT, v + d, d);
      assert From(s, v + d) + {v} <= From(s, v);
      SubsetSize(From(s, v + d) + {v}, From(s, v));
    }
  }

  lemma {:induction false} ListSize(rem: seq<nat>, s: set<nat>)
    requires Lists(rem, s)
    ensures |s| == |rem|
  {
    if rem == [] {
      assert s == {};
    } else {
      var v := rem[|rem| - 1];
      var rest := rem[..|rem| - 1];
      assert v in s && rem == rest + [v];
      ListSize(rest, s - {v});
    }
  }

  /** No run is longer than the whole set. */
  lemma WholeSet(s: set<nat>, nT: nat, rem: seq<nat>)
    requires Lists(rem, s)
    ensures forall e: nat, v: nat :: e >= 1 ==> RunLen(s, nT, v, e) <= |rem|
  {
    ListSize(rem, s);
    forall e: nat, v: nat | e >= 1 ensures RunLen(s, nT, v, e) <= |rem| {
      RunInside(s, nT, v, e);
      SubsetSize(From(s, v), s);
    }
  }

  /** The step's best against the best so far, as the sweep decides. */
  lemma StepKeepsBest(s: set<nat>, nT: nat, d: nat, start: nat, delta: nat, len: nat, dStart: nat, dLen: nat)
    requires d >= 1 && BestForStep(s, nT, d, dStart, dLen) && BestBelow(s, nT, d, start, delta, len)
    requires 1 <= delta <= d && (delta == d ==> start == dStart || len < dLen)
    ensures dLen > len ==> BestBelow(s, nT, d + 1, dStart, d, dLen)
    ensures dLen <= len ==> BestBelow(s, nT, d + 1, start, delta, len)
  {
  }

  lemma Ends(inSet: seq<bool>, rem: seq<nat>, s: set<nat>)
    requires Marks(inSet, s) && Lists(rem, s) && |rem| >= 2
    ensures rem[0] in s && rem[|rem| - 1] in s && rem[0] < rem[|rem| - 1]
    ensures forall v :: v in s ==> rem[0] <= v <= rem[|rem| - 1]
    ensures Below(s, |inSet|)
  {
    assert rem[0] in rem && rem[|rem| - 1] in rem;
  }

  lemma NoStepsYet(s: set<nat>, nT: nat, start: nat)
    ensures BestBelow(s, nT, 1, start, 1, 1)
  {
  }

  /** If step 1 finds nothing longer than 1, its best is the smallest member. */
  lemma FirstStep(s: set<nat>, nT: nat, lo: nat, dStart: nat, dLen: nat)
    requires Below(s, nT) && lo in s && (forall v :: v in s ==> lo <= v) && BestForStep(s, nT, 1, dStart, dLen) &&
               dLen >= 1
    ensures dLen == 1 ==> dStart == lo
  {
    assert RunLen(s, nT, lo, 1) >= 1;
  }

  /** best_run: the longest arithmetic run, then the smallest delta, then the
      smallest start, despite both cut-offs. */
  method BestRun(inSet: seq<bool>, rem: seq<nat>, ghost s: set<nat>) returns (delta: nat, start: nat, len: nat)
    requires Marks(inSet, s) && Lists(rem, s) && |rem| >= 2
    ensures IsBest(s, start, delta, len) && len >= 2
  {
    hide IsBest, RunLen, BestBelow, BestForStep, Lists, Marks;
    ghost var nT := |inSet|;
    var minv, maxv, m := rem[0], rem[|rem| - 1], |rem|;
    Ends(inSet, rem, s);
    NoStepsYet(s, nT, minv);
    len, delta, start := 1, 1, minv;
    var range := maxv - minv;
    var d := 1;
    while d <= range
      invariant 1 <= d <= range + 1 && 1 <= delta <= d && start in s && len >= 1
      invariant d == 1 ==> len == 1 && delta == 1 && start == minv
      invariant d > 1 ==> delta < d && len == RunLen(s, nT, start, delta)
      invariant BestBelow(s, nT, d, start, delta, len)
    {
      if range / d + 1 <= len { break; }
      var dStart, dLen := BestOfStep(inSet, rem, s, d);
      if d == 1 { FirstStep(s, nT, minv, dStart, dLen); }
      StepKeepsBest(s, nT, d, start, delta, len, dStart, dLen);
      if dLen > len || (dLen == len && (d < delta || (d == delta && dStart < start))) {
        len, delta, start := dLen, d, dStart;
      }
      d := d + 1;
      if len == m { break; }
    }
    SweepDone(inSet, rem, s, d, start, delta, len);
  }

  /** Both cut-offs leave only runs that are no longer. */
  lemma SweepDone(inSet: seq<bool>, rem: seq<nat>, s: set<nat>, d: nat, start: nat, delta: nat, len: nat)
    requires Marks(inSet, s) && Lists(rem, s) && |rem| >= 2 && 1 <= delta < d &&
               BestBelow(s, |inSet|, d, start, delta, len)
    requires len == RunLen(s, |inSet|, start, delta) >= 1 && start in s
    requires len == |rem| || (rem[0] <= rem[|rem| - 1] && (rem[|rem| - 1] - rem[0]) / d + 1 <= len)
    ensures IsBest(s, start, delta, len) && len >= 2
  {
    hide IsBest, RunLen, BestBelow, Lists, Marks;
    var nT := |inSet|;
    Ends(inSet, rem, s);
    StepRange(s, nT, d, rem[0], rem[|rem| - 1]);
    WholeSet(s, nT, rem);
    BestOverall(s, nT, d, start, delta, len);
    TwoMembers(s, rem[0], rem[|rem| - 1], start, delta, len);
  }

  lemma TwoMembers(s: set<nat>, lo: nat, hi: nat, dst: nat, delta: nat, len: nat)
    requires lo in s && hi in s && lo < hi && IsBest(s, dst, delta, len)
    ensures len >= 2
  {
    var d := hi - lo;
    assert lo + 0 * d == lo && lo + 1 * d == hi;
    assert IsRun(s, lo, d, 2);
  }

  // ---- build_scatter_plan -----------------------------------------------------------

  /** Token ids in range and distinct. */
  ghost predicate ValidIds(t: seq<nat>, nT: nat) {
    && (forall i :: 0 <= i < |t| ==> t[i] < nT)
    && forall i, j :: 0 <= i < j < |t| ==> t[i] != t[j]
  }

  /** Ids of the columns not in `order`. */
  ghost function Left(t: seq<nat>, order: seq<nat>): set<nat> {
    set i: nat | i < |t| && i !in order :: t[i]
  }

  ghost predicate Distinct(order: seq<nat>, n: nat) {
    && (forall i :: 0 <= i < |order| ==> order[i] < n)
    && forall i, j :: 0 <= i < j < |order| ==> order[i] != order[j]
  }

  /** The i-th column of the segment carries the i-th id of its run, which is in range. */
  ghost predicate SegAt(t: seq<nat>, nT: nat, order: seq<nat>, g: Seg, i: nat)
    requires g.src + i < |order|
  {
    order[g.src + i] < |t| && t[order[g.src + i]] == g.dst + i * g.delta < nT
  }

  ghost predicate SegOk(t: seq<nat>, nT: nat, order: seq<nat>, g: Seg) {
    && g.len >= 1 && g.src + g.len <= |order|
    && forall i: nat :: i < g.len ==> SegAt(t, nT, order, g, i)
  }

  /** The segments follow each other without gaps from column 0 to column n. */
  ghost predicate Tiles(segs: seq<Seg>, n: nat) {
    && (segs != [] ==> segs[0].src == 0)
    && (forall i :: 0 < i < |segs| ==> segs[i].src == segs[i - 1].src + segs[i - 1].len)
    && n == (if segs == [] then 0 else segs[|segs| - 1].src + segs[|segs| - 1].len)
  }

  /** Every segment is the best run of the ids left when it was chosen. */
  ghost predicate Greedy(t: seq<nat>, order: seq<nat>, segs: seq<Seg>) {
    forall i :: 0 <= i < |segs| ==>
      segs[i].src <= |order| && IsBest(Left(t, order[..segs[i].src]), segs[i].dst, segs[i].delta, segs[i].len)
  }

  /** A complete plan for the ids. */
  ghost predicate IsPlan(t: seq<nat>, nT: nat, order: seq<nat>, segs: seq<Seg>) {
    && |order| == |t| && Distinct(order, |t|)
    && Tiles(segs, |t|) && (forall i :: 0 <= i < |segs| ==> SegOk(t, nT, order, segs[i]))
    && Greedy(t, order, segs)
    && 2 * |segs| <= |t| + 1
  }

  /** The marks, the index map and the order agree on what is left. */
  ghost predicate Live(t: seq<nat>, nT: nat, order: seq<nat>, inSet: seq<bool>, idxOf: seq<nat>) {
    && |inSet| == |idxOf| == nT && Distinct(order, |t|)
    && (forall v :: 0 <= v < nT && inSet[v] ==> idxOf[v] < |t| && t[idxOf[v]] == v && idxOf[v] !in order)
    && (forall k: nat :: k < |t| ==> k in order || (t[k] < nT && inSet[t[k]]))
  }

  lemma LiveMarks(t: seq<nat>, nT: nat, order: seq<nat>, inSet: seq<bool>, idxOf: seq<nat>)
    requires ValidIds(t, nT) && Live(t, nT, order, inSet, idxOf)
    ensures Marks(inSet, Left(t, order))
  {
    forall v: nat ensures v in Left(t, order) <==> v < |inSet| && inSet[v] {
      if v < |inSet| && inSet[v] { assert t[idxOf[v]] == v; }
    }
  }

  /** One id is emitted. */
  lemma EmitKeepsLive(t: seq<nat>, nT: nat, order: seq<nat>, inSet: seq<bool>, idxOf: seq<nat>, v: nat)
    requires ValidIds(t, nT) && Live(t, nT, order, inSet, idxOf) && v < nT && inSet[v]
    ensures Live(t, nT, order + [idxOf[v]], inSet[v := false], idxOf)
    ensures idxOf[v] < |t| && t[idxOf[v]] == v
  {
    var next := order + [idxOf[v]];
    forall k: nat | k < |t| ensures k in next || (t[k] < nT && inSet[v := false][t[k]]) {
      if t[k] == v {
        assert k == idxOf[v] && next[|order|] == k;
      } else if k in order {
        assert k in next;
      }
    }
  }

  ghost function Placed(order: seq<nat>): set<nat> {
    set i: nat | i < |order| :: order[i]
  }

  lemma {:induction false} OrderSize(order: seq<nat>, n: nat)
    requires Distinct(order, n)
    ensures |Placed(order)| == |order| && forall x :: x in order <==> x in Placed(order)
  {
    if order != [] {
      var rest, x := order[..|order| - 1], order[|order| - 1];
      OrderSize(rest, n);
      assert order == rest + [x];
      assert Placed(order) == Placed(rest) + {x};
    }
  }

  /** Every column is in a duplicate-free order that leaves none out. */
  lemma AllOrdered(t: seq<nat>, order: seq<nat>)
    requires Distinct(order, |t|) && forall k: nat :: k < |t| ==> k in order
    ensures |order| == |t|
  {
    OrderSize(order, |t|);
    assert Placed(order) == UpTo(|t|);
  }

  function Inserted(r: seq<nat>, x: nat, j: nat): seq<nat>
    requires j <= |r|
  {
    r[..j] + [x] + r[j..]
  }

  lemma InsertHolds(r: seq<nat>, x: nat, j: nat, v: nat)
    requires j <= |r|
    ensures v in Inserted(r, x, j) <==> v in r || v == x
  {
    assert r == r[..j] + r[j..];
  }

  lemma InsertAscending(r: seq<nat>, x: nat, j: nat)
    requires Ascending(r) && j <= |r| && x !in r
    requires (forall i :: j <= i < |r| ==> r[i] > x) && (j > 0 ==> r[j - 1] <= x)
    ensures Ascending(Inserted(r, x, j))
  {
    assert j > 0 ==> r[j - 1] in r;
  }

  /** std::sort of distinct values. */
  method Sort(xs: seq<nat>) returns (r: seq<nat>)
    requires forall i, j :: 0 <= i < j < |xs| ==> xs[i] != xs[j]
    ensures Ascending(r) && forall v :: v in r <==> v in xs
  {
    hide Inserted;
    r := [];
    for n := 0 to |xs|
      invariant Ascending(r) && forall v :: v in r <==> v in xs[..n]
    {
      var x := xs[n];
      var j := |r|;
      while j > 0 && r[j - 1] > x
        invariant 0 <= j <= |r| && forall i :: j <= i < |r| ==> r[i] > x
      {
        j := j - 1;
      }
      assert xs[..n + 1] == xs[..n] + [x];
      assert x !in xs[..n];
      InsertAscending(r, x, j);
      forall v ensures v in Inserted(r, x, j) <==> v in r || v == x {
        InsertHolds(r, x, j, v);
      }
      r := Inserted(r, x, j);
    }
    assert xs[..|xs|] == xs;
  }

  /** Validation: marks, index map and value list, or rejection. */
  method Register(t: seq<nat>, nT: nat) returns (ok: bool, inSet: seq<bool>, idxOf: seq<nat>, rem: seq<nat>)
    ensures ok <==> ValidIds(t, nT)
    ensures ok ==> Live(t, nT, [], inSet, idxOf) && rem == t
  {
    ok := true;
    var seen := seq(nT, _ => false);
    inSet := seq(nT, _ => false);
    idxOf := seq(nT, _ => 0);
    rem := [];
    for i := 0 to |t|
      invariant |seen| == |inSet| == |idxOf| == nT && rem == t[..i]
      invariant forall k :: 0 <= k < i ==> t[k] < nT && seen[t[k]]
      invariant forall k, l :: 0 <= k < l < i ==> t[k] != t[l]
      invariant forall v :: 0 <= v < nT ==> seen[v] == inSet[v] && (seen[v] ==> idxOf[v] < i && t[idxOf[v]] == v)
    {
      var v := t[i];
      if v >= nT || seen[v] {
        ok := false;
        return;
      }
      seen := seen[v := true];
      inSet := inSet[v := true];
      idxOf := idxOf[v := i];
      rem := rem + [v];
    }
  }

  /** Emits one run: its ids ascending become the next columns. */
  method Emit(t: seq<nat>, nT: nat, order0: seq<nat>, inSet0: seq<bool>, idxOf: seq<nat>, dst: nat, delta: nat,
              len: nat)
    returns (order: seq<nat>, inSet: seq<bool>)
    requires ValidIds(t, nT) && Live(t, nT, order0, inSet0, idxOf) && IsRun(Left(t, order0), dst, delta, len)
    ensures Live(t, nT, order, inSet, idxOf) && order0 <= order && |order| == |order0| + len
    ensures |inSet| == |inSet0| == nT
    ensures SegOk(t, nT, order, Seg(|order0|, dst, len, delta))
    ensures forall v :: 0 <= v < nT && inSet[v] ==> inSet0[v]
  {
    LiveMarks(t, nT, order0, inSet0, idxOf);
    RunMarked(inSet0, Left(t, order0), dst, delta, len);
    hide Live, ValidIds, IsRun, Left, Marks;
    order, inSet := order0, inSet0;
    for i := 0 to len
      invariant Live(t, nT, order, inSet, idxOf) && order0 <= order && |order| == |order0| + i &&
                  |inSet| == nT == |idxOf|
      invariant forall j: nat :: j < i ==> order[|order0| + j] < |t| && t[order[|order0| + j]] == dst + j * delta < nT
      invariant forall v :: 0 <= v < nT && inSet[v] ==> inSet0[v]
      invariant forall j: nat :: i <= j < len ==> dst + j * delta < nT && inSet[dst + j * delta]
    {
      var v := dst + i * delta;
      EmitKeepsLive(t, nT, order, inSet, idxOf, v);
      RunDistinct(dst, delta, i, len);
      order := order + [idxOf[v]];
      inSet := inSet[v := false];
    }
  }

  lemma RunMarked(inSet: seq<bool>, s: set<nat>, dst: nat, delta: nat, len: nat)
    requires Marks(inSet, s) && IsRun(s, dst, delta, len)
    ensures delta >= 1 && len >= 1 && forall j: nat :: j < len ==> dst + j * delta < |inSet| && inSet[dst + j * delta]
  {
  }

  lemma RunDistinct(dst: nat, delta: nat, i: nat, len: nat)
    requires delta >= 1
    ensures forall j: nat :: i < j < len ==> dst + j * delta != dst + i * delta
  {
    forall j: nat | i < j < len ensures dst + j * delta != dst + i * delta {
      MulMono(i + 1, j, delta);
    }
  }

  /** The ascending list of marked values in [lo, hi]. */
  method Rebuild(inSet: seq<bool>, lo: nat, hi: nat) returns (rem: seq<nat>)
    requires lo <= hi < |inSet|
    requires forall v :: 0 <= v < |inSet| && inSet[v] ==> lo <= v <= hi
    ensures Ascending(rem) && forall v: nat :: v in rem <==> v < |inSet| && inSet[v]
  {
    rem := [];
    for v := lo to hi + 1
      invariant Ascending(rem) && forall x: nat :: x in rem <==> x < v && inSet[x]
      invariant forall i :: 0 <= i < |rem| ==> rem[i] < v
    {
      if inSet[v] {
        rem := rem + [v];
      }
    }
  }

  lemma SameMembers(t: seq<nat>, nT: nat, rem: seq<nat>, inSet: seq<bool>, idxOf: seq<nat>)
    requires Ascending(rem) && forall v :: v in rem <==> v in t
    ensures Lists(rem, Left(t, []))
  {
    forall v ensures v in t <==> v in Left(t, []) {
      if v in t {
        var i: nat :| i < |t| && t[i] == v;
      }
    }
  }

  lemma RunEnds(s: set<nat>, dst: nat, delta: nat, len: nat)
    requires IsRun(s, dst, delta, len)
    ensures dst in s && delta >= 1 && (len > 1 ==> dst + delta in s)
  {
    assert dst + 0 * delta == dst && dst + 1 * delta == dst + delta;
  }

  lemma Singleton(rem: seq<nat>, s: set<nat>)
    requires Lists(rem, s) && |rem| == 1
    ensures IsBest(s, rem[0], 1, 1)
  {
    var v := rem[0];
    assert v in rem && v + 0 * 1 == v;
    assert IsRun(s, v, 1, 1);
    forall dst': nat, delta': nat, len': nat | IsRun(s, dst', delta', len')
      ensures !Better(dst', delta', len', v, 1, 1)
    {
      RunEnds(s, dst', delta', len');
    }
  }

  lemma BestIsRun(s: set<nat>, dst: nat, delta: nat, len: nat)
    requires IsBest(s, dst, delta, len)
    ensures IsRun(s, dst, delta, len) && len >= 1
  {
  }

  lemma SegKept(t: seq<nat>, nT: nat, before: seq<nat>, order: seq<nat>, seg: Seg)
    requires before <= order && SegOk(t, nT, before, seg)
    ensures SegOk(t, nT, order, seg)
  {
    forall i: nat | i < seg.len ensures SegAt(t, nT, order, seg, i) {
      assert SegAt(t, nT, before, seg, i);
    }
  }

  /** A longer order keeps the segments already planned; the new one is added. */
  lemma KeepsSegs(t: seq<nat>, nT: nat, before: seq<nat>, order: seq<nat>, segs: seq<Seg>, seg: Seg)
    requires before <= order && seg.src == |before| && seg.src + seg.len == |order|
    requires Tiles(segs, |before|) && (forall i :: 0 <= i < |segs| ==> SegOk(t, nT, before, segs[i])) &&
               Greedy(t, before, segs)
    requires SegOk(t, nT, order, seg) && IsBest(Left(t, before), seg.dst, seg.delta, seg.len)
    ensures Tiles(segs + [seg], |order|) && Greedy(t, order, segs + [seg])
    ensures forall i :: 0 <= i < |segs + [seg]| ==> SegOk(t, nT, order, (segs + [seg])[i])
  {
    hide IsBest, Left, SegOk;
    forall i | 0 <= i < |segs| ensures SegOk(t, nT, order, segs[i]) {
      SegKept(t, nT, before, order, segs[i]);
    }
    forall i | 0 <= i < |segs| ensures order[..segs[i].src] == before[..segs[i].src] {
    }
    assert order[..|before|] == before;
  }

  /** Everything still marked lies in the old range. */
  lemma RangeOf(rem: seq<nat>, s: set<nat>, inSet0: seq<bool>, inSet: seq<bool>)
    requires Lists(rem, s) && rem != [] && Marks(inSet0, s) && |inSet| == |inSet0|
    requires forall v :: 0 <= v < |inSet| && inSet[v] ==> inSet0[v]
    ensures rem[0] <= rem[|rem| - 1] < |inSet|
    ensures forall v :: 0 <= v < |inSet| && inSet[v] ==> rem[0] <= v <= rem[|rem| - 1]
  {
    assert rem[|rem| - 1] in rem;
    forall v | 0 <= v < |inSet| && inSet[v] ensures rem[0] <= v <= rem[|rem| - 1] {
      assert v in rem;
    }
  }

  lemma NotTooMany(t: seq<nat>, order: seq<nat>)
    requires Distinct(order, |t|)
    ensures |order| <= |t|
  {
    OrderSize(order, |t|);
    var all := UpTo(|t|);
    SubsetSize(Placed(order), all);
  }

  /** After its last id has been emitted nothing is left. */
  lemma AllGone(t: seq<nat>, nT: nat, before: seq<nat>, order: seq<nat>, v: nat)
    requires ValidIds(t, nT) && before <= order && SegOk(t, nT, order, Seg(|before|, v, 1, 1))
    requires forall x :: x in Left(t, before) ==> x == v
    ensures Left(t, order) == {}
  {
    var k := order[|before|];
    assert SegAt(t, nT, order, Seg(|before|, v, 1, 1), 0);
    forall i: nat | i < |t| ensures i in order {
      if i !in before {
        assert t[i] in Left(t, before);
        assert i == k;
      }
    }
  }

  /** build_scatter_plan: a complete plan, or an empty one exactly when there is
      nothing to do or an id is out of range or repeated. */
  method BuildScatterPlan(t: seq<nat>, nT: nat) returns (order: seq<nat>, segs: seq<Seg>)
    ensures if |t| == 0 || nT == 0 || !ValidIds(t, nT) then order == [] && segs == [] else IsPlan(t, nT, order, segs)
  {
    order, segs := [], [];
    if |t| == 0 || nT == 0 { return; }
    var ok, inSet, idxOf, rem := Register(t, nT);
    if !ok { return; }
    LiveMarks(t, nT, [], inSet, idxOf);
    rem := Sort(rem);
    SameMembers(t, nT, rem, inSet, idxOf);
    hide IsBest, IsRun, ValidIds, Left, SegOk, Tiles, Greedy, Lists;
    var tight := 0;
    NoSegs(t, nT);
    while rem != []
      invariant tight == |order| && Live(t, nT, order, inSet, idxOf) && Lists(rem, Left(t, order))
      invariant Tiles(segs, tight) && (forall i :: 0 <= i < |segs| ==> SegOk(t, nT, order, segs[i])) &&
                  Greedy(t, order, segs)
      invariant 2 * |segs| <= tight + if rem == [] then 1 else 0
      decreases |t| - tight
    {
      hide Live, Marks, Distinct;
      ghost var s := Left(t, order);
      LiveMarks(t, nT, order, inSet, idxOf);
      var minv, maxv, m := rem[0], rem[|rem| - 1], |rem|;
      var d, start, len := 1, minv, 1;
      if m == 1 {
        Singleton(rem, s);
      } else {
        d, start, len := BestRun(inSet, rem, s);
      }
      BestIsRun(s, start, d, len);
      var seg := Seg(tight, start, len, d);
      ghost var before, inSet0 := order, inSet;
      order, inSet := Emit(t, nT, order, inSet, idxOf, start, d, len);
      KeepsSegs(t, nT, before, order, segs, seg);
      segs := segs + [seg];
      tight := tight + len;
      RangeOf(rem, s, inSet0, inSet);
      if m == 1 {
        OneMember(rem, s);
        AllGone(t, nT, before, order, minv);
      }
      rem := Rebuild(inSet, minv, maxv);
      LiveMarks(t, nT, order, inSet, idxOf);
      ListsMarked(rem, inSet, Left(t, order));
      NotTooMany(t, order);
    }
    NoneLeft(t, order, rem);
    AllOrdered(t, order);
  }

  lemma NoSegs(t: seq<nat>, nT: nat)
    ensures Tiles([], 0) && Greedy(t, [], [])
  {
  }

  lemma OneMember(rem: seq<nat>, s: set<nat>)
    requires Lists(rem, s) && |rem| == 1
    ensures forall x :: x in s ==> x == rem[0]
  {
  }

  lemma ListsMarked(rem: seq<nat>, inSet: seq<bool>, s: set<nat>)
    requires Ascending(rem) && (forall v: nat :: v in rem <==> v < |inSet| && inSet[v]) && Marks(inSet, s)
    ensures Lists(rem, s) && (s == {} ==> rem == [])
  {
    if rem != [] { assert rem[0] in rem; }
  }

  lemma InLeft(t: seq<nat>, order: seq<nat>)
    ensures forall k: nat :: k < |t| ==> k in order || t[k] in Left(t, order)
  {
  }

  lemma NoneLeft(t: seq<nat>, order: seq<nat>, rem: seq<nat>)
    requires Lists(rem, Left(t, order)) && rem == []
    ensures forall k: nat :: k < |t| ==> k in order
  {
    InLeft(t, order);
  }

  /** A full round: every token of the layer, in ascending order. */
  ghost predicate IsFull(t: seq<nat>, nT: nat) {
    nT > 0 && |t| == nT && forall i :: 0 <= i < nT ==> t[i] == i
  }

  lemma SecondStart(segs: seq<Seg>, n: nat)
    requires Tiles(segs, n)
    ensures |segs| > 1 ==> segs[1].src == segs[0].len
  {
  }

  /** The plan of a full round is a single run that leaves every column in place. */
  lemma FullPlanIsIdentity(t: seq<nat>, nT: nat, order: seq<nat>, segs: seq<Seg>)
    requires IsFull(t, nT) && IsPlan(t, nT, order, segs)
    ensures segs == [Seg(0, 0, nT, 1)]
    ensures |order| == nT && forall i :: 0 <= i < nT ==> order[i] == i
  {
    hide IsBest, Left, Distinct;
    var g := segs[0];
    assert segs != [] && g.src == 0;
    assert order[..g.src] == [];
    FullSetBest(nT, t, g);
    assert SegOk(t, nT, order, g);
    SecondStart(segs, nT);
    assert forall i :: 0 <= i < |segs| ==> SegOk(t, nT, order, segs[i]) && segs[i].src < nT;
    forall i: nat | i < nT ensures order[i] == i {
      assert SegAt(t, nT, order, g, i);
    }
  }

  lemma FullSetBest(nT: nat, t: seq<nat>, g: Seg)
    requires IsFull(t, nT) && IsBest(Left(t, []), g.dst, g.delta, g.len)
    ensures g.len == nT && g.dst == 0 && g.delta == 1
  {
    var s := Left(t, []);
    forall v: nat ensures v in s <==> v < nT {
      if v < nT { assert t[v] == v; }
    }
    assert IsRun(s, 0, 1, nT);
    assert g.dst + (g.len - 1) * g.delta in s;
    MulMono(1, g.delta, g.len - 1);
  }

  /** The order of a plan is a permutation of the columns. */
  lemma OrderIsPermutation(t: seq<nat>, nT: nat, order: seq<nat>, segs: seq<Seg>)
    requires IsPlan(t, nT, order, segs)
    ensures forall a: nat :: a < |t| ==> a in order
  {
    OrderSize(order, |t|);
    var all := UpTo(|t|);
    assert Placed(order) <= all;
    assert |all - Placed(order)| == |all| - |Placed(order)|;
    assert all - Placed(order) == {};
    forall a: nat | a < |t| ensures a in order {
      assert a in all;
    }
  }
}
