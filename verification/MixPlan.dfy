/** Splitting the routed cells of a layer by device pool into full rectangles. */
module MixPlan {
  import opened Basics

  /** Slot k of token t. */
  datatype Cell = Cell(t: nat, k: nat)

  /** nActive rows of width cells each, at off in the flat cell list. */
  datatype Round = Round(pool: nat, width: nat, nActive: nat, off: nat)

  /** The routing ids, row-major with k fastest, and where each expert lives. */
  datatype Routing = Routing(ids: seq<int>, nK: nat, nT: nat, expertPool: seq<int>, nPools: nat) {

    predicate Valid() {
      |ids| == nT * nK
    }

    /** Expert routed to slot k of token t. */
    function Id(t: nat, k: nat): int
      requires Valid() && t < nT && k < nK
    {
      CellIndex(t, k, nT, nK);
      ids[t * nK + k]
    }

    /** The pool that computes slot k of token t, or -1. */
    function PoolOf(t: nat, k: nat): (p: int)
      requires Valid() && t < nT && k < nK
      ensures -1 <= p < nPools
    {
      var e := Id(t, k);
      if e < 0 || e >= |expertPool| then -1
      else if expertPool[e] < 0 || expertPool[e] >= nPools then -1
      else expertPool[e]
    }

    /** Slots below k of token t that pool p computes, ascending. */
    function Ks(p: nat, t: nat, k: nat): (r: seq<nat>)
      requires Valid() && t < nT && k <= nK
      ensures |r| <= k
    {
      if k == 0 then []
      else if PoolOf(t, k - 1) == p then Ks(p, t, k - 1) + [k - 1]
      else Ks(p, t, k - 1)
    }

    function Hits(p: nat, t: nat): seq<nat>
      requires Valid() && t < nT
    {
      Ks(p, t, nK)
    }
  }

  lemma CellIndex(t: nat, k: nat, nT: nat, nK: nat)
    requires t < nT && k < nK
    ensures 0 <= t * nK + k < nT * nK
  {
    assert (t + 1) * nK <= nT * nK;
  }

  lemma {:induction false} KsMembers(r: Routing, p: nat, t: nat, k: nat)
    requires r.Valid() && t < r.nT && k <= r.nK
    ensures forall x: nat :: x in r.Ks(p, t, k) <==> x < k && r.PoolOf(t, x) == p
    ensures forall i, j :: 0 <= i < j < |r.Ks(p, t, k)| ==> r.Ks(p, t, k)[i] < r.Ks(p, t, k)[j]
  {
    if k > 0 {
      KsMembers(r, p, t, k - 1);
      var s := r.Ks(p, t, k - 1);
      assert forall i :: 0 <= i < |s| ==> s[i] in s;
    }
  }

  // ---- hits per pool --------------------------------------------------------------

  /** The ks recorded for token u. */
  function Group(ts: seq<nat>, ks: seq<nat>, u: nat): seq<nat>
    requires |ts| == |ks|
  {
    if ts == [] then []
    else
      var n := |ts| - 1;
      Group(ts[..n], ks[..n], u) + if ts[n] == u then [ks[n]] else []
  }

  lemma GroupSnoc(ts: seq<nat>, ks: seq<nat>, t: nat, k: nat)
    requires |ts| == |ks|
    ensures forall u :: Group(ts + [t], ks + [k], u) == Group(ts, ks, u) + if t == u then [k] else []
  {
    assert (ts + [t])[..|ts|] == ts && (ks + [k])[..|ks|] == ks;
  }

  /** Cells before (t, k) in row-major order have been recorded. */
  ghost predicate Recorded(r: Routing, ts: seq<seq<nat>>, ks: seq<seq<nat>>, count: seq<seq<nat>>, t: nat, k: nat)
    requires r.Valid() && k <= r.nK
  {
    && |ts| == |ks| == |count| == r.nPools
    && forall p :: 0 <= p < r.nPools ==> RecordedIn(r, p, ts[p], ks[p], count[p], t, k)
  }

  ghost predicate RecordedIn(r: Routing, p: nat, ts: seq<nat>, ks: seq<nat>, count: seq<nat>, t: nat, k: nat)
    requires r.Valid() && k <= r.nK
  {
    && |ts| == |ks| && |count| == r.nT && (forall i :: 0 <= i < |ts| ==> ts[i] < r.nT)
    && forall u :: 0 <= u < r.nT ==>
         && Group(ts, ks, u) == (if u < t then r.Hits(p, u) else if u == t then r.Ks(p, u, k) else [])
         && count[u] == |Group(ts, ks, u)|
  }

  method CollectHits(r: Routing) returns (ts: seq<seq<nat>>, ks: seq<seq<nat>>, count: seq<seq<nat>>)
    requires r.Valid()
    ensures Recorded(r, ts, ks, count, r.nT, 0)
  {
    hide RecordedIn;
    ts, ks := seq(r.nPools, _ => []), seq(r.nPools, _ => []);
    count := seq(r.nPools, _ => seq(r.nT, _ => 0));
    forall p | 0 <= p < r.nPools ensures RecordedIn(r, p, ts[p], ks[p], count[p], 0, 0) {
      NothingRecorded(r, p, count[p]);
    }
    for t := 0 to r.nT
      invariant Recorded(r, ts, ks, count, t, 0)
    {
      for k := 0 to r.nK
        invariant Recorded(r, ts, ks, count, t, k)
      {
        CellIndex(t, k, r.nT, r.nK);
        var e := r.ids[t * r.nK + k];
        forall q | 0 <= q < r.nPools && q != r.PoolOf(t, k)
          ensures RecordedIn(r, q, ts[q], ks[q], count[q], t, k + 1)
        {
          RecordOther(r, q, ts[q], ks[q], count[q], t, k);
        }
        if 0 <= e < |r.expertPool| && 0 <= r.expertPool[e] < r.nPools {
          var p := r.expertPool[e];
          RecordHit(r, p, ts[p], ks[p], count[p], t, k);
          ks := ks[p := ks[p] + [k]];
          ts := ts[p := ts[p] + [t]];
          count := count[p := count[p][t := count[p][t] + 1]];
        }
      }
      forall p | 0 <= p < r.nPools
        ensures RecordedIn(r, p, ts[p], ks[p], count[p], t + 1, 0)
      {
        RecordRow(r, p, ts[p], ks[p], count[p], t);
      }
    }
  }

  lemma NothingRecorded(r: Routing, p: nat, count: seq<nat>)
    requires r.Valid() && |count| == r.nT && forall u :: 0 <= u < r.nT ==> count[u] == 0
    ensures RecordedIn(r, p, [], [], count, 0, 0)
  {
  }

  /** A cell of another pool, or of none, changes nothing. */
  lemma RecordOther(r: Routing, q: nat, ts: seq<nat>, ks: seq<nat>, count: seq<nat>, t: nat, k: nat)
    requires r.Valid() && t < r.nT && k < r.nK && r.PoolOf(t, k) != q && RecordedIn(r, q, ts, ks, count, t, k)
    ensures RecordedIn(r, q, ts, ks, count, t, k + 1)
  {
  }

  lemma RecordRow(r: Routing, p: nat, ts: seq<nat>, ks: seq<nat>, count: seq<nat>, t: nat)
    requires r.Valid() && t < r.nT && RecordedIn(r, p, ts, ks, count, t, r.nK)
    ensures RecordedIn(r, p, ts, ks, count, t + 1, 0)
  {
  }

  lemma RecordHit(r: Routing, p: nat, ts: seq<nat>, ks: seq<nat>, count: seq<nat>, t: nat, k: nat)
    requires r.Valid() && t < r.nT && k < r.nK && r.PoolOf(t, k) == p && RecordedIn(r, p, ts, ks, count, t, k)
    ensures |ts| == |ks| && |count| == r.nT && RecordedIn(r, p, ts + [t], ks + [k], count[t := count[t] + 1], t, k + 1)
  {
    GroupSnoc(ts, ks, t, k);
  }

  /** The recorded hits of one pool as a list per token. */
  method Regroup(nT: nat, ts: seq<nat>, ks: seq<nat>) returns (ksOf: seq<seq<nat>>)
    requires |ts| == |ks| && forall i :: 0 <= i < |ts| ==> ts[i] < nT
    ensures |ksOf| == nT && forall u :: 0 <= u < nT ==> ksOf[u] == Group(ts, ks, u)
  {
    ksOf := seq(nT, _ => []);
    for i := 0 to |ts|
      invariant |ksOf| == nT && forall u :: 0 <= u < nT ==> ksOf[u] == Group(ts[..i], ks[..i], u)
    {
      GroupSnoc(ts[..i], ks[..i], ts[i], ks[i]);
      assert ts[..i + 1] == ts[..i] + [ts[i]] && ks[..i + 1] == ks[..i] + [ks[i]];
      ksOf := ksOf[ts[i] := ksOf[ts[i]] + [ks[i]]];
    }
    assert ts[..|ts|] == ts && ks[..|ks|] == ks;
  }

  // ---- bounds -----------------------------------------------------------------------

  ghost predicate Occurs(count: seq<nat>, n: nat, c: nat)
    requires n <= |count|
  {
    exists t :: 0 <= t < n && count[t] == c
  }

  /** bucket[c] tokens hit the pool exactly c times. */
  method Histogram(count: seq<nat>, nK: nat) returns (bucket: seq<nat>)
    requires forall t :: 0 <= t < |count| ==> count[t] <= nK
    ensures |bucket| == nK + 1 && forall c :: 0 <= c <= nK ==> (bucket[c] != 0 <==> Occurs(count, |count|, c))
  {
    bucket := seq(nK + 1, _ => 0);
    for t := 0 to |count|
      invariant |bucket| == nK + 1 && forall c :: 0 <= c <= nK ==> (bucket[c] != 0 <==> Occurs(count, t, c))
    {
      var c := count[t];
      assert forall d: nat :: Occurs(count, t + 1, d) <==> Occurs(count, t, d) || d == c;
      bucket := bucket[c := bucket[c] + 1];
    }
  }

  /** v is 0 followed by the nonzero counts that occur, ascending. */
  ghost predicate Bounds(count: seq<nat>, v: seq<nat>) {
    && |v| >= 1 && v[0] == 0
    && (forall i, j :: 0 <= i < j < |v| ==> v[i] < v[j])
    && (forall j :: 1 <= j < |v| ==> Occurs(count, |count|, v[j]))
    && (forall t :: 0 <= t < |count| ==> count[t] in v)
  }

  /** peel_bounds. */
  method PeelBounds(bucket: seq<nat>, ghost count: seq<nat>) returns (v: seq<nat>, w: seq<nat>)
    requires |bucket| >= 1 && (forall t :: 0 <= t < |count| ==> count[t] < |bucket|)
    requires forall c :: 0 <= c < |bucket| ==> (bucket[c] != 0 <==> Occurs(count, |count|, c))
    ensures Bounds(count, v) && |w| == |v| - 1 && forall j :: 0 <= j < |w| ==> w[j] == v[j + 1] - v[j]
  {
    var counts: seq<nat> := [];
    for c := 1 to |bucket|
      invariant forall i :: 0 <= i < |counts| ==> 1 <= counts[i] < c && bucket[counts[i]] != 0
      invariant forall i, j :: 0 <= i < j < |counts| ==> counts[i] < counts[j]
      invariant forall d :: 1 <= d < c && bucket[d] != 0 ==> d in counts
    {
      if bucket[c] != 0 { counts := counts + [c]; }
    }
    v := [0] + counts;
    w := seq(|counts|, j requires 0 <= j < |counts| => counts[j] - (if j == 0 then 0 else counts[j - 1]));
    forall t | 0 <= t < |count| ensures count[t] in v {
      assert Occurs(count, |count|, count[t]);
      assert count[t] == 0 ==> v[0] == count[t];
    }
  }

  // ---- rounds -----------------------------------------------------------------------

  /** The cells of one row of a round. */
  function Row(t: nat, ks: seq<nat>, lo: nat, hi: nat): (c: seq<Cell>)
    requires lo <= hi <= |ks|
    ensures |c| == hi - lo && forall s :: 0 <= s < hi - lo ==> c[s] == Cell(t, ks[lo + s])
  {
    seq(hi - lo, s requires 0 <= s < hi - lo => Cell(t, ks[lo + s]))
  }

  /** The cells of a round: one row of slots [lo, hi) for each active token. */
  function RoundCells(ksOf: seq<seq<nat>>, active: seq<nat>, lo: nat, hi: nat): seq<Cell>
    requires lo <= hi && forall i :: 0 <= i < |active| ==> active[i] < |ksOf| && hi <= |ksOf[active[i]]|
  {
    if active == [] then []
    else
      var n := |active| - 1;
      RoundCells(ksOf, active[..n], lo, hi) + Row(active[n], ksOf[active[n]], lo, hi)
  }

  lemma OneMoreRow(n: nat, w: nat)
    ensures (n + 1) * w == n * w + w
  {
  }

  lemma {:induction false} RoundCellsSize(ksOf: seq<seq<nat>>, active: seq<nat>, lo: nat, hi: nat)
    requires lo <= hi && forall i :: 0 <= i < |active| ==> active[i] < |ksOf| && hi <= |ksOf[active[i]]|
    ensures |RoundCells(ksOf, active, lo, hi)| == |active| * (hi - lo)
  {
    if active != [] {
      var n := |active| - 1;
      RoundCellsSize(ksOf, active[..n], lo, hi);
      OneMoreRow(n, hi - lo);
    }
  }

  /** Slot s of row a. */
  lemma {:induction false} RoundCellAt(ksOf: seq<seq<nat>>, active: seq<nat>, lo: nat, hi: nat, a: nat, s: nat)
    requires lo <= hi && forall i :: 0 <= i < |active| ==> active[i] < |ksOf| && hi <= |ksOf[active[i]]|
    requires a < |active| && s < hi - lo
    ensures 0 <= a * (hi - lo) + s < |RoundCells(ksOf, active, lo, hi)|
    ensures RoundCells(ksOf, active, lo, hi)[a * (hi - lo) + s] == Cell(active[a], ksOf[active[a]][lo + s])
  {
    var n := |active| - 1;
    RoundCellsSize(ksOf, active, lo, hi);
    RoundCellsSize(ksOf, active[..n], lo, hi);
    CellIndex(a, s, |active|, hi - lo);
    if a < n {
      RoundCellAt(ksOf, active[..n], lo, hi, a, s);
    }
  }

  ghost predicate Ascending(xs: seq<nat>) {
    forall i, j :: 0 <= i < j < |xs| ==> xs[i] < xs[j]
  }

  /** Tokens with at least vj hits, ascending. */
  method ActiveTokens(count: seq<nat>, vj: nat) returns (active: seq<nat>)
    ensures Ascending(active) && forall t: nat :: t in active <==> t < |count| && count[t] >= vj
  {
    active := [];
    for t := 0 to |count|
      invariant Ascending(active) && forall u: nat :: u in active <==> u < t && count[u] >= vj
      invariant forall i :: 0 <= i < |active| ==> active[i] < t
    {
      if count[t] >= vj { active := active + [t]; }
    }
  }

  function IdsOf(r: Routing, cells: seq<Cell>): (ids: seq<int>)
    requires r.Valid() && forall i :: 0 <= i < |cells| ==> cells[i].t < r.nT && cells[i].k < r.nK
    ensures |ids| == |cells|
  {
    seq(|cells|, i requires 0 <= i < |cells| => r.Id(cells[i].t, cells[i].k))
  }

  ghost predicate InRange(r: Routing, cells: seq<Cell>) {
    forall i :: 0 <= i < |cells| ==> cells[i].t < r.nT && cells[i].k < r.nK
  }

  /** The ids and origins of one round are appended. */
  method EmitRound(r: Routing, p: nat, ksOf: seq<seq<nat>>, active: seq<nat>, lo: nat, hi: nat, ids0: seq<int>,
                   cells0: seq<Cell>)
    returns (ids: seq<int>, cells: seq<Cell>)
    requires r.Valid() && lo <= hi && |ksOf| == r.nT && InRange(r, cells0) && ids0 == IdsOf(r, cells0)
    requires forall u :: 0 <= u < r.nT ==> ksOf[u] == r.Hits(p, u)
    requires forall i :: 0 <= i < |active| ==> active[i] < r.nT && hi <= |ksOf[active[i]]|
    ensures cells == cells0 + RoundCells(ksOf, active, lo, hi) && InRange(r, cells) && ids == IdsOf(r, cells)
  {
    ids, cells := ids0, cells0;
    assert active[..0] == [];
    for a := 0 to |active|
      invariant cells == cells0 + RoundCells(ksOf, active[..a], lo, hi) && InRange(r, cells) && ids == IdsOf(r, cells)
    {
      var t := active[a];
      var ks := ksOf[t];
      KsMembers(r, p, t, r.nK);
      ghost var before := cells;
      for s := lo to hi
        invariant cells == before + Row(t, ks, lo, s) && InRange(r, cells) && ids == IdsOf(r, cells)
      {
        var k := ks[s];
        assert k in ks;
        CellIndex(t, k, r.nT, r.nK);
        ids := ids + [r.ids[t * r.nK + k]];
        cells := cells + [Cell(t, k)];
        assert Row(t, ks, lo, s + 1) == Row(t, ks, lo, s) + [Cell(t, ks[s])];
      }
      assert active[..a + 1][..a] == active[..a];
    }
    assert active[..|active|] == active;
  }

  // ---- the cover ------------------------------------------------------------------------

  /** Cell c belongs to a pool before p, or is among the first lvl hits of pool p. */
  ghost predicate Done(r: Routing, p: nat, lvl: nat, c: Cell)
    requires r.Valid()
  {
    && c.t < r.nT && c.k < r.nK
    && var q := r.PoolOf(c.t, c.k);
       || 0 <= q < p
       || (q == p && exists s :: 0 <= s < lvl && s < |r.Hits(p, c.t)| && r.Hits(p, c.t)[s] == c.k)
  }

  /** Every done cell occurs exactly once, and no other cell occurs. */
  ghost predicate Covers(r: Routing, p: nat, lvl: nat, cells: seq<Cell>)
    requires r.Valid()
  {
    forall c: Cell :: multiset(cells)[c] == if Done(r, p, lvl, c) then 1 else 0
  }

  lemma {:induction false} CountRow(t: nat, ks: seq<nat>, lo: nat, hi: nat, c: Cell)
    requires lo <= hi <= |ks| && Ascending(ks)
    ensures multiset(Row(t, ks, lo, hi))[c] == if c.t == t && (exists s :: lo <= s < hi && ks[s] == c.k) then 1 else 0
    decreases hi
  {
    if lo < hi {
      CountRow(t, ks, lo, hi - 1, c);
      assert Row(t, ks, lo, hi) == Row(t, ks, lo, hi - 1) + [Cell(t, ks[hi - 1])];
    }
  }

  /** The round holds slots [lo, hi) of the hits of each active token, once each. */
  ghost predicate InRound(ksOf: seq<seq<nat>>, active: seq<nat>, lo: nat, hi: nat, c: Cell) {
    c.t in active && c.t < |ksOf| && exists s :: lo <= s < hi && s < |ksOf[c.t]| && ksOf[c.t][s] == c.k
  }

  lemma RowInRound(ksOf: seq<seq<nat>>, active: seq<nat>, n: nat, lo: nat, hi: nat, c: Cell)
    requires n + 1 == |active| && active[n] < |ksOf| && hi <= |ksOf[active[n]]|
    ensures InRound(ksOf, active, lo, hi, c) <==>
              InRound(ksOf, active[..n], lo, hi, c) ||
                  (c.t == active[n] && exists s :: lo <= s < hi && ksOf[active[n]][s] == c.k)
  {
    assert active == active[..n] + [active[n]];
  }

  lemma {:induction false} CountRound(ksOf: seq<seq<nat>>, active: seq<nat>, lo: nat, hi: nat, c: Cell)
    requires lo <= hi && forall i :: 0 <= i < |active| ==> active[i] < |ksOf| && hi <= |ksOf[active[i]]|
    requires Ascending(active) && forall u :: 0 <= u < |ksOf| ==> Ascending(ksOf[u])
    ensures multiset(RoundCells(ksOf, active, lo, hi))[c] == if InRound(ksOf, active, lo, hi, c) then 1 else 0
  {
    if active != [] {
      var n := |active| - 1;
      var t := active[n];
      CountRound(ksOf, active[..n], lo, hi, c);
      CountRow(t, ksOf[t], lo, hi, c);
      assert active == active[..n] + [t];
      assert c.t in active <==> c.t in active[..n] || c.t == t;
      assert t !in active[..n];
      hide Row;
      RowInRound(ksOf, active, n, lo, hi, c);
    }
  }

  /** A round raises the level of its pool from lo to hi. */
  lemma RoundRaises(r: Routing, p: nat, ksOf: seq<seq<nat>>, active: seq<nat>, lo: nat, hi: nat, cells: seq<Cell>)
    requires r.Valid() && |ksOf| == r.nT && (forall u :: 0 <= u < r.nT ==> ksOf[u] == r.Hits(p, u))
    requires lo <= hi && Ascending(active) && forall u: nat :: u in active <==> u < r.nT && |ksOf[u]| >= hi
    requires forall u :: 0 <= u < r.nT ==> |ksOf[u]| <= lo || |ksOf[u]| >= hi
    requires Covers(r, p, lo, cells)
    ensures forall i :: 0 <= i < |active| ==> active[i] < |ksOf| && hi <= |ksOf[active[i]]|
    ensures Covers(r, p, hi, cells + RoundCells(ksOf, active, lo, hi))
  {
    assert forall i :: 0 <= i < |active| ==> active[i] in active;
    forall u | 0 <= u < r.nT ensures Ascending(ksOf[u]) {
      KsMembers(r, p, u, r.nK);
    }
    var more := RoundCells(ksOf, active, lo, hi);
    forall c: Cell ensures multiset(cells + more)[c] == if Done(r, p, hi, c) then 1 else 0 {
      CountRound(ksOf, active, lo, hi, c);
      if c.t < r.nT { KsMembers(r, p, c.t, r.nK); }
      RaisedCell(r, p, ksOf, active, lo, hi, c);
    }
  }

  lemma RaisedCell(r: Routing, p: nat, ksOf: seq<seq<nat>>, active: seq<nat>, lo: nat, hi: nat, c: Cell)
    requires r.Valid() && |ksOf| == r.nT && (forall u :: 0 <= u < r.nT ==> ksOf[u] == r.Hits(p, u))
    requires lo <= hi && forall u: nat :: u in active <==> u < r.nT && |ksOf[u]| >= hi
    requires forall u :: 0 <= u < r.nT ==> |ksOf[u]| <= lo || |ksOf[u]| >= hi
    ensures Done(r, p, hi, c) <==> Done(r, p, lo, c) || InRound(ksOf, active, lo, hi, c)
    ensures !(Done(r, p, lo, c) && InRound(ksOf, active, lo, hi, c))
  {
    if c.t < r.nT {
      KsMembers(r, p, c.t, r.nK);
      var ks := r.Hits(p, c.t);
      if InRound(ksOf, active, lo, hi, c) {
        var s :| lo <= s < hi && s < |ks| && ks[s] == c.k;
        assert ks[s] in ks;
      }
    }
  }

  /** A pool whose every hit is done makes room for the next. */
  lemma NextPool(r: Routing, p: nat, lvl: nat, cells: seq<Cell>)
    requires r.Valid() && Covers(r, p, lvl, cells) && forall u :: 0 <= u < r.nT ==> |r.Hits(p, u)| <= lvl
    ensures Covers(r, p + 1, 0, cells)
  {
    forall c: Cell ensures Done(r, p, lvl, c) <==> Done(r, p + 1, 0, c) {
      if c.t < r.nT && c.k < r.nK && r.PoolOf(c.t, c.k) == p {
        KsMembers(r, p, c.t, r.nK);
        assert c.k in r.Hits(p, c.t);
      }
    }
  }

  // ---- the rounds -------------------------------------------------------------------------

  /** Position of slot s of row a of a round. */
  function At(rd: Round, a: nat, s: nat): nat {
    rd.off + a * rd.width + s
  }

  /** Where the cells of a round end. */
  function End(rd: Round): (e: nat)
    ensures e >= rd.off
  {
    rd.off + rd.nActive * rd.width
  }

  /** The rounds follow each other without gaps in the cell list. */
  ghost predicate Tiles(rounds: seq<Round>, n: nat) {
    && (rounds != [] ==> rounds[0].off == 0)
    && (forall i :: 0 < i < |rounds| ==> rounds[i].off == End(rounds[i - 1]))
    && n == (if rounds == [] then 0 else End(rounds[|rounds| - 1]))
  }

  /** The cell is a slot of token t that pool p computes. */
  ghost predicate OfRow(r: Routing, c: Cell, t: nat, p: nat)
    requires r.Valid()
  {
    c.t == t < r.nT && c.k < r.nK && r.PoolOf(c.t, c.k) == p
  }

  /** Row a of the round belongs to token rows[a]: one token per row, ascending,
      its slots ascending and all computed by the round's pool. */
  ghost predicate Rectangle(r: Routing, cells: seq<Cell>, rd: Round, rows: seq<nat>)
    requires r.Valid()
  {
    && rd.pool < r.nPools && rd.width >= 1 && |rows| == rd.nActive >= 1 && Ascending(rows)
    && (forall a: nat, s: nat :: a < rd.nActive && s < rd.width ==>
         At(rd, a, s) < |cells| && OfRow(r, cells[At(rd, a, s)], rows[a], rd.pool))
    && forall a: nat, s: nat, s': nat ::
         a < rd.nActive && s < s' < rd.width && At(rd, a, s) < |cells| && At(rd, a, s') < |cells| ==>
         cells[At(rd, a, s)].k < cells[At(rd, a, s')].k
  }

  ghost predicate IsRectangle(r: Routing, cells: seq<Cell>, rd: Round)
    requires r.Valid()
  {
    exists rows :: Rectangle(r, cells, rd, rows)
  }

  lemma RoundRow(r: Routing, p: nat, ksOf: seq<seq<nat>>, active: seq<nat>, lo: nat, hi: nat, cells: seq<Cell>,
                 a: nat, s: nat)
    requires r.Valid() && p < r.nPools && |ksOf| == r.nT && (forall u :: 0 <= u < r.nT ==> ksOf[u] == r.Hits(p, u))
    requires lo < hi && forall i :: 0 <= i < |active| ==> active[i] < r.nT && hi <= |ksOf[active[i]]|
    requires a < |active| && s < hi - lo
    ensures var rd, after := Round(p, hi - lo, |active|, |cells|), cells + RoundCells(ksOf, active, lo, hi);
            && At(rd, a, s) < |after| && OfRow(r, after[At(rd, a, s)], active[a], p)
            && after[At(rd, a, s)].k == r.Hits(p, active[a])[lo + s]
  {
    RoundCellAt(ksOf, active, lo, hi, a, s);
    KsMembers(r, p, active[a], r.nK);
    assert ksOf[active[a]][lo + s] in ksOf[active[a]];
  }

  lemma HitsAscend(r: Routing, p: nat, t: nat, i: nat, j: nat)
    requires r.Valid() && t < r.nT && i < j < |r.Hits(p, t)|
    ensures r.Hits(p, t)[i] < r.Hits(p, t)[j]
  {
    KsMembers(r, p, t, r.nK);
  }

  lemma RoundIsRectangle(r: Routing, p: nat, ksOf: seq<seq<nat>>, active: seq<nat>, lo: nat, hi: nat, cells: seq<Cell>)
    requires r.Valid() && p < r.nPools && |ksOf| == r.nT && (forall u :: 0 <= u < r.nT ==> ksOf[u] == r.Hits(p, u))
    requires lo < hi && active != [] && Ascending(active) &&
               forall i :: 0 <= i < |active| ==> active[i] < r.nT && hi <= |ksOf[active[i]]|
    ensures var rd := Round(p, hi - lo, |active|, |cells|);
            IsRectangle(r, cells + RoundCells(ksOf, active, lo, hi), rd)
  {
    hide OfRow, At, RoundCells;
    var rd := Round(p, hi - lo, |active|, |cells|);
    var after := cells + RoundCells(ksOf, active, lo, hi);
    forall a: nat, s: nat | a < rd.nActive && s < rd.width
      ensures At(rd, a, s) < |after| && OfRow(r, after[At(rd, a, s)], active[a], p)
      ensures after[At(rd, a, s)].k == r.Hits(p, active[a])[lo + s]
    {
      RoundRow(r, p, ksOf, active, lo, hi, cells, a, s);
    }
    forall a: nat, s: nat, s': nat | a < rd.nActive && s < s' < rd.width
      ensures after[At(rd, a, s)].k < after[At(rd, a, s')].k
    {
      HitsAscend(r, p, active[a], lo + s, lo + s');
    }
    assert Rectangle(r, after, rd, active);
  }

  lemma RectangleStays(r: Routing, cells: seq<Cell>, more: seq<Cell>, rd: Round)
    requires r.Valid() && IsRectangle(r, cells, rd)
    ensures IsRectangle(r, cells + more, rd)
  {
    var rows :| Rectangle(r, cells, rd, rows);
    assert Rectangle(r, cells + more, rd, rows);
  }

  /** Number of rounds of pool p. */
  function RoundsOf(rounds: seq<Round>, p: nat): nat {
    if rounds == [] then 0
    else RoundsOf(rounds[..|rounds| - 1], p) + if rounds[|rounds| - 1].pool == p then 1 else 0
  }

  /** The distinct nonzero hit counts of pool p. */
  ghost function NonzeroCounts(r: Routing, p: nat): set<nat>
    requires r.Valid()
  {
    set t: nat | t < r.nT && |r.Hits(p, t)| > 0 :: |r.Hits(p, t)|
  }

  ghost function Positive(v: seq<nat>): set<nat> {
    set j: nat | j < |v| && v[j] > 0 :: v[j]
  }

  lemma PositiveGrows(v: seq<nat>, x: nat)
    requires x > 0 && x !in v
    ensures Positive(v + [x]) == Positive(v) + {x} && x !in Positive(v)
  {
    var more := v + [x];
    forall c: nat ensures c in Positive(more) <==> c in Positive(v) || c == x {
      if c in Positive(v) {
        var j: nat :| j < |v| && v[j] == c;
        assert more[j] == c;
      }
      assert more[|v|] == x;
    }
  }

  lemma {:induction false} BoundsSize(v: seq<nat>)
    requires |v| >= 1 && v[0] == 0 && Ascending(v)
    ensures |Positive(v)| == |v| - 1
  {
    if |v| == 1 {
      assert Positive(v) == {};
    } else {
      var n := |v| - 1;
      BoundsSize(v[..n]);
      hide Positive;
      assert v == v[..n] + [v[n]];
      PositiveGrows(v[..n], v[n]);
    }
  }

  lemma BoundsAreCounts(r: Routing, p: nat, count: seq<nat>, v: seq<nat>)
    requires r.Valid() && |count| == r.nT && (forall t :: 0 <= t < r.nT ==> count[t] == |r.Hits(p, t)|) &&
               Bounds(count, v)
    ensures |NonzeroCounts(r, p)| == |v| - 1
  {
    BoundsSize(v);
    assert Positive(v) == NonzeroCounts(r, p) by {
      forall c: nat ensures c in Positive(v) <==> c in NonzeroCounts(r, p) {
        if c in Positive(v) {
          var j: nat :| j < |v| && v[j] == c > 0;
          assert Occurs(count, |count|, v[j]);
          var t :| 0 <= t < |count| && count[t] == c;
          assert |r.Hits(p, t)| == c;
        }
        if c in NonzeroCounts(r, p) {
          var t: nat :| t < r.nT && |r.Hits(p, t)| == c > 0;
          assert count[t] in v;
        }
      }
    }
  }

  /** Between two neighbouring bounds there is no count. */
  lemma NoCountBetween(count: seq<nat>, v: seq<nat>, j: nat)
    requires Bounds(count, v) && 1 <= j < |v|
    ensures v[j - 1] < v[j]
    ensures forall t :: 0 <= t < |count| ==> count[t] <= v[j - 1] || count[t] >= v[j]
  {
    forall t | 0 <= t < |count| ensures count[t] <= v[j - 1] || count[t] >= v[j] {
      var i :| 0 <= i < |v| && v[i] == count[t];
    }
  }

  /** The plan so far: ids follow cells, rounds tile the cells and are rectangles. */
  ghost predicate Planned(r: Routing, ids: seq<int>, cells: seq<Cell>, rounds: seq<Round>)
    requires r.Valid()
  {
    && InRange(r, cells) && ids == IdsOf(r, cells)
    && Tiles(rounds, |cells|) && forall i :: 0 <= i < |rounds| ==> IsRectangle(r, cells, rounds[i])
  }

  /** One round of a pool: slots [v[j-1], v[j]) of every token with that many hits. */
  method PlanRound(r: Routing, p: nat, count: seq<nat>, ksOf: seq<seq<nat>>, v: seq<nat>, w: nat, j: nat,
                   ids0: seq<int>, cells0: seq<Cell>, rounds0: seq<Round>)
    returns (ids: seq<int>, cells: seq<Cell>, rounds: seq<Round>)
    requires r.Valid() && p < r.nPools && |count| == |ksOf| == r.nT && Bounds(count, v) && 1 <= j < |v| &&
               w == v[j] - v[j - 1]
    requires forall u :: 0 <= u < r.nT ==> ksOf[u] == r.Hits(p, u) && count[u] == |ksOf[u]|
    requires Planned(r, ids0, cells0, rounds0) && Covers(r, p, v[j - 1], cells0)
    ensures Planned(r, ids, cells, rounds) && Covers(r, p, v[j], cells)
    ensures |rounds| == |rounds0| + 1 && rounds[..|rounds0|] == rounds0 && rounds[|rounds0|].pool == p
  {
    hide Covers, IsRectangle, RoundCells;
    ids, cells, rounds := ids0, cells0, rounds0;
    var active := ActiveTokens(count, v[j]);
    NoCountBetween(count, v, j);
    SomeActive(count, v[j], active);
    if active == [] || w == 0 { return; }
    var off := |ids|;
    var nActive := |active|;
    RoundRaises(r, p, ksOf, active, v[j - 1], v[j], cells0);
    ids, cells := EmitRound(r, p, ksOf, active, v[j - 1], v[j], ids0, cells0);
    ghost var more := RoundCells(ksOf, active, v[j - 1], v[j]);
    RoundCellsSize(ksOf, active, v[j - 1], v[j]);
    RoundIsRectangle(r, p, ksOf, active, v[j - 1], v[j], cells0);
    forall i | 0 <= i < |rounds0| ensures IsRectangle(r, cells, rounds0[i]) {
      RectangleStays(r, cells0, more, rounds0[i]);
    }
    rounds := rounds + [Round(p, w, nActive, off)];
  }

  lemma SomeActive(count: seq<nat>, c: nat, active: seq<nat>)
    requires Occurs(count, |count|, c) && forall t: nat :: t in active <==> t < |count| && count[t] >= c
    ensures active != []
  {
    var t :| 0 <= t < |count| && count[t] == c;
    assert t in active;
  }

  lemma RoundsOfSnoc(rounds: seq<Round>, rd: Round, p: nat)
    ensures RoundsOf(rounds + [rd], p) == RoundsOf(rounds, p) + if rd.pool == p then 1 else 0
  {
    assert (rounds + [rd])[..|rounds|] == rounds;
  }

  /** The rounds of one pool. */
  method PlanPool(r: Routing, p: nat, ts: seq<nat>, ks: seq<nat>, count: seq<nat>,
                  ids0: seq<int>, cells0: seq<Cell>, rounds0: seq<Round>)
    returns (ids: seq<int>, cells: seq<Cell>, rounds: seq<Round>)
    requires r.Valid() && p < r.nPools && RecordedIn(r, p, ts, ks, count, r.nT, 0)
    requires Planned(r, ids0, cells0, rounds0) && Covers(r, p, 0, cells0)
    ensures Planned(r, ids, cells, rounds) && Covers(r, p + 1, 0, cells)
    ensures forall q: nat :: RoundsOf(rounds, q) == RoundsOf(rounds0, q) + if q == p then |NonzeroCounts(r, p)| else 0
  {
    ids, cells, rounds := ids0, cells0, rounds0;
    var bucket := Histogram(count, r.nK);
    var ksOf := Regroup(r.nT, ts, ks);
    var v, w := PeelBounds(bucket, count);
    BoundsAreCounts(r, p, count, v);
    hide Covers, Planned, NonzeroCounts;
    for j := 1 to |v|
      invariant Planned(r, ids, cells, rounds) && Covers(r, p, v[j - 1], cells)
      invariant forall q: nat :: RoundsOf(rounds, q) == RoundsOf(rounds0, q) + if q == p then j - 1 else 0
    {
      ghost var before := rounds;
      ids, cells, rounds := PlanRound(r, p, count, ksOf, v, w[j - 1], j, ids, cells, rounds);
      assert rounds == before + [rounds[|before|]];
      forall q: nat ensures RoundsOf(rounds, q) == RoundsOf(before, q) + if q == p then 1 else 0 {
        RoundsOfSnoc(before, rounds[|before|], q);
      }
    }
    LastBound(r, p, count, v);
    NextPool(r, p, v[|v| - 1], cells);
  }

  lemma LastBound(r: Routing, p: nat, count: seq<nat>, v: seq<nat>)
    requires r.Valid() && |count| == r.nT && (forall t :: 0 <= t < r.nT ==> count[t] == |r.Hits(p, t)|) &&
               Bounds(count, v)
    ensures forall u :: 0 <= u < r.nT ==> |r.Hits(p, u)| <= v[|v| - 1]
  {
    forall u | 0 <= u < r.nT ensures |r.Hits(p, u)| <= v[|v| - 1] {
      var i :| 0 <= i < |v| && v[i] == count[u];
    }
  }

  /** A cell whose expert lives in some pool. */
  ghost predicate Routed(r: Routing, c: Cell)
    requires r.Valid()
  {
    c.t < r.nT && c.k < r.nK && r.PoolOf(c.t, c.k) >= 0
  }

  /** A complete plan: an exact cover of the routed cells by rectangles, each of
      one pool, with as many rounds per pool as there are distinct nonzero hit counts. */
  ghost predicate IsPlan(r: Routing, ids: seq<int>, cells: seq<Cell>, rounds: seq<Round>)
    requires r.Valid()
  {
    && Planned(r, ids, cells, rounds)
    && (forall c: Cell :: multiset(cells)[c] == if Routed(r, c) then 1 else 0)
    && (forall p :: 0 <= p < r.nPools ==> RoundsOf(rounds, p) == |NonzeroCounts(r, p)|)
  }

  /** build_mix_plan. */
  method BuildMixPlan(r: Routing) returns (ids: seq<int>, cells: seq<Cell>, rounds: seq<Round>)
    requires r.Valid()
    ensures IsPlan(r, ids, cells, rounds)
  {
    ids, cells, rounds := [], [], [];
    if r.nT == 0 || r.nK == 0 {
      NothingRouted(r);
      return;
    }
    var ts, ks, count := CollectHits(r);
    EmptyPlan(r);
    hide Planned, Covers, NonzeroCounts, RoundsOf, RecordedIn;
    for p := 0 to r.nPools
      invariant Planned(r, ids, cells, rounds) && Covers(r, p, 0, cells)
      invariant forall q: nat :: RoundsOf(rounds, q) == if q < p then |NonzeroCounts(r, q)| else 0
    {
      ids, cells, rounds := PlanPool(r, p, ts[p], ks[p], count[p], ids, cells, rounds);
    }
    AllDone(r, cells);
  }

  lemma EmptyPlan(r: Routing)
    requires r.Valid()
    ensures Planned(r, [], [], []) && Covers(r, 0, 0, []) && forall q: nat :: RoundsOf([], q) == 0
  {
  }

  lemma NothingRouted(r: Routing)
    requires r.Valid() && (r.nT == 0 || r.nK == 0)
    ensures IsPlan(r, [], [], [])
  {
    forall p | 0 <= p < r.nPools ensures NonzeroCounts(r, p) == {} {
      forall t: nat | t < r.nT ensures |r.Hits(p, t)| == 0 {
      }
    }
  }

  lemma AllDone(r: Routing, cells: seq<Cell>)
    requires r.Valid() && Covers(r, r.nPools, 0, cells)
    ensures forall c: Cell :: multiset(cells)[c] == if Routed(r, c) then 1 else 0
  {
    forall c: Cell ensures Done(r, r.nPools, 0, c) <==> Routed(r, c) {
    }
  }

  // ---- zero waste -----------------------------------------------------------------------

  ghost function RoutedCells(r: Routing): set<Cell>
    requires r.Valid()
  {
    set t: nat, k: nat | t < r.nT && k < r.nK && r.PoolOf(t, k) >= 0 :: Cell(t, k)
  }

  function Area(rounds: seq<Round>): nat {
    if rounds == [] then 0
    else Area(rounds[..|rounds| - 1]) + rounds[|rounds| - 1].nActive * rounds[|rounds| - 1].width
  }

  lemma {:induction false} TilesArea(rounds: seq<Round>, n: nat)
    requires Tiles(rounds, n)
    ensures Area(rounds) == n
  {
    if rounds != [] {
      var m := |rounds| - 1;
      TilesArea(rounds[..m], rounds[m].off);
    }
  }

  /** The rectangles hold exactly as many cells as are routed. */
  lemma NoWaste(r: Routing, ids: seq<int>, cells: seq<Cell>, rounds: seq<Round>)
    requires r.Valid() && IsPlan(r, ids, cells, rounds)
    ensures Area(rounds) == |RoutedCells(r)|
  {
    TilesArea(rounds, |cells|);
    assert multiset(cells) == multiset(RoutedCells(r)) by {
      forall c: Cell ensures multiset(cells)[c] == multiset(RoutedCells(r))[c] {
        assert Routed(r, c) <==> c in RoutedCells(r);
      }
    }
    assert |multiset(cells)| == |cells|;
  }

  // ---- how few rounds there can be ----------------------------------------------------------

  /** A full rectangle: every one of the tokens contributes `width` slots. */
  datatype Rect = Rect(tokens: set<nat>, width: nat)

  ghost predicate Nested(rs: seq<Rect>) {
    forall i, j :: 0 <= i < j < |rs| ==> rs[j].tokens <= rs[i].tokens
  }

  /** Slots that the rectangles compute for token t. */
  ghost function Height(rs: seq<Rect>, t: nat): nat {
    if rs == [] then 0
    else Height(rs[..|rs| - 1], t) + if t in rs[|rs| - 1].tokens then rs[|rs| - 1].width else 0
  }

  /** The rectangles give every token exactly its hits in pool p. */
  ghost predicate CoversCounts(r: Routing, p: nat, rs: seq<Rect>)
    requires r.Valid()
  {
    forall t: nat :: t < r.nT ==> Height(rs, t) == |r.Hits(p, t)|
  }

  /** Heights of the tokens that are in all rectangles of some prefix. */
  ghost function Tops(rs: seq<Rect>): set<nat> {
    if rs == [] then {} else Tops(rs[..|rs| - 1]) + {Total(rs)}
  }

  ghost function Total(rs: seq<Rect>): nat {
    if rs == [] then 0 else Total(rs[..|rs| - 1]) + rs[|rs| - 1].width
  }

  lemma {:induction false} HeightIsTop(rs: seq<Rect>, t: nat)
    requires Nested(rs)
    ensures Height(rs, t) > 0 ==> Height(rs, t) in Tops(rs)
    ensures (forall i :: 0 <= i < |rs| ==> t in rs[i].tokens) ==> Height(rs, t) == Total(rs)
    ensures |Tops(rs)| <= |rs|
  {
    if rs != [] {
      HeightIsTop(rs[..|rs| - 1], t);
    }
  }

  /** No cover by rectangles with nested token sets has fewer rectangles than the plan has rounds. */
  lemma NestedCoverIsMinimal(r: Routing, p: nat, rs: seq<Rect>)
    requires r.Valid() && p < r.nPools && Nested(rs) && CoversCounts(r, p, rs)
    ensures |NonzeroCounts(r, p)| <= |rs|
  {
    HeightIsTop(rs, 0);
    assert NonzeroCounts(r, p) <= Tops(rs) by {
      forall c | c in NonzeroCounts(r, p) ensures c in Tops(rs) {
        var t: nat :| t < r.nT && |r.Hits(p, t)| == c > 0;
        HeightIsTop(rs, t);
      }
    }
    SubsetSize(NonzeroCounts(r, p), Tops(rs));
  }

  // ---- when the plan is minimal among all covers ----------------------------------------------

  /** Some of the widths add up to c. */
  ghost predicate Sums(ws: seq<nat>, c: nat) {
    if ws == [] then c == 0
    else
      var few, w := ws[..|ws| - 1], ws[|ws| - 1];
      Sums(few, c) || (c >= w && Sums(few, c - w))
  }

  /** Every token's number of hits in pool p is a sum of some of the widths. */
  ghost predicate Reaches(r: Routing, p: nat, ws: seq<nat>)
    requires r.Valid()
  {
    forall t: nat :: t < r.nT ==> Sums(ws, |r.Hits(p, t)|)
  }

  ghost predicate HasCover(r: Routing, p: nat, m: nat)
    requires r.Valid()
  {
    exists rs: seq<Rect> :: |rs| == m && CoversCounts(r, p, rs)
  }

  ghost predicate HasWidths(r: Routing, p: nat, m: nat)
    requires r.Valid()
  {
    exists ws: seq<nat> :: |ws| == m && Reaches(r, p, ws)
  }

  function Widths(rs: seq<Rect>): (ws: seq<nat>)
    ensures |ws| == |rs|
  {
    if rs == [] then [] else Widths(rs[..|rs| - 1]) + [rs[|rs| - 1].width]
  }

  lemma {:induction false} HeightIsSum(rs: seq<Rect>, t: nat)
    ensures Sums(Widths(rs), Height(rs, t))
  {
    if rs != [] {
      var few := rs[..|rs| - 1];
      HeightIsSum(few, t);
      assert Widths(rs)[..|rs| - 1] == Widths(few);
    }
  }

  /** Rectangles of the given widths that give token t its need[t] slots. */
  ghost function Rects(ws: seq<nat>, need: seq<nat>): (rs: seq<Rect>)
    ensures |rs| == |ws|
  {
    if ws == [] then []
    else
      var few, w := ws[..|ws| - 1], ws[|ws| - 1];
      var tokens := set t: nat | t < |need| && !Sums(few, need[t]);
      var rest :=
          seq(|need|, t requires 0 <= t < |need| => if t in tokens && need[t] >= w then need[t] - w else need[t]);
      Rects(few, rest) + [Rect(tokens, w)]
  }

  lemma {:induction false} RectsGive(ws: seq<nat>, need: seq<nat>, t: nat)
    requires t < |need| && Sums(ws, need[t])
    ensures Height(Rects(ws, need), t) == need[t]
  {
    if ws != [] {
      var few, w := ws[..|ws| - 1], ws[|ws| - 1];
      var tokens := set u: nat | u < |need| && !Sums(few, need[u]);
      var rest: seq<nat> :=
        seq(|need|, u requires 0 <= u < |need| => if u in tokens && need[u] >= w then need[u] - w else need[u]);
      RectsGive(few, rest, t);
      var rs := Rects(ws, need);
      assert rs[..|rs| - 1] == Rects(few, rest);
    }
  }

  /** Exactly m rectangles cover the pool's slots iff m widths reach every token's count. */
  lemma CoverIffWidths(r: Routing, p: nat, m: nat)
    requires r.Valid()
    ensures HasCover(r, p, m) <==> HasWidths(r, p, m)
  {
    if HasCover(r, p, m) {
      var rs: seq<Rect> :| |rs| == m && CoversCounts(r, p, rs);
      forall t: nat | t < r.nT ensures Sums(Widths(rs), |r.Hits(p, t)|) {
        HeightIsSum(rs, t);
      }
      assert Reaches(r, p, Widths(rs));
    }
    if HasWidths(r, p, m) {
      var ws: seq<nat> :| |ws| == m && Reaches(r, p, ws);
      var need: seq<nat> := seq(r.nT, t requires 0 <= t < r.nT => |r.Hits(p, t)|);
      forall t: nat | t < r.nT ensures Height(Rects(ws, need), t) == |r.Hits(p, t)| {
        RectsGive(ws, need, t);
      }
      assert CoversCounts(r, p, Rects(ws, need));
    }
  }

  /** The plan's rounds for pool p are the fewest any cover can have iff the distinct
      nonzero counts are not sums of fewer widths than there are counts. */
  lemma PlanIsMinimalIff(r: Routing, ids: seq<int>, cells: seq<Cell>, rounds: seq<Round>, p: nat)
    requires r.Valid() && IsPlan(r, ids, cells, rounds) && p < r.nPools
    ensures (forall m: nat :: HasCover(r, p, m) ==> RoundsOf(rounds, p) <= m) <==>
            (forall m: nat :: m < |NonzeroCounts(r, p)| ==> !HasWidths(r, p, m))
  {
    hide IsPlan, HasCover, HasWidths;
    assert RoundsOf(rounds, p) == |NonzeroCounts(r, p)| by { PlanRounds(r, ids, cells, rounds, p); }
    forall m: nat ensures HasCover(r, p, m) <==> HasWidths(r, p, m) {
      CoverIffWidths(r, p, m);
    }
  }

  lemma PlanRounds(r: Routing, ids: seq<int>, cells: seq<Cell>, rounds: seq<Round>, p: nat)
    requires r.Valid() && IsPlan(r, ids, cells, rounds) && p < r.nPools
    ensures RoundsOf(rounds, p) == |NonzeroCounts(r, p)|
  {
    hide Planned;
  }

  // ---- how much fewer it can be -----------------------------------------------------------------

  ghost function AllSums(ws: seq<nat>): set<nat> {
    if ws == [] then {0}
    else
      var few := AllSums(ws[..|ws| - 1]);
      few + Shifted(few, ws[|ws| - 1])
  }

  ghost function Shifted(s: set<nat>, w: nat): set<nat> {
    set x | x in s :: x + w
  }

  lemma {:induction false} ShiftedSize(s: set<nat>, w: nat)
    ensures |Shifted(s, w)| <= |s|
  {
    if s != {} {
      var x :| x in s;
      ShiftedSize(s - {x}, w);
      forall y | y in Shifted(s, w) ensures y in Shifted(s - {x}, w) + {x + w} {
        var z: nat :| z in s && z + w == y;
        if z != x { assert z in s - {x}; }
      }
      SubsetSize(Shifted(s, w), Shifted(s - {x}, w) + {x + w});
    } else {
      assert Shifted(s, w) == {};
    }
  }

  lemma {:induction false} SumsIn(ws: seq<nat>, c: nat)
    ensures Sums(ws, c) ==> c in AllSums(ws)
    ensures 0 in AllSums(ws)
  {
    if ws != [] {
      var few, w := ws[..|ws| - 1], ws[|ws| - 1];
      SumsIn(few, c);
      if c >= w {
        SumsIn(few, c - w);
        assert c - w in AllSums(few) ==> c - w + w in Shifted(AllSums(few), w);
      }
    }
  }

  function Pow2(n: nat): nat {
    if n == 0 then 1 else 2 * Pow2(n - 1)
  }

  lemma {:induction false} AllSumsSize(ws: seq<nat>)
    ensures |AllSums(ws)| <= Pow2(|ws|)
  {
    if ws != [] {
      var few := ws[..|ws| - 1];
      AllSumsSize(few);
      ShiftedSize(AllSums(few), ws[|ws| - 1]);
    }
  }

  /** m rectangles, nested or not, serve at most 2^m - 1 distinct nonzero counts. */
  lemma CountsBound(r: Routing, p: nat, rs: seq<Rect>)
    requires r.Valid() && CoversCounts(r, p, rs)
    ensures |NonzeroCounts(r, p)| <= Pow2(|rs|) - 1
  {
    var ws := Widths(rs);
    var sums := AllSums(ws);
    AllSumsSize(ws);
    SumsIn(ws, 0);
    forall c | c in NonzeroCounts(r, p) ensures c in sums - {0} {
      var t: nat :| t < r.nT && |r.Hits(p, t)| == c > 0;
      HeightIsSum(rs, t);
      SumsIn(ws, c);
    }
    SubsetSize(NonzeroCounts(r, p), sums - {0});
  }

  /** With at most two distinct nonzero counts no cover whatever has fewer rounds than the plan. */
  lemma TwoCountsAreMinimal(r: Routing, p: nat, rs: seq<Rect>)
    requires r.Valid() && CoversCounts(r, p, rs) && |NonzeroCounts(r, p)| <= 2
    ensures |NonzeroCounts(r, p)| <= |rs|
  {
    CountsBound(r, p, rs);
    assert Pow2(0) == 1 && Pow2(1) == 2;
  }

  /** Three tokens with 1, 2 and 3 of their experts in pool 0, the others in pool 1. */
  const STAIRS := Routing([0, 3, 4, 0, 1, 3, 0, 1, 2], 3, 3, [0, 0, 0, 1, 1], 2)
  const STAIR_WIDTHS: seq<nat> := [1, 2]

  lemma StairsHits(t: nat)
    requires t < 3
    ensures STAIRS.Valid() && |STAIRS.Hits(0, t)| == t + 1
  {
    assert STAIRS.PoolOf(t, 0) == 0;
    assert STAIRS.PoolOf(t, 1) == if t >= 1 then 0 else 1;
    assert STAIRS.PoolOf(t, 2) == if t >= 2 then 0 else 1;
    assert |STAIRS.Ks(0, t, 1)| == 1;
    assert |STAIRS.Ks(0, t, 2)| == if t >= 1 then 2 else 1;
  }

  lemma StairSums(c: nat)
    requires 1 <= c <= 3
    ensures Sums(STAIR_WIDTHS, c)
  {
    var one: seq<nat> := [1];
    assert STAIR_WIDTHS[..1] == one && one[..0] == [];
    assert Sums([], 0);
    assert Sums(one, 1) && Sums(one, 0);
  }

  lemma StairCounts()
    ensures STAIRS.Valid() && NonzeroCounts(STAIRS, 0) == {1, 2, 3}
  {
    forall t: nat | t < 3 ensures |STAIRS.Hits(0, t)| == t + 1 {
      StairsHits(t);
    }
    forall c: nat ensures c in NonzeroCounts(STAIRS, 0) <==> c in {1, 2, 3} {
      if c in {1, 2, 3} { assert |STAIRS.Hits(0, c - 1)| == c; }
    }
  }

  /** A routing on which the condition fails: three counts that two widths reach, so
      two rectangles do the work of the plan's three rounds. */
  lemma StairsNeedOnlyTwo()
    ensures STAIRS.Valid() && |NonzeroCounts(STAIRS, 0)| == 3 && HasWidths(STAIRS, 0, 2) && HasCover(STAIRS, 0, 2)
  {
    StairCounts();
    hide NonzeroCounts;
    forall t: nat | t < 3 ensures Sums(STAIR_WIDTHS, |STAIRS.Hits(0, t)|) {
      StairsHits(t);
      StairSums(t + 1);
    }
    assert Reaches(STAIRS, 0, STAIR_WIDTHS);
    CoverIffWidths(STAIRS, 0, 2);
  }
}
