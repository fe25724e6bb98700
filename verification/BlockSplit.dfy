/** Splitting a unit's 4K blocks across N files, uniformly or by largest
    remainder. Quotas are exact: block share i is total * ratio[i] / sum. */
module BlockSplit {
  import opened Basics

  datatype Result = Split(counts: seq<nat>) | LengthMismatch | EmptyRatio | StripSumWrong

  lemma {:induction false} SumUpdate(xs: seq<nat>, i: nat, v: nat)
    requires i < |xs|
    ensures Sum(xs[i := v]) + xs[i] == Sum(xs) + v
  {
    var n := |xs| - 1;
    if i < n {
      SumUpdate(xs[..n], i, v);
      assert xs[i := v][..n] == xs[..n][i := v];
    } else {
      assert xs[i := v][..n] == xs[..n];
    }
  }

  lemma SumSnoc(xs: seq<nat>, x: nat)
    ensures Sum(xs + [x]) == Sum(xs) + x
  {
    assert (xs + [x])[..|xs|] == xs;
  }

  // ---- quotas --------------------------------------------------------------------

  /** Whole blocks of file i's quota. */
  function Floor(total: nat, ratio: seq<nat>, i: nat): nat
    requires i < |ratio| && Sum(ratio) > 0
  {
    total * ratio[i] / Sum(ratio)
  }

  /** Fraction of file i's quota, in units of 1 / sum. */
  function Rest(total: nat, ratio: seq<nat>, i: nat): (r: nat)
    requires i < |ratio| && Sum(ratio) > 0
    ensures r < Sum(ratio)
  {
    total * ratio[i] % Sum(ratio)
  }

  function Floors(total: nat, ratio: seq<nat>): (f: seq<nat>)
    requires Sum(ratio) > 0
    ensures |f| == |ratio| && forall i :: 0 <= i < |f| ==> f[i] == Floor(total, ratio, i)
  {
    seq(|ratio|, i requires 0 <= i < |ratio| => Floor(total, ratio, i))
  }

  function Rests(total: nat, ratio: seq<nat>): (f: seq<nat>)
    requires Sum(ratio) > 0
    ensures |f| == |ratio| && forall i :: 0 <= i < |f| ==> f[i] == Rest(total, ratio, i)
  {
    seq(|ratio|, i requires 0 <= i < |ratio| => Rest(total, ratio, i))
  }

  /** Floors and fractions of the first n files add up to their share of the total. */
  lemma {:induction false} QuotaSum(total: nat, ratio: seq<nat>, n: nat)
    requires n <= |ratio| && Sum(ratio) > 0
    ensures Sum(ratio) * Sum(Floors(total, ratio)[..n]) + Sum(Rests(total, ratio)[..n]) == total * Sum(ratio[..n])
  {
    var s, fl, re := Sum(ratio), Floors(total, ratio), Rests(total, ratio);
    if n == 0 {
      assert total * 0 == 0 && s * 0 == 0;
    } else {
      QuotaSum(total, ratio, n - 1);
      assert fl[..n] == fl[..n - 1] + [fl[n - 1]] && re[..n] == re[..n - 1] + [re[n - 1]] &&
               ratio[..n] == ratio[..n - 1] + [ratio[n - 1]];
      SumSnoc(fl[..n - 1], fl[n - 1]);
      SumSnoc(re[..n - 1], re[n - 1]);
      SumSnoc(ratio[..n - 1], ratio[n - 1]);
      DivMod(total * ratio[n - 1], s);
      Distribute(Sum(fl[..n - 1]), fl[n - 1], s);
      Distribute(Sum(ratio[..n - 1]), ratio[n - 1], total);
    }
  }

  lemma DivMod(x: nat, s: nat)
    requires s > 0
    ensures s * (x / s) + x % s == x
  {
  }

  /** The blocks left over after the floors: their number times sum is the sum of the fractions. */
  lemma LeftOver(total: nat, ratio: seq<nat>)
    requires Sum(ratio) > 0
    ensures Sum(Floors(total, ratio)) <= total
    ensures Sum(ratio) * (total - Sum(Floors(total, ratio))) == Sum(Rests(total, ratio))
  {
    var s, fl, re := Sum(ratio), Floors(total, ratio), Rests(total, ratio);
    QuotaSum(total, ratio, |ratio|);
    assert fl[..|ratio|] == fl && re[..|ratio|] == re && ratio[..|ratio|] == ratio;
    hide Sum, Floor, Rest;
    Remainder(s, Sum(fl), Sum(re), total);
  }

  lemma Remainder(s: nat, f: nat, r: nat, total: nat)
    requires s > 0 && s * f + r == total * s
    ensures f <= total && s * (total - f) == r
  {
    if f > total {
      MulMore(s, f, total);
    } else {
      Distribute(total - f, f, s);
    }
  }

  lemma MulMore(s: nat, a: nat, b: nat)
    requires s > 0 && a > b
    ensures s * a >= s * b + s
  {
    assert s * (a - b - 1) >= 0;
  }

  ghost function Positive(f: seq<nat>): set<nat> {
    set i: nat | i < |f| && f[i] > 0
  }

  lemma OneMore(p: nat, s: nat, a: nat, x: nat)
    requires a <= p * (s - 1) && x < s
    ensures a + x <= (p + 1) * (s - 1)
  {
    Distribute(p, 1, s - 1);
  }

  /** With every fraction below s, more files have one than blocks are left over. */
  lemma {:induction false} FewPositive(f: seq<nat>, s: nat)
    requires s > 0 && forall i :: 0 <= i < |f| ==> f[i] < s
    ensures Sum(f) <= |Positive(f)| * (s - 1)
  {
    if f != [] {
      var n := |f| - 1;
      FewPositive(f[..n], s);
      if f[n] > 0 {
        assert Positive(f) == Positive(f[..n]) + {n};
        OneMore(|Positive(f[..n])|, s, Sum(f[..n]), f[n]);
      } else {
        assert Positive(f) == Positive(f[..n]);
      }
    } else {
      assert Positive(f) == {};
    }
  }

  lemma EnoughPositive(f: seq<nat>, s: nat, diff: nat)
    requires s > 0 && (forall i :: 0 <= i < |f| ==> f[i] < s) && s * diff == Sum(f)
    ensures diff > 0 ==> |Positive(f)| > diff
    ensures diff <= |f|
  {
    FewPositive(f, s);
    var m := |Positive(f)|;
    if diff > 0 && m <= diff {
      Product(m, diff, s);
    }
    IndexBound(f);
  }

  lemma Product(m: nat, diff: nat, s: nat)
    requires s > 0 && m <= diff && diff > 0
    ensures m * (s - 1) < s * diff
  {
    MulMono(m, diff, s - 1);
    Distribute(s - 1, 1, diff);
  }

  lemma IndexBound(f: seq<nat>)
    ensures |Positive(f)| <= |f|
  {
    var all := Range(0, |f|);
    assert Positive(f) <= all;
    SubsetSize(Positive(f), all);
  }

  /** Files that come before every file with no fraction have one. */
  lemma BonusPositive(f: seq<nat>, order: seq<nat>, diff: nat)
    requires SizeOrder(f, order) && |order| == |f| && (forall x: nat :: x < |f| ==> x in order)
    requires diff > 0 ==> |Positive(f)| > diff
    requires diff <= |order|
    ensures forall k :: 0 <= k < diff ==> f[order[k]] > 0
  {
    forall k | 0 <= k < diff ensures f[order[k]] > 0 {
      if f[order[k]] == 0 { PositiveInFront(f, order, k); }
    }
  }

  /** Every file with a fraction comes before a file without. */
  lemma PositiveInFront(f: seq<nat>, order: seq<nat>, k: nat)
    requires SizeOrder(f, order) && |order| == |f| && (forall x: nat :: x < |f| ==> x in order)
    requires k < |order| && f[order[k]] == 0
    ensures |Positive(f)| <= k
  {
    forall j | k <= j < |order| ensures f[order[j]] == 0 {
      assert j == k || LargerFirst(f, order[k], order[j]);
    }
    var front := Members(order[..k]);
    forall x | x in Positive(f) ensures x in front {
      assert x in order;
      var j :| 0 <= j < |order| && order[j] == x;
      assert order[..k][j] == x;
    }
    MembersSize(order[..k]);
    SubsetSize(Positive(f), front);
  }

  ghost function Members(xs: seq<nat>): set<nat> {
    set i: nat | i < |xs| :: xs[i]
  }

  lemma {:induction false} MembersSize(xs: seq<nat>)
    ensures |Members(xs)| <= |xs|
  {
    if xs == [] {
      assert Members(xs) == {};
    } else {
      var n := |xs| - 1;
      MembersSize(xs[..n]);
      assert Members(xs) == Members(xs[..n]) + {xs[n]};
    }
  }

  // ---- the split ------------------------------------------------------------------------

  /** Largest-remainder apportionment: all blocks given out, every file the floor
      or the ceiling of its quota, the extra blocks to the largest fractions with
      ties to the lower index. */
  ghost predicate IsApportionment(total: nat, ratio: seq<nat>, counts: seq<nat>)
    requires Sum(ratio) > 0
  {
    && |counts| == |ratio| && Sum(counts) == total
    && (forall i :: 0 <= i < |counts| ==>
          || counts[i] == Floor(total, ratio, i)
          || (counts[i] == Floor(total, ratio, i) + 1 && Rest(total, ratio, i) > 0))
    && (forall i, j ::
         0 <= i < |counts| && 0 <= j < |counts| && counts[i] > Floor(total, ratio, i) &&
             counts[j] == Floor(total, ratio, j) ==>
          LargerFirst(Rests(total, ratio), i, j))
  }

  function Uniform(total: nat, n: nat, i: nat): nat
    requires n >= 1
  {
    total / n + if i < total % n then 1 else 0
  }

  /** The default split: base blocks each, one more for the first total % n files. */
  method UniformSplit(total: nat, n: nat) returns (out: seq<nat>)
    requires n >= 1
    ensures |out| == n && Sum(out) == total && forall i :: 0 <= i < n ==> out[i] == Uniform(total, n, i)
  {
    out := [];
    for i := 0 to n
      invariant |out| == i && forall j :: 0 <= j < i ==> out[j] == Uniform(total, n, j)
      invariant Sum(out) == UniformUpTo(total, n, i)
    {
      SumSnoc(out, Uniform(total, n, i));
      UniformStep(total, n, i);
      out := out + [Uniform(total, n, i)];
    }
    DivMod(total, n);
    assert n * (total / n) == (total / n) * n;
  }

  /** Blocks of the first i files. */
  function UniformUpTo(total: nat, n: nat, i: nat): nat
    requires n >= 1
  {
    i * (total / n) + if i < total % n then i else total % n
  }

  lemma UniformStep(total: nat, n: nat, i: nat)
    requires n >= 1
    ensures UniformUpTo(total, n, i + 1) == UniformUpTo(total, n, i) + Uniform(total, n, i)
  {
    Distribute(i, 1, total / n);
  }

  /** sm_split_blocks. */
  method SplitBlocks(total: nat, n: nat, ratio: seq<nat>) returns (r: Result)
    requires n >= 1
    ensures ratio == [] ==>
              r.Split? && |r.counts| == n && Sum(r.counts) == total &&
                  forall i :: 0 <= i < n ==> r.counts[i] == Uniform(total, n, i)
    ensures ratio != [] && |ratio| != n ==> r == LengthMismatch
    ensures ratio != [] && |ratio| == n && Sum(ratio) == 0 ==> r == EmptyRatio
    ensures ratio != [] && |ratio| == n && Sum(ratio) > 0 ==> r.Split? && IsApportionment(total, ratio, r.counts)
  {
    var out: seq<nat>;
    if ratio == [] {
      out := UniformSplit(total, n);
    } else {
      if |ratio| != n { return LengthMismatch; }
      var sum := Total(ratio);
      if sum == 0 { return EmptyRatio; }
      out := LargestRemainder(total, ratio);
    }
    var s := Total(out);
    if s != total { return StripSumWrong; }
    r := Split(out);
  }

  method Total(xs: seq<nat>) returns (s: nat)
    ensures s == Sum(xs)
  {
    s := 0;
    for i := 0 to |xs|
      invariant s == Sum(xs[..i])
    {
      assert xs[..i + 1] == xs[..i] + [xs[i]];
      SumSnoc(xs[..i], xs[i]);
      s := s + xs[i];
    }
    assert xs[..|xs|] == xs;
  }

  method LargestRemainder(total: nat, ratio: seq<nat>) returns (out: seq<nat>)
    requires Sum(ratio) > 0
    ensures IsApportionment(total, ratio, out)
  {
    out := Floors(total, ratio);
    ghost var floors := out;
    var placed := Total(out);
    LeftOver(total, ratio);
    var diff := total - placed;
    var rests := Rests(total, ratio);
    var order := SortBySize(rests);
    EnoughPositive(rests, Sum(ratio), diff);
    BonusPositive(rests, order, diff);
    hide Sum;
    OrderApart(rests, order);
    for k := 0 to diff
      invariant |out| == |ratio| && Sum(out) == placed + k
      invariant forall i: nat :: i < |out| ==> out[i] == floors[i] + if i in order[..k] then 1 else 0
    {
      assert order[..k + 1] == order[..k] + [order[k]];
      assert order[k] !in order[..k];
      SumUpdate(out, order[k], out[order[k]] + 1);
      out := out[order[k] := out[order[k]] + 1];
    }
    Decided(total, ratio, rests, order, diff, out);
  }

  lemma OrderApart(f: seq<nat>, order: seq<nat>)
    requires SizeOrder(f, order)
    ensures forall k: nat :: k < |order| ==> order[k] !in order[..k]
  {
    forall i, j | 0 <= i < j < |order| ensures order[i] != order[j] {
      assert LargerFirst(f, order[i], order[j]);
    }
  }

  lemma Decided(total: nat, ratio: seq<nat>, rests: seq<nat>, order: seq<nat>, diff: nat, out: seq<nat>)
    requires Sum(ratio) > 0 && rests == Rests(total, ratio) && SizeOrder(rests, order) && diff <= |order|
    requires forall x: nat :: x < |rests| ==> x in order
    requires forall k :: 0 <= k < diff ==> rests[order[k]] > 0
    requires |out| == |ratio| && Sum(out) == total
    requires forall i: nat :: i < |out| ==> out[i] == Floor(total, ratio, i) + if i in order[..diff] then 1 else 0
    ensures IsApportionment(total, ratio, out)
  {
    forall i: nat | i < |out| && i in order[..diff] ensures Rest(total, ratio, i) > 0 {
      var k :| 0 <= k < diff && order[..diff][k] == i;
      assert rests[order[k]] > 0;
    }
    forall i: nat, j: nat | i < |out| && j < |out| && i in order[..diff] && j !in order[..diff]
      ensures LargerFirst(rests, i, j)
    {
      FrontFirst(rests, order, diff, i, j);
    }
    hide Sum, Floor, Rest, Rests, SizeOrder;
  }

  lemma FrontFirst(f: seq<nat>, order: seq<nat>, diff: nat, i: nat, j: nat)
    requires SizeOrder(f, order) && diff <= |order| && i in order[..diff] && j in order && j !in order[..diff]
    ensures i < |f| && j < |f| && LargerFirst(f, i, j)
  {
    assert forall m :: 0 <= m < diff ==> order[..diff][m] == order[m] && order[m] in order[..diff];
    var k :| 0 <= k < diff && order[..diff][k] == i;
    var l :| 0 <= l < |order| && order[l] == j;
    assert LargerFirst(f, order[k], order[l]);
  }

  // ---- consequences ------------------------------------------------------------------------

  /** counts exceed the floors by exactly the number of files with an extra block. */
  lemma {:induction false} BonusCount(total: nat, ratio: seq<nat>, counts: seq<nat>, n: nat)
    requires Sum(ratio) > 0 && |counts| == |ratio| && n <= |counts|
    requires forall i :: 0 <= i < |counts| ==> Floor(total, ratio, i) <= counts[i] <= Floor(total, ratio, i) + 1
    ensures Sum(counts[..n]) == Sum(Floors(total, ratio)[..n]) + |BonusBelow(total, ratio, counts, n)|
  {
    if n == 0 {
      assert BonusBelow(total, ratio, counts, 0) == {};
    } else {
      BonusCount(total, ratio, counts, n - 1);
      hide Floor, Sum;
      var fl := Floors(total, ratio);
      assert counts[..n] == counts[..n - 1] + [counts[n - 1]] && fl[..n] == fl[..n - 1] + [fl[n - 1]];
      SumSnoc(counts[..n - 1], counts[n - 1]);
      SumSnoc(fl[..n - 1], fl[n - 1]);
      BonusGrows(total, ratio, counts, n);
    }
  }

  lemma BonusGrows(total: nat, ratio: seq<nat>, counts: seq<nat>, n: nat)
    requires Sum(ratio) > 0 && |counts| == |ratio| && 1 <= n <= |counts|
    ensures |BonusBelow(total, ratio, counts, n)| ==
              |BonusBelow(total, ratio, counts, n - 1)| + if counts[n - 1] > Floor(total, ratio, n - 1) then 1 else 0
  {
    hide Floor, Sum;
    var less := BonusBelow(total, ratio, counts, n - 1);
    assert BonusBelow(total, ratio, counts, n) ==
             if counts[n - 1] > Floor(total, ratio, n - 1) then less + {n - 1} else less;
  }

  ghost function BonusBelow(total: nat, ratio: seq<nat>, counts: seq<nat>, n: nat): set<nat>
    requires Sum(ratio) > 0 && |counts| == |ratio| && n <= |counts|
  {
    set i: nat | i < n && counts[i] > Floor(total, ratio, i)
  }

  /** There is only one largest-remainder apportionment. */
  lemma ApportionmentIsUnique(total: nat, ratio: seq<nat>, a: seq<nat>, b: seq<nat>)
    requires Sum(ratio) > 0 && IsApportionment(total, ratio, a) && IsApportionment(total, ratio, b)
    ensures a == b
  {
    var n := |ratio|;
    BonusCount(total, ratio, a, n);
    BonusCount(total, ratio, b, n);
    assert a[..n] == a && b[..n] == b;
    var x, y := BonusBelow(total, ratio, a, n), BonusBelow(total, ratio, b, n);
    hide Sum, Floor, Rest, IsApportionment;
    if x != y {
      OtherMember(x, y);
      OtherMember(y, x);
      var i :| i in x && i !in y;
      var j :| j in y && j !in x;
      Ranked(total, ratio, a, i, j);
      Ranked(total, ratio, b, j, i);
    }
    forall i | 0 <= i < n ensures a[i] == b[i] {
      Either(total, ratio, a, i);
      Either(total, ratio, b, i);
      assert i in x <==> i in y;
    }
  }

  lemma {:induction false} SubsetEqual(x: set<nat>, y: set<nat>)
    requires x <= y && |x| == |y|
    ensures x == y
  {
    if x != {} {
      var e :| e in x;
      SubsetEqual(x - {e}, y - {e});
    }
  }

  lemma OtherMember(x: set<nat>, y: set<nat>)
    requires |x| == |y| && x != y
    ensures exists i :: i in x && i !in y
  {
    if x <= y { SubsetEqual(x, y); }
  }

  lemma Ranked(total: nat, ratio: seq<nat>, counts: seq<nat>, i: nat, j: nat)
    requires Sum(ratio) > 0 && IsApportionment(total, ratio, counts) && i < |counts| && j < |counts|
    requires counts[i] > Floor(total, ratio, i) && !(counts[j] > Floor(total, ratio, j))
    ensures LargerFirst(Rests(total, ratio), i, j)
  {
  }

  lemma Either(total: nat, ratio: seq<nat>, counts: seq<nat>, i: nat)
    requires Sum(ratio) > 0 && IsApportionment(total, ratio, counts) && i < |counts|
    ensures counts[i] == Floor(total, ratio, i) + if counts[i] > Floor(total, ratio, i) then 1 else 0
  {
  }

  lemma {:induction false} SumOnes(n: nat)
    ensures Sum(seq(n, _ => 1)) == n
  {
    if n > 0 {
      assert seq(n, _ => 1)[..n - 1] == seq(n - 1, _ => 1);
      SumOnes(n - 1);
    }
  }

  /** The uniform branch is the ratio branch with all ones. */
  lemma UniformIsAllOnes(total: nat, n: nat, counts: seq<nat>)
    requires n >= 1 && |counts| == n && Sum(counts) == total &&
               forall i :: 0 <= i < n ==> counts[i] == Uniform(total, n, i)
    ensures Sum(seq(n, _ => 1)) > 0 && IsApportionment(total, seq(n, _ => 1), counts)
  {
    SumOnes(n);
    var ones: seq<nat> := seq(n, _ => 1);
    forall i: nat | i < n ensures Floor(total, ones, i) == total / n && Rest(total, ones, i) == total % n {
      assert total * ones[i] == total;
    }
  }
}
