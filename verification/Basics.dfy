/** Facts about numbers, sets and lists that several modules use. */
module Basics {

  datatype Option<+T> = None | Some(value: T)

  function Sum(xs: seq<nat>): nat {
    if xs == [] then 0 else Sum(xs[..|xs| - 1]) + xs[|xs| - 1]
  }

  lemma {:induction false} SubsetSize(a: set<nat>, b: set<nat>)
    requires a <= b
    ensures |a| <= |b|
  {
    if a != {} {
      var x :| x in a;
      SubsetSize(a - {x}, b - {x});
    }
  }

  /** The numbers below m. */
  ghost function UpTo(m: nat): (r: set<nat>)
    ensures |r| == m && forall x: nat :: x in r <==> x < m
  {
    if m == 0 then {} else UpTo(m - 1) + {m - 1}
  }

  lemma MulMono(a: nat, b: nat, x: nat)
    requires a <= b
    ensures a * x <= b * x
  {
  }

  lemma Distribute(a: nat, b: nat, x: nat)
    ensures (a + b) * x == a * x + b * x && x * (a + b) == x * a + x * b
  {
  }

  lemma DivMul(a: nat, d: nat)
    requires d > 0
    ensures a / d * d <= a
  {
  }

  /** Inserting x at position j adds x and nothing else. */
  lemma InsertMembers<T>(xs: seq<T>, x: T, j: nat)
    requires j <= |xs|
    ensures forall v :: v in xs[..j] + [x] + xs[j..] <==> v in xs || v == x
  {
    var a, b := xs[..j], xs[j..];
    assert xs == a + b;
    assert forall v :: v in a + [x] + b <==> v in a || v == x || v in b;
  }

  /** The numbers off, off + 1, ..., off + size - 1. */
  ghost function Range(off: int, size: nat): (r: set<nat>)
    ensures off >= 0 ==> |r| == size && forall x: nat :: x in r <==> off <= x < off + size
  {
    if size == 0 || off < 0 then {} else Range(off, size - 1) + {off + size - 1}
  }

  /** Larger first, then lower index. */
  predicate LargerFirst(sizes: seq<nat>, x: nat, y: nat)
    requires x < |sizes| && y < |sizes|
  {
    sizes[x] > sizes[y] || (sizes[x] == sizes[y] && x < y)
  }

  ghost predicate SizeOrder(sizes: seq<nat>, order: seq<nat>) {
    && (forall i :: 0 <= i < |order| ==> order[i] < |sizes|)
    && forall i, j :: 0 <= i < j < |order| ==> LargerFirst(sizes, order[i], order[j])
  }

  /** std::sort of 0..C-1 by size descending, index ascending. */
  method SortBySize(sizes: seq<nat>) returns (order: seq<nat>)
    ensures SizeOrder(sizes, order) && |order| == |sizes| && forall x: nat :: x < |sizes| ==> x in order
  {
    order := [];
    for n := 0 to |sizes|
      invariant SizeOrder(sizes, order) && |order| == n && forall x: nat :: x in order <==> x < n
    {
      var j := |order|;
      while j > 0 && LargerFirst(sizes, n, order[j - 1])
        invariant 0 <= j <= |order| && forall i :: j <= i < |order| ==> LargerFirst(sizes, n, order[i])
      {
        j := j - 1;
      }
      InsertOrdered(sizes, order, n, j);
      order := order[..j] + [n] + order[j..];
    }
  }

  lemma InsertOrdered(sizes: seq<nat>, order: seq<nat>, n: nat, j: nat)
    requires SizeOrder(sizes, order) && j <= |order| && n < |sizes| && forall x: nat :: x in order <==> x < n
    requires (forall i :: j <= i < |order| ==> LargerFirst(sizes, n, order[i])) &&
               (j > 0 ==> !LargerFirst(sizes, n, order[j - 1]))
    ensures SizeOrder(sizes, order[..j] + [n] + order[j..])
    ensures forall x: nat :: x in order[..j] + [n] + order[j..] <==> x < n + 1
  {
    assert j > 0 ==> order[j - 1] in order && LargerFirst(sizes, order[j - 1], n);
    InsertMembers(order, n, j);
    var r := order[..j] + [n] + order[j..];
    forall a, b | 0 <= a < b < |r| ensures LargerFirst(sizes, r[a], r[b]) {
      if a < j && b == j { assert a == j - 1 || LargerFirst(sizes, order[a], order[j - 1]); }
    }
  }
}
