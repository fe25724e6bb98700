/** What more slots do to the hits of each replayed policy. LRU and OPT never lose;
    the lfu branch, which is first-in first-out, may lose between sizes s and t
    exactly when s < t < 2s - 1. */
module CacheSizes {
  import opened Basics
  import opened CacheSim

  // ---- remaining life in a first-in first-out cache ---------------------------------

  /** Position of k in c, or -1. */
  function At(c: seq<nat>, k: nat): (i: int)
    ensures -1 <= i < |c|
    ensures if i < 0 then k !in c else c[i] == k
  {
    if c == [] then -1
    else if c[|c| - 1] == k then |c| - 1
    else
      assert c == c[..|c| - 1] + [c[|c| - 1]];
      At(c[..|c| - 1], k)
  }

  /** How many further misses k survives in c, or -1 if it is not there. */
  function Life(c: seq<nat>, slots: nat, k: nat): int {
    if At(c, k) < 0 then -1 else At(c, k) + slots - |c|
  }

  lemma AtIs(c: seq<nat>, i: nat)
    requires Distinct(c) && i < |c|
    ensures At(c, c[i]) == i
  {
  }

  /** A miss takes one off every life and gives the new key a full one. */
  lemma MissAges(c: seq<nat>, slots: nat, key: nat, k: nat)
    requires Distinct(c) && |c| <= slots && slots >= 1 && key !in c
    ensures var after := FifoNext(c, slots, key);
            && Distinct(after) && |after| <= slots
            && Life(after, slots, key) == slots - 1
            && (k != key ==> Life(after, slots, k) == if Life(c, slots, k) > 0 then Life(c, slots, k) - 1 else -1)
  {
    var after := FifoNext(c, slots, key);
    AtIs(after, |after| - 1);
    if k != key && k in c {
      var i := At(c, k);
      if |c| < slots {
        AtIs(after, i);
      } else if i > 0 {
        AtIs(after, i - 1);
      } else {
        assert k !in after by {
          if j :| 0 <= j < |after| && after[j] == k { AtIs(c, j + 1); }
        }
      }
    } else if k != key {
      assert k !in after;
    }
  }

  /** Keys of c that l may lose before c does, when l is g misses behind. */
  ghost function Late(c: seq<nat>, s: nat, l: seq<nat>, t: nat, g: nat): set<nat> {
    set k | k in c && Life(l, t, k) < Life(c, s, k) + g
  }

  ghost predicate Caches(c: seq<nat>, s: nat, l: seq<nat>, t: nat) {
    && 1 <= s && 2 * s - 1 <= t
    && Distinct(c) && |c| <= s && Distinct(l) && |l| <= t
  }

  lemma LateWithin(c: seq<nat>, s: nat, l: seq<nat>, t: nat, g: nat)
    requires Distinct(c)
    ensures |Late(c, s, l, t, g)| <= |c|
  {
    DistinctSize(c);
    SubsetSize(Late(c, s, l, t, g), Elems(c));
  }

  /** The small cache hits, the large one misses: the gap closes by one, and the key is no longer late. */
  lemma LargeMisses(c: seq<nat>, s: nat, l: seq<nat>, t: nat, key: nat, g: nat)
    requires Caches(c, s, l, t) && key in c && key !in l && g <= s
    ensures key in Late(c, s, l, t, g)
    ensures g >= 1 ==> Late(c, s, FifoNext(l, t, key), t, g - 1) <= Late(c, s, l, t, g) - {key}
  {
    hide FifoNext, Distinct;
    if g >= 1 {
      var after := FifoNext(l, t, key);
      forall k | k in Late(c, s, after, t, g - 1) ensures k in Late(c, s, l, t, g) - {key} {
        MissAges(l, t, key, k);
      }
    }
  }

  /** Both miss: nothing gets later, except the new key when the gap is already s. */
  lemma BothMiss(c: seq<nat>, s: nat, l: seq<nat>, t: nat, key: nat, g: nat)
    requires Caches(c, s, l, t) && key !in c && key !in l && g < s
    ensures Late(FifoNext(c, s, key), s, FifoNext(l, t, key), t, g) <= Late(c, s, l, t, g)
  {
    hide Distinct;
    var c', l' := FifoNext(c, s, key), FifoNext(l, t, key);
    forall k | k in Late(c', s, l', t, g) ensures k in Late(c, s, l, t, g) {
      MissAges(l, t, key, k);
      MissAges(c, s, key, k);
    }
  }

  /** The small cache misses, the large one hits: at most the new key is later. */
  lemma SmallMisses(c: seq<nat>, s: nat, l: seq<nat>, t: nat, key: nat, g: nat)
    requires Caches(c, s, l, t) && key !in c && key in l
    ensures Late(FifoNext(c, s, key), s, l, t, g + 1) <= Late(c, s, l, t, g) + {key}
  {
    hide Distinct;
    var c' := FifoNext(c, s, key);
    forall k | k in Late(c', s, l, t, g + 1) ensures k in Late(c, s, l, t, g) + {key} {
      MissAges(c, s, key, k);
    }
  }

  /** One access: if at most g keys are late for a gap of g, the same holds of the new gap. */
  lemma GapStep(c: seq<nat>, s: nat, l: seq<nat>, t: nat, key: nat, g: nat) returns (g': nat)
    requires Caches(c, s, l, t) && g <= s && |Late(c, s, l, t, g)| <= g
    ensures var c', l' := FifoNext(c, s, key), FifoNext(l, t, key);
            && Caches(c', s, l', t) && g' <= s && |Late(c', s, l', t, g')| <= g'
            && g' + (if key in l then 0 else 1) <= g + if key in c then 0 else 1
  {
    hide Late, Distinct;
    var c', l' := FifoNext(c, s, key), FifoNext(l, t, key);
    if key !in c { MissAges(c, s, key, key); }
    if key !in l { MissAges(l, t, key, key); }
    g' := g;
    if key in c && key !in l {
      LargeMisses(c, s, l, t, key, g);
      g' := g - 1;
      SubsetSize(Late(c, s, l', t, g'), Late(c, s, l, t, g) - {key});
    } else if key !in c && key !in l {
      if g < s {
        BothMiss(c, s, l, t, key, g);
        SubsetSize(Late(c', s, l', t, g), Late(c, s, l, t, g));
      } else {
        LateWithin(c', s, l', t, g);
      }
    } else if key !in c {
      if g < s {
        SmallMisses(c, s, l, t, key, g);
        g' := g + 1;
        SubsetSize(Late(c', s, l, t, g'), Late(c, s, l, t, g) + {key});
      } else {
        LateWithin(c', s, l, t, g);
      }
    }
  }

  lemma {:induction false} HitGap(keys: seq<nat>, s: nat, t: nat, n: nat) returns (g: nat)
    requires 1 <= s && 2 * s - 1 <= t && n <= |keys|
    ensures Caches(FifoCache(keys, s, n), s, FifoCache(keys, t, n), t)
    ensures g <= s && |Late(FifoCache(keys, s, n), s, FifoCache(keys, t, n), t, g)| <= g
    ensures FifoHits(keys, s, n) + g <= FifoHits(keys, t, n)
  {
    if n == 0 {
      g := 0;
      assert Late([], s, [], t, 0) == {};
    } else {
      var before := HitGap(keys, s, t, n - 1);
      hide Late, Caches, FifoNext;
      g := GapStep(FifoCache(keys, s, n - 1), s, FifoCache(keys, t, n - 1), t, keys[n - 1], before);
    }
  }

  /** From 2s - 1 slots on the lfu branch never has fewer hits than with s. */
  lemma FifoMonotone(keys: seq<nat>, s: nat, t: nat, n: nat)
    requires 1 <= s && (t == s || 2 * s - 1 <= t) && n <= |keys|
    ensures FifoHits(keys, s, n) <= FifoHits(keys, t, n)
  {
    if t != s {
      var g := HitGap(keys, s, t, n);
    }
  }

  // ---- as many slots as keys ----------------------------------------------------------

  ghost function Seen(keys: seq<nat>, n: nat): set<nat>
    requires n <= |keys|
  {
    if n == 0 then {} else Seen(keys, n - 1) + {keys[n - 1]}
  }

  /** Every key misses once at least. */
  lemma {:induction false} ColdMisses(keys: seq<nat>, s: nat, n: nat)
    requires s >= 1 && n <= |keys|
    ensures Elems(FifoCache(keys, s, n)) <= Seen(keys, n)
    ensures FifoHits(keys, s, n) + |Seen(keys, n)| <= n
  {
    if n > 0 {
      ColdMisses(keys, s, n - 1);
      ElemsIn(FifoCache(keys, s, n - 1));
    }
  }

  lemma KeyAppended(c: seq<nat>, key: nat)
    requires Distinct(c) && key !in c
    ensures Distinct(c + [key]) && Elems(c + [key]) == Elems(c) + {key} && key !in Elems(c) && |Elems(c)| == |c|
  {
    DistinctSize(c);
    forall k ensures k in Elems(c + [key]) <==> k in Elems(c) || k == key {
      assert (c + [key])[|c|] == key;
      if k in Elems(c) {
        var i :| 0 <= i < |c| && c[i] == k;
        assert (c + [key])[i] == k;
      }
    }
  }

  /** With a slot for every key none is ever evicted. */
  lemma {:induction false} NoEviction(keys: seq<nat>, t: nat, n: nat)
    requires n <= |keys| && |Seen(keys, n)| <= t
    ensures Distinct(FifoCache(keys, t, n)) && Elems(FifoCache(keys, t, n)) == Seen(keys, n)
    ensures FifoHits(keys, t, n) + |Seen(keys, n)| == n
  {
    if n > 0 {
      SubsetSize(Seen(keys, n - 1), Seen(keys, n));
      NoEviction(keys, t, n - 1);
      var c, key := FifoCache(keys, t, n - 1), keys[n - 1];
      ElemsIn(c);
      hide Elems, Distinct;
      if key !in c {
        KeyAppended(c, key);
      } else {
        assert Seen(keys, n) == Seen(keys, n - 1);
      }
    }
  }

  /** A cache that holds every key is as good as any. */
  lemma EnoughSlots(keys: seq<nat>, s: nat, t: nat, n: nat)
    requires s >= 1 && n <= |keys| && |Seen(keys, n)| <= t
    ensures FifoHits(keys, s, n) <= FifoHits(keys, t, n)
  {
    ColdMisses(keys, s, n);
    NoEviction(keys, t, n);
  }

  // ---- the anomaly ----------------------------------------------------------------------

  function FromTo(lo: nat, hi: nat): (r: seq<nat>)
    requires lo <= hi
    ensures |r| == hi - lo && forall i :: 0 <= i < |r| ==> r[i] == lo + i
  {
    seq(hi - lo, i requires 0 <= i => lo + i)
  }

  /** The trace on which t slots do worse than s: t keys, the first t - s + 1 of them
      again, a new key, those again, s - 1 new keys, and the first new key again. */
  function Trace(s: nat, t: nat): seq<nat>
    requires 1 <= s <= t
  {
    FromTo(0, t) + FromTo(0, t - s + 1) + [t] + FromTo(0, t - s + 1) + FromTo(t + 1, t + s) + [t]
  }

  /** seg comes next at access n. */
  ghost predicate Comes(keys: seq<nat>, n: nat, seg: seq<nat>) {
    n + |seg| <= |keys| && keys[n..n + |seg|] == seg
  }

  /** After n accesses and h hits the cache holds the last keys of x, those it missed on. */
  ghost predicate Holds(keys: seq<nat>, slots: nat, n: nat, x: seq<nat>, h: nat) {
    n <= |keys| && FifoCache(keys, slots, n) == Newest(x, slots) && FifoHits(keys, slots, n) == h
  }

  ghost predicate AllMiss(x: seq<nat>, seg: seq<nat>, slots: nat) {
    forall i :: 0 <= i < |seg| ==> seg[i] !in Newest(x + seg[..i], slots)
  }

  ghost predicate AllHit(x: seq<nat>, seg: seq<nat>, slots: nat) {
    forall i :: 0 <= i < |seg| ==> seg[i] in Newest(x, slots)
  }

  lemma OneMore(x: seq<nat>, slots: nat, key: nat)
    requires slots >= 1 && key !in Newest(x, slots)
    ensures FifoNext(Newest(x, slots), slots, key) == Newest(x + [key], slots)
  {
  }

  lemma MissOne(keys: seq<nat>, slots: nat, n: nat, x: seq<nat>, h: nat, key: nat)
    requires slots >= 1 && Holds(keys, slots, n, x, h) && n < |keys| && keys[n] == key && key !in Newest(x, slots)
    ensures Holds(keys, slots, n + 1, x + [key], h)
  {
    OneMore(x, slots, key);
    hide Newest, FifoNext;
  }

  lemma {:induction false} MissUpTo(keys: seq<nat>, slots: nat, n: nat, x: seq<nat>, h: nat, seg: seq<nat>, m: nat)
    requires slots >= 1 && Holds(keys, slots, n, x, h) && Comes(keys, n, seg) && AllMiss(x, seg, slots) && m <= |seg|
    ensures Holds(keys, slots, n + m, x + seg[..m], h)
  {
    hide Holds, Newest;
    if m == 0 {
      assert x + seg[..0] == x;
    } else {
      MissUpTo(keys, slots, n, x, h, seg, m - 1);
      assert keys[n + m - 1] == keys[n..n + |seg|][m - 1];
      assert x + seg[..m] == x + seg[..m - 1] + [seg[m - 1]];
      MissOne(keys, slots, n + m - 1, x + seg[..m - 1], h, seg[m - 1]);
    }
  }

  /** A segment that misses throughout. */
  lemma Miss(keys: seq<nat>, slots: nat, n: nat, x: seq<nat>, h: nat, seg: seq<nat>)
    requires slots >= 1 && Holds(keys, slots, n, x, h) && Comes(keys, n, seg) && AllMiss(x, seg, slots)
    ensures Holds(keys, slots, n + |seg|, x + seg, h)
  {
    hide Holds, AllMiss, Comes;
    MissUpTo(keys, slots, n, x, h, seg, |seg|);
    assert seg[..|seg|] == seg;
  }

  lemma {:induction false} HitUpTo(keys: seq<nat>, slots: nat, n: nat, x: seq<nat>, h: nat, seg: seq<nat>, m: nat)
    requires Holds(keys, slots, n, x, h) && Comes(keys, n, seg) && AllHit(x, seg, slots) && m <= |seg|
    ensures Holds(keys, slots, n + m, x, h + m)
  {
    hide Newest;
    if m > 0 {
      HitUpTo(keys, slots, n, x, h, seg, m - 1);
      assert keys[n + m - 1] == keys[n..n + |seg|][m - 1];
    }
  }

  /** A segment that hits throughout. */
  lemma Hit(keys: seq<nat>, slots: nat, n: nat, x: seq<nat>, h: nat, seg: seq<nat>)
    requires Holds(keys, slots, n, x, h) && Comes(keys, n, seg) && AllHit(x, seg, slots)
    ensures Holds(keys, slots, n + |seg|, x, h + |seg|)
  {
    HitUpTo(keys, slots, n, x, h, seg, |seg|);
  }

  lemma Segments(s: nat, t: nat)
    requires 1 <= s <= t
    ensures Parts(Trace(s, t), FromTo(0, t), FromTo(0, t - s + 1), [t], FromTo(t + 1, t + s))
  {
  }

  lemma NotNewest(x: seq<nat>, slots: nat, key: nat)
    requires forall j :: 0 <= j < |x| && |x| - slots <= j ==> x[j] != key
    ensures key !in Newest(x, slots)
  {
  }

  lemma InNewest(x: seq<nat>, slots: nat, j: nat)
    requires j < |x| && |x| - slots <= j
    ensures x[j] in Newest(x, slots)
  {
    var r := Newest(x, slots);
    assert r[j - (|x| - |r|)] == x[j];
  }

  lemma FirstMiss(slots: nat, n: nat)
    ensures AllMiss([], FromTo(0, n), slots)
  {
    forall i | 0 <= i < n ensures FromTo(0, n)[i] !in Newest([] + FromTo(0, n)[..i], slots) {
      NotNewest([] + FromTo(0, n)[..i], slots, i);
    }
  }

  /** s slots have lost the oldest of t keys, and lose the next one at each return. */
  lemma OldMiss(s: nat, t: nat)
    requires s < t
    ensures AllMiss(FromTo(0, t), FromTo(0, t - s + 1), s)
  {
    var seg := FromTo(0, t - s + 1);
    forall i | 0 <= i < |seg| ensures seg[i] !in Newest(FromTo(0, t) + seg[..i], s) {
      NotNewest(FromTo(0, t) + seg[..i], s, i);
    }
  }

  lemma NewMiss(x: seq<nat>, slots: nat, lo: nat, hi: nat)
    requires lo <= hi && forall j :: 0 <= j < |x| ==> x[j] < lo
    ensures AllMiss(x, FromTo(lo, hi), slots)
  {
    var seg := FromTo(lo, hi);
    forall i | 0 <= i < |seg| ensures seg[i] !in Newest(x + seg[..i], slots) {
      NotNewest(x + seg[..i], slots, lo + i);
    }
  }

  lemma OneMiss(x: seq<nat>, slots: nat, key: nat)
    requires key !in Newest(x, slots)
    ensures AllMiss(x, [key], slots)
  {
    assert x + [key][..0] == x;
  }

  lemma HitsAre(keys: seq<nat>, slots: nat, n: nat, x: seq<nat>, h: nat)
    requires Holds(keys, slots, n, x, h)
    ensures n <= |keys| && FifoHits(keys, slots, n) == h
  {
  }

  lemma Start(keys: seq<nat>, slots: nat)
    ensures Holds(keys, slots, 0, [], 0)
  {
  }

  /** The trace is made of first, again, turn, again, news and turn. */
  ghost predicate Parts(keys: seq<nat>, first: seq<nat>, again: seq<nat>, turn: seq<nat>, news: seq<nat>) {
    var p, q := |first| + |again| + |turn|, |first| + |again| + |turn| + |again| + |news|;
    && |keys| == q + |turn|
    && Comes(keys, 0, first) && Comes(keys, |first|, again) && Comes(keys, |first| + |again|, turn)
    && Comes(keys, p, again) && Comes(keys, p + |again|, news) && Comes(keys, q, turn)
  }

  /** A small cache that misses on all but the second again and the last turn. */
  lemma SmallPath(keys: seq<nat>, s: nat, first: seq<nat>, again: seq<nat>, turn: seq<nat>, news: seq<nat>)
    requires s >= 1 && Parts(keys, first, again, turn, news)
    requires AllMiss([], first, s) && AllMiss(first, again, s) && AllMiss(first + again, turn, s)
    requires AllHit(first + again + turn, again, s) && AllMiss(first + again + turn, news, s)
    requires AllHit(first + again + turn + news, turn, s)
    ensures FifoHits(keys, s, |keys|) == |again| + |turn|
  {
    hide AllMiss, AllHit, Holds, Comes, FifoHits;
    Start(keys, s);
    Miss(keys, s, 0, [], 0, first);
    assert [] + first == first;
    Miss(keys, s, |first|, first, 0, again);
    Miss(keys, s, |first| + |again|, first + again, 0, turn);
    var p, x := |first| + |again| + |turn|, first + again + turn;
    Hit(keys, s, p, x, 0, again);
    Miss(keys, s, p + |again|, x, |again|, news);
    Hit(keys, s, p + |again| + |news|, x + news, |again|, turn);
    HitsAre(keys, s, |keys|, x + news, |again| + |turn|);
  }

  /** A large cache that misses on all but the first again. */
  lemma LargePath(keys: seq<nat>, t: nat, first: seq<nat>, again: seq<nat>, turn: seq<nat>, news: seq<nat>)
    requires t >= 1 && Parts(keys, first, again, turn, news)
    requires AllMiss([], first, t) && AllHit(first, again, t) && AllMiss(first, turn, t)
    requires AllMiss(first + turn, again, t) && AllMiss(first + turn + again, news, t)
    requires AllMiss(first + turn + again + news, turn, t)
    ensures FifoHits(keys, t, |keys|) == |again|
  {
    hide AllMiss, AllHit, Holds, Comes, FifoHits;
    Start(keys, t);
    Miss(keys, t, 0, [], 0, first);
    assert [] + first == first;
    Hit(keys, t, |first|, first, 0, again);
    Miss(keys, t, |first| + |again|, first, |again|, turn);
    var p, x := |first| + |again| + |turn|, first + turn;
    Miss(keys, t, p, x, |again|, again);
    Miss(keys, t, p + |again|, x + again, |again|, news);
    Miss(keys, t, p + |again| + |news|, x + again + news, |again|, turn);
    HitsAre(keys, t, |keys|, x + again + news + turn, |again|);
  }

  lemma SmallKeeps(s: nat, t: nat)
    requires s < t < 2 * s - 1
    ensures var x := FromTo(0, t) + FromTo(0, t - s + 1) + [t];
            && AllHit(x, FromTo(0, t - s + 1), s) && AllMiss(x, FromTo(t + 1, t + s), s)
            && AllHit(x + FromTo(t + 1, t + s), [t], s)
  {
    var a := t - s + 1;
    var x := FromTo(0, t) + FromTo(0, a) + [t];
    forall i | 0 <= i < a ensures FromTo(0, a)[i] in Newest(x, s) {
      InNewest(x, s, t + i);
    }
    NewMiss(x, s, t + 1, t + s);
    InNewest(x + FromTo(t + 1, t + s), s, t + a);
  }

  /** With s slots only the second repetition and the last key hit. */
  lemma SmallHits(s: nat, t: nat)
    requires s < t < 2 * s - 1
    ensures FifoHits(Trace(s, t), s, |Trace(s, t)|) == t - s + 2
  {
    var first, again, news := FromTo(0, t), FromTo(0, t - s + 1), FromTo(t + 1, t + s);
    FirstMiss(s, t);
    OldMiss(s, t);
    NotNewest(first + again, s, t);
    OneMiss(first + again, s, t);
    SmallKeeps(s, t);
    Segments(s, t);
    hide AllMiss, AllHit, FifoHits, Parts, Trace;
    SmallPath(Trace(s, t), s, first, again, [t], news);
  }

  /** After the new key t slots lose the old ones one after the other, and at last the new key. */
  lemma LargeLoses(s: nat, t: nat)
    requires s < t < 2 * s - 1
    ensures var x, a := FromTo(0, t) + [t], t - s + 1;
            && AllMiss(x, FromTo(0, a), t) && AllMiss(x + FromTo(0, a), FromTo(t + 1, t + s), t)
            && AllMiss(x + FromTo(0, a) + FromTo(t + 1, t + s), [t], t)
  {
    var x, a := FromTo(0, t) + [t], t - s + 1;
    forall i | 0 <= i < a ensures FromTo(0, a)[i] !in Newest(x + FromTo(0, a)[..i], t) {
      NotNewest(x + FromTo(0, a)[..i], t, i);
    }
    NewMiss(x + FromTo(0, a), t, t + 1, t + s);
    NotNewest(x + FromTo(0, a) + FromTo(t + 1, t + s), t, t);
    OneMiss(x + FromTo(0, a) + FromTo(t + 1, t + s), t, t);
  }

  lemma LargeHolds(t: nat, a: nat)
    requires a <= t
    ensures AllHit(FromTo(0, t), FromTo(0, a), t) && AllMiss(FromTo(0, t), [t], t)
  {
    forall i | 0 <= i < a ensures FromTo(0, a)[i] in Newest(FromTo(0, t), t) {
      InNewest(FromTo(0, t), t, i);
    }
    NotNewest(FromTo(0, t), t, t);
    OneMiss(FromTo(0, t), t, t);
  }

  /** With t slots only the first repetition hits. */
  lemma LargeHits(s: nat, t: nat)
    requires s < t < 2 * s - 1
    ensures FifoHits(Trace(s, t), t, |Trace(s, t)|) == t - s + 1
  {
    var first, again, news := FromTo(0, t), FromTo(0, t - s + 1), FromTo(t + 1, t + s);
    FirstMiss(t, t);
    LargeHolds(t, t - s + 1);
    LargeLoses(s, t);
    Segments(s, t);
    hide AllMiss, AllHit, FifoHits, Parts, Trace;
    LargePath(Trace(s, t), t, first, again, [t], news);
  }

  /** No trace has fewer lfu hits with t slots than with s. */
  ghost predicate NeverWorse(s: nat, t: nat) {
    forall keys: seq<nat>, n: nat :: n <= |keys| ==> FifoHits(keys, s, n) <= FifoHits(keys, t, n)
  }

  /** Belady's anomaly of the lfu branch: enlarging the pool from s to t slots can cost
      hits exactly when s < t < 2s - 1. */
  lemma LfuNeverWorseIff(s: nat, t: nat)
    requires 1 <= s <= t
    ensures NeverWorse(s, t) <==> t == s || 2 * s - 1 <= t
  {
    if t == s || 2 * s - 1 <= t {
      forall keys: seq<nat>, n: nat | n <= |keys| ensures FifoHits(keys, s, n) <= FifoHits(keys, t, n) {
        FifoMonotone(keys, s, t, n);
      }
    } else {
      SmallHits(s, t);
      LargeHits(s, t);
      var keys := Trace(s, t);
      assert FifoHits(keys, s, |keys|) > FifoHits(keys, t, |keys|);
    }
  }

  // ---- OPT ------------------------------------------------------------------------------------

  /** With a larger cache that holds as much, OPT gets as many hits. */
  lemma {:induction false} BestGrows(keys: seq<nat>, s: nat, t: nat, i: nat, c: set<nat>, l: set<nat>)
    requires 1 <= s <= t && c <= l && |c| <= s && |l| <= t
    ensures Best(keys, s, i, c) <= Best(keys, t, i, l)
    decreases |keys| - i
  {
    if i < |keys| {
      var k := keys[i];
      if k in c {
        BestGrows(keys, s, t, i + 1, c, l);
      } else if k in l {
        var c' := SmallMiss(keys, s, i, c);
        BestGrows(keys, s, t, i + 1, c', l);
      } else {
        var c' := SmallMiss(keys, s, i, c);
        var l' := LargeMiss(keys, t, i, l, c, c');
        BestGrows(keys, s, t, i + 1, c', l');
      }
    }
  }

  /** The small cache after a miss that OPT makes. */
  lemma SmallMiss(keys: seq<nat>, s: nat, i: nat, c: set<nat>) returns (c': set<nat>)
    requires s >= 1 && i < |keys| && keys[i] !in c && |c| <= s
    ensures Best(keys, s, i, c) == Best(keys, s, i + 1, c')
    ensures |c'| <= s && keys[i] in c' && c' - {keys[i]} <= c && (c' - {keys[i]} != c ==> |c| == s)
  {
    if |c| < s {
      c' := c + {keys[i]};
    } else {
      var w := BestOfVictims(keys, s, i, c);
      c' := c - {w} + {keys[i]};
    }
  }

  /** The large cache can follow it: the same victim, or one the small cache does not hold. */
  lemma LargeMiss(keys: seq<nat>, t: nat, i: nat, l: set<nat>, c: set<nat>, c': set<nat>) returns (l': set<nat>)
    requires t >= 1 && i < |keys| && keys[i] !in l && c <= l && |l| <= t
    requires keys[i] in c' && c' - {keys[i]} <= c && |c'| <= t
    ensures Best(keys, t, i, l) >= Best(keys, t, i + 1, l') && c' <= l' && |l'| <= t
  {
    var k := keys[i];
    if |l| < t {
      l' := l + {k};
    } else {
      assert |c' - {k}| == |c'| - 1;
      assert l - (c' - {k}) != {} by {
        if l - (c' - {k}) == {} { SubsetSize(l, c' - {k}); }
      }
      var v :| v in l && v !in c' - {k};
      var w := BestOfVictims(keys, t, i, l);
      l' := l - {v} + {k};
    }
  }

  /** More slots never cost OPT a hit. */
  lemma OptMonotone(keys: seq<nat>, s: nat, t: nat)
    requires 1 <= s <= t
    ensures Best(keys, s, 0, {}) <= Best(keys, t, 0, {})
  {
    BestGrows(keys, s, t, 0, {}, {});
  }

  // ---- the table ----------------------------------------------------------------------------------

  datatype Row = Row(slots: nat, lru: nat, lfu: nat, est1: nat, opt: nat)

  ghost predicate RowOk(keys: seq<nat>, row: Row) {
    && row.slots >= 1 && row.opt == Best(keys, row.slots, 0, {})
    && row.lru == LruHits(keys, row.slots, |keys|) && row.lfu == FifoHits(keys, row.slots, |keys|)
    && row.lru <= row.opt && row.lfu <= row.opt && row.est1 <= row.opt
  }

  /** Two rows of growing pool size: LRU and OPT do not fall, and the lfu column does not
      either if the pool has at least doubled less one, or holds every key. */
  lemma RowsCompare(keys: seq<nat>, a: Row, b: Row)
    requires RowOk(keys, a) && RowOk(keys, b) && a.slots <= b.slots
    ensures a.lru <= b.lru && a.opt <= b.opt
    ensures 2 * a.slots - 1 <= b.slots || |Seen(keys, |keys|)| <= b.slots ==> a.lfu <= b.lfu
  {
    LruHitsMonotone(keys, |keys|, a.slots, b.slots);
    OptMonotone(keys, a.slots, b.slots);
    if 2 * a.slots - 1 <= b.slots { FifoMonotone(keys, a.slots, b.slots, |keys|); }
    if |Seen(keys, |keys|)| <= b.slots { EnoughSlots(keys, a.slots, b.slots, |keys|); }
  }

  method OneRow(keys: seq<nat>, s: nat, score: (nat, int) -> real) returns (row: Row)
    requires s >= 1 && |keys| <= NEVER
    ensures RowOk(keys, row) && row.slots == s
  {
    ghost var caches;
    var lru, lfu, est1;
    lru, caches := Replay(Lru, keys, s, score);
    lfu, caches := Replay(Lfu, keys, s, score);
    est1, caches := Replay(Est1, keys, s, score);
    var opt := ReplayOpt(keys, s);
    row := Row(s, lru, lfu, est1, opt);
  }

  lemma MultiplesCompare(keys: seq<nat>, step: nat, i: nat, j: nat, a: Row, b: Row)
    requires step >= 1 && i < j && a.slots == step * (i + 1) && b.slots == step * (j + 1) && RowOk(keys, a) &&
               RowOk(keys, b)
    ensures a.slots < b.slots && a.lru <= b.lru && a.opt <= b.opt
    ensures 2 * i < j ==> a.lfu <= b.lfu
  {
    hide RowOk;
    MulMono(i + 1, j, step);
    Distribute(j, 1, step);
    if 2 * i < j {
      MulMono(2 * (i + 1), j + 1, step);
      assert 2 * (i + 1) * step == 2 * a.slots;
    }
    RowsCompare(keys, a, b);
  }

  /** The sixteen pool sizes, and the hits of the four policies at each. */
  method Table(keys: seq<nat>, uniqueExperts: nat, score: (nat, int) -> real) returns (rows: seq<Row>)
    requires |keys| <= NEVER
    ensures |rows| == 16 && forall i :: 0 <= i < 16 ==> RowOk(keys, rows[i])
    ensures forall i, j :: 0 <= i < j < 16 ==>
              rows[i].slots < rows[j].slots && rows[i].lru <= rows[j].lru && rows[i].opt <= rows[j].opt
    ensures forall i, j :: 0 <= i < j < 16 && 2 * i < j ==> rows[i].lfu <= rows[j].lfu
  {
    hide RowOk;
    var step := if uniqueExperts / 16 > 1 then uniqueExperts / 16 else 1;
    rows := [];
    for n := 0 to 16
      invariant |rows| == n
      invariant forall i :: 0 <= i < n ==> rows[i].slots == step * (i + 1) && RowOk(keys, rows[i])
    {
      var row := OneRow(keys, step * (n + 1), score);
      rows := rows + [row];
    }
    forall i: nat, j: nat | i < j < 16
      ensures rows[i].slots < rows[j].slots && rows[i].lru <= rows[j].lru && rows[i].opt <= rows[j].opt
      ensures 2 * i < j ==> rows[i].lfu <= rows[j].lfu
    {
      MultiplesCompare(keys, step, i, j, rows[i], rows[j]);
    }
  }
}
