/** Trace replay of the slot pool under LRU, LFU, EST1 and Belady's OPT. A JS Map
    is a sequence of (key, value) cells in insertion order. */
module CacheSim {

  /** What optNext holds for a key that is not used again. */
  const NEVER: nat := 2147483647

  datatype Cell = Cell(key: nat, val: nat)

  datatype Policy = Lru | Lfu | Est1

  // ---- insertion-ordered maps ------------------------------------------------

  /** Index of `key`, or |mm|. */
  function Find(mm: seq<Cell>, key: nat): (j: nat)
    ensures j <= |mm| && (j < |mm| ==> mm[j].key == key)
    ensures forall i :: 0 <= i < j ==> mm[i].key != key
  {
    if mm == [] || mm[0].key == key then 0 else 1 + Find(mm[1..], key)
  }

  function Put(mm: seq<Cell>, key: nat, val: nat): seq<Cell> {
    var j := Find(mm, key);
    if j < |mm| then mm[j := Cell(key, val)] else mm + [Cell(key, val)]
  }

  function Delete(mm: seq<Cell>, key: nat): seq<Cell> {
    var j := Find(mm, key);
    if j < |mm| then mm[..j] + mm[j + 1..] else mm
  }

  function Order(mm: seq<Cell>): (ks: seq<nat>)
    ensures |ks| == |mm| && forall i :: 0 <= i < |mm| ==> ks[i] == mm[i].key
  {
    seq(|mm|, i requires 0 <= i < |mm| => mm[i].key)
  }

  ghost predicate Distinct(ks: seq<nat>) {
    forall i, j :: 0 <= i < j < |ks| ==> ks[i] != ks[j]
  }

  function Elems(ks: seq<nat>): set<nat> {
    set i | 0 <= i < |ks| :: ks[i]
  }

  /** Keys without one key. */
  function Drop(ks: seq<nat>, key: nat): (r: seq<nat>)
    ensures forall x :: x in r <==> x in ks && x != key
    ensures Distinct(ks) ==> Distinct(r) && |r| == |ks| - (if key in ks then 1 else 0)
  {
    if ks == [] then [] else
      var r := Drop(ks[1..], key);
      assert Distinct(ks) ==> Distinct(ks[1..]) && ks[0] !in ks[1..];
      if ks[0] == key then r else [ks[0]] + r
  }

  lemma {:induction false} DropPlaced(ks: seq<nat>, j: nat)
    requires Distinct(ks) && j < |ks|
    ensures Drop(ks, ks[j]) == ks[..j] + ks[j + 1..]
  {
    if j == 0 {
      DropAbsent(ks[1..], ks[0]);
    } else {
      DropPlaced(ks[1..], j - 1);
      assert ks[1..][..j - 1] == ks[1..j] && ks[1..][j..] == ks[j + 1..];
      assert ks[..j] == [ks[0]] + ks[1..j];
    }
  }

  lemma {:induction false} DropAbsent(ks: seq<nat>, key: nat)
    requires key !in ks
    ensures Drop(ks, key) == ks
  {
    if ks != [] {
      DropAbsent(ks[1..], key);
    }
  }

  lemma {:induction false} DistinctSize(ks: seq<nat>)
    requires Distinct(ks)
    ensures |Elems(ks)| == |ks| && forall x :: x in Elems(ks) <==> x in ks
  {
    if ks != [] {
      DistinctSize(ks[1..]);
      assert Elems(ks) == {ks[0]} + Elems(ks[1..]);
      assert ks[0] !in ks[1..];
    }
  }

  lemma OrderOps(mm: seq<Cell>, key: nat, val: nat)
    requires Distinct(Order(mm))
    ensures Find(mm, key) < |mm| <==> key in Order(mm)
    ensures Order(Delete(mm, key)) == Drop(Order(mm), key)
    ensures Order(Put(mm, key, val)) == if key in Order(mm) then Order(mm) else Order(mm) + [key]
  {
    hide Distinct, Drop;
    var j := Find(mm, key);
    var ks := Order(mm);
    if j < |mm| {
      assert ks[j] == key;
      DropPlaced(ks, j);
      assert Order(Delete(mm, key)) == ks[..j] + ks[j + 1..];
      assert Order(Put(mm, key, val)) == ks;
    } else {
      assert key !in ks;
      DropAbsent(ks, key);
      assert Order(Put(mm, key, val)) == ks + [key];
    }
  }

  // ---- demand paging ------------------------------------------------------------

  /** One access of a demand-paging cache: a hit changes nothing, a miss admits
      the key and evicts one arbitrary resident only when the cache is full. */
  ghost predicate Access(slots: nat, c: set<nat>, key: nat, c': set<nat>) {
    if key in c then c' == c
    else if |c| < slots then c' == c + {key}
    else exists v :: v in c && c' == c - {v} + {key}
  }

  /** caches[i] is the cache before access i of a demand-paging run over all of keys. */
  ghost predicate DemandRun(keys: seq<nat>, slots: nat, caches: seq<set<nat>>) {
    && 1 <= |caches| <= |keys| + 1 && caches[0] == {}
    && forall i :: 0 <= i < |caches| - 1 ==> Access(slots, caches[i], keys[i], caches[i + 1])
  }

  /** Hits among accesses i, i + 1, ... of a run. */
  ghost function HitsFrom(keys: seq<nat>, caches: seq<set<nat>>, i: nat): nat
    requires |caches| <= |keys| + 1
    decreases |caches| - i
  {
    if i + 1 >= |caches| then 0
    else (if keys[i] in caches[i] then 1 else 0) + HitsFrom(keys, caches, i + 1)
  }

  /** The most hits any demand-paging policy can get from access i on with cache c. */
  ghost function Best(keys: seq<nat>, slots: nat, i: nat, c: set<nat>): nat
    decreases |keys| - i, 0, 0
  {
    if i >= |keys| then 0
    else if keys[i] in c then 1 + Best(keys, slots, i + 1, c)
    else if |c| < slots then Best(keys, slots, i + 1, c + {keys[i]})
    else BestOver(keys, slots, i + 1, c, keys[i], c)
  }

  /** The best of evicting one of `victims` from c for key. */
  ghost function BestOver(keys: seq<nat>, slots: nat, i: nat, c: set<nat>, key: nat, victims: set<nat>): nat
    decreases |keys| - i, 1, |victims|
  {
    if victims == {} then 0 else
      var v :| v in victims;
      var one := Best(keys, slots, i, c - {v} + {key});
      var others := BestOver(keys, slots, i, c, key, victims - {v});
      if one > others then one else others
  }

  lemma {:induction false} BestOverIsMax(keys: seq<nat>, slots: nat, i: nat, c: set<nat>, key: nat, victims: set<nat>)
    returns (w: nat)
    requires victims != {}
    ensures w in victims && BestOver(keys, slots, i, c, key, victims) == Best(keys, slots, i, c - {w} + {key})
    ensures forall v ::
              v in victims ==> BestOver(keys, slots, i, c, key, victims) >= Best(keys, slots, i, c - {v} + {key})
    decreases |victims|
  {
    hide Best;
    var m := BestOver(keys, slots, i, c, key, victims);
    var x :| x in victims && m == (var one := Best(keys, slots, i, c - {x} + {key});
                                   var others := BestOver(keys, slots, i, c, key, victims - {x});
                                   if one > others then one else others);
    w := x;
    if victims - {x} != {} {
      var y := BestOverIsMax(keys, slots, i, c, key, victims - {x});
      if m != Best(keys, slots, i, c - {x} + {key}) { w := y; }
    }
  }

  /** On a miss with a full cache Best is reached by some victim and exceeded by none. */
  lemma BestOfVictims(keys: seq<nat>, slots: nat, i: nat, c: set<nat>) returns (w: nat)
    requires slots >= 1 && i < |keys| && keys[i] !in c && |c| >= slots
    ensures w in c && Best(keys, slots, i, c) == Best(keys, slots, i + 1, c - {w} + {keys[i]})
    ensures forall v :: v in c ==> Best(keys, slots, i, c) >= Best(keys, slots, i + 1, c - {v} + {keys[i]})
  {
    w := BestOverIsMax(keys, slots, i + 1, c, keys[i], c);
  }

  /** Best is an upper bound for every demand-paging run. */
  lemma {:induction false} NoRunBeatsBest(keys: seq<nat>, slots: nat, caches: seq<set<nat>>, i: nat)
    requires slots >= 1 && DemandRun(keys, slots, caches) && i < |caches|
    ensures HitsFrom(keys, caches, i) <= Best(keys, slots, i, caches[i])
    decreases |caches| - i
  {
    if i + 1 < |caches| {
      NoRunBeatsBest(keys, slots, caches, i + 1);
      assert Access(slots, caches[i], keys[i], caches[i + 1]);
      if keys[i] !in caches[i] && |caches[i]| >= slots {
        var w := BestOfVictims(keys, slots, i, caches[i]);
        var v :| v in caches[i] && caches[i + 1] == caches[i] - {v} + {keys[i]};
      }
    }
  }

  // ---- Belady --------------------------------------------------------------------

  /** First access at or after i of key k, or NEVER. */
  function NextUse(keys: seq<nat>, i: nat, k: nat): (n: nat)
    requires |keys| <= NEVER
    ensures i <= n || n == NEVER
    ensures n == NEVER || (n < |keys| && keys[n] == k)
    decreases |keys| - i
  {
    if i >= |keys| then NEVER else if keys[i] == k then i else NextUse(keys, i + 1, k)
  }

  lemma BestOfHit(keys: seq<nat>, slots: nat, i: nat, c: set<nat>)
    requires slots >= 1 && i < |keys| && keys[i] in c
    ensures Best(keys, slots, i, c) == 1 + Best(keys, slots, i + 1, c)
  {
  }

  /** Evicting the odd key p out of a + {p}. */
  lemma EvictOdd(a: set<nat>, p: nat, k: nat)
    requires p !in a
    ensures a + {p} - {p} + {k} == a + {k} && |a + {p}| == |a| + 1
  {
    assert a + {p} - {p} == a;
  }

  /** Evicting a common key w out of a + {p}. */
  lemma EvictCommon(a: set<nat>, p: nat, w: nat, k: nat)
    requires p !in a && w in a && k !in a && k != p
    ensures var b := a - {w} + {k}; a + {p} - {w} + {k} == b + {p} && |b| == |a| && p !in b && w !in b
  {
  }

  /** Admitting p itself while evicting w out of a + {q}. */
  lemma Trade(a: set<nat>, p: nat, q: nat, w: nat)
    requires p !in a && q !in a && p != q && w in a
    ensures var b := a - {w} + {p};
            && a + {q} - {w} + {p} == b + {q} && a + {p} == b + {w}
            && |b| == |a| && w !in b && q !in b
  {
  }

  /** Two full caches that differ in one key differ by at most one hit. */
  lemma {:induction false} OneKeyOneHit(keys: seq<nat>, slots: nat, i: nat, a: set<nat>, p: nat, q: nat)
    requires slots >= 1 && |a| + 1 == slots && p !in a && q !in a
    ensures Best(keys, slots, i, a + {p}) + 1 >= Best(keys, slots, i, a + {q})
    decreases |keys| - i
  {
    if i < |keys| && p != q {
      var k := keys[i];
      var x, y := a + {p}, a + {q};
      EvictOdd(a, p, k);
      EvictOdd(a, q, k);
      if k in a {
        BestOfHit(keys, slots, i, x);
        BestOfHit(keys, slots, i, y);
        OneKeyOneHit(keys, slots, i + 1, a, p, q);
      } else if k == q {
        hide Best;
        BestOfHit(keys, slots, i, y);
        var w := BestOfVictims(keys, slots, i, x);
        assert x - {p} + {k} == y;
      } else {
        MissMiss(keys, slots, i, a, p, q, 1);
      }
    }
  }

  /** Both step lemmas in the case that the second cache misses: d is the allowed loss. */
  lemma {:induction false} MissMiss(keys: seq<nat>, slots: nat, i: nat, a: set<nat>, p: nat, q: nat, d: nat)
    requires slots >= 1 && |a| + 1 == slots && p !in a && q !in a && p != q && i < |keys|
    requires keys[i] !in a && keys[i] != q && d <= 1
    requires d == 0 ==> |keys| <= NEVER && NextUse(keys, i, p) <= NextUse(keys, i, q)
    ensures Best(keys, slots, i, a + {p}) + d >= Best(keys, slots, i, a + {q})
    decreases |keys| - i, 0
  {
    var k := keys[i];
    var x, y := a + {p}, a + {q};
    EvictOdd(a, p, k);
    EvictOdd(a, q, k);
    hide Best;
    var w := BestOfVictims(keys, slots, i, y);
    if k == p {
      BestOfHit(keys, slots, i, x);
      if w != q {
        Trade(a, p, q, w);
        OneKeyOneHit(keys, slots, i + 1, a - {w} + {k}, w, q);
      }
    } else {
      var u := BestOfVictims(keys, slots, i, x);
      assert Best(keys, slots, i, x) >= Best(keys, slots, i + 1, x - {p} + {k});
      if w != q {
        EvictCommon(a, p, w, k);
        EvictCommon(a, q, w, k);
        assert Best(keys, slots, i, x) >= Best(keys, slots, i + 1, x - {w} + {k});
        if d == 1 {
          OneKeyOneHit(keys, slots, i + 1, a - {w} + {k}, p, q);
        } else {
          KeepTheSooner(keys, slots, i + 1, a - {w} + {k}, p, q);
        }
      }
    }
  }

  /** Exchange: of two keys, keeping the one used sooner is never worse. */
  lemma {:induction false} KeepTheSooner(keys: seq<nat>, slots: nat, i: nat, a: set<nat>, p: nat, q: nat)
    requires slots >= 1 && |a| + 1 == slots && p !in a && q !in a && |keys| <= NEVER
    requires NextUse(keys, i, p) <= NextUse(keys, i, q)
    ensures Best(keys, slots, i, a + {p}) >= Best(keys, slots, i, a + {q})
    decreases |keys| - i
  {
    if i < |keys| && p != q {
      var k := keys[i];
      if k in a {
        BestOfHit(keys, slots, i, a + {p});
        BestOfHit(keys, slots, i, a + {q});
        KeepTheSooner(keys, slots, i + 1, a, p, q);
      } else {
        MissMiss(keys, slots, i, a, p, q, 0);
      }
    }
  }

  /** Evicting far instead of w is never worse. */
  lemma FarIsNoWorse(keys: seq<nat>, slots: nat, i: nat, c: set<nat>, far: nat, w: nat)
    requires slots >= 1 && |keys| <= NEVER && i < |keys| && keys[i] !in c && |c| == slots && far in c && w in c &&
               w != far
    requires NextUse(keys, i + 1, w) <= NextUse(keys, i + 1, far)
    ensures Best(keys, slots, i + 1, c - {far} + {keys[i]}) >= Best(keys, slots, i + 1, c - {w} + {keys[i]})
  {
    hide Best, NextUse;
    var a := c - {far} - {w} + {keys[i]};
    TwoOut(c, far, w, keys[i]);
    KeepTheSooner(keys, slots, i + 1, a, w, far);
  }

  /** Evicting a resident that is used furthest in the future loses nothing. */
  lemma FurthestIsBest(keys: seq<nat>, slots: nat, i: nat, c: set<nat>, far: nat)
    requires slots >= 1 && |keys| <= NEVER && i < |keys| && keys[i] !in c && |c| == slots && far in c
    requires forall v :: v in c ==> NextUse(keys, i + 1, v) <= NextUse(keys, i + 1, far)
    ensures Best(keys, slots, i, c) == Best(keys, slots, i + 1, c - {far} + {keys[i]})
  {
    hide Best, NextUse;
    var w := BestOfVictims(keys, slots, i, c);
    if w != far { FarIsNoWorse(keys, slots, i, c, far, w); }
  }

  lemma TwoOut(c: set<nat>, x: nat, y: nat, k: nat)
    requires x in c && y in c && x != y && k !in c
    ensures var a := c - {x} - {y} + {k};
            c - {x} + {k} == a + {y} && c - {y} + {k} == a + {x} && |a| + 1 == |c| && x !in a && y !in a
  {
  }

  /** optLast holds the next use, from access i on, of every key used again. */
  ghost predicate Ahead(keys: seq<nat>, i: nat, optLast: map<nat, nat>)
    requires |keys| <= NEVER
  {
    && (forall k :: k in optLast ==> optLast[k] == NextUse(keys, i, k))
    && (forall k :: k !in optLast ==> NextUse(keys, i, k) == NEVER)
  }

  lemma AheadAtEnd(keys: seq<nat>)
    requires |keys| <= NEVER
    ensures Ahead(keys, |keys|, map[])
  {
  }

  lemma AheadStep(keys: seq<nat>, i: nat, optLast: map<nat, nat>)
    requires |keys| <= NEVER && i < |keys| && Ahead(keys, i + 1, optLast)
    ensures NextUse(keys, i + 1, keys[i]) == if keys[i] in optLast then optLast[keys[i]] else NEVER
    ensures Ahead(keys, i, optLast[keys[i] := i])
  {
    var after := optLast[keys[i] := i];
    forall k ensures k in after ==> after[k] == NextUse(keys, i, k)
             ensures k !in after ==> NextUse(keys, i, k) == NEVER
    {
    }
  }

  /** The backward pass: next[i] is the next use of keys[i] after access i. */
  method OptNext(keys: seq<nat>) returns (next: array<nat>)
    requires |keys| <= NEVER
    ensures next.Length == |keys|
    ensures forall i {:trigger next[i]} :: 0 <= i < |keys| ==> next[i] == NextUse(keys, i + 1, keys[i])
  {
    hide NextUse, Ahead;
    next := new nat[|keys|];
    AheadAtEnd(keys);
    var optLast: map<nat, nat> := map[];
    var i := |keys|;
    while i > 0
      invariant 0 <= i <= |keys|
      invariant Ahead(keys, i, optLast)
      invariant forall j {:trigger next[j]} :: i <= j < |keys| ==> next[j] == NextUse(keys, j + 1, keys[j])
    {
      i := i - 1;
      var key := keys[i];
      AheadStep(keys, i, optLast);
      next[i] := if key in optLast then optLast[key] else NEVER;
      optLast := optLast[key := i];
    }
  }

  ghost predicate IsFurthest(cache: seq<Cell>, key: nat) {
    exists j :: 0 <= j < |cache| && cache[j].key == key && forall i :: 0 <= i < |cache| ==> cache[i].val <= cache[j].val
  }

  /** First cell with the largest value. */
  method Furthest(cache: seq<Cell>) returns (maxK: nat)
    requires cache != [] && forall j :: 0 <= j < |cache| ==> cache[j].val >= 0
    ensures IsFurthest(cache, maxK)
  {
    maxK := 0;
    var maxP: int := -1;
    ghost var at := 0;
    for n := 0 to |cache|
      invariant n == 0 ==> maxP == -1
      invariant n > 0 ==> 0 <= at < n && maxP == cache[at].val && maxK == cache[at].key
      invariant forall i :: 0 <= i < n ==> cache[i].val <= maxP
    {
      if cache[n].val > maxP {
        maxP, maxK, at := cache[n].val, cache[n].key, n;
      }
    }
  }

  /** Every cached key carries its next use. */
  ghost predicate Scheduled(keys: seq<nat>, i: nat, cache: seq<Cell>)
    requires |keys| <= NEVER
  {
    forall j :: 0 <= j < |cache| ==> cache[j].val == NextUse(keys, i, cache[j].key)
  }

  lemma ElemsIn(ks: seq<nat>)
    ensures forall x :: x in Elems(ks) <==> x in ks
  {
  }

  /** The keys after admitting `key`, without or with an eviction. */
  lemma Admit(ks: seq<nat>, key: nat)
    requires Distinct(ks) && key !in ks
    ensures Elems(ks + [key]) == Elems(ks) + {key} && Distinct(ks + [key])
    ensures |Elems(ks)| == |ks| && key !in Elems(ks)
  {
    DistinctSize(ks);
    ElemsIn(ks + [key]);
    hide Elems;
    assert forall x :: x in ks + [key] <==> x in ks || x == key;
  }

  lemma Replace(ks: seq<nat>, key: nat, v: nat)
    requires Distinct(ks) && key !in ks && v in ks
    ensures Elems(Drop(ks, v) + [key]) == Elems(ks) - {v} + {key} && Distinct(Drop(ks, v) + [key])
    ensures |Drop(ks, v) + [key]| == |ks| == |Elems(ks)| && key !in Elems(ks)
  {
    hide Drop, Elems;
    DistinctSize(ks);
    ElemsIn(ks);
    ElemsIn(Drop(ks, v));
    Admit(Drop(ks, v), key);
    assert forall x :: x in Elems(Drop(ks, v)) <==> x in Elems(ks) && x != v;
    assert Elems(Drop(ks, v)) == Elems(ks) - {v};
  }

  /** The map after access i of keys[i] is again scheduled. */
  lemma ScheduledStep(keys: seq<nat>, i: nat, cache: seq<Cell>)
    requires |keys| <= NEVER && i < |keys| && Scheduled(keys, i, cache) && Distinct(Order(cache))
    ensures Scheduled(keys, i + 1, Put(cache, keys[i], NextUse(keys, i + 1, keys[i])))
  {
  }

  lemma ScheduledDelete(keys: seq<nat>, i: nat, cache: seq<Cell>, key: nat)
    requires |keys| <= NEVER && Scheduled(keys, i, cache)
    ensures Scheduled(keys, i, Delete(cache, key))
  {
  }

  /** On a miss with a full cache the furthest cell is the best victim. */
  lemma EvictFurthest(keys: seq<nat>, slots: nat, i: nat, cache: seq<Cell>, maxK: nat)
    requires slots >= 1 && |keys| <= NEVER && i < |keys| && |cache| == slots
    requires Distinct(Order(cache)) && Scheduled(keys, i, cache) && keys[i] !in Order(cache) && IsFurthest(cache, maxK)
    ensures var c := Elems(Order(cache));
            && maxK in Order(cache)
            && Best(keys, slots, i, c) == Best(keys, slots, i + 1, c - {maxK} + {keys[i]})
  {
    hide Best;
    var ks := Order(cache);
    DistinctSize(ks);
    var j :| 0 <= j < |cache| && cache[j].key == maxK && forall n :: 0 <= n < |cache| ==> cache[n].val <= cache[j].val;
    assert ks[j] == maxK;
    forall v | v in Elems(ks) ensures NextUse(keys, i + 1, v) <= NextUse(keys, i + 1, maxK) {
      var n :| 0 <= n < |ks| && ks[n] == v;
      assert cache[n].val <= cache[j].val;
    }
    FurthestIsBest(keys, slots, i, Elems(ks), maxK);
  }

  /** One access of replayOpt. */
  method AccessOpt(keys: seq<nat>, slots: nat, i: nat, cache: seq<Cell>, next: nat) returns (after: seq<Cell>)
    requires slots >= 1 && |keys| <= NEVER && i < |keys| && next == NextUse(keys, i + 1, keys[i])
    requires Distinct(Order(cache)) && |cache| <= slots && Scheduled(keys, i, cache)
    ensures Distinct(Order(after)) && |after| <= slots && Scheduled(keys, i + 1, after)
    ensures Best(keys, slots, i, Elems(Order(cache))) ==
              (if keys[i] in Order(cache) then 1 else 0) + Best(keys, slots, i + 1, Elems(Order(after)))
  {
    var key := keys[i];
    OrderOps(cache, key, next);
    ElemsIn(Order(cache));
    ScheduledStep(keys, i, cache);
    if Find(cache, key) < |cache| {
      after := Put(cache, key, next);
      BestOfHit(keys, slots, i, Elems(Order(cache)));
    } else if |cache| < slots {
      Admit(Order(cache), key);
      after := Put(cache, key, next);
    } else {
      hide Best;
      var maxK := Furthest(cache);
      EvictFurthest(keys, slots, i, cache, maxK);
      OrderOps(cache, maxK, 0);
      Replace(Order(cache), key, maxK);
      ScheduledDelete(keys, i, cache, maxK);
      var rest := Delete(cache, maxK);
      OrderOps(rest, key, next);
      ScheduledStep(keys, i, rest);
      after := Put(rest, key, next);
    }
  }

  lemma Found(mm: seq<Cell>, key: nat)
    ensures Find(mm, key) < |mm| <==> key in Order(mm)
  {
    var j := Find(mm, key);
    if j < |mm| { assert Order(mm)[j] == key; }
  }

  /** replayOpt gets exactly the best number of hits any demand-paging policy can get. */
  method ReplayOpt(keys: seq<nat>, slots: nat) returns (hit: nat)
    requires slots >= 1 && |keys| <= NEVER
    ensures hit == Best(keys, slots, 0, {})
  {
    hide Best, Distinct, Scheduled, Order, Elems, NextUse, Find;
    var next := OptNext(keys);
    hit := 0;
    var cache: seq<Cell> := [];
    EmptyMap(keys);
    for i := 0 to |keys|
      invariant forall j {:trigger next[j]} :: 0 <= j < |keys| ==> next[j] == NextUse(keys, j + 1, keys[j])
      invariant Distinct(Order(cache)) && |cache| <= slots && Scheduled(keys, i, cache)
      invariant hit + Best(keys, slots, i, Elems(Order(cache))) == Best(keys, slots, 0, {})
    {
      Found(cache, keys[i]);
      if Find(cache, keys[i]) < |cache| {
        hit := hit + 1;
      }
      cache := AccessOpt(keys, slots, i, cache, next[i]);
    }
    NoneLeft(keys, slots, Elems(Order(cache)));
  }

  lemma NoneLeft(keys: seq<nat>, slots: nat, c: set<nat>)
    requires slots >= 1
    ensures Best(keys, slots, |keys|, c) == 0
  {
  }

  lemma EmptyMap(keys: seq<nat>)
    requires |keys| <= NEVER
    ensures Distinct(Order([])) && Scheduled(keys, 0, []) && Elems(Order([])) == {}
  {
  }

  /** Belady optimality: no demand-paging run, whatever its eviction choices, has more hits. */
  lemma BeladyIsOptimal(keys: seq<nat>, slots: nat, caches: seq<set<nat>>)
    requires slots >= 1 && DemandRun(keys, slots, caches)
    ensures HitsFrom(keys, caches, 0) <= Best(keys, slots, 0, {})
  {
    NoRunBeatsBest(keys, slots, caches, 0);
  }

  // ---- the other policies --------------------------------------------------------

  /** The keys of an insertion-ordered cache after one access under LRU. */
  function LruNext(ks: seq<nat>, slots: nat, key: nat): seq<nat> {
    if key in ks then Drop(ks, key) + [key]
    else if |ks| < slots then ks + [key]
    else if ks == [] then ks
    else ks[1..] + [key]
  }

  /** The same under first-in first-out: a hit does not move the key. */
  function FifoNext(ks: seq<nat>, slots: nat, key: nat): seq<nat> {
    if key in ks then ks
    else if |ks| < slots then ks + [key]
    else if ks == [] then ks
    else ks[1..] + [key]
  }

  /** One demand access on the level of ordered keys. */
  lemma DemandStep(ks: seq<nat>, slots: nat, key: nat, v: nat)
    requires Distinct(ks) && slots >= 1 && |ks| <= slots
    ensures |Elems(ks)| == |ks| && (key in Elems(ks) <==> key in ks)
    ensures key in ks ==>
              Distinct(Drop(ks, key) + [key]) && Elems(Drop(ks, key) + [key]) == Elems(ks) &&
                  |Drop(ks, key) + [key]| == |ks|
    ensures key !in ks ==> Distinct(ks + [key]) && Elems(ks + [key]) == Elems(ks) + {key}
    ensures key !in ks && |ks| == slots && v in ks ==>
              var after := Drop(ks, v) + [key];
              Distinct(after) && |after| == slots && Access(slots, Elems(ks), key, Elems(after))
  {
    DistinctSize(ks);
    ElemsIn(ks);
    if key in ks {
      Admit(Drop(ks, key), key);
      ElemsIn(Drop(ks, key) + [key]);
      hide Elems, Drop;
      assert forall x :: x in Elems(Drop(ks, key) + [key]) <==> x in Elems(ks);
    } else {
      Admit(ks, key);
      if |ks| == slots && v in ks {
        Replace(ks, key, v);
        hide Elems, Drop;
        assert v in Elems(ks);
      }
    }
  }

  lemma DropFirst(ks: seq<nat>)
    requires ks != [] && Distinct(ks)
    ensures Drop(ks, ks[0]) == ks[1..] && ks[0] in ks
  {
    DropPlaced(ks, 0);
  }

  method AccessLru(mm: seq<Cell>, slots: nat, key: nat, i: nat) returns (after: seq<Cell>)
    requires slots >= 1 && Distinct(Order(mm)) && |mm| <= slots
    ensures Distinct(Order(after)) && |after| <= slots
    ensures Access(slots, Elems(Order(mm)), key, Elems(Order(after)))
    ensures Order(after) == LruNext(Order(mm), slots, key)
  {
    hide Elems, Drop, Distinct, Order, Put, Delete;
    ghost var ks := Order(mm);
    OrderOps(mm, key, i);
    if Find(mm, key) < |mm| {
      DemandStep(ks, slots, key, key);
      after := Delete(mm, key);
      OrderOps(after, key, i);
      after := Put(after, key, i);
    } else if |mm| < slots {
      DemandStep(ks, slots, key, key);
      after := Put(mm, key, i);
    } else {
      var oldest := mm[0].key;
      DropFirst(ks);
      DemandStep(ks, slots, key, oldest);
      OrderOps(mm, oldest, i);
      after := Delete(mm, oldest);
      OrderOps(after, key, i);
      after := Put(after, key, i);
    }
  }

  /** The lfu branch never writes freq, so every count it stores is 1. */
  ghost predicate AllOnes(mm: seq<Cell>) {
    forall j :: 0 <= j < |mm| ==> mm[j].val == 1
  }

  /** First cell with the smallest count. */
  method LeastCounted(mm: seq<Cell>) returns (minK: nat)
    requires mm != []
    ensures exists j ::
              0 <= j < |mm| && mm[j].key == minK &&
                  forall i :: 0 <= i < |mm| ==> (if i < j then mm[j].val < mm[i].val else mm[j].val <= mm[i].val)
  {
    minK := mm[0].key;
    var minC := mm[0].val;
    ghost var at := 0;
    for n := 1 to |mm|
      invariant 0 <= at < n && minC == mm[at].val && minK == mm[at].key
      invariant forall i :: 0 <= i < n ==> (if i < at then minC < mm[i].val else minC <= mm[i].val)
    {
      if mm[n].val < minC {
        minC, minK, at := mm[n].val, mm[n].key, n;
      }
    }
  }

  method AccessLfu(mm: seq<Cell>, freq: map<nat, nat>, slots: nat, key: nat)
    returns (after: seq<Cell>, freq': map<nat, nat>)
    requires slots >= 1 && Distinct(Order(mm)) && |mm| <= slots && AllOnes(mm) && freq == map[]
    ensures Distinct(Order(after)) && |after| <= slots && AllOnes(after) && freq' == map[]
    ensures Access(slots, Elems(Order(mm)), key, Elems(Order(after)))
    ensures Order(after) == FifoNext(Order(mm), slots, key)
  {
    hide Elems, Drop, Distinct, Order;
    after, freq' := mm, freq;
    ghost var ks := Order(mm);
    var has := Find(mm, key) < |mm|;
    OrderOps(mm, key, 1);
    DemandStep(ks, slots, key, key);
    if !has && |mm| >= slots {
      var minK := LeastCounted(mm);
      assert minK == mm[0].key == ks[0];
      DropFirst(ks);
      DemandStep(ks, slots, key, minK);
      OrderOps(mm, minK, 1);
      after := Delete(mm, minK);
      freq' := freq' - {minK};
    }
    if |after| < slots {
      OrderOps(after, key, 1);
      after := Put(after, key, (if key in freq' then freq'[key] else 0) + 1);
    }
  }

  /** First cell with the smallest decayed count. */
  method LeastScore(mm: seq<Cell>, freq: map<nat, nat>, score: (nat, int) -> real, i: nat) returns (minK: nat)
    requires mm != []
    ensures exists j :: 0 <= j < |mm| && mm[j].key == minK
  {
    minK := mm[0].key;
    var minS := 0.0;
    for n := 0 to |mm|
      invariant exists j :: 0 <= j < |mm| && mm[j].key == minK
    {
      var c := score(if mm[n].key in freq then freq[mm[n].key] else 0, i - mm[n].val);
      if n == 0 || c < minS {
        minS, minK := c, mm[n].key;
      }
    }
  }

  method AccessEst1(mm: seq<Cell>, freq: map<nat, nat>, slots: nat, key: nat, i: nat, score: (nat, int) -> real)
    returns (after: seq<Cell>, freq': map<nat, nat>)
    requires slots >= 1 && Distinct(Order(mm)) && |mm| <= slots
    ensures Distinct(Order(after)) && |after| <= slots
    ensures Access(slots, Elems(Order(mm)), key, Elems(Order(after)))
  {
    hide Elems, Drop, Distinct, Order, Put, Delete;
    ghost var ks := Order(mm);
    OrderOps(mm, key, i);
    DemandStep(ks, slots, key, key);
    if Find(mm, key) < |mm| {
      freq' := freq[key := (if key in freq then freq[key] else 0) + 1];
      after := Delete(mm, key);
      OrderOps(after, key, i);
      after := Put(after, key, i);
    } else if |mm| < slots {
      after := Put(mm, key, i);
      freq' := freq[key := 1];
    } else {
      var minK := LeastScore(mm, freq, score, i);
      InOrder(mm, minK);
      DemandStep(ks, slots, key, minK);
      OrderOps(mm, minK, i);
      after := Delete(mm, minK);
      OrderOps(after, key, i);
      freq' := freq - {minK};
      after := Put(after, key, i);
      freq' := freq'[key := 1];
    }
  }

  lemma InOrder(mm: seq<Cell>, key: nat)
    requires exists j :: 0 <= j < |mm| && mm[j].key == key
    ensures key in Order(mm)
  {
    var j :| 0 <= j < |mm| && mm[j].key == key;
    assert Order(mm)[j] == key;
  }

  // ---- LRU and FIFO as functions of the trace ----------------------------------------

  /** The distinct keys of the first n accesses, least recently used first. */
  function Recent(keys: seq<nat>, n: nat): (r: seq<nat>)
    requires n <= |keys|
    ensures Distinct(r)
  {
    if n == 0 then [] else Drop(Recent(keys, n - 1), keys[n - 1]) + [keys[n - 1]]
  }

  /** The last s elements. */
  function Newest(r: seq<nat>, s: nat): seq<nat> {
    if |r| <= s then r else r[|r| - s..]
  }

  /** Number of accesses up to and including the last access of k, or 0. */
  function LastUse(keys: seq<nat>, n: nat, k: nat): nat
    requires n <= |keys|
  {
    if n == 0 then 0 else if keys[n - 1] == k then n else LastUse(keys, n - 1, k)
  }

  /** The keys of r are in the order of their last use among the first n accesses. */
  ghost predicate ByLastUse(keys: seq<nat>, n: nat, r: seq<nat>)
    requires n <= |keys|
  {
    forall i, j :: 0 <= i < j < |r| ==> LastUse(keys, n, r[i]) < LastUse(keys, n, r[j])
  }

  lemma {:induction false} RecentHolds(keys: seq<nat>, n: nat, k: nat)
    requires n <= |keys|
    ensures k in Recent(keys, n) <==> LastUse(keys, n, k) > 0
  {
    if n > 0 { RecentHolds(keys, n - 1, k); }
  }

  lemma {:induction false} RecentInOrder(keys: seq<nat>, n: nat)
    requires n <= |keys|
    ensures ByLastUse(keys, n, Recent(keys, n))
  {
    if n > 0 {
      RecentInOrder(keys, n - 1);
      var r, k := Recent(keys, n - 1), keys[n - 1];
      hide ByLastUse, Drop;
      DropKeepsOrder(keys, n - 1, r, k);
      NewestUse(keys, n, Drop(r, k));
    }
  }

  /** Recent holds exactly the keys seen so far, ordered by their last use. */
  lemma RecentIsByLastUse(keys: seq<nat>, n: nat)
    requires n <= |keys|
    ensures forall k :: k in Recent(keys, n) <==> LastUse(keys, n, k) > 0
    ensures ByLastUse(keys, n, Recent(keys, n))
  {
    hide Recent, LastUse, ByLastUse;
    forall k ensures k in Recent(keys, n) <==> LastUse(keys, n, k) > 0 {
      RecentHolds(keys, n, k);
    }
    RecentInOrder(keys, n);
  }

  /** The key of the last access goes to the end. */
  lemma NewestUse(keys: seq<nat>, n: nat, d: seq<nat>)
    requires 0 < n <= |keys| && ByLastUse(keys, n - 1, d) && keys[n - 1] !in d
    ensures ByLastUse(keys, n, d + [keys[n - 1]])
  {
    LastUseBound(keys, n - 1);
    forall i | 0 <= i < |d| ensures LastUse(keys, n, d[i]) == LastUse(keys, n - 1, d[i]) {
      assert d[i] in d;
    }
  }

  lemma {:induction false} DropKeepsOrder(keys: seq<nat>, n: nat, r: seq<nat>, key: nat)
    requires n <= |keys| && ByLastUse(keys, n, r)
    ensures ByLastUse(keys, n, Drop(r, key))
  {
    if r != [] {
      DropKeepsOrder(keys, n, r[1..], key);
      var d := Drop(r[1..], key);
      forall j | 0 <= j < |d| ensures LastUse(keys, n, r[0]) < LastUse(keys, n, d[j]) {
        assert d[j] in d;
        var m :| 0 <= m < |r[1..]| && r[1..][m] == d[j];
        assert r[m + 1] == d[j];
      }
    }
  }

  lemma {:induction false} LastUseBound(keys: seq<nat>, n: nat)
    requires n <= |keys|
    ensures forall k :: LastUse(keys, n, k) <= n
  {
    if n > 0 { LastUseBound(keys, n - 1); }
  }

  lemma {:induction false} DropSplit(a: seq<nat>, b: seq<nat>, key: nat)
    ensures Drop(a + b, key) == Drop(a, key) + Drop(b, key)
  {
    if a == [] {
      assert a + b == b;
    } else {
      assert (a + b)[1..] == a[1..] + b;
      DropSplit(a[1..], b, key);
    }
  }

  lemma LruHit(stale: seq<nat>, c: seq<nat>, s: nat, key: nat)
    requires Distinct(c) && key in c && key !in stale && (|c| == s || (stale == [] && |c| <= s))
    ensures Newest(Drop(stale + c, key) + [key], s) == Drop(c, key) + [key]
  {
    DropSplit(stale, c, key);
    DropAbsent(stale, key);
    assert |Drop(c, key)| == |c| - 1;
    hide Drop;
    assert Drop(stale + c, key) + [key] == stale + (Drop(c, key) + [key]);
  }

  lemma LruMiss(stale: seq<nat>, c: seq<nat>, s: nat, key: nat)
    requires key !in c && s >= 1 && (|c| == s || (stale == [] && |c| < s))
    ensures Newest(Drop(stale + c, key) + [key], s) == if |c| < s then c + [key] else c[1..] + [key]
  {
    DropSplit(stale, c, key);
    DropAbsent(c, key);
    DropAbsent([], key);
    hide Drop;
    if |c| == s {
      var gone := Drop(stale, key);
      assert Drop(stale + c, key) + [key] == (gone + c[..1]) + (c[1..] + [key]);
    } else {
      assert Drop(stale + c, key) == c;
    }
  }

  /** An LRU access on the newest s keys gives the newest s keys. */
  lemma LruKeepsNewest(r: seq<nat>, s: nat, key: nat)
    requires Distinct(r) && s >= 1
    ensures LruNext(Newest(r, s), s, key) == Newest(Drop(r, key) + [key], s)
  {
    hide Drop;
    var c := Newest(r, s);
    var stale := r[..|r| - |c|];
    assert r == stale + c;
    if key in c {
      var n :| 0 <= n < |c| && c[n] == key;
      assert key == r[|stale| + n];
      LruHit(stale, c, s, key);
    } else {
      LruMiss(stale, c, s, key);
    }
  }

  /** Hits of LRU with `slots` slots on the first n accesses. */
  function LruHits(keys: seq<nat>, slots: nat, n: nat): nat
    requires n <= |keys|
  {
    if n == 0 then 0
    else LruHits(keys, slots, n - 1) + if keys[n - 1] in Newest(Recent(keys, n - 1), slots) then 1 else 0
  }

  /** LRU inclusion: after every prefix the cache with fewer slots is a suffix,
      in recency order, of the cache with more. */
  lemma LruInclusion(keys: seq<nat>, n: nat, s: nat, t: nat)
    requires n <= |keys| && s <= t
    ensures var small, large := Newest(Recent(keys, n), s), Newest(Recent(keys, n), t);
            && |small| <= |large| && small == large[|large| - |small|..]
            && Elems(small) <= Elems(large)
  {
    var small, large := Newest(Recent(keys, n), s), Newest(Recent(keys, n), t);
    forall x | x in Elems(small) ensures x in Elems(large) {
      var i :| 0 <= i < |small| && small[i] == x;
      assert large[|large| - |small| + i] == x;
    }
  }

  /** The LRU hit count never falls when the pool grows. */
  lemma {:induction false} LruHitsMonotone(keys: seq<nat>, n: nat, s: nat, t: nat)
    requires n <= |keys| && s <= t
    ensures LruHits(keys, s, n) <= LruHits(keys, t, n)
  {
    if n > 0 {
      LruHitsMonotone(keys, n - 1, s, t);
      LruInclusion(keys, n - 1, s, t);
    }
  }

  /** The cache of the lfu branch after n accesses. */
  function FifoCache(keys: seq<nat>, slots: nat, n: nat): seq<nat>
    requires n <= |keys|
  {
    if n == 0 then [] else FifoNext(FifoCache(keys, slots, n - 1), slots, keys[n - 1])
  }

  function FifoHits(keys: seq<nat>, slots: nat, n: nat): nat
    requires n <= |keys|
  {
    if n == 0 then 0
    else FifoHits(keys, slots, n - 1) + if keys[n - 1] in FifoCache(keys, slots, n - 1) then 1 else 0
  }

  // ---- replay ---------------------------------------------------------------------------

  lemma {:induction false} HitsSnoc(keys: seq<nat>, caches: seq<set<nat>>, c: set<nat>, i: nat)
    requires 1 <= |caches| <= |keys| && i < |caches|
    ensures HitsFrom(keys, caches + [c], i) ==
              HitsFrom(keys, caches, i) + (if keys[|caches| - 1] in caches[|caches| - 1] then 1 else 0)
    decreases |caches| - i
  {
    if i + 1 < |caches| {
      HitsSnoc(keys, caches, c, i + 1);
    }
  }

  /** The first n caches of the lru branch hold the most recent keys. */
  ghost predicate LruCaches(keys: seq<nat>, slots: nat, caches: seq<set<nat>>, n: nat)
    requires n <= |caches| <= |keys| + 1
  {
    forall i :: 0 <= i < n ==> caches[i] == Elems(Newest(Recent(keys, i), slots))
  }

  /** The first n caches of the lfu branch are those of first-in first-out. */
  ghost predicate FifoCaches(keys: seq<nat>, slots: nat, caches: seq<set<nat>>, n: nat)
    requires n <= |caches| <= |keys| + 1
  {
    forall i :: 0 <= i < n ==> caches[i] == Elems(FifoCache(keys, slots, i))
  }

  lemma FirstCaches(keys: seq<nat>, slots: nat)
    ensures LruCaches(keys, slots, [{}], 1) && FifoCaches(keys, slots, [{}], 1)
  {
  }

  lemma NextCaches(keys: seq<nat>, slots: nat, caches: seq<set<nat>>, c: set<nat>, n: nat)
    requires 1 <= n == |caches| <= |keys|
    ensures LruCaches(keys, slots, caches, n) && c == Elems(Newest(Recent(keys, n), slots)) ==>
              LruCaches(keys, slots, caches + [c], n + 1)
    ensures FifoCaches(keys, slots, caches, n) && c == Elems(FifoCache(keys, slots, n)) ==>
              FifoCaches(keys, slots, caches + [c], n + 1)
  {
    hide Elems, Newest, Recent, FifoCache;
  }

  /** The lru branch has the inclusion property: after every prefix a run with fewer
      slots holds a part of what a run with more slots holds. */
  lemma LruRunsInclude(keys: seq<nat>, s: nat, t: nat, small: seq<set<nat>>, large: seq<set<nat>>, n: nat)
    requires s <= t && n <= |keys| && |small| == |large| == |keys| + 1
    requires LruCaches(keys, s, small, |keys| + 1) && LruCaches(keys, t, large, |keys| + 1)
    ensures small[n] <= large[n]
  {
    LruInclusion(keys, n, s, t);
  }

  /** Before access i each branch holds what its list says, and has counted its hits. */
  ghost predicate Follows(policy: Policy, keys: seq<nat>, slots: nat, mm: seq<Cell>, freq: map<nat, nat>, hit: nat,
                          i: nat)
    requires i <= |keys|
  {
    && Distinct(Order(mm)) && |mm| <= slots
    && (policy.Lru? ==> Order(mm) == Newest(Recent(keys, i), slots) && hit == LruHits(keys, slots, i))
    && (policy.Lfu? ==> Order(mm) == FifoCache(keys, slots, i) && hit == FifoHits(keys, slots, i))
    && (policy.Lfu? ==> AllOnes(mm) && freq == map[])
  }

  /** The body of the loop. */
  method OneAccess(policy: Policy, keys: seq<nat>, slots: nat, score: (nat, int) -> real,
                   mm: seq<Cell>, freq: map<nat, nat>, hit: nat, i: nat)
    returns (after: seq<Cell>, freq': map<nat, nat>, hit': nat)
    requires slots >= 1 && i < |keys| && Follows(policy, keys, slots, mm, freq, hit, i)
    ensures Follows(policy, keys, slots, after, freq', hit', i + 1)
    ensures Access(slots, Elems(Order(mm)), keys[i], Elems(Order(after)))
    ensures hit' == hit + if keys[i] in Elems(Order(mm)) then 1 else 0
  {
    hide Elems, Drop, Distinct, Order, Access, Find, LruNext, FifoNext;
    var key := keys[i];
    Found(mm, key);
    ElemsIn(Order(mm));
    freq', hit' := freq, hit;
    if Find(mm, key) < |mm| { hit' := hit + 1; }
    if policy.Lru? {
      LruKeepsNewest(Recent(keys, i), slots, key);
      after := AccessLru(mm, slots, key, i);
    } else if policy.Lfu? {
      after, freq' := AccessLfu(mm, freq, slots, key);
    } else {
      after, freq' := AccessEst1(mm, freq, slots, key, i, score);
    }
  }

  lemma NextRun(keys: seq<nat>, slots: nat, caches: seq<set<nat>>, c: set<nat>)
    requires DemandRun(keys, slots, caches) && |caches| <= |keys|
    requires Access(slots, caches[|caches| - 1], keys[|caches| - 1], c)
    ensures DemandRun(keys, slots, caches + [c])
  {
    hide Access;
  }

  /** replay: whatever the policy, the run is a demand-paging run; the lru branch
      keeps the most recent keys, and the lfu branch is first-in first-out. */
  method Replay(policy: Policy, keys: seq<nat>, slots: nat, score: (nat, int) -> real)
    returns (hit: nat, ghost caches: seq<set<nat>>)
    requires slots >= 1
    ensures |caches| == |keys| + 1 && DemandRun(keys, slots, caches) && hit == HitsFrom(keys, caches, 0)
    ensures hit <= Best(keys, slots, 0, {})
    ensures policy.Lru? ==> hit == LruHits(keys, slots, |keys|) && LruCaches(keys, slots, caches, |keys| + 1)
    ensures policy.Lfu? ==> hit == FifoHits(keys, slots, |keys|) && FifoCaches(keys, slots, caches, |keys| + 1)
  {
    EmptyOrder();
    FirstCaches(keys, slots);
    hide Best, Elems, Drop, Distinct, Order, Access, DemandRun, HitsFrom, LruCaches, FifoCaches, Newest, Recent,
        FifoCache;
    hit := 0;
    var mm: seq<Cell> := [];
    var freq: map<nat, nat> := map[];
    caches := [Elems(Order(mm))];
    FirstRun(policy, keys, slots);
    for i := 0 to |keys|
      invariant |caches| == i + 1 && DemandRun(keys, slots, caches) && caches[i] == Elems(Order(mm))
      invariant hit == HitsFrom(keys, caches, 0) && Follows(policy, keys, slots, mm, freq, hit, i)
      invariant policy.Lru? ==> LruCaches(keys, slots, caches, i + 1)
      invariant policy.Lfu? ==> FifoCaches(keys, slots, caches, i + 1)
    {
      mm, freq, hit := OneAccess(policy, keys, slots, score, mm, freq, hit, i);
      HitsSnoc(keys, caches, Elems(Order(mm)), 0);
      NextCaches(keys, slots, caches, Elems(Order(mm)), i + 1);
      NextRun(keys, slots, caches, Elems(Order(mm)));
      caches := caches + [Elems(Order(mm))];
    }
    BeladyIsOptimal(keys, slots, caches);
  }

  lemma FirstRun(policy: Policy, keys: seq<nat>, slots: nat)
    ensures DemandRun(keys, slots, [Elems(Order([]))]) && HitsFrom(keys, [Elems(Order([]))], 0) == 0
    ensures Follows(policy, keys, slots, [], map[], 0, 0)
  {
    EmptyOrder();
  }

  lemma EmptyOrder()
    ensures Distinct(Order([])) && Elems(Order([])) == {} && Newest([], 0) == []
  {
  }

  lemma FifoStep(keys: seq<nat>, slots: nat, n: nat, cache: seq<nat>, hits: nat)
    requires n < |keys| && FifoCache(keys, slots, n) == cache && FifoHits(keys, slots, n) == hits
    ensures FifoCache(keys, slots, n + 1) == FifoNext(cache, slots, keys[n])
    ensures FifoHits(keys, slots, n + 1) == hits + if keys[n] in cache then 1 else 0
  {
  }
}
