/** Attributing the compute nodes of a graph to layers, and splitting each layer
    into head, MoE closure and tail. Nodes are named by their graph index. */
module LayerAttribution {

  /** A source of a node: nothing, a tensor outside the node list, or a node. */
  datatype Src = Absent | Leaf(op: bool, input: bool) | In(node: nat)

  /** op: does the node compute something; getRows, input: op and flag tested by the
      out-ids narrowing; layer: from the official record or the name, or -1. */
  datatype Node = Node(op: bool, getRows: bool, input: bool, layer: int, srcs: seq<Src>)

  type Graph = seq<Node>

  ghost predicate Valid(g: Graph) {
    forall i, s :: 0 <= i < |g| && 0 <= s < |g[i].srcs| && g[i].srcs[s].In? ==> g[i].srcs[s].node < |g|
  }

  predicate Named(g: Graph, i: nat)
    requires i < |g|
  {
    g[i].layer >= 0
  }

  predicate Reads(g: Graph, i: nat, j: nat) {
    i < |g| && exists s :: 0 <= s < |g[i].srcs| && g[i].srcs[s] == In(j)
  }

  function Own(n: Node): int {
    if n.layer >= 0 then n.layer else -1
  }

  function Initial(g: Graph): (lay: seq<int>)
    ensures |lay| == |g| && forall i :: 0 <= i < |g| ==> lay[i] == Own(g[i])
  {
    seq(|g|, i requires 0 <= i < |g| => Own(g[i]))
  }

  /** No layer exceeds top. */
  ghost predicate Bounded(lay: seq<int>, top: int) {
    forall i :: 0 <= i < |lay| ==> -1 <= lay[i] <= top
  }

  function Top(lay: seq<int>): (m: int)
    ensures m >= -1 && forall i :: 0 <= i < |lay| ==> lay[i] <= m
    ensures m >= 0 ==> exists i :: 0 <= i < |lay| && lay[i] == m
  {
    if lay == [] then -1
    else
      var rest, x := Top(lay[..|lay| - 1]), lay[|lay| - 1];
      assert lay == lay[..|lay| - 1] + [x];
      if x > rest then x else rest
  }

  /** How far the layers can still rise: the measure of the producer sweep. */
  function Room(lay: seq<int>, top: int): int {
    if lay == [] then 0 else Room(lay[..|lay| - 1], top) + top - lay[|lay| - 1]
  }

  lemma {:induction false} RoomShrinks(lay: seq<int>, top: int, i: nat, v: int)
    requires i < |lay|
    ensures Room(lay[i := v], top) == Room(lay, top) + lay[i] - v
  {
    var n := |lay| - 1;
    if i < n {
      RoomShrinks(lay[..n], top, i, v);
      assert lay[i := v][..n] == lay[..n][i := v];
    } else {
      assert lay[i := v][..n] == lay[..n];
    }
  }

  lemma {:induction false} RoomNat(lay: seq<int>, top: int)
    requires Bounded(lay, top)
    ensures Room(lay, top) >= 0
  {
    if lay != [] { RoomNat(lay[..|lay| - 1], top); }
  }

  // ---- producer propagation -----------------------------------------------------------

  /** Layer L reaches node i from a named node through unnamed ones, in k steps. */
  ghost predicate ComesFrom(g: Graph, i: nat, layer: int, k: nat)
    requires Valid(g) && i < |g|
    decreases k
  {
    if Named(g, i) then g[i].layer == layer
    else k > 0 && exists s :: 0 <= s < |g[i].srcs| && g[i].srcs[s].In? && ComesFrom(g, g[i].srcs[s].node, layer, k - 1)
  }

  /** Every attributed layer has come from a named node; named nodes keep theirs. */
  ghost predicate Justified(g: Graph, lay: seq<int>)
    requires Valid(g) && |lay| == |g|
  {
    && (forall i :: 0 <= i < |g| && Named(g, i) ==> lay[i] == g[i].layer)
    && forall i :: 0 <= i < |g| && lay[i] >= 0 ==> exists k :: ComesFrom(g, i, lay[i], k)
  }

  /** No unnamed node is below a producer. */
  ghost predicate Stable(g: Graph, lay: seq<int>, n: nat)
    requires Valid(g) && |lay| == |g| && n <= |g|
  {
    forall i, s ::
        0 <= i < n && !Named(g, i) && 0 <= s < |g[i].srcs| && g[i].srcs[s].In? ==> lay[g[i].srcs[s].node] <= lay[i]
  }

  /** What collect_layer_nodes means by the latest producer: the layer of an unnamed
      node is the largest that reaches it. */
  ghost predicate LatestProducer(g: Graph, lay: seq<int>)
    requires Valid(g) && |lay| == |g|
  {
    Justified(g, lay) && forall i, layer, k: nat :: 0 <= i < |g| && ComesFrom(g, i, layer, k) ==> layer <= lay[i]
  }

  lemma {:induction false} StableIsLargest(g: Graph, lay: seq<int>, i: nat, layer: int, k: nat)
    requires Valid(g) && |lay| == |g| && Justified(g, lay) && Stable(g, lay, |g|) && i < |g| &&
               ComesFrom(g, i, layer, k)
    ensures layer <= lay[i]
    decreases k
  {
    if !Named(g, i) {
      var s :| 0 <= s < |g[i].srcs| && g[i].srcs[s].In? && ComesFrom(g, g[i].srcs[s].node, layer, k - 1);
      StableIsLargest(g, lay, g[i].srcs[s].node, layer, k - 1);
    }
  }

  /** The largest layer among node i and its producers. */
  method BestProducer(g: Graph, lay: seq<int>, i: nat) returns (best: int)
    requires Valid(g) && |lay| == |g| && i < |g| && lay[i] >= -1
    ensures best >= lay[i] &&
              (best == lay[i] ||
                  exists s :: 0 <= s < |g[i].srcs| && g[i].srcs[s].In? && lay[g[i].srcs[s].node] == best >= 0)
    ensures forall s :: 0 <= s < |g[i].srcs| && g[i].srcs[s].In? ==> lay[g[i].srcs[s].node] <= best
  {
    best := lay[i];
    for s := 0 to |g[i].srcs|
      invariant best >= lay[i] &&
                  (best == lay[i] || exists r :: 0 <= r < s && g[i].srcs[r].In? && lay[g[i].srcs[r].node] == best >= 0)
      invariant forall r :: 0 <= r < s && g[i].srcs[r].In? ==> lay[g[i].srcs[r].node] <= best
    {
      if g[i].srcs[s].In? && lay[g[i].srcs[s].node] >= 0 {
        best := if lay[g[i].srcs[s].node] > best then lay[g[i].srcs[s].node] else best;
      }
    }
  }

  lemma RaiseJustified(g: Graph, lay: seq<int>, i: nat, best: int)
    requires Valid(g) && |lay| == |g| && i < |g| && !Named(g, i) && Justified(g, lay)
    requires exists s :: 0 <= s < |g[i].srcs| && g[i].srcs[s].In? && lay[g[i].srcs[s].node] == best >= 0
    ensures Justified(g, lay[i := best])
  {
    var s :| 0 <= s < |g[i].srcs| && g[i].srcs[s].In? && lay[g[i].srcs[s].node] == best >= 0;
    var k: nat :| ComesFrom(g, g[i].srcs[s].node, best, k);
    assert ComesFrom(g, i, best, k + 1);
  }

  lemma RaiseBounded(g: Graph, lay: seq<int>, top: int, i: nat, best: int)
    requires Valid(g) && |lay| == |g| && i < |g| && Bounded(lay, top)
    requires exists s :: 0 <= s < |g[i].srcs| && g[i].srcs[s].In? && lay[g[i].srcs[s].node] == best >= 0
    ensures Bounded(lay[i := best], top)
  {
  }

  lemma StillStable(g: Graph, lay: seq<int>, i: nat)
    requires Valid(g) && |lay| == |g| && i < |g| && Stable(g, lay, i)
    requires Named(g, i) || forall s :: 0 <= s < |g[i].srcs| && g[i].srcs[s].In? ==> lay[g[i].srcs[s].node] <= lay[i]
    ensures Stable(g, lay, i + 1)
  {
  }

  lemma NothingStable(g: Graph, lay: seq<int>)
    requires Valid(g) && |lay| == |g|
    ensures Stable(g, lay, 0)
  {
  }

  lemma BoundedBelow(lay: seq<int>, top: int, i: nat)
    requires Bounded(lay, top) && i < |lay|
    ensures lay[i] >= -1
  {
  }

  /** The producer sweep, repeated until nothing changes. It ends because layers only rise. */
  method PropagateProducers(g: Graph) returns (lay: seq<int>)
    requires Valid(g)
    ensures |lay| == |g| && Bounded(lay, Top(Initial(g))) && LatestProducer(g, lay)
  {
    lay := Initial(g);
    ghost var top := Top(lay);
    InitialJustified(g);
    assert Bounded(lay, top);
    hide Valid, Justified, Stable, Bounded, Room, Top, Initial, LatestProducer;
    var changed := true;
    while changed
      invariant |lay| == |g| && Bounded(lay, top) && Justified(g, lay)
      invariant !changed ==> Stable(g, lay, |g|)
      decreases Room(lay, top), changed
    {
      changed := false;
      ghost var before := lay;
      NothingStable(g, lay);
      for i := 0 to |g|
        invariant |lay| == |g| && Bounded(lay, top) && Justified(g, lay)
        invariant changed ==> Room(lay, top) < Room(before, top)
        invariant !changed ==> lay == before && Stable(g, lay, i)
      {
        if Named(g, i) {
          if !changed { StillStable(g, lay, i); }
          continue;
        }
        BoundedBelow(lay, top, i);
        var best := BestProducer(g, lay, i);
        if best != lay[i] {
          RaiseJustified(g, lay, i, best);
          RaiseBounded(g, lay, top, i, best);
          RoomShrinks(lay, top, i, best);
          lay := lay[i := best];
          changed := true;
        } else if !changed {
          StillStable(g, lay, i);
        }
      }
      RoomNat(lay, top);
    }
    FixpointIsLatest(g, lay);
  }

  lemma FixpointIsLatest(g: Graph, lay: seq<int>)
    requires Valid(g) && |lay| == |g| && Justified(g, lay) && Stable(g, lay, |g|)
    ensures LatestProducer(g, lay)
  {
    hide Stable, Justified;
    forall i: nat, layer, k: nat | i < |g| && ComesFrom(g, i, layer, k) ensures layer <= lay[i] {
      StableIsLargest(g, lay, i, layer, k);
    }
  }

  lemma InitialJustified(g: Graph)
    requires Valid(g)
    ensures Justified(g, Initial(g))
  {
    forall i: nat | i < |g| && Initial(g)[i] >= 0 ensures exists k :: ComesFrom(g, i, Initial(g)[i], k) {
      assert ComesFrom(g, i, Initial(g)[i], 0);
    }
  }

  // ---- consumer propagation -------------------------------------------------------------

  function Unowned(lay: seq<int>): nat {
    if lay == [] then 0 else Unowned(lay[..|lay| - 1]) + if lay[|lay| - 1] < 0 then 1 else 0
  }

  lemma {:induction false} UnownedShrinks(lay: seq<int>, i: nat, v: int)
    requires i < |lay| && lay[i] < 0 <= v
    ensures Unowned(lay[i := v]) == Unowned(lay) - 1
  {
    var n := |lay| - 1;
    if i < n {
      UnownedShrinks(lay[..n], i, v);
      assert lay[i := v][..n] == lay[..n][i := v];
    } else {
      assert lay[i := v][..n] == lay[..n];
    }
  }

  /** Owned nodes stay as they are; new owners are layers that occur already. */
  ghost predicate Extends(g: Graph, lay: seq<int>, lay': seq<int>) {
    && |lay'| == |lay| == |g|
    && (forall i :: 0 <= i < |lay| && lay[i] >= 0 ==> lay'[i] == lay[i])
    && (forall i ::
         0 <= i < |lay| && lay[i] < 0 && lay'[i] >= 0 ==> g[i].op && exists j :: 0 <= j < |lay| && lay[j] == lay'[i])
    && (forall i :: 0 <= i < |lay| ==> lay'[i] >= -1)
  }

  /** The largest layer among the consumers of node i, or -1. */
  method BestConsumer(g: Graph, lay: seq<int>, i: nat) returns (best: int)
    requires |lay| == |g| && i < |g|
    ensures best == -1 || exists c :: 0 <= c < |g| && Reads(g, c, i) && lay[c] == best >= 0
    ensures forall c :: 0 <= c < |g| && Reads(g, c, i) && lay[c] >= 0 ==> lay[c] <= best
  {
    best := -1;
    for c := 0 to |g|
      invariant best == -1 || exists d :: 0 <= d < c && Reads(g, d, i) && lay[d] == best >= 0
      invariant forall d :: 0 <= d < c && Reads(g, d, i) && lay[d] >= 0 ==> lay[d] <= best
    {
      if Reads(g, c, i) && lay[c] >= 0 && lay[c] > best { best := lay[c]; }
    }
  }

  lemma Owner(g: Graph, start: seq<int>, lay: seq<int>, i: nat, v: int)
    requires Extends(g, start, lay) && i < |g| && lay[i] < 0 <= v && g[i].op &&
               exists j :: 0 <= j < |lay| && lay[j] == v
    ensures Extends(g, start, lay[i := v])
  {
    var j :| 0 <= j < |lay| && lay[j] == v;
    if start[j] < 0 {
      var m :| 0 <= m < |start| && start[m] == lay[j];
    }
  }

  ghost predicate Feeds(g: Graph, lay: seq<int>, i: nat)
    requires |lay| == |g| && i < |g|
  {
    exists c :: 0 <= c < |g| && Reads(g, c, i) && lay[c] == lay[i]
  }

  /** A node that gained an owner has the layer of one of its consumers. */
  ghost predicate FromConsumers(g: Graph, start: seq<int>, lay: seq<int>)
    requires |lay| == |start| == |g|
  {
    forall i :: 0 <= i < |g| && start[i] < 0 && lay[i] >= 0 ==> Feeds(g, lay, i)
  }

  lemma OwnerFeeds(g: Graph, start: seq<int>, lay: seq<int>, i: nat, v: int)
    requires |lay| == |start| == |g| && i < |g| && lay[i] < 0 && FromConsumers(g, start, lay)
    requires v >= 0 && exists c :: 0 <= c < |g| && Reads(g, c, i) && lay[c] == v
    ensures FromConsumers(g, start, lay[i := v])
  {
    var after := lay[i := v];
    forall k: nat | k < |g| && start[k] < 0 && after[k] >= 0 ensures Feeds(g, after, k) {
      if k == i {
        var c :| 0 <= c < |g| && Reads(g, c, i) && lay[c] == v;
        assert after[c] == v;
      } else {
        var c :| 0 <= c < |g| && Reads(g, c, k) && lay[c] == lay[k];
        assert after[c] == after[k];
      }
    }
  }

  /** The consumer sweep, repeated until nothing changes. It ends because nodes only gain an owner. */
  method PropagateConsumers(g: Graph, start: seq<int>) returns (lay: seq<int>)
    requires |start| == |g| && forall i :: 0 <= i < |g| ==> start[i] >= -1
    ensures Extends(g, start, lay) && FromConsumers(g, start, lay)
    ensures forall i, c :: 0 <= i < |g| && 0 <= c < |g| && g[i].op && lay[i] < 0 && Reads(g, c, i) ==> lay[c] < 0
  {
    lay := start;
    var ch := true;
    while ch
      invariant Extends(g, start, lay) && FromConsumers(g, start, lay)
      invariant !ch ==> forall i, c ::
                  0 <= i < |g| && 0 <= c < |g| && g[i].op && lay[i] < 0 && Reads(g, c, i) ==> lay[c] < 0
      decreases Unowned(lay), ch
    {
      ch := false;
      ghost var before := lay;
      for i := 0 to |g|
        invariant Extends(g, start, lay) && FromConsumers(g, start, lay)
        invariant ch ==> Unowned(lay) < Unowned(before)
        invariant !ch ==> lay == before
        invariant !ch ==>
                    forall k, c :: 0 <= k < i && 0 <= c < |g| && g[k].op && lay[k] < 0 && Reads(g, c, k) ==> lay[c] < 0
      {
        if lay[i] >= 0 || !g[i].op { continue; }
        var best := BestConsumer(g, lay, i);
        if best >= 0 {
          Owner(g, start, lay, i, best);
          OwnerFeeds(g, start, lay, i, best);
          UnownedShrinks(lay, i, best);
          lay := lay[i := best];
          ch := true;
        }
      }
    }
  }

  // ---- fallback --------------------------------------------------------------------------------

  ghost predicate AllOwned(g: Graph, lay: seq<int>)
    requires |lay| == |g|
  {
    forall i :: 0 <= i < |g| && g[i].op ==> lay[i] >= 0
  }

  ghost predicate Occurs(start: seq<int>, v: int) {
    exists j :: 0 <= j < |start| && start[j] == v
  }

  /** The layer of the nearest owned node before position i, or -1. */
  function Before(lay: seq<int>, i: nat): int
    requires i <= |lay|
  {
    if i == 0 then -1 else if lay[i - 1] >= 0 then lay[i - 1] else Before(lay, i - 1)
  }

  /** The layer of the nearest owned node from position i on, or -1. */
  function After(lay: seq<int>, i: nat): int
    requires i <= |lay|
    decreases |lay| - i
  {
    if i == |lay| then -1 else if lay[i] >= 0 then lay[i] else After(lay, i + 1)
  }

  lemma {:induction false} BeforeFinds(lay: seq<int>, i: nat)
    requires i <= |lay|
    ensures Before(lay, i) >= 0 ==> Occurs(lay, Before(lay, i))
    ensures forall j :: 0 <= j < i && lay[j] >= 0 ==> Before(lay, i) >= 0
  {
    if i > 0 { BeforeFinds(lay, i - 1); }
  }

  lemma {:induction false} AfterFinds(lay: seq<int>, i: nat)
    requires i <= |lay|
    ensures After(lay, i) >= 0 ==> Occurs(lay, After(lay, i))
    ensures forall j :: i <= j < |lay| && lay[j] >= 0 ==> After(lay, i) >= 0
    decreases |lay| - i
  {
    if i < |lay| { AfterFinds(lay, i + 1); }
  }

  /** An unowned compute node takes layer v, if v is a layer. */
  function Filled(n: Node, own: int, v: int): int {
    if own < 0 && n.op && v >= 0 then v else own
  }

  ghost predicate ForwardFilled(g: Graph, start: seq<int>, lay: seq<int>) {
    |lay| == |start| == |g| && forall i :: 0 <= i < |g| ==> lay[i] == Filled(g[i], start[i], Before(start, i))
  }

  ghost predicate BackwardFilled(g: Graph, start: seq<int>, lay: seq<int>) {
    |lay| == |start| == |g| && forall i :: 0 <= i < |g| ==> lay[i] == Filled(g[i], start[i], After(start, i))
  }

  method FillForward(g: Graph, start: seq<int>) returns (lay: seq<int>)
    requires |start| == |g|
    ensures ForwardFilled(g, start, lay)
  {
    hide Before;
    lay := start;
    var cur := -1;
    NoneBefore(start);
    for i := 0 to |g|
      invariant |lay| == |g| && cur == Before(start, i)
      invariant forall j ::
                  0 <= j < |g| ==> lay[j] == if j < i then Filled(g[j], start[j], Before(start, j)) else start[j]
    {
      BeforeNext(start, i);
      if lay[i] >= 0 {
        cur := lay[i];
      } else if g[i].op && cur >= 0 {
        lay := lay[i := cur];
      }
    }
  }

  lemma NoneBefore(lay: seq<int>)
    ensures Before(lay, 0) == -1
  {
  }

  lemma BeforeNext(lay: seq<int>, i: nat)
    requires i < |lay|
    ensures Before(lay, i + 1) == if lay[i] >= 0 then lay[i] else Before(lay, i)
  {
  }

  method FillBackward(g: Graph, start: seq<int>) returns (lay: seq<int>)
    requires |start| == |g|
    ensures BackwardFilled(g, start, lay)
  {
    lay := start;
    var cur := -1;
    var i := |g|;
    while i > 0
      invariant 0 <= i <= |g| == |lay| && cur == After(start, i)
      invariant forall j ::
                  0 <= j < |g| ==> lay[j] == if j >= i then Filled(g[j], start[j], After(start, j)) else start[j]
    {
      i := i - 1;
      if lay[i] >= 0 {
        cur := lay[i];
      } else if g[i].op && cur >= 0 {
        lay := lay[i := cur];
      }
    }
  }

  /** Any compute node still without an owner takes the nearest owned layer, the
      preceding one first; then none is left without, if any node has a layer. */
  method Fallback(g: Graph, start: seq<int>) returns (lay: seq<int>)
    requires |start| == |g| && forall i :: 0 <= i < |g| ==> start[i] >= -1
    ensures Extends(g, start, lay)
    ensures forall i :: 0 <= i < |g| && start[i] < 0 && g[i].op && Before(start, i) >= 0 ==> lay[i] == Before(start, i)
    ensures (exists i :: 0 <= i < |g| && start[i] >= 0) ==> AllOwned(g, lay)
  {
    hide Extends, AllOwned;
    var mid := FillForward(g, start);
    lay := FillBackward(g, mid);
    ForwardExtends(g, start, mid);
    BackwardExtends(g, mid, lay);
    ExtendsTwice(g, start, mid, lay);
    if j :| 0 <= j < |g| && start[j] >= 0 {
      NoneUnowned(g, start, mid, lay, j);
    }
  }

  lemma ForwardExtends(g: Graph, start: seq<int>, lay: seq<int>)
    requires |start| == |g| && (forall i :: 0 <= i < |g| ==> start[i] >= -1) && ForwardFilled(g, start, lay)
    ensures Extends(g, start, lay) && forall i :: 0 <= i < |g| ==> lay[i] >= -1
  {
    forall i: nat | i < |g| ensures Before(start, i) >= 0 ==> Occurs(start, Before(start, i)) {
      BeforeFinds(start, i);
    }
  }

  lemma BackwardExtends(g: Graph, start: seq<int>, lay: seq<int>)
    requires |start| == |g| && (forall i :: 0 <= i < |g| ==> start[i] >= -1) && BackwardFilled(g, start, lay)
    ensures Extends(g, start, lay)
  {
    forall i: nat | i < |g| ensures After(start, i) >= 0 ==> Occurs(start, After(start, i)) {
      AfterFinds(start, i);
    }
  }

  lemma NoneUnowned(g: Graph, start: seq<int>, mid: seq<int>, lay: seq<int>, j: nat)
    requires ForwardFilled(g, start, mid) && BackwardFilled(g, mid, lay) && j < |g| && start[j] >= 0
    ensures AllOwned(g, lay)
  {
    forall k: nat | k < |g| && g[k].op ensures lay[k] >= 0 {
      BeforeFinds(start, k);
      AfterFinds(mid, k);
      assert mid[j] >= 0;
    }
  }

  lemma ExtendsTwice(g: Graph, a: seq<int>, b: seq<int>, c: seq<int>)
    requires Extends(g, a, b) && Extends(g, b, c)
    ensures Extends(g, a, c)
  {
    forall i | 0 <= i < |a| && a[i] < 0 && c[i] >= 0 ensures g[i].op && exists j :: 0 <= j < |a| && a[j] == c[i] {
      if b[i] < 0 {
        var j :| 0 <= j < |b| && b[j] == c[i];
        if a[j] < 0 {
          var m :| 0 <= m < |a| && a[m] == b[j];
        }
      }
    }
  }

  // ---- out-ids narrowing ---------------------------------------------------------------------

  /** get_rows of a computed tensor by a graph input: the selection of output rows. */
  predicate Narrowing(g: Graph, i: nat)
    requires Valid(g) && i < |g|
  {
    && g[i].getRows && |g[i].srcs| >= 2 && !g[i].srcs[0].Absent? && !g[i].srcs[1].Absent?
    && (if g[i].srcs[0].In? then g[g[i].srcs[0].node].op else g[i].srcs[0].op)
    && (if g[i].srcs[1].In? then g[g[i].srcs[1].node].input else g[i].srcs[1].input)
  }

  /** The layer of the first owned consumer of node i, or -1. */
  function FirstConsumer(g: Graph, lay: seq<int>, i: nat, c: nat): int
    requires |lay| == |g| && c <= |g|
    decreases |g| - c
  {
    if c == |g| then -1
    else if lay[c] >= 0 && Reads(g, c, i) then lay[c]
    else FirstConsumer(g, lay, i, c + 1)
  }

  /** Narrowings move to the layer of their first owned consumer; all else stays. */
  ghost predicate Narrowed(g: Graph, lay: seq<int>, lay': seq<int>)
    requires Valid(g) && |lay| == |g|
  {
    && |lay'| == |g|
    && forall i :: 0 <= i < |g| ==>
         lay'[i] == if Narrowing(g, i) && FirstConsumer(g, lay, i, 0) >= 0 then FirstConsumer(g, lay, i, 0) else lay[i]
  }

  method Narrow(g: Graph, start: seq<int>) returns (lay: seq<int>)
    requires Valid(g) && |start| == |g|
    ensures Narrowed(g, start, lay)
  {
    var consumerLayer: map<nat, int> := map[];
    for i := 0 to |g|
      invariant forall n: nat :: n in consumerLayer <==> exists c :: 0 <= c < i && start[c] >= 0 && Reads(g, c, n)
      invariant forall n: nat :: n in consumerLayer ==> consumerLayer[n] == FirstConsumer(g, start, n, 0)
    {
      if start[i] < 0 { continue; }
      ghost var before := consumerLayer;
      for s := 0 to |g[i].srcs|
        invariant forall n: nat ::
                    n in consumerLayer <==> n in before || exists r :: 0 <= r < s && g[i].srcs[r] == In(n)
        invariant forall n: nat :: n in consumerLayer ==> consumerLayer[n] == FirstConsumer(g, start, n, 0)
      {
        if g[i].srcs[s].In? {
          var n := g[i].srcs[s].node;
          if n !in consumerLayer {
            FirstIs(g, start, n, i, 0);
            consumerLayer := consumerLayer[n := start[i]];
          }
        }
      }
    }
    forall n: nat | n < |g| ensures FirstConsumer(g, start, n, 0) >= 0 <==> n in consumerLayer {
      FirstExists(g, start, n, 0);
    }
    lay := start;
    for i := 0 to |g|
      invariant |lay| == |g| && forall j :: i <= j < |g| ==> lay[j] == start[j]
      invariant forall j :: 0 <= j < i ==>
                  lay[j] ==
                    if Narrowing(g, j) && FirstConsumer(g, start, j, 0) >= 0 then FirstConsumer(g, start, j, 0)
                    else start[j]
    {
      if !Narrowing(g, i) { continue; }
      if i in consumerLayer && lay[i] != consumerLayer[i] {
        lay := lay[i := consumerLayer[i]];
      }
    }
  }

  lemma {:induction false} FirstIs(g: Graph, lay: seq<int>, n: nat, i: nat, c: nat)
    requires |lay| == |g| && c <= i < |g| && lay[i] >= 0 && Reads(g, i, n)
    requires forall d :: c <= d < i ==> !(lay[d] >= 0 && Reads(g, d, n))
    ensures FirstConsumer(g, lay, n, c) == lay[i]
    decreases i - c
  {
    if c < i { FirstIs(g, lay, n, i, c + 1); }
  }

  lemma {:induction false} FirstExists(g: Graph, lay: seq<int>, n: nat, c: nat)
    requires |lay| == |g| && c <= |g|
    ensures FirstConsumer(g, lay, n, c) >= 0 <==> exists d :: c <= d < |g| && lay[d] >= 0 && Reads(g, d, n)
    decreases |g| - c
  {
    if c < |g| { FirstExists(g, lay, n, c + 1); }
  }

  // ---- layer lists ------------------------------------------------------------------------------

  ghost predicate Ascending(xs: seq<nat>) {
    forall i, j :: 0 <= i < j < |xs| ==> xs[i] < xs[j]
  }

  predicate Listed(lists: map<nat, seq<nat>>, l: nat, i: nat) {
    l in lists && i in lists[l]
  }

  /** Each list holds exactly the nodes of its layer, in graph order. */
  ghost predicate ListsAre(g: Graph, lay: seq<int>, lists: map<nat, seq<nat>>)
    requires |lay| == |g|
  {
    && (forall l ::
         l in lists ==> lists[l] != [] && Ascending(lists[l]) && forall x :: x in lists[l] ==> x < |g| && lay[x] == l)
    && forall i :: 0 <= i < |g| && lay[i] >= 0 ==> Listed(lists, lay[i], i)
  }

  /** The lists of the first n nodes. */
  ghost predicate ListsUpTo(lay: seq<int>, lists: map<nat, seq<nat>>, n: nat)
    requires n <= |lay|
  {
    && (forall l :: l in lists ==> ListUpTo(lay, lists[l], l, n))
    && forall j :: 0 <= j < n && lay[j] >= 0 ==> Listed(lists, lay[j], j)
  }

  ghost predicate ListUpTo(lay: seq<int>, list: seq<nat>, l: nat, n: nat)
    requires n <= |lay|
  {
    list != [] && Ascending(list) && forall k :: 0 <= k < |list| ==> list[k] < n && lay[list[k]] == l
  }

  function Appended(lists: map<nat, seq<nat>>, l: nat, i: nat): map<nat, seq<nat>> {
    lists[l := (if l in lists then lists[l] else []) + [i]]
  }

  lemma ListExtends(lay: seq<int>, list: seq<nat>, l: nat, n: nat)
    requires n < |lay| && ListUpTo(lay, list, l, n)
    ensures ListUpTo(lay, list, l, n + 1)
    ensures lay[n] == l ==> ListUpTo(lay, list + [n], l, n + 1)
  {
  }

  lemma ListAppended(lay: seq<int>, lists: map<nat, seq<nat>>, i: nat)
    requires i < |lay| && lay[i] >= 0 && ListsUpTo(lay, lists, i)
    ensures ListsUpTo(lay, Appended(lists, lay[i], i), i + 1)
  {
    hide ListUpTo;
    var after := Appended(lists, lay[i], i);
    forall l | l in after ensures ListUpTo(lay, after[l], l, i + 1) {
      if l in lists {
        ListExtends(lay, lists[l], l, i);
      } else {
        SingleList(lay, i);
        assert after[l] == [i];
      }
    }
    forall j | 0 <= j < i + 1 && lay[j] >= 0 ensures Listed(after, lay[j], j) {
      if j < i { assert Listed(lists, lay[j], j); }
    }
  }

  lemma SingleList(lay: seq<int>, i: nat)
    requires i < |lay| && lay[i] >= 0
    ensures ListUpTo(lay, [i], lay[i], i + 1)
  {
  }

  lemma ListSkipped(lay: seq<int>, lists: map<nat, seq<nat>>, i: nat)
    requires i < |lay| && lay[i] < 0 && ListsUpTo(lay, lists, i)
    ensures ListsUpTo(lay, lists, i + 1)
  {
    hide ListUpTo;
    forall l | l in lists ensures ListUpTo(lay, lists[l], l, i + 1) {
      ListExtends(lay, lists[l], l, i);
    }
  }

  lemma ListsComplete(g: Graph, lay: seq<int>, lists: map<nat, seq<nat>>)
    requires |lay| == |g| && ListsUpTo(lay, lists, |g|)
    ensures ListsAre(g, lay, lists)
  {
    forall l | l in lists ensures lists[l] != [] && Ascending(lists[l]) &&
        forall x :: x in lists[l] ==> x < |g| && lay[x] == l {
      assert ListUpTo(lay, lists[l], l, |g|);
    }
  }

  method MakeLists(g: Graph, lay: seq<int>) returns (lists: map<nat, seq<nat>>)
    requires |lay| == |g|
    ensures ListsAre(g, lay, lists)
  {
    lists := map[];
    assert ListsUpTo(lay, lists, 0);
    hide ListsUpTo, ListsAre;
    for i := 0 to |g|
      invariant ListsUpTo(lay, lists, i)
    {
      if lay[i] >= 0 {
        ListAppended(lay, lists, i);
        lists := Appended(lists, lay[i], i);
      } else {
        ListSkipped(lay, lists, i);
      }
    }
    ListsComplete(g, lay, lists);
  }

  ghost predicate InExactlyOneList(lists: map<nat, seq<nat>>, i: nat) {
    exists l :: Listed(lists, l, i) && forall k :: Listed(lists, k, i) ==> k == l
  }

  /** collect_layer_nodes: if any node has a layer, every compute node is in exactly
      one layer list, in graph order. */
  method CollectLayerNodes(g: Graph) returns (lists: map<nat, seq<nat>>, ghost produced: seq<int>, ghost lay: seq<int>)
    requires Valid(g)
    ensures |produced| == |g| && LatestProducer(g, produced)
    ensures |lay| == |g| && ListsAre(g, lay, lists)
    ensures forall i :: 0 <= i < |g| && produced[i] >= 0 && !Narrowing(g, i) ==> lay[i] == produced[i]
    ensures if exists i :: 0 <= i < |g| && Named(g, i)
            then forall i :: 0 <= i < |g| && g[i].op ==> InExactlyOneList(lists, i)
            else lists == map[]
  {
    var byProducer := PropagateProducers(g);
    produced := byProducer;
    var byConsumer := PropagateConsumers(g, byProducer);
    var filled := Fallback(g, byConsumer);
    var narrowed := Narrow(g, filled);
    lay := narrowed;
    lists := MakeLists(g, narrowed);
    if i :| 0 <= i < |g| && Named(g, i) {
      assert byProducer[i] >= 0 && byConsumer[i] >= 0;
      forall j: nat | j < |g| && g[j].op ensures InExactlyOneList(lists, j) {
        assert filled[j] >= 0 && narrowed[j] >= 0;
        assert Listed(lists, narrowed[j], j);
      }
    } else {
      NoneNamed(g, byProducer, byConsumer, filled, narrowed, lists);
    }
  }

  /** A graph in which no node has a layer has no lists. */
  lemma NoneNamed(g: Graph, a: seq<int>, b: seq<int>, c: seq<int>, d: seq<int>, lists: map<nat, seq<nat>>)
    requires Valid(g) && |a| == |g| && LatestProducer(g, a) && Bounded(a, Top(Initial(g))) && Extends(g, a, b) &&
               Extends(g, b, c) && Narrowed(g, c, d)
    requires ListsAre(g, d, lists) && forall i :: 0 <= i < |g| ==> !Named(g, i)
    ensures lists == map[]
  {
    forall l | l in lists ensures exists x :: 0 <= x < |g| && d[x] == l {
      assert lists[l][0] in lists[l];
    }
    assert Top(Initial(g)) == -1;
    assert forall i :: 0 <= i < |g| ==> a[i] == -1;
    assert forall i :: 0 <= i < |g| ==> c[i] < 0;
    forall i: nat | i < |g| ensures d[i] < 0 {
      FirstExists(g, c, i, 0);
    }
  }

  // ---- head, closure and tail ---------------------------------------------------------------------

  /** Node x of the list is reached from the seed along reads, in k steps. */
  ghost predicate Reached(g: Graph, list: seq<nat>, seed: nat, x: nat, k: nat)
    decreases k
  {
    || x == seed
    || (k > 0 && x < |g| && x in list && exists y :: y in list && Reads(g, x, y) && Reached(g, list, seed, y, k - 1))
  }

  /** Forward closure of the seed inside the list. */
  ghost predicate Below(g: Graph, list: seq<nat>, seed: int, x: nat) {
    seed >= 0 && seed in list && exists k :: Reached(g, list, seed, x, k)
  }

  ghost predicate LayerList(g: Graph, list: seq<nat>) {
    Ascending(list) && forall i :: 0 <= i < |list| ==> list[i] < |g|
  }

  ghost predicate IsIndex(list: seq<nat>, lidx: map<nat, nat>) {
    && (forall x: nat :: x in lidx <==> x in list)
    && (forall x: nat :: x in lidx ==> lidx[x] < |list| && list[lidx[x]] == x)
    && (forall i :: 0 <= i < |list| ==> list[i] in lidx && lidx[list[i]] == i)
  }

  /** Where each node stands in the list. */
  method Positions(g: Graph, list: seq<nat>) returns (lidx: map<nat, nat>)
    requires LayerList(g, list)
    ensures IsIndex(list, lidx)
  {
    lidx := map[];
    for i := 0 to |list|
      invariant forall x: nat :: x in lidx <==> x in list[..i]
      invariant forall x: nat :: x in lidx ==> lidx[x] < i && list[lidx[x]] == x
    {
      assert list[..i + 1] == list[..i] + [list[i]];
      lidx := lidx[list[i] := i];
    }
    assert list[..|list|] == list;
  }

  function Unmarked(down: seq<bool>): nat {
    if down == [] then 0 else Unmarked(down[..|down| - 1]) + if down[|down| - 1] then 0 else 1
  }

  lemma {:induction false} MarkShrinks(down: seq<bool>, i: nat)
    requires i < |down| && !down[i]
    ensures Unmarked(down[i := true]) == Unmarked(down) - 1
  {
    var n := |down| - 1;
    if i < n {
      MarkShrinks(down[..n], i);
      assert down[i := true][..n] == down[..n][i := true];
    } else {
      assert down[i := true][..n] == down[..n];
    }
  }

  /** A source of the node at position i is marked. */
  method ReadsMarked(g: Graph, list: seq<nat>, lidx: map<nat, nat>, down: seq<bool>, i: nat) returns (found: bool)
    requires LayerList(g, list) && |down| == |list| && i < |list|
    requires IsIndex(list, lidx)
    ensures found <==> exists y :: y in list && Reads(g, list[i], y) && down[lidx[y]]
  {
    assert list[i] in list;
    var n := g[list[i]];
    found := false;
    for s := 0 to |n.srcs|
      invariant !found &&
                  forall r :: 0 <= r < s && n.srcs[r].In? && n.srcs[r].node in lidx ==> !down[lidx[n.srcs[r].node]]
    {
      if n.srcs[s].In? && n.srcs[s].node in lidx && down[lidx[n.srcs[s].node]] {
        assert Reads(g, list[i], n.srcs[s].node);
        return true;
      }
    }
  }

  /** Marks are only on nodes below the seed. */
  ghost predicate MarksBelow(g: Graph, list: seq<nat>, seed: int, down: seq<bool>) {
    |down| == |list| && forall i :: 0 <= i < |list| && down[i] ==> Below(g, list, seed, list[i])
  }

  lemma MarkBelow(g: Graph, list: seq<nat>, lidx: map<nat, nat>, seed: int, down: seq<bool>, i: nat)
    requires LayerList(g, list) && IsIndex(list, lidx) && MarksBelow(g, list, seed, down) && i < |list|
    requires exists y :: y in list && Reads(g, list[i], y) && down[lidx[y]]
    ensures MarksBelow(g, list, seed, down[i := true])
  {
    var y :| y in list && Reads(g, list[i], y) && down[lidx[y]];
    assert Below(g, list, seed, list[lidx[y]]);
    var k: nat :| Reached(g, list, seed, y, k);
    assert Reached(g, list, seed, list[i], k + 1);
  }

  /** Every node that reads a marked one is marked, up to position n. */
  ghost predicate Closed(g: Graph, list: seq<nat>, down: seq<bool>, n: nat)
    requires |down| == |list| && n <= |list|
  {
    forall i, j :: 0 <= i < n && 0 <= j < |list| && down[j] && Reads(g, list[i], list[j]) ==> down[i]
  }

  ghost predicate SeedMarked(list: seq<nat>, seed: int, down: seq<bool>)
    requires |down| == |list|
  {
    forall j :: 0 <= j < |list| && list[j] == seed ==> down[j]
  }

  lemma {:induction false} ClosedHoldsBelow(g: Graph, list: seq<nat>, seed: nat, down: seq<bool>, i: nat, k: nat)
    requires LayerList(g, list) && |down| == |list| && Closed(g, list, down, |list|) && i < |list|
    requires SeedMarked(list, seed, down) && Reached(g, list, seed, list[i], k)
    ensures down[i]
    decreases k
  {
    if list[i] != seed {
      var y :| y in list && Reads(g, list[i], y) && Reached(g, list, seed, y, k - 1);
      var j :| 0 <= j < |list| && list[j] == y;
      ClosedHoldsBelow(g, list, seed, down, j, k - 1);
    }
  }

  /** At the fixpoint the marks are exactly what lies below the seed. */
  lemma FixpointIsBelow(g: Graph, list: seq<nat>, seed: int, down: seq<bool>)
    requires LayerList(g, list) && MarksBelow(g, list, seed, down) && Closed(g, list, down, |list|) &&
               SeedMarked(list, seed, down)
    ensures forall i :: 0 <= i < |list| ==> (down[i] <==> Below(g, list, seed, list[i]))
  {
    forall i: nat | i < |list| && Below(g, list, seed, list[i]) ensures down[i] {
      var k: nat :| Reached(g, list, seed, list[i], k);
      ClosedHoldsBelow(g, list, seed, down, i, k);
    }
  }

  lemma NotReading(g: Graph, list: seq<nat>, lidx: map<nat, nat>, down: seq<bool>, i: nat)
    requires LayerList(g, list) && IsIndex(list, lidx) && |down| == |list| && i < |list| && Closed(g, list, down, i)
    requires !exists y :: y in list && Reads(g, list[i], y) && down[lidx[y]]
    ensures Closed(g, list, down, i + 1)
  {
    forall j | 0 <= j < |list| && down[j] ensures !Reads(g, list[i], list[j]) {
      assert list[j] in list && lidx[list[j]] == j;
    }
  }

  /** The marks before the loop: the seed alone, if it is in the list. */
  method SeedMarks(g: Graph, list: seq<nat>, lidx: map<nat, nat>, seed: int) returns (down: seq<bool>)
    requires LayerList(g, list) && IsIndex(list, lidx)
    ensures |down| == |list| && MarksBelow(g, list, seed, down) && SeedMarked(list, seed, down)
  {
    down := seq(|list|, _ => false);
    if seed >= 0 && seed in list {
      assert Reached(g, list, seed, seed, 0);
      down := down[lidx[seed] := true];
    }
    forall j | 0 <= j < |list| && list[j] == seed ensures down[j] {
      assert list[j] in list;
    }
  }

  /** The down loop: exactly forward reachability from the seed inside the list. */
  method Down(g: Graph, list: seq<nat>, seed: int) returns (down: seq<bool>)
    requires LayerList(g, list)
    ensures |down| == |list| && forall i :: 0 <= i < |list| ==> (down[i] <==> Below(g, list, seed, list[i]))
  {
    hide LayerList, Reads, Reached, Below, MarksBelow, Closed, IsIndex, Ascending;
    var lidx := Positions(g, list);
    down := SeedMarks(g, list, lidx, seed);
    var changed := true;
    while changed
      invariant |down| == |list| && MarksBelow(g, list, seed, down) && SeedMarked(list, seed, down)
      invariant !changed ==> Closed(g, list, down, |list|)
      decreases Unmarked(down), changed
    {
      changed := false;
      ghost var before := down;
      NothingYet(g, list, down);
      for i := 0 to |list|
        invariant |down| == |list| && MarksBelow(g, list, seed, down) && SeedMarked(list, seed, down)
        invariant changed ==> Unmarked(down) < Unmarked(before)
        invariant !changed ==> down == before && Closed(g, list, down, i)
      {
        if down[i] {
          AlreadyMarked(g, list, down, i, changed);
          continue;
        }
        var found := ReadsMarked(g, list, lidx, down, i);
        if found {
          MarkBelow(g, list, lidx, seed, down, i);
          MarkShrinks(down, i);
          down := down[i := true];
          changed := true;
        } else if !changed {
          NotReading(g, list, lidx, down, i);
        }
      }
    }
    FixpointIsBelow(g, list, seed, down);
  }

  lemma NothingYet(g: Graph, list: seq<nat>, down: seq<bool>)
    requires |down| == |list|
    ensures Closed(g, list, down, 0)
  {
  }

  lemma AlreadyMarked(g: Graph, list: seq<nat>, down: seq<bool>, i: nat, changed: bool)
    requires |down| == |list| && i < |list| && down[i] && (!changed ==> Closed(g, list, down, i))
    ensures !changed ==> Closed(g, list, down, i + 1)
  {
  }

  /** A cut of one layer: head, closure and tail partition the list in graph order;
      the tail is what lies below the seed outside the closure; no head node reads a tail node. */
  ghost predicate IsCut(g: Graph, list: seq<nat>, closure: set<nat>, seed: int, head: seq<nat>, tail: seq<nat>)
    requires LayerList(g, list)
  {
    && Ascending(head) && Ascending(tail)
    && (forall x :: x in head <==> x in list && x !in closure && !Below(g, list, seed, x))
    && (forall x :: x in tail <==> x in list && x !in closure && Below(g, list, seed, x))
    && forall x, y :: x in head && y in tail ==> !Reads(g, x, y)
  }

  /** The first n nodes of the list outside the closure whose mark is want. */
  function Pick(list: seq<nat>, closure: set<nat>, down: seq<bool>, want: bool, n: nat): seq<nat>
    requires n <= |list| == |down|
  {
    if n == 0 then []
    else Pick(list, closure, down, want, n - 1)
         + if list[n - 1] !in closure && down[n - 1] == want then [list[n - 1]] else []
  }

  ghost predicate Picked(list: seq<nat>, closure: set<nat>, down: seq<bool>, want: bool, n: nat, x: nat)
    requires n <= |list| == |down|
  {
    exists i :: 0 <= i < n && list[i] == x && x !in closure && down[i] == want
  }

  lemma {:induction false} PickHolds(list: seq<nat>, closure: set<nat>, down: seq<bool>, want: bool, n: nat)
    requires n <= |list| == |down| && Ascending(list)
    ensures forall x :: x in Pick(list, closure, down, want, n) <==> Picked(list, closure, down, want, n, x)
    ensures Ascending(Pick(list, closure, down, want, n))
  {
    if n > 0 {
      var before := Pick(list, closure, down, want, n - 1);
      PickHolds(list, closure, down, want, n - 1);
      forall x ensures Picked(list, closure, down, want, n, x) <==>
          Picked(list, closure, down, want, n - 1, x) ||
              (x == list[n - 1] && list[n - 1] !in closure && down[n - 1] == want) {
      }
      forall k | 0 <= k < |before| ensures before[k] < list[n - 1] {
        assert before[k] in before;
      }
    }
  }

  ghost function Inside(list: seq<nat>, closure: set<nat>): set<nat> {
    set x | x in list && x in closure
  }

  lemma InsideGrows(list: seq<nat>, closure: set<nat>, x: nat)
    requires x !in list
    ensures |Inside(list + [x], closure)| == |Inside(list, closure)| + if x in closure then 1 else 0
  {
    assert Inside(list + [x], closure) == Inside(list, closure) + if x in closure then {x} else {};
  }

  /** Each node is picked once, or lies in the closure. */
  lemma {:induction false} PickSplits(list: seq<nat>, closure: set<nat>, down: seq<bool>, n: nat)
    requires n <= |list| == |down| && Ascending(list)
    ensures |Pick(list, closure, down, true, n)| + |Pick(list, closure, down, false, n)| + |Inside(list[..n],
              closure)| == n
  {
    hide Inside;
    if n > 0 {
      PickSplits(list, closure, down, n - 1);
      assert list[..n] == list[..n - 1] + [list[n - 1]];
      InsideGrows(list[..n - 1], closure, list[n - 1]);
    } else {
      NothingInside(list[..0], closure);
    }
  }

  lemma NothingInside(list: seq<nat>, closure: set<nat>)
    requires list == []
    ensures |Inside(list, closure)| == 0
  {
    assert Inside(list, closure) == {};
  }

  /** build_layer_plans for one layer; seed is the closure's output, or -1. */
  method SplitLayer(g: Graph, list: seq<nat>, closure: set<nat>, seed: int) returns (head: seq<nat>, tail: seq<nat>)
    requires LayerList(g, list)
    ensures IsCut(g, list, closure, seed, head, tail)
    ensures |head| + |tail| + |Inside(list, closure)| == |list|
  {
    hide Reads, Reached, Below, Picked;
    var down := Down(g, list, seed);
    head, tail := [], [];
    for i := 0 to |list|
      invariant head == Pick(list, closure, down, false, i) && tail == Pick(list, closure, down, true, i)
    {
      if list[i] in closure { continue; }
      if down[i] {
        tail := tail + [list[i]];
      } else {
        head := head + [list[i]];
      }
    }
    PickIsCut(g, list, closure, seed, down);
  }

  lemma PickIsCut(g: Graph, list: seq<nat>, closure: set<nat>, seed: int, down: seq<bool>)
    requires LayerList(g, list) && |down| == |list| &&
               forall i :: 0 <= i < |list| ==> (down[i] <==> Below(g, list, seed, list[i]))
    ensures IsCut(g, list, closure, seed, Pick(list, closure, down, false, |list|),
              Pick(list, closure, down, true, |list|))
    ensures |Pick(list, closure, down, false, |list|)| + |Pick(list, closure, down, true, |list|)| + |Inside(list,
              closure)| == |list|
  {
    hide Reads, Below, Reached;
    PickHolds(list, closure, down, false, |list|);
    PickHolds(list, closure, down, true, |list|);
    PickSplits(list, closure, down, |list|);
    assert list[..|list|] == list;
    HeadReadsNoTail(g, list, closure, seed, Pick(list, closure, down, false, |list|),
        Pick(list, closure, down, true, |list|));
  }

  lemma HeadReadsNoTail(g: Graph, list: seq<nat>, closure: set<nat>, seed: int, head: seq<nat>, tail: seq<nat>)
    requires LayerList(g, list)
    requires forall x :: x in head <==> x in list && x !in closure && !Below(g, list, seed, x)
    requires forall x :: x in tail <==> x in list && x !in closure && Below(g, list, seed, x)
    ensures forall x, y :: x in head && y in tail ==> !Reads(g, x, y)
  {
    forall x, y | x in head && y in tail ensures !Reads(g, x, y) {
      if Reads(g, x, y) {
        var k: nat :| Reached(g, list, seed, y, k);
        assert Reached(g, list, seed, x, k + 1);
      }
    }
  }

  /** The lists of collect_layer_nodes are lists build_layer_plans can cut. */
  lemma CollectedListsCanBeCut(g: Graph, lay: seq<int>, lists: map<nat, seq<nat>>, l: nat)
    requires |lay| == |g| && ListsAre(g, lay, lists) && l in lists
    ensures LayerList(g, lists[l])
  {
    assert forall i :: 0 <= i < |lists[l]| ==> lists[l][i] in lists[l];
  }
}
