/** Each change to the store keeps it consistent and keeps every pin good.
    Every change is local to one slot w and to the directory cells that name w. */
module PoolStoreProofs {
  import opened Basics
  import opened PoolState
  import opened PoolSteps
  import opened PoolInvariant

  // ---- frames ---------------------------------------------------------------

  /** Nothing but slot w, its bytes and the cells naming w differ (refcounts aside). */
  ghost predicate Local(st: Store, st': Store, w: nat) {
    && |st'.slots| == |st.slots| && |st'.bytes| == |st.bytes|
    && (forall v :: 0 <= v < |st.slots| && v != w ==> st'.slots[v].st == st.slots[v].st)
    && (forall v :: 0 <= v < |st.bytes| && v != w ==> st'.bytes[v] == st.bytes[v])
    && (forall q :: q in st'.dir && st'.dir[q].slot != w ==> Cell(st, q, st'.dir[q]))
    && (forall q :: q in st.dir && st.dir[q].slot != w ==> Cell(st', q, st.dir[q]))
  }

  ghost predicate NoMoveAt(st: Store, w: nat) {
    forall i :: 0 <= i < |st.moves| ==> st.moves[i].src != w && st.moves[i].dst != w
  }

  function BusySlot(b: Busy): Option<nat> {
    match b
    case NoBusy => None
    case BReady(ld) => Some(ld.slot)
    case BBad(ld) => Some(ld.slot)
    case BMove(m) => Some(m.dst)
    case BReserved(_, v) => Some(v)
    case BClear(_, v) => Some(v)
  }

  lemma MoveFrame(st: Store, st': Store, w: nat, m: Move)
    requires MoveOk(st, m) && Local(st, st', w) && m.src != w && m.dst != w
    ensures MoveOk(st', m)
  {
  }

  lemma MovesFrame(st: Store, st': Store, w: nat)
    requires MovesOk(st) && Local(st, st', w) && NoMoveAt(st, w) && st'.moves == st.moves && st'.copied == st.copied
    ensures MovesOk(st')
  {
    forall i | 0 <= i < |st'.moves| ensures MoveOk(st', st'.moves[i]) {
      MoveFrame(st, st', w, st.moves[i]);
    }
  }

  lemma LoadsFrame(st: Store, st': Store, w: nat)
    requires LoadsOk(st) && Local(st, st', w) && |st.slots| == |st.bytes|
    requires forall i :: i in st'.loads && st'.loads[i].slot != w ==> i in st.loads && st'.loads[i] == st.loads[i]
    requires forall i :: i in st'.loads && st'.loads[i].slot == w ==> LoadOk(st', st'.loads[i])
    ensures LoadsOk(st')
  {
    forall i | i in st'.loads ensures LoadOk(st', st'.loads[i]) {
      if st'.loads[i].slot != w {
        assert LoadOk(st, st.loads[i]);
      }
    }
  }

  /** Loads and move destinations away from w are still there. */
  ghost predicate BackingKept(st: Store, st': Store, w: nat) {
    && (forall i :: i in st.loads && st.loads[i].slot != w ==> i in st'.loads && st'.loads[i].slot == st.loads[i].slot)
    && (forall i :: 0 <= i < |st.moves| && st.moves[i].dst != w ==>
          exists j :: 0 <= j < |st'.moves| && st'.moves[j].dst == st.moves[i].dst)
  }

  lemma EntryFrame(st: Store, b: Busy, st': Store, b': Busy, w: nat, p: Place)
    requires |st.slots| == |st.bytes| && p in st.dir && st.dir[p].slot < |st.slots| && st.dir[p].slot != w
    requires EntryOk(st, b, p) && Local(st, st', w) && BackingKept(st, st', w)
    requires b == b' || (BusySlot(b) in {None, Some(w)})
    ensures Cell(st', p, st.dir[p]) && EntryOk(st', b', p)
  {
    var v := st.dir[p].slot;
    if LoadedBy(st, v) {
      var i :| i in st.loads && st.loads[i].slot == v;
      assert LoadedBy(st', v) by { assert st'.loads[i].slot == v; }
    }
  }

  lemma AgreesFrame(st: Store, b: Busy, st': Store, b': Busy, w: nat)
    requires DirAgrees(st, b) && Local(st, st', w) && BackingKept(st, st', w) && w < |st.slots|
    requires b == b' || (BusySlot(b) in {None, Some(w)})
    requires forall p :: p in st'.dir && st'.dir[p].slot == w ==> EntryOk(st', b', p)
    ensures DirAgrees(st', b')
  {
    forall p | p in st'.dir ensures st'.dir[p].slot < |st'.slots| && EntryOk(st', b', p) {
      if st'.dir[p].slot != w {
        EntryFrame(st, b, st', b', w, p);
      }
    }
  }

  /** Refcounts are untouched and good pins stay good. */
  ghost predicate Keeps(st: Store, st': Store) {
    && |st'.slots| == |st.slots|
    && (forall v :: 0 <= v < |st.slots| ==> st'.slots[v].ref == st.slots[v].ref)
    && (forall h :: HandleOk(st, h) ==> HandleOk(st', h))
  }

  lemma KeepsPins(st: Store, st': Store, pins: Pins)
    requires PinsOk(st, pins) && Keeps(st, st')
    ensures PinsOk(st', pins)
  {
  }

  /** Slot v is no move's source or destination: it is neither detached for a move nor moving in. */
  lemma NoMoveHere(cfg: Config, st: Store, b: Busy, v: nat)
    requires MovesOk(st) && v < |st.slots|
    requires NoMoveFrom(st, v)
    requires NotNamed(st, v) || st.slots[v].st != IoInflight
             || exists p :: p in st.dir && st.dir[p].slot == v && st.dir[p].st != MovingIn && DirUnique(st.dir)
    ensures NoMoveAt(st, v)
  {
    forall i | 0 <= i < |st.moves| ensures st.moves[i].dst != v {
      assert MoveOk(st, st.moves[i]);
    }
  }

  /** A slot that is not EVICTING is no move's source. */
  lemma NotASource(st: Store, v: nat)
    requires MovesOk(st) && v < |st.slots| && st.slots[v].st != Evicting
    ensures NoMoveFrom(st, v)
  {
    forall i | 0 <= i < |st.moves| ensures st.moves[i].src != v {
      assert MoveOk(st, st.moves[i]);
    }
  }

  /** A slot that is not IO_INFLIGHT is filled by no load. */
  lemma NotALoad(st: Store, v: nat)
    requires LoadsOk(st) && v < |st.slots| && st.slots[v].st != IoInflight
    ensures NoLoadAt(st, v)
  {
    forall i | i in st.loads ensures st.loads[i].slot != v {
      assert LoadOk(st, st.loads[i]);
    }
  }

  lemma CellAgrees(st: Store, b: Busy, p: Place)
    requires DirAgrees(st, b) && p in st.dir
    ensures st.dir[p].slot < |st.slots| && EntryOk(st, b, p)
  {
  }

  lemma CellTyped(cfg: Config, dir: Directory, p: Place)
    requires DirTyped(cfg, dir) && p in dir
    ensures CellInRegion(cfg, p, dir[p])
  {
  }

  lemma OnlyCell(dir: Directory, p: Place)
    requires DirUnique(dir) && p in dir
    ensures forall q :: q in dir && (q.ex == p.ex || dir[q].slot == dir[p].slot) ==> q == p
  {
  }

  /** Two cells of one expert are one cell. */
  lemma OneCell(cfg: Config, st: Store, b: Busy, p: Place, q: Place)
    requires StoreOk(cfg, st, b) && p in st.dir && q in st.dir && p.ex == q.ex
    ensures p == q
  {
    hide DirTyped, DirAgrees, LoadsOk, MovesOk, BusyOk;
  }

  // ---- refcounts --------------------------------------------------------------

  /** Only the refcount of a READY slot changes. */
  lemma RefChange(cfg: Config, st: Store, b: Busy, v: nat, n: nat)
    requires StoreOk(cfg, st, b) && v < |st.slots| && st.slots[v].st == Ready
    ensures StoreOk(cfg, WithSlot(st, v, st.slots[v].(ref := n)), b)
  {
    hide DirTyped, DirUnique, LoadsOk, LoadsUnique, MovesOk, MovesUnique, DirAgrees;
    RefMoves(st, v, n);
    RefLoads(st, v, n);
    RefAgrees(st, b, v, n);
  }

  lemma RefMoves(st: Store, v: nat, n: nat)
    requires MovesOk(st) && v < |st.slots|
    ensures MovesOk(WithSlot(st, v, st.slots[v].(ref := n)))
  {
    var st' := WithSlot(st, v, st.slots[v].(ref := n));
    forall i | 0 <= i < |st'.moves| ensures MoveOk(st', st'.moves[i]) {
      assert MoveOk(st, st.moves[i]);
    }
  }

  lemma RefLoads(st: Store, v: nat, n: nat)
    requires LoadsOk(st) && v < |st.slots|
    ensures LoadsOk(WithSlot(st, v, st.slots[v].(ref := n)))
  {
    var st' := WithSlot(st, v, st.slots[v].(ref := n));
    forall i | i in st'.loads ensures LoadOk(st', st'.loads[i]) {
      assert LoadOk(st, st.loads[i]);
    }
  }

  lemma RefAgrees(st: Store, b: Busy, v: nat, n: nat)
    requires DirAgrees(st, b) && v < |st.slots|
    ensures DirAgrees(WithSlot(st, v, st.slots[v].(ref := n)), b)
  {
    var st' := WithSlot(st, v, st.slots[v].(ref := n));
    forall p | p in st'.dir ensures st'.dir[p].slot < |st'.slots| && EntryOk(st', b, p) {
      assert EntryOk(st, b, p);
    }
  }

  // ---- allocation and eviction --------------------------------------------------

  lemma UnnamedIfEmpty(cfg: Config, st: Store, b: Busy, v: nat)
    requires DirAgrees(st, b) && v < |st.slots| && st.slots[v].st == Empty
    ensures NotNamed(st, v)
  {
    forall q | q in st.dir ensures st.dir[q].slot != v {
      assert EntryOk(st, b, q);
    }
  }

  /** A free or detached slot begins the reload for a cell of an absent expert. */
  lemma ReserveOk(cfg: Config, st: Store, p: Place, v: nat)
    requires StoreOk(cfg, st, NoBusy) && NoEntry(st, p.ex)
    requires p.ex.layer < cfg.nLayers && p.ex.id < cfg.nExperts
    requires cfg.Home(p.ex.layer, p.pool).Some? && cfg.Home(p.ex.layer, p.pool).value.Has(v)
    requires v < |st.slots| && (st.slots[v].st == Empty || Detached(st, v))
    ensures StoreOk(cfg, Reserve(st, p, v), BReserved(p, v)) && Keeps(st, Reserve(st, p, v))
  {
    hide DirTyped, DirUnique, LoadsOk, LoadsUnique, MovesOk, MovesUnique, DirAgrees;
    var st' := Reserve(st, p, v);
    var b := BReserved(p, v);
    if st.slots[v].st == Empty {
      UnnamedIfEmpty(cfg, st, NoBusy, v);
      NotASource(st, v);
    }
    NoMoveHere(cfg, st, NoBusy, v);
    NotALoad(st, v);
    assert Local(st, st', v);
    MovesFrame(st, st', v);
    LoadsFrame(st, st', v);
    AgreesFrame(st, NoBusy, st', b, v);
    NewCell(cfg, st, p, Entry(Loading, v));
  }

  lemma NewCell(cfg: Config, st: Store, p: Place, e: Entry)
    requires DirTyped(cfg, st.dir) && DirUnique(st.dir) && NoEntry(st, p.ex) && NotNamed(st, e.slot)
    requires CellInRegion(cfg, p, e)
    ensures DirTyped(cfg, st.dir[p := e]) && DirUnique(st.dir[p := e])
  {
  }

  /** A cell is rewritten without changing its slot. */
  lemma SameSlotCell(cfg: Config, dir: Directory, p: Place, e: Entry)
    requires DirTyped(cfg, dir) && DirUnique(dir) && p in dir && dir[p].slot == e.slot
    ensures DirTyped(cfg, dir[p := e]) && DirUnique(dir[p := e])
  {
    assert CellInRegion(cfg, p, dir[p]);
    var d := dir[p := e];
    assert forall q :: q in d ==> q in dir && d[q].slot == dir[q].slot;
    forall q | q in d ensures CellInRegion(cfg, q, d[q]) {
      assert CellInRegion(cfg, q, dir[q]);
    }
  }

  lemma ClearCell(cfg: Config, dir: Directory, p: Place)
    requires DirTyped(cfg, dir) && DirUnique(dir)
    ensures DirTyped(cfg, Clear(dir, p)) && DirUnique(Clear(dir, p))
  {
  }

  /** begin_evict on an unpinned resident. */
  lemma CasOk(cfg: Config, st: Store, p: Place, v: nat)
    requires StoreOk(cfg, st, NoBusy) && Cell(st, p, Entry(Resident, v))
    requires v < |st.slots| && st.slots[v].st == Ready && st.slots[v].ref == 0
    ensures StoreOk(cfg, WithSlot(st, v, st.slots[v].(st := Evicting)), BClear(p, v))
  {
    hide DirTyped, DirUnique, LoadsOk, LoadsUnique, MovesOk, MovesUnique, DirAgrees;
    var st' := WithSlot(st, v, st.slots[v].(st := Evicting));
    CellAgrees(st, NoBusy, p);
    OnlyCell(st.dir, p);
    NotASource(st, v);
    NoMoveHere(cfg, st, NoBusy, v);
    MovesFrame(st, st', v);
    LoadsFrameUnchanged(st, st', v);
    AgreesFrame(st, NoBusy, st', BClear(p, v), v);
  }

  /** No load fills a slot whose cell is not LOADING. */
  lemma LoadsFrameUnchanged(st: Store, st': Store, v: nat)
    requires LoadsOk(st) && Local(st, st', v) && |st.slots| == |st.bytes| && st'.loads == st.loads
    requires v < |st.slots| && st.slots[v].st != IoInflight
    ensures LoadsOk(st') && NoLoadAt(st, v)
  {
    forall i | i in st.loads ensures st.loads[i].slot != v {
      assert LoadOk(st, st.loads[i]);
    }
    LoadsFrame(st, st', v);
  }

  /** The victim's cell is cleared: its slot is detached and still full of its bytes. */
  lemma ClearOk(cfg: Config, st: Store, p: Place, v: nat)
    requires StoreOk(cfg, st, BClear(p, v))
    ensures var st' := st.(dir := Clear(st.dir, p));
            StoreOk(cfg, st', NoBusy) && Keeps(st, st') && Detached(st', v) && NoEntry(st', p.ex) &&
                st'.bytes[v] == Some(p.ex)
            && p.ex.layer < cfg.nLayers && p.ex.id < cfg.nExperts
  {
    hide DirTyped, DirUnique, LoadsOk, LoadsUnique, MovesOk, MovesUnique, DirAgrees;
    var st' := st.(dir := Clear(st.dir, p));
    CellAgrees(st, BClear(p, v), p);
    CellTyped(cfg, st.dir, p);
    OnlyCell(st.dir, p);
    ClearCell(cfg, st.dir, p);
    NoMoveHere(cfg, st, NoBusy, v);
    MovesFrame(st, st', v);
    LoadsFrameUnchanged(st, st', v);
    AgreesFrame(st, BClear(p, v), st', NoBusy, v);
  }

  /** A reserved cell is handed to a new load. */
  lemma SubmitLoadOk(cfg: Config, st: Store, p: Place, v: nat, i: nat)
    requires StoreOk(cfg, st, BReserved(p, v)) && i !in st.loads
    ensures var st' := st.(loads := st.loads[i := Load(p.ex, p.pool, v, Pending)]);
            StoreOk(cfg, st', NoBusy) && Keeps(st, st')
  {
    hide DirTyped, DirUnique, LoadsOk, LoadsUnique, MovesOk, MovesUnique, DirAgrees;
    var st' := st.(loads := st.loads[i := Load(p.ex, p.pool, v, Pending)]);
    assert LoadedBy(st', v) by { assert st'.loads[i].slot == v; }
    OnlyCell(st.dir, p);
    NotASource(st, v);
    NoMoveHere(cfg, st, NoBusy, v);
    MovesFrame(st, st', v);
    LoadsFrame(st, st', v);
    AddLoad(st.loads, i, Load(p.ex, p.pool, v, Pending));
    AgreesFrame(st, BReserved(p, v), st', NoBusy, v);
  }

  lemma AddLoad(loads: map<nat, Load>, i: nat, ld: Load)
    requires LoadsUnique(loads) && i !in loads && forall j :: j in loads ==> loads[j].slot != ld.slot
    ensures LoadsUnique(loads[i := ld])
  {
  }

  /** A reserved cell is given up; its slot stays IO_INFLIGHT and is named by nobody. */
  lemma AbandonOk(cfg: Config, st: Store, p: Place, v: nat)
    requires StoreOk(cfg, st, BReserved(p, v))
    ensures var st' := st.(dir := Clear(st.dir, p)); StoreOk(cfg, st', NoBusy) && Keeps(st, st')
  {
    hide DirTyped, DirUnique, LoadsOk, LoadsUnique, MovesOk, MovesUnique, DirAgrees;
    var st' := st.(dir := Clear(st.dir, p));
    OnlyCell(st.dir, p);
    ClearCell(cfg, st.dir, p);
    NotASource(st, v);
    NoMoveHere(cfg, st, NoBusy, v);
    MovesFrame(st, st', v);
    LoadsFrame(st, st', v);
    AgreesFrame(st, BReserved(p, v), st', NoBusy, v);
  }

  lemma AddMove(st: Store, st': Store, m: Move)
    requires MovesOk(st) && MovesUnique(st.moves) && NoMoveFrom(st, m.src) && NoMoveAt(st, m.dst)
    requires st'.moves == st.moves + [m] && st'.copied == st.copied && Local(st, st', m.dst) && MoveOk(st', m)
    ensures MovesOk(st') && MovesUnique(st'.moves)
    ensures forall i :: 0 <= i < |st.moves| ==> st'.moves[i] == st.moves[i]
  {
    assert st'.moves[|st.moves|] == m;
    assert forall i :: 0 <= i < |st.moves| ==> st'.moves[i] == st.moves[i];
    forall i | 0 <= i < |st'.moves| ensures MoveOk(st', st'.moves[i]) {
      if i < |st.moves| { MoveFrame(st, st', m.dst, st.moves[i]); }
    }
  }

  /** A reserved RAM cell becomes the destination of a move out of a detached slot. */
  lemma SubmitMoveOk(cfg: Config, st: Store, vx: Expert, src: nat, v: nat)
    requires StoreOk(cfg, st, BReserved(Place(vx, 0), v))
    requires Detached(st, src) && st.bytes[src] == Some(vx)
    ensures var st' := st.(moves := st.moves + [Move(vx, src, v)], dir := st.dir[Place(vx, 0) := Entry(MovingIn, v)]);
            StoreOk(cfg, st', NoBusy) && Keeps(st, st')
  {
    hide DirTyped, DirUnique, LoadsOk, LoadsUnique, MovesOk, MovesUnique, DirAgrees;
    var p := Place(vx, 0);
    var b := BReserved(p, v);
    var st' := st.(moves := st.moves + [Move(vx, src, v)], dir := st.dir[p := Entry(MovingIn, v)]);
    assert st'.moves[|st.moves|] == Move(vx, src, v);
    OnlyCell(st.dir, p);
    NotASource(st, v);
    NoMoveHere(cfg, st, NoBusy, v);
    SameSlotCell(cfg, st.dir, p, Entry(MovingIn, v));
    LoadsFrame(st, st', v);
    AddMove(st, st', Move(vx, src, v));
    AgreesFrame(st, b, st', NoBusy, v);
  }

  /** A slot goes back to EMPTY together with the cell, if any, that names it. */
  lemma EmptyOk(cfg: Config, st: Store, b: Busy, d: Directory, v: nat)
    requires StoreOk(cfg, st, b) && BusySlot(b) in {None, Some(v)} && v < |st.slots| && st.slots[v].st != Ready
    requires NoMoveAt(st, v) && NoLoadAt(st, v)
    requires DirTyped(cfg, d) && DirUnique(d)
    requires forall q :: q in d <==> q in st.dir && st.dir[q].slot != v
    requires forall q :: q in d ==> d[q] == st.dir[q]
    ensures StoreOk(cfg, Release(st, v).(dir := d), NoBusy) && Keeps(st, Release(st, v).(dir := d))
  {
    hide DirTyped, DirUnique, LoadsOk, LoadsUnique, MovesOk, MovesUnique, DirAgrees;
    var st' := Release(st, v).(dir := d);
    MovesFrame(st, st', v);
    LoadsFrame(st, st', v);
    AgreesFrame(st, b, st', NoBusy, v);
  }

  /** A reserved cell is given up and its slot goes back to EMPTY. */
  lemma RefuseOk(cfg: Config, st: Store, p: Place, v: nat)
    requires StoreOk(cfg, st, BReserved(p, v))
    ensures var st' := Release(st, v).(dir := Clear(st.dir, p)); StoreOk(cfg, st', NoBusy) && Keeps(st, st')
  {
    hide DirTyped, DirUnique, LoadsOk, LoadsUnique, MovesOk, MovesUnique, DirAgrees;
    NotASource(st, v);
    NoMoveHere(cfg, st, NoBusy, v);
    OnlyCell(st.dir, p);
    ClearCell(cfg, st.dir, p);
    EmptyOk(cfg, st, BReserved(p, v), Clear(st.dir, p), v);
  }

  /** release_to_empty of a detached slot. */
  lemma ReleaseOk(cfg: Config, st: Store, v: nat)
    requires StoreOk(cfg, st, NoBusy) && Detached(st, v)
    ensures StoreOk(cfg, Release(st, v), NoBusy) && Keeps(st, Release(st, v))
  {
    hide DirTyped, DirUnique, LoadsOk, LoadsUnique, MovesOk, MovesUnique, DirAgrees;
    NoMoveHere(cfg, st, NoBusy, v);
    NotALoad(st, v);
    EmptyOk(cfg, st, NoBusy, st.dir, v);
    assert Release(st, v) == Release(st, v).(dir := st.dir);
  }

  // ---- loads -----------------------------------------------------------------

  /** The slot a load fills is touched by nothing else. */
  lemma LoadSlot(cfg: Config, st: Store, b: Busy, i: nat)
    requires StoreOk(cfg, st, b) && i in st.loads
    ensures LoadOk(st, st.loads[i]) && NoMoveAt(st, st.loads[i].slot) && BusySlot(b) != Some(st.loads[i].slot)
    ensures forall p ::
              p in st.dir && st.dir[p].slot == st.loads[i].slot ==> p == Place(st.loads[i].ex, st.loads[i].pool)
    ensures forall j :: j in st.loads && st.loads[j].slot == st.loads[i].slot ==> j == i
  {
    hide DirTyped, DirUnique, MovesOk, MovesUnique, DirAgrees;
    var ld := st.loads[i];
    assert LoadOk(st, ld);
    OnlyCell(st.dir, Place(ld.ex, ld.pool));
    NotASource(st, ld.slot);
    NoMoveHere(cfg, st, NoBusy, ld.slot);
  }

  lemma StatusUnique(loads: map<nat, Load>, i: nat, status: LoadStatus)
    requires LoadsUnique(loads) && i in loads
    ensures LoadsUnique(loads[i := loads[i].(status := status)])
  {
    var l := loads[i := loads[i].(status := status)];
    assert forall j :: j in l ==> j in loads && l[j].slot == loads[j].slot;
  }

  /** Load i changes its status; its slot may receive its bytes. */
  lemma StatusOk(cfg: Config, st: Store, b: Busy, i: nat, status: LoadStatus, bytes: seq<Option<Expert>>)
    requires StoreOk(cfg, st, b) && i in st.loads && st.loads[i].slot < |st.bytes|
    requires bytes == st.bytes || bytes == st.bytes[st.loads[i].slot := Some(st.loads[i].ex)]
    requires status == Arrived ==> bytes[st.loads[i].slot] == Some(st.loads[i].ex)
    ensures var st' := st.(loads := st.loads[i := st.loads[i].(status := status)], bytes := bytes);
            StoreOk(cfg, st', b) && Keeps(st, st')
  {
    hide DirTyped, DirUnique, LoadsOk, LoadsUnique, MovesOk, MovesUnique, DirAgrees, BusyOk;
    var ld := st.loads[i];
    var v := ld.slot;
    var p := Place(ld.ex, ld.pool);
    var st' := st.(loads := st.loads[i := ld.(status := status)], bytes := bytes);
    LoadSlot(cfg, st, b, i);
    StatusUnique(st.loads, i, status);
    assert LoadedBy(st', v) by { assert st'.loads[i].slot == v; }
    MovesFrame(st, st', v);
    LoadsFrame(st, st', v);
    CellAgrees(st, b, p);
    AgreesFrame(st, b, st', b, v);
    BusySource(st, b, v);
    BusyFrame(st, st', v, b);
  }

  lemma BusySource(st: Store, b: Busy, v: nat)
    requires |st.slots| == |st.bytes| && BusyOk(st, b) && v < |st.slots| && st.slots[v].st != Evicting
    ensures b.BMove? ==> b.mv.src != v
  {
  }

  lemma BusyFrame(st: Store, st': Store, w: nat, b: Busy)
    requires |st.slots| == |st.bytes| && BusyOk(st, b) && Local(st, st', w) && BusySlot(b) != Some(w)
    requires st'.moves == st.moves && (b.BMove? ==> b.mv.src != w)
    requires forall i :: i in st'.loads ==> i in st.loads && st'.loads[i].slot == st.loads[i].slot
    ensures BusyOk(st', b)
  {
  }

  lemma ArriveOk(cfg: Config, st: Store, b: Busy, i: nat)
    requires StoreOk(cfg, st, b) && i in st.loads && st.loads[i].slot < |st.bytes|
    ensures StoreOk(cfg, Arrive(st, i), b) && Keeps(st, Arrive(st, i))
  {
    hide StoreOk, Keeps;
    StatusOk(cfg, st, b, i, Arrived, st.bytes[st.loads[i].slot := Some(st.loads[i].ex)]);
  }

  lemma ReadErrorOk(cfg: Config, st: Store, b: Busy, i: nat)
    requires StoreOk(cfg, st, b) && i in st.loads && st.loads[i].slot < |st.bytes|
    ensures StoreOk(cfg, ReadError(st, i), b) && Keeps(st, ReadError(st, i))
  {
    hide StoreOk, Keeps;
    StatusOk(cfg, st, b, i, Errored, st.bytes);
    assert ReadError(st, i) == st.(loads := st.loads[i := st.loads[i].(status := Errored)], bytes := st.bytes);
  }

  lemma DropUnique(loads: map<nat, Load>, i: nat)
    requires LoadsUnique(loads)
    ensures LoadsUnique(map j | j in loads && j != i :: loads[j])
  {
  }

  /** A finished load leaves the DIO queue and its slot is marked. */
  lemma DrainLoadOk(cfg: Config, st: Store, i: nat)
    requires StoreOk(cfg, st, NoBusy) && CanDrain(st, i)
    ensures var b := if st.loads[i].status == Arrived then BReady(st.loads[i]) else BBad(st.loads[i]);
            StoreOk(cfg, DrainLoad(st, i), b) && Keeps(st, DrainLoad(st, i))
  {
    hide DirTyped, DirUnique, LoadsOk, LoadsUnique, MovesOk, MovesUnique, DirAgrees;
    var st' := DrainLoad(st, i);
    var ld := st.loads[i];
    var b := if ld.status == Arrived then BReady(ld) else BBad(ld);
    LoadSlot(cfg, st, NoBusy, i);
    DropUnique(st.loads, i);
    MovesFrame(st, st', ld.slot);
    LoadsFrame(st, st', ld.slot);
    AgreesFrame(st, NoBusy, st', b, ld.slot);
  }

  lemma PublishLoadOk(cfg: Config, st: Store, ld: Load)
    requires StoreOk(cfg, st, BReady(ld))
    ensures var st' := st.(dir := st.dir[Place(ld.ex, ld.pool) := Entry(Resident, ld.slot)]);
            StoreOk(cfg, st', NoBusy) && Keeps(st, st')
  {
    hide DirTyped, DirUnique, LoadsOk, LoadsUnique, MovesOk, MovesUnique, DirAgrees;
    var p := Place(ld.ex, ld.pool);
    var st' := st.(dir := st.dir[p := Entry(Resident, ld.slot)]);
    OnlyCell(st.dir, p);
    SameSlotCell(cfg, st.dir, p, Entry(Resident, ld.slot));
    NotASource(st, ld.slot);
    NoMoveHere(cfg, st, NoBusy, ld.slot);
    MovesFrame(st, st', ld.slot);
    LoadsFrameUnchanged(st, st', ld.slot);
    AgreesFrame(st, BReady(ld), st', NoBusy, ld.slot);
  }

  lemma DropLoadOk(cfg: Config, st: Store, ld: Load)
    requires StoreOk(cfg, st, BBad(ld))
    ensures var st' := st.(dir := Clear(st.dir, Place(ld.ex, ld.pool)));
            StoreOk(cfg, st', NoBusy) && Keeps(st, st')
  {
    hide DirTyped, DirUnique, LoadsOk, LoadsUnique, MovesOk, MovesUnique, DirAgrees;
    var st' := st.(dir := Clear(st.dir, Place(ld.ex, ld.pool)));
    OnlyCell(st.dir, Place(ld.ex, ld.pool));
    ClearCell(cfg, st.dir, Place(ld.ex, ld.pool));
    NotASource(st, ld.slot);
    NoMoveHere(cfg, st, NoBusy, ld.slot);
    MovesFrame(st, st', ld.slot);
    LoadsFrameUnchanged(st, st', ld.slot);
    AgreesFrame(st, BBad(ld), st', NoBusy, ld.slot);
  }

  // ---- moves -----------------------------------------------------------------

  /** The destination of a move is touched by nothing else. */
  lemma MoveSlot(cfg: Config, st: Store, b: Busy, i: nat)
    requires StoreOk(cfg, st, b) && i < |st.moves|
    ensures MoveOk(st, st.moves[i]) && NoLoadAt(st, st.moves[i].dst) && BusySlot(b) != Some(st.moves[i].dst)
    ensures forall p :: p in st.dir && st.dir[p].slot == st.moves[i].dst ==> p == Place(st.moves[i].ex, 0)
    ensures NoMoveFrom(st, st.moves[i].dst)
  {
    hide DirTyped, DirUnique, DirAgrees;
    var m := st.moves[i];
    assert MoveOk(st, m);
    OnlyCell(st.dir, Place(m.ex, 0));
    NotASource(st, m.dst);
    forall j | j in st.loads ensures st.loads[j].slot != m.dst {
      assert LoadOk(st, st.loads[j]);
    }
  }

  lemma CopyMoves(st: Store)
    requires MovesOk(st) && MovesUnique(st.moves) && CanCopy(st) && NoMoveFrom(st, st.moves[st.copied].dst)
    ensures MovesOk(Copy(st))
  {
    var st' := Copy(st);
    forall i | 0 <= i < |st'.moves| ensures MoveOk(st', st'.moves[i]) {
      assert MoveOk(st, st.moves[i]);
    }
  }

  /** The move worker copies a source into its destination. */
  lemma CopyOk(cfg: Config, st: Store, b: Busy)
    requires StoreOk(cfg, st, b) && CanCopy(st)
    ensures StoreOk(cfg, Copy(st), b) && Keeps(st, Copy(st))
  {
    hide DirTyped, DirUnique, LoadsOk, LoadsUnique, MovesOk, MovesUnique, DirAgrees, BusyOk;
    var st' := Copy(st);
    var m := st.moves[st.copied];
    MoveSlot(cfg, st, b, st.copied);
    CopyMoves(st);
    LoadsFrame(st, st', m.dst);
    CellAgrees(st, b, Place(m.ex, 0));
    AgreesFrame(st, b, st', b, m.dst);
    BusySource(st, b, m.dst);
    BusyFrame(st, st', m.dst, b);
  }

  lemma DropMove(st: Store, st': Store)
    requires MovesOk(st) && MovesUnique(st.moves) && |st.moves| > 0 && st.copied > 0
    requires st'.moves == st.moves[1..] && st'.copied == st.copied - 1 && Local(st, st', st.moves[0].dst)
    requires NoMoveFrom(st, st.moves[0].dst) && st'.bytes == st.bytes
    ensures MovesOk(st') && MovesUnique(st'.moves)
    ensures forall j ::
              0 <= j < |st'.moves| ==>
                  st'.moves[j] == st.moves[j + 1] && st'.moves[j].dst != st.moves[0].dst &&
                      st'.moves[j].src != st.moves[0].src
    ensures BackingKept(st, st', st.moves[0].dst) || st'.loads != st.loads
  {
    assert forall j :: 0 <= j < |st'.moves| ==> st'.moves[j] == st.moves[j + 1];
    assert forall j :: 1 <= j < |st.moves| ==> st.moves[j] == st'.moves[j - 1];
    forall j | 0 <= j < |st'.moves| ensures MoveOk(st', st'.moves[j]) {
      MoveFrame(st, st', st.moves[0].dst, st.moves[j + 1]);
    }
  }

  /** A finished move leaves the done queue and its destination is marked READY. */
  lemma DrainMoveOk(cfg: Config, st: Store)
    requires StoreOk(cfg, st, NoBusy) && CanDrainMove(st)
    ensures StoreOk(cfg, DrainMove(st), BMove(st.moves[0])) && Keeps(st, DrainMove(st))
  {
    hide DirTyped, DirUnique, LoadsOk, LoadsUnique, MovesUnique, DirAgrees;
    var st' := DrainMove(st);
    var m := st.moves[0];
    MoveSlot(cfg, st, NoBusy, 0);
    assert st.bytes[m.dst] == Some(m.ex);
    hide MovesOk;
    DropMove(st, st');
    LoadsFrame(st, st', m.dst);
    AgreesFrame(st, NoBusy, st', BMove(m), m.dst);
  }

  lemma PublishMoveOk(cfg: Config, st: Store, m: Move)
    requires StoreOk(cfg, st, BMove(m))
    ensures var st' := st.(dir := st.dir[Place(m.ex, 0) := Entry(Resident, m.dst)]);
            StoreOk(cfg, st', NoBusy) && Keeps(st, st') && Detached(st', m.src)
  {
    hide DirTyped, DirUnique, LoadsOk, LoadsUnique, MovesOk, MovesUnique, DirAgrees;
    var p := Place(m.ex, 0);
    var st' := st.(dir := st.dir[p := Entry(Resident, m.dst)]);
    OnlyCell(st.dir, p);
    SameSlotCell(cfg, st.dir, p, Entry(Resident, m.dst));
    NotASource(st, m.dst);
    MovesFrame(st, st', m.dst);
    LoadsFrameUnchanged(st, st', m.dst);
    AgreesFrame(st, BMove(m), st', NoBusy, m.dst);
  }
}
