/** A RAM-only pool with room for every expert of a layer never runs out of slots: as
    long as no I/O and no request has failed, an allocation for a pin_layer entered
    without a pin always finds an EMPTY slot or a victim, and its request does not fail. */
module PoolNoStall {
  import opened Basics
  import opened PoolState
  import opened PoolSteps
  import opened PoolInvariant
  import opened PoolStoreProofs
  import opened PoolExecProofs
  import opened PoolSchedProofs
  import opened PoolTheorems

  /** One pool, and in it room for all experts of a layer in every group. */
  ghost predicate RamOnly(cfg: Config) {
    && cfg.Valid() && cfg.nPools == 1
    && forall layer :: 0 <= layer < cfg.nLayers && cfg.GroupOf(layer).Some? ==>
         cfg.Home(layer, 0).Some? && cfg.Home(layer, 0).value.count >= cfg.nExperts
  }

  lemma {:induction false} NoDevice(cfg: Config, group: nat, i: nat)
    requires cfg.Valid() && cfg.nPools == 1
    ensures cfg.FindDevice(group, i).None?
    decreases |cfg.regions| - i
  {
    if i < |cfg.regions| {
      NoDevice(cfg, group, i + 1);
    }
  }

  // ---- what stays true as long as nothing has gone wrong ---------------------------

  /** A READY or IO_INFLIGHT slot is named by some cell; no slot is FAILED. */
  ghost predicate SlotsNamed(st: Store) {
    && (forall v :: 0 <= v < |st.slots| ==> st.slots[v].st != Failed)
    && (forall v :: 0 <= v < |st.slots| && st.slots[v].st in {Ready, IoInflight} ==> Named(st.dir, v))
  }

  ghost predicate Named(dir: Directory, v: nat) {
    exists p :: p in dir && dir[p].slot == v
  }

  /** The only EVICTING slot is the one the scheduler is working on. */
  ghost predicate EvictingHere(st: Store, sched: Sched) {
    forall v :: 0 <= v < |st.slots| && st.slots[v].st == PoolState.Evicting ==>
      (sched.EvictClear? || sched.EvictDrain? || sched.Reload?) && sched.v == v
  }

  /** Every outstanding load is for an expert the active request still needs. */
  ghost predicate LoadsWanted(dir: Directory, active: Option<Active>) {
    forall p :: p in dir && dir[p].st == Loading ==> Wanted(active, p.ex)
  }

  predicate CalmCont(k: Cont) {
    !k.KMove?
  }

  predicate CalmGoal(g: Goal) {
    g.ForRequest? && g.pool == 0
  }

  /** No I/O failure is being handled and no demotion is going on. */
  predicate CalmSched(sched: Sched) {
    match sched
    case Tick => true
    case LoadReady(ld) => true
    case Settle(_, _, _, k) => CalmCont(k)
    case SettleBump(k) => CalmCont(k)
    case SettleEnd(k) => CalmCont(k)
    case After(k) => CalmCont(k)
    case FailUnpin(k) => CalmCont(k)
    case FailFlag(k) => CalmCont(k)
    case Triage(_) => true
    case Serve(_, _) => true
    case ServeEnd(_) => true
    case Alloc(g) => CalmGoal(g)
    case EvictCas(g, _, _) => CalmGoal(g)
    case EvictClear(g, _, _) => CalmGoal(g)
    case EvictDrain(g, _, _) => CalmGoal(g)
    case Reload(g, _) => CalmGoal(g)
    case Reserved(g, _) => CalmGoal(g)
    case NoSlot(g) => CalmGoal(g)
    case _ => false
  }

  predicate QuietCont(k: Cont) {
    k.KServe? ==> !k.pass.noSlot
  }

  /** No allocation of this pass came up empty and the request is not failing. */
  predicate Quiet(sched: Sched) {
    match sched
    case Settle(_, _, _, k) => QuietCont(k)
    case SettleBump(k) => QuietCont(k)
    case SettleEnd(k) => QuietCont(k)
    case After(k) => QuietCont(k)
    case Serve(_, pass) => !pass.noSlot
    case ServeEnd(pass) => !pass.noSlot
    case Alloc(g) => !g.pass.noSlot
    case EvictCas(g, _, _) => !g.pass.noSlot
    case EvictClear(g, _, _) => !g.pass.noSlot
    case EvictDrain(g, _, _) => !g.pass.noSlot
    case Reload(g, _) => !g.pass.noSlot
    case Reserved(g, _) => !g.pass.noSlot
    case NoSlot(_) => false
    case FailUnpin(_) => false
    case FailFlag(_) => false
    case _ => true
  }

  ghost predicate CalmStore(s: Sys) {
    && s.store.moves == []
    && (forall i :: i in s.store.loads ==> s.store.loads[i].status != Errored)
    && SlotsNamed(s.store) && EvictingHere(s.store, s.sched) && LoadsWanted(s.store.dir, s.active)
  }

  predicate CalmExec(s: Sys) {
    !s.exec.Rollback? && !s.await.failed && s.ret != -1
  }

  /** The pin_layer that waits was entered without a pin, for a layer with an expert group. */
  ghost predicate Alone(cfg: Config, s: Sys) {
    s.pins.held == [] && Waited(s.active, StageOf(s.sched)) && cfg.GroupOf(s.active.value.layer).Some?
  }

  ghost predicate AllCalm(cfg: Config, s: Sys) {
    CalmStore(s) && CalmSched(s.sched) && CalmExec(s) && (Alone(cfg, s) ==> Quiet(s.sched))
  }

  /** A step of the scheduler keeps calm, and quiet if it was to be quiet before. */
  ghost predicate StaysCalm(cfg: Config, s: Sys, s': Sys) {
    CalmStore(s') && CalmSched(s'.sched) && CalmExec(s') && (Alone(cfg, s) ==> Quiet(s'.sched))
  }

  ghost predicate Calm(cfg: Config, s: Sys) {
    s.clean && !s.refused ==> AllCalm(cfg, s)
  }

  // ---- the pigeonhole ----------------------------------------------------------------

  /** Experts of `layer` whose RAM cell names a slot in [lo, hi). */
  ghost function IdsIn(dir: Directory, layer: nat, m: nat, lo: nat, hi: nat): set<nat> {
    set x: nat | x < m && Place(Expert(layer, x), 0) in dir && lo <= dir[Place(Expert(layer, x), 0)].slot < hi
  }

  ghost predicate TakenBy(dir: Directory, layer: nat, m: nat, v: nat, x: nat) {
    x < m && Place(Expert(layer, x), 0) in dir && dir[Place(Expert(layer, x), 0)].slot == v
  }

  /** Slot v is named by the RAM cell of some expert of the layer. */
  ghost predicate Taken(dir: Directory, layer: nat, m: nat, v: nat) {
    exists x: nat :: TakenBy(dir, layer, m, v, x)
  }

  lemma {:induction false} Pigeons(dir: Directory, layer: nat, m: nat, lo: nat, hi: nat)
    requires lo <= hi && forall v :: lo <= v < hi ==> Taken(dir, layer, m, v)
    ensures |IdsIn(dir, layer, m, lo, hi)| >= hi - lo
    decreases hi
  {
    if lo < hi {
      Pigeons(dir, layer, m, lo, hi - 1);
      var v := hi - 1;
      assert Taken(dir, layer, m, v);
      var x: nat :| TakenBy(dir, layer, m, v, x);
      var few := IdsIn(dir, layer, m, lo, hi - 1);
      assert x !in few && few + {x} <= IdsIn(dir, layer, m, lo, hi);
      SubsetSize(few + {x}, IdsIn(dir, layer, m, lo, hi));
    }
  }

  /** An m-expert layer has at most m - 1 experts other than e. */
  lemma IdsFew(dir: Directory, layer: nat, m: nat, e: nat, lo: nat, hi: nat)
    requires e < m && Place(Expert(layer, e), 0) !in dir
    ensures |IdsIn(dir, layer, m, lo, hi)| < m
  {
    var ids := IdsIn(dir, layer, m, lo, hi);
    SubsetSize(ids + {e}, UpTo(m));
    assert e !in ids && |ids + {e}| == |ids| + 1;
  }

  /** m slots cannot all be taken by experts other than e of an m-expert layer. */
  lemma RoomForOne(dir: Directory, layer: nat, m: nat, e: nat, lo: nat, count: nat)
    requires e < m <= count && Place(Expert(layer, e), 0) !in dir
    ensures exists v :: lo <= v < lo + count && !Taken(dir, layer, m, v)
  {
    if forall v :: lo <= v < lo + count ==> Taken(dir, layer, m, v) {
      IdsFew(dir, layer, m, e, lo, lo + count);
      Pigeons(dir, layer, m, lo, lo + count);
    }
  }

  // ---- an allocation always finds a slot ------------------------------------------------

  /** A pin taken during this call is for a needed expert that is no longer outstanding. */
  lemma PinnedForThisCall(cfg: Config, s: Sys, v: nat)
    requires Inv(cfg, s) && s.pins.held == [] && Waited(s.active, StageOf(s.sched))
    requires StageOf(s.sched) in {Plain, Bumping, Tail}
    requires v < |s.store.slots| && s.store.slots[v].ref > 0
    ensures v < |s.store.bytes| && s.store.bytes[v].Some?
    ensures s.store.bytes[v].value.layer == s.active.value.layer && s.store.bytes[v].value.id !in s.active.value.still
  {
    hide StoreOk, PinTargetOk, PosOk;
    WaitedFacts(cfg, s);
    var a := s.active.value;
    assert PinCount(s.pins, v) > 0 && Cnt(s.pins.held, v) == 0;
    if Cnt(s.pins.got, v) > 0 {
      var i := OnSlot(s.pins.got, v);
      assert HandleOk(s.store, s.pins.got[i]);
      assert s.pins.got[i].ex.id in Ids(s.pins.got);
    } else {
      var i := OnSlot(s.pins.granted, v);
      assert HandleOk(s.store, s.pins.granted[i]);
      assert s.pins.granted[i].ex.id in Ids(s.pins.granted);
    }
  }

  lemma {:induction false} OnSlot(hs: seq<Handle>, v: nat) returns (i: nat)
    requires Cnt(hs, v) > 0
    ensures i < |hs| && hs[i].slot == v
  {
    if hs[0].slot == v {
      i := 0;
    } else {
      i := OnSlot(hs[1..], v);
      i := i + 1;
    }
  }

  /** A wanted resident carries no pin at all. */
  lemma WantedIsUnpinned(cfg: Config, s: Sys, ex: Expert, pool: nat, v: nat)
    requires Inv(cfg, s) && s.pins.held == [] && BusyOf(ActiveLayer(s.active), s.sched) == NoBusy &&
               StageOf(s.sched) == Plain
    requires Wanted(s.active, ex) && Cell(s.store, Place(ex, pool), Entry(Resident, v))
    ensures v < |s.store.slots| && s.store.slots[v].st == Ready && s.store.slots[v].ref == 0
  {
    PlainActive(cfg, s);
    ResidentSlot(cfg, s.store, Place(ex, pool));
    hide Inv;
    if s.store.slots[v].ref > 0 {
      PinnedForThisCall(cfg, s, v);
    }
  }

  lemma ResidentSlot(cfg: Config, st: Store, p: Place)
    requires StoreOk(cfg, st, NoBusy) && p in st.dir
    ensures var v := st.dir[p].slot;
            && v < |st.slots| == |st.bytes|
            && (st.dir[p].st == Resident ==> st.slots[v].st == Ready && st.bytes[v] == Some(p.ex))
            && (st.dir[p].st == Loading ==> st.slots[v].st == IoInflight)
            && st.dir[p].st in {Resident, Loading, MovingIn}
            && (st.dir[p].st == MovingIn ==> st.moves != [])
  {
    hide DirTyped, DirUnique, LoadsOk, MovesOk, BusyOk;
    CellAgrees(st, NoBusy, p);
  }

  lemma RegionsApart(cfg: Config, i: nat, j: nat)
    requires cfg.Valid() && i < |cfg.regions| && j < |cfg.regions|
    ensures i < j ==> cfg.regions[i].first + cfg.regions[i].count <= cfg.regions[j].first
  {
  }

  /** Two regions that share a slot are one region. */
  lemma SameRegion(cfg: Config, a: Region, b: Region, v: nat)
    requires cfg.Valid() && a in cfg.regions && b in cfg.regions && a.Has(v) && b.Has(v)
    ensures a == b
  {
    var i :| 0 <= i < |cfg.regions| && cfg.regions[i] == a;
    var j :| 0 <= j < |cfg.regions| && cfg.regions[j] == b;
    RegionsApart(cfg, i, j);
    RegionsApart(cfg, j, i);
  }

  /** A slot of the region that is neither EMPTY nor evictable is taken by
      another expert of the active layer. */
  lemma TakenSlot(cfg: Config, s: Sys, r: Region, v: nat)
    requires RamOnly(cfg) && Inv(cfg, s) && CalmStore(s) && s.pins.held == [] && s.sched.Alloc? &&
               CalmGoal(s.sched.goal)
    requires GoalRegion(cfg, ActiveLayer(s.active), s.sched.goal) == Some(r) && r.Has(v) && v < |s.store.slots|
    requires s.store.slots[v].st != Empty && forall vx :: !Evictable(cfg, s.store, r, vx)
    ensures Taken(s.store.dir, ActiveLayer(s.active), cfg.nExperts, v)
  {
    hide StoreOk, PinsOk, HandshakeOk, ExecOk, PinTargetOk;
    assert Named(s.store.dir, v);
    var p :| p in s.store.dir && s.store.dir[p].slot == v;
    StoreCell(cfg, s.store, NoBusy, p);
    HomePool(cfg, p.ex.layer, p.pool);
    ResidentSlot(cfg, s.store, p);
    PlainActive(cfg, s);
    if s.store.dir[p].st == Resident {
      SameRegion(cfg, r, cfg.Home(p.ex.layer, p.pool).value, v);
      assert !Evictable(cfg, s.store, r, p.ex);
      PinnedForThisCall(cfg, s, v);
    }
    assert p == Place(Expert(s.active.value.layer, p.ex.id), 0);
    assert TakenBy(s.store.dir, s.active.value.layer, cfg.nExperts, v, p.ex.id);
  }

  /** alloc_or_evict always has an EMPTY slot or a victim for a still-needed absent expert. */
  lemma AllocFinds(cfg: Config, s: Sys)
    requires RamOnly(cfg) && Inv(cfg, s) && CalmStore(s) && Alone(cfg, s) && s.sched.Alloc? && CalmGoal(s.sched.goal)
    ensures var r := GoalRegion(cfg, ActiveLayer(s.active), s.sched.goal);
            && r.Some? && r.value.first + r.value.count <= |s.store.slots|
            && (FirstEmpty(s.store.slots, r.value.first, r.value.first + r.value.count).Some?
                || exists vx :: Evictable(cfg, s.store, r.value, vx))
  {
    AllocRegion(cfg, s);
    hide Inv;
    var g := s.sched.goal;
    var layer := s.active.value.layer;
    var r := GoalRegion(cfg, layer, g).value;
    RoomForOne(s.store.dir, layer, cfg.nExperts, g.e, r.first, r.count);
    var v :| r.first <= v < r.first + r.count && !Taken(s.store.dir, layer, cfg.nExperts, v);
    if FirstEmpty(s.store.slots, r.first, r.first + r.count).None? && !exists vx :: Evictable(cfg, s.store, r, vx) {
      TakenSlot(cfg, s, r, v);
    }
  }

  lemma AllocRegion(cfg: Config, s: Sys)
    requires RamOnly(cfg) && Inv(cfg, s) && Alone(cfg, s) && s.sched.Alloc? && CalmGoal(s.sched.goal)
    ensures s.active.Some? && s.sched.goal.e < cfg.nExperts
    ensures Place(Expert(s.active.value.layer, s.sched.goal.e), 0) !in s.store.dir
    ensures var r := GoalRegion(cfg, ActiveLayer(s.active), s.sched.goal);
            r.Some? && r.value.first + r.value.count <= |s.store.slots| && r.value.count >= cfg.nExperts
  {
    hide PinsOk, HandshakeOk, ExecOk, PinTargetOk, DirTyped, DirUnique, DirAgrees, LoadsOk, LoadsUnique, MovesOk,
        MovesUnique;
    var r := GoalRegion(cfg, ActiveLayer(s.active), s.sched.goal).value;
    var i :| 0 <= i < |cfg.regions| && cfg.regions[i] == r;
  }

  // ---- calm is kept ------------------------------------------------------------------

  /** Calm of the store, for a step that leaves it and the request alone. */
  lemma SameStoreCalm(s: Sys, s': Sys)
    requires CalmStore(s) && s'.store == s.store && s'.active == s.active
    requires !s.sched.EvictClear? && !s.sched.EvictDrain? && !s.sched.Reload?
    ensures CalmStore(s')
  {
  }

  /** With an unfinished request exec waits and cannot wake. */
  lemma WaitedIsStuck(cfg: Config, s: Sys, s': Sys)
    requires Inv(cfg, s) && Waited(s.active, StageOf(s.sched))
    ensures !ExecStep(cfg, s, s')
  {
    hide StoreOk, PinsOk, ExecOk, PinTargetOk, PosOk, Covers;
  }

  lemma ExecCalm(cfg: Config, s: Sys, s': Sys)
    requires Inv(cfg, s) && ExecStep(cfg, s, s') && AllCalm(cfg, s)
    ensures AllCalm(cfg, s')
  {
    hide StoreOk, PinsOk, HandshakeOk, ExecOk, PosOk, Waited, CalmStore, CalmSched, Quiet, Evictable, IndexOf,
        Without, CanStart;
    ExecTouches(cfg, s, s');
    TouchedCalm(s, s');
    if Waited(s.active, StageOf(s.sched)) { WaitedIsStuck(cfg, s, s'); }
    if s.exec.Collect? && s.exec.e < cfg.nExperts && s.exec.e in s.exec.missing {
      CollectNeverMisses(cfg, s);
    }
  }

  lemma TouchedCalm(s: Sys, s': Sys)
    requires CalmStore(s) && s'.active == s.active && s'.sched == s.sched
    requires s'.store == s.store.(slots := s'.store.slots) && |s'.store.slots| == |s.store.slots|
    requires forall v :: 0 <= v < |s.store.slots| ==> s'.store.slots[v].st == s.store.slots[v].st
    ensures CalmStore(s')
  {
  }

  /** Exec changes nothing of the store but refcounts, and nothing of the scheduler. */
  ghost predicate ExecFrame(s: Sys, s': Sys) {
    && s'.active == s.active && s'.sched == s.sched && s'.ringFree == s.ringFree
    && s'.clean == s.clean && s'.refused == s.refused
    && s'.store == s.store.(slots := s'.store.slots) && |s'.store.slots| == |s.store.slots|
    && forall v :: 0 <= v < |s.store.slots| ==> s'.store.slots[v].st == s.store.slots[v].st
  }

  lemma ExecTouches(cfg: Config, s: Sys, s': Sys)
    requires ExecStep(cfg, s, s')
    ensures ExecFrame(s, s')
  {
    hide ExecStep, ExecFrame;
    if s.exec.Idle? || s.exec.Pin? || s.exec.Rollback? {
      PinsTouch(cfg, s, s');
    } else {
      LooksTouch(cfg, s, s');
    }
  }

  lemma PinsTouch(cfg: Config, s: Sys, s': Sys)
    requires ExecStep(cfg, s, s') && (s.exec.Idle? || s.exec.Pin? || s.exec.Rollback?)
    ensures ExecFrame(s, s')
  {
    hide Without, CanStart;
  }

  lemma LooksTouch(cfg: Config, s: Sys, s': Sys)
    requires ExecStep(cfg, s, s') && !s.exec.Idle? && !s.exec.Pin? && !s.exec.Rollback?
    ensures ExecFrame(s, s')
  {
    hide IndexOf, Without, ResidentIn;
  }

  lemma TickCalm(cfg: Config, s: Sys, s': Sys)
    requires Inv(cfg, s) && AllCalm(cfg, s) && s.sched.Tick? && TickStep(s, s')
    ensures AllCalm(cfg, s')
  {
    hide Inv, AllCalm, TickStep, CanDrain;
    if i :| CanDrain(s.store, i) && DrainsLoad(s, s', i) {
      DrainCalm(cfg, s, s', i);
    } else {
      OtherTickCalm(cfg, s, s');
    }
  }

  ghost predicate DrainsLoad(s: Sys, s': Sys, i: nat)
    requires CanDrain(s.store, i)
  {
    s' == s.(store := DrainLoad(s.store, i),
             sched := if s.store.loads[i].status == Arrived then LoadReady(s.store.loads[i])
                 else LoadBad(s.store.loads[i]))
  }

  lemma DrainCalm(cfg: Config, s: Sys, s': Sys, i: nat)
    requires AllCalm(cfg, s) && s.sched.Tick? && CanDrain(s.store, i) && DrainsLoad(s, s', i)
    ensures AllCalm(cfg, s')
  {
    hide Alone;
  }

  lemma OtherTickCalm(cfg: Config, s: Sys, s': Sys)
    requires Inv(cfg, s) && AllCalm(cfg, s) && s.sched.Tick? && TickStep(s, s')
    requires !exists i :: CanDrain(s.store, i) && DrainsLoad(s, s', i)
    ensures AllCalm(cfg, s')
  {
    hide PinsOk, HandshakeOk, ExecOk, PinTargetOk, DirTyped, DirUnique, DirAgrees, LoadsOk, LoadsUnique, MovesUnique,
        SlotsNamed, Alone;
    assert s.store.copied == 0;
    assert s' == Accept(s);
  }

  lemma LoadReadyCalm(cfg: Config, s: Sys)
    requires AllCalm(cfg, s) && s.sched.LoadReady? &&
               Cell(s.store, Place(s.sched.ld.ex, s.sched.ld.pool), Entry(Loading, s.sched.ld.slot))
    ensures StaysCalm(cfg, s, Publish(s, s.sched.ld.ex, s.sched.ld.pool, s.sched.ld.slot, KRing))
  {
    hide Alone;
    var ld := s.sched.ld;
    NamedFrame(s.store.dir, Publish(s, ld.ex, ld.pool, ld.slot, KRing).store.dir);
  }

  lemma NamedFrame(dir: Directory, dir': Directory)
    requires forall p :: p in dir ==> p in dir' && dir'[p].slot == dir[p].slot
    ensures forall v :: Named(dir, v) ==> Named(dir', v)
  {
  }

  /** Pinning ex for the request: nothing else is loading ex. */
  lemma GrantCalm(cfg: Config, s: Sys, ex: Expert, pool: nat, v: nat, k: Cont)
    requires Inv(cfg, s) && AllCalm(cfg, s) && (s.sched.Settle? || s.sched.Triage?) && CalmCont(k) &&
               (Alone(cfg, s) ==> QuietCont(k))
    requires Wanted(s.active, ex) && Cell(s.store, Place(ex, pool), Entry(Resident, v)) && v < |s.store.slots|
    ensures StaysCalm(cfg, s, GrantPin(s, ex, pool, v, k))
  {
    hide StoreOk, PinsOk, HandshakeOk, ExecOk, PinTargetOk, PosOk, Alone;
    GrantHandshake(s, StageOf(s.sched), ex, Handle(v, 0, ex, pool));
    var s' := GrantPin(s, ex, pool, v, k);
    assert s'.store == PinSlot(s.store, v) && s'.sched == SettleBump(k);
    forall p | p in s.store.dir && s.store.dir[p].st == Loading
      ensures p.ex != ex
    {
      if p.ex == ex { OneCell(cfg, s.store, NoBusy, p, Place(ex, pool)); }
    }
  }

  lemma SettleCalm(cfg: Config, s: Sys)
    requires Inv(cfg, s) && AllCalm(cfg, s) && s.sched.Settle? && s.sched.slot < |s.store.slots|
    ensures StaysCalm(cfg, s, SettleStep(s))
  {
    hide StoreOk, PinsOk, HandshakeOk, ExecOk, PinTargetOk, Waited;
    var Settle(ex, pool, v, k) := s.sched;
    if Wanted(s.active, ex) {
      if s.pins.held == [] { WantedIsUnpinned(cfg, s, ex, pool, v); }
      if s.store.slots[v].Pinnable() { GrantCalm(cfg, s, ex, pool, v, k); }
    }
  }

  lemma TriageCalm(cfg: Config, s: Sys)
    requires Inv(cfg, s) && AllCalm(cfg, s) && s.sched.Triage? && s.active.Some?
    ensures StaysCalm(cfg, s, TriageStep(cfg, s))
  {
    hide StoreOk, PinsOk, HandshakeOk, ExecOk, PinTargetOk, PosOk, Alone;
    var te := s.sched.te;
    var ex := Expert(s.active.value.layer, te);
    if te >= cfg.nExperts {
      if s.active.value.nLeft == 0 { NothingLeft(cfg, s); }
    } else if te in s.active.value.still {
      var r := ScanPools(s.store.dir, cfg.nPools, ex, 0);
      if r.Some? {
        var v := s.store.dir[Place(ex, r.value)].slot;
        if v < |s.store.slots| && s.store.slots[v].Pinnable() {
          GrantCalm(cfg, s, ex, r.value, v, KTriage(te));
        }
      }
    }
  }

  /** A request with n_left == 0 has no bit left. */
  lemma NothingLeft(cfg: Config, s: Sys)
    requires Inv(cfg, s) && StageOf(s.sched) == Tail && s.active.Some? && s.active.value.nLeft == 0
    ensures s.active.value.still == {}
  {
    hide StoreOk, PinsOk, PinTargetOk, PosOk, ExecOk, Covers;
  }

  lemma SettleEndCalm(cfg: Config, s: Sys)
    requires Inv(cfg, s) && AllCalm(cfg, s) && s.sched.SettleEnd?
    ensures StaysCalm(cfg, s, SettleEndStep(s))
  {
    hide StoreOk, PinsOk, HandshakeOk, ExecOk, PinTargetOk, PosOk, Alone;
    if s.active.Some? && s.active.value.nLeft == 0 {
      NothingLeft(cfg, s);
    }
  }

  lemma ServeCalm(cfg: Config, s: Sys)
    requires RamOnly(cfg) && Inv(cfg, s) && AllCalm(cfg, s) && s.sched.Serve? && s.active.Some?
    ensures StaysCalm(cfg, s, ServeStep(cfg, s))
  {
    hide StoreOk, PinsOk, HandshakeOk, ExecOk, PinTargetOk, Waited, CalmStore, InFlight, ResidentIn;
    SameStoreCalm(s, ServeStep(cfg, s));
    if cfg.GroupOf(s.active.value.layer).Some? {
      NoDevice(cfg, cfg.GroupOf(s.active.value.layer).value, 0);
    }
  }

  lemma ReserveCalm(cfg: Config, s: Sys, g: Goal, v: nat)
    requires AllCalm(cfg, s) && (s.sched.Alloc? || (s.sched.Reload? && s.sched.v == v)) && g == s.sched.goal
    requires v < |s.store.slots| && v < |s.store.bytes| && GoalOk(cfg, s.store, s.active, g)
    ensures StaysCalm(cfg, s, ReserveStep(s, g, v))
  {
    hide Alone;
    var p := GoalPlace(ActiveLayer(s.active), g);
    var s' := ReserveStep(s, g, v);
    assert p !in s.store.dir;
    assert s'.store.dir == s.store.dir[p := Entry(Loading, v)] &&
             s'.store.slots == s.store.slots[v := s.store.slots[v].BeginReload()];
    NamedFrame(s.store.dir, s'.store.dir);
    assert p in s'.store.dir && s'.store.dir[p].slot == v;
  }

  lemma AllocCalm(cfg: Config, s: Sys, s': Sys)
    requires RamOnly(cfg) && Inv(cfg, s) && AllCalm(cfg, s) && s.sched.Alloc? && AllocStep(cfg, s, s')
    ensures StaysCalm(cfg, s, s')
  {
    hide Inv, RamOnly, AllCalm, CalmStore, CalmExec, Evictable, GoalOk, Alone, StaysCalm;
    AllocPieces(cfg, s);
    if Alone(cfg, s) { AllocFinds(cfg, s); }
    if s'.sched.Reserved? {
      var r := GoalRegion(cfg, ActiveLayer(s.active), s.sched.goal).value;
      ReserveCalm(cfg, s, s.sched.goal, FirstEmpty(s.store.slots, r.first, r.first + r.count).value);
    } else {
      OnwardCalm(cfg, s, s');
    }
  }

  lemma AllocPieces(cfg: Config, s: Sys)
    requires Inv(cfg, s) && AllCalm(cfg, s) && s.sched.Alloc?
    ensures CalmStore(s) && CalmExec(s) && CalmGoal(s.sched.goal) && GoalOk(cfg, s.store, s.active, s.sched.goal)
  {
    hide StoreOk, PinsOk, HandshakeOk, ExecOk, PinTargetOk, GoalOk, CalmStore, Alone;
  }

  /** A victim was chosen, or the allocation came up empty. */
  lemma OnwardCalm(cfg: Config, s: Sys, s': Sys)
    requires AllCalm(cfg, s) && s.sched.Alloc? && s' == s.(sched := s'.sched)
    requires (s'.sched.EvictCas? && s'.sched.goal == s.sched.goal) ||
               (s'.sched == NoSlot(s.sched.goal) && !Alone(cfg, s))
    ensures StaysCalm(cfg, s, s')
  {
    hide Alone;
    SameStoreCalm(s, s');
  }

  lemma EvictCasCalm(cfg: Config, s: Sys)
    requires AllCalm(cfg, s) && s.sched.EvictCas? && s.sched.v < |s.store.slots| && s.store.slots[s.sched.v].st == Ready
    ensures StaysCalm(cfg, s, EvictCasStep(s))
  {
    hide Alone;
    var s' := EvictCasStep(s);
    assert s'.store.slots == s.store.slots[s.sched.v := s.store.slots[s.sched.v].(st := PoolState.Evicting)];
  }

  lemma EvictClearCalm(cfg: Config, s: Sys)
    requires Inv(cfg, s) && AllCalm(cfg, s) && s.sched.EvictClear?
    ensures StaysCalm(cfg, s, EvictClearStep(s))
  {
    hide StoreOk, PinsOk, HandshakeOk, ExecOk, PinTargetOk, PosOk, Alone;
    var EvictClear(g, v, vx) := s.sched;
    var p := Place(vx, GoalPlace(ActiveLayer(s.active), g).pool);
    BusyCell(cfg, s.store, BClear(p, v));
    var s' := EvictClearStep(s);
    assert s'.store.dir == Clear(s.store.dir, p) && s'.store.slots == s.store.slots;
    forall w | 0 <= w < |s.store.slots| && s.store.slots[w].st in {Ready, IoInflight}
      ensures Named(s'.store.dir, w)
    {
      var q :| q in s.store.dir && s.store.dir[q].slot == w;
      assert q in s'.store.dir && s'.store.dir[q].slot == w;
    }
  }

  lemma ReloadCalm(cfg: Config, s: Sys)
    requires Inv(cfg, s) && AllCalm(cfg, s) && s.sched.Reload? && s.sched.v < |s.store.slots| &&
               s.sched.v < |s.store.bytes|
    ensures StaysCalm(cfg, s, ReserveStep(s, s.sched.goal, s.sched.v))
  {
    hide StoreOk, PinsOk, HandshakeOk, ExecOk, PinTargetOk, Alone, GoalOk, StaysCalm;
    ReserveCalm(cfg, s, s.sched.goal, s.sched.v);
  }

  /** A failing request releases its pins: refcounts only. */
  lemma FailingCalm(cfg: Config, s: Sys)
    requires AllCalm(cfg, s) && s.sched.FailUnpin? &&
               (s.pins.granted != [] ==> s.pins.granted[0].slot < |s.store.slots|)
    ensures StaysCalm(cfg, s, FailUnpinStep(s))
  {
    hide Alone;
    var s' := FailUnpinStep(s);
    assert s'.store == s.store.(slots := s'.store.slots) && |s'.store.slots| == |s.store.slots|;
    assert forall v :: 0 <= v < |s.store.slots| ==> s'.store.slots[v].st == s.store.slots[v].st;
  }

  /** Steps of the scheduler that leave the store and the request alone. */
  predicate Idling(sched: Sched) {
    sched.SettleBump? || sched.After? || sched.ServeEnd? || sched.NoSlot?
  }

  lemma IdlingCalm(cfg: Config, s: Sys, s': Sys)
    requires AllCalm(cfg, s) && Idling(s.sched) && SchedStep(cfg, s, s')
    ensures StaysCalm(cfg, s, s')
  {
    hide CalmStore, Alone;
    assert s'.store == s.store && s'.active == s.active;
    SameStoreCalm(s, s');
  }

  /** The victim has no pin, so its slot is reused at once. */
  lemma EvictDrainCalm(cfg: Config, s: Sys)
    requires AllCalm(cfg, s) && s.sched.EvictDrain? && s.sched.v < |s.store.slots| && s.store.slots[s.sched.v].ref == 0
    ensures StaysCalm(cfg, s, EvictDrainStep(cfg, s))
  {
    hide SlotsNamed, LoadsWanted, Alone, Demotable;
  }

  lemma ReservedCalm(cfg: Config, s: Sys, s': Sys)
    requires AllCalm(cfg, s) && s.sched.Reserved? && ReservedStep(cfg, s, s') && s'.clean
    ensures StaysCalm(cfg, s, s')
  {
    hide Alone;
  }

  /** A request that waits was waiting already, unless it has just been registered. */
  lemma AloneBefore(cfg: Config, s: Sys, s': Sys)
    requires Inv(cfg, s) && SchedStep(cfg, s, s') && !s.sched.Tick? && Alone(cfg, s')
    ensures Alone(cfg, s)
  {
    hide StoreOk, PinsOk, ExecOk, PinTargetOk, Covers, SchedStep;
    SchedKeepsExec(cfg, s, s');
    if Allocating(s.sched) {
      AllocatingWaits(cfg, s, s');
    } else {
      WaitsBefore(cfg, s, s');
    }
  }

  lemma AllocatingWaits(cfg: Config, s: Sys, s': Sys)
    requires Inv(cfg, s) && SchedStep(cfg, s, s') && Allocating(s.sched)
    ensures Waited(s.active, StageOf(s.sched)) && s'.active == s.active
  {
    hide StoreOk, PinsOk, HandshakeOk, ExecOk, PinTargetOk, SourceOk, VictimOk, NoEntry, Detached;
  }

  lemma WaitsBefore(cfg: Config, s: Sys, s': Sys)
    requires Inv(cfg, s) && SchedStep(cfg, s, s') && !Allocating(s.sched) && !s.sched.Tick? &&
               Waited(s'.active, StageOf(s'.sched))
    ensures Waited(s.active, StageOf(s.sched)) && s.active.value.layer == s'.active.value.layer
  {
    hide StoreOk, PinsOk, ExecOk, PinTargetOk, Covers, GoalOk, Detached;
  }

  lemma SchedStaysCalm(cfg: Config, s: Sys, s': Sys)
    requires RamOnly(cfg) && Inv(cfg, s) && AllCalm(cfg, s) && SchedStep(cfg, s, s') && !s.sched.Tick? && s'.clean &&
               !s'.refused
    ensures StaysCalm(cfg, s, s')
  {
    hide RamOnly, StoreOk, PinsOk, HandshakeOk, ExecOk, PinTargetOk, CalmStore, CalmExec, AllCalm, StaysCalm;
    CalmPosition(cfg, s);
    match s.sched
    case LoadReady(ld) => BusyCell(cfg, s.store, BReady(ld)); LoadReadyCalm(cfg, s);
    case Settle(_, _, _, _) => SettleCalm(cfg, s);
    case SettleEnd(_) => SettleEndCalm(cfg, s);
    case FailUnpin(_) => FailingCalm(cfg, s);
    case FailFlag(_) =>
    case Triage(_) => TriageCalm(cfg, s);
    case Serve(_, _) => ServeCalm(cfg, s);
    case Alloc(_) => AllocCalm(cfg, s, s');
    case EvictCas(_, _, _) => EvictCasCalm(cfg, s);
    case EvictClear(_, _, _) => EvictClearCalm(cfg, s);
    case EvictDrain(_, _, _) => DrainNeverSpins(cfg, s); EvictDrainCalm(cfg, s);
    case Reload(_, _) => ReloadCalm(cfg, s);
    case Reserved(_, _) => ReservedCalm(cfg, s, s');
    case _ => IdlingCalm(cfg, s, s');
  }

  lemma SchedCalm(cfg: Config, s: Sys, s': Sys)
    requires RamOnly(cfg) && Inv(cfg, s) && AllCalm(cfg, s) && SchedStep(cfg, s, s') && s'.clean && !s'.refused
    ensures AllCalm(cfg, s')
  {
    if s.sched.Tick? {
      TickCalm(cfg, s, s');
    } else {
      hide Inv, SchedStep, RamOnly, CalmStore, CalmExec, Alone;
      SchedStaysCalm(cfg, s, s');
      if Alone(cfg, s') { AloneBefore(cfg, s, s'); }
    }
  }

  lemma CalmPosition(cfg: Config, s: Sys)
    requires AllCalm(cfg, s)
    ensures CalmSched(s.sched)
  {
  }

  lemma EnvCalm(cfg: Config, s: Sys, s': Sys)
    requires AllCalm(cfg, s) && (DioStep(s, s') || WorkerStep(s, s')) && s'.clean
    ensures AllCalm(cfg, s')
  {
  }

  lemma CalmPreserved(cfg: Config, s: Sys, s': Sys)
    requires RamOnly(cfg) && Inv(cfg, s) && Calm(cfg, s) && Next(cfg, s, s')
    ensures Calm(cfg, s')
  {
    hide RamOnly, Inv, ExecStep, SchedStep, DioStep, WorkerStep, AllCalm;
    if s'.clean && !s'.refused {
      CleanBefore(cfg, s, s');
      if ExecStep(cfg, s, s') {
        ExecCalm(cfg, s, s');
      } else if SchedStep(cfg, s, s') {
        SchedCalm(cfg, s, s');
      } else {
        EnvCalm(cfg, s, s');
      }
    }
  }

  /** A run that has gone wrong once stays so. */
  lemma CleanBefore(cfg: Config, s: Sys, s': Sys)
    requires Next(cfg, s, s')
    ensures (s'.clean ==> s.clean) && (!s'.refused ==> !s.refused)
  {
    hide ExecStep, SchedStep;
    if ExecStep(cfg, s, s') {
      ExecTouches(cfg, s, s');
    } else if SchedStep(cfg, s, s') {
      SchedKeepsExec(cfg, s, s');
    }
  }

  lemma {:induction false} RunCalm(cfg: Config, tr: seq<Sys>, n: nat)
    requires RamOnly(cfg) && Run(cfg, tr) && n < |tr|
    ensures Calm(cfg, tr[n])
  {
    hide Inv, Next, Calm, RamOnly;
    if n == 0 {
      InitCalm(cfg, tr[0]);
    } else {
      RunCalm(cfg, tr, n - 1);
      RunInv(cfg, tr, n - 1);
      assert Next(cfg, tr[n - 1], tr[n - 1 + 1]);
      CalmPreserved(cfg, tr[n - 1], tr[n]);
    }
  }

  lemma InitCalm(cfg: Config, s: Sys)
    requires Init(cfg, s)
    ensures Calm(cfg, s)
  {
  }

  /** A failing request: about to be failed, or failed already. */
  predicate RequestFails(s: Sys) {
    s.sched.FailUnpin? || s.sched.FailFlag? || s.sched.FailClear? || s.await.failed || s.exec.Rollback? || s.ret == -1
  }

  /** RAM-only, with no I/O failure and no failed request so far: while a pin_layer waits that
      was entered without a pin, for a layer with an expert group, an allocation finds an EMPTY
      slot or a victim for every still-needed absent expert, the stall bound is never reached,
      and the request does not fail. */
  lemma NoCapacityStall(cfg: Config, tr: seq<Sys>, n: nat)
    requires RamOnly(cfg) && Run(cfg, tr) && n < |tr| && tr[n].clean && !tr[n].refused && Alone(cfg, tr[n])
    ensures !tr[n].sched.NoSlot? && !MayStall(tr[n]) && !RequestFails(tr[n])
    ensures tr[n].sched.Alloc? ==>
              var s, r := tr[n], GoalRegion(cfg, ActiveLayer(tr[n].active), tr[n].sched.goal);
              && r.Some? && r.value.first + r.value.count <= |s.store.slots|
              && (FirstEmpty(s.store.slots, r.value.first, r.value.first + r.value.count).Some?
                  || exists vx :: Evictable(cfg, s.store, r.value, vx))
  {
    hide RamOnly, Inv, Run, CalmStore, Alone;
    RunInv(cfg, tr, n);
    RunCalm(cfg, tr, n);
    if tr[n].sched.Alloc? {
      AllocFinds(cfg, tr[n]);
    }
  }

  /** Every pin_layer of the run so far was entered without a pin, for a layer with a group. */
  ghost predicate AlwaysAlone(cfg: Config, tr: seq<Sys>) {
    forall i :: 0 <= i < |tr| && tr[i].exec.Scan? ==> tr[i].pins.held == [] && cfg.GroupOf(tr[i].exec.layer).Some?
  }

  ghost predicate CallAlone(cfg: Config, s: Sys) {
    !s.exec.Idle? ==> s.pins.held == [] && (s.exec.Rollback? || cfg.GroupOf(s.exec.layer).Some?)
  }

  lemma CallGoesOn(cfg: Config, s: Sys, s': Sys)
    requires Next(cfg, s, s') && CallAlone(cfg, s) && (s'.exec.Scan? ==> CallAlone(cfg, s'))
    ensures CallAlone(cfg, s')
  {
    hide ExecStep, SchedStep;
    if ExecStep(cfg, s, s') {
      ExecGoesOn(cfg, s, s');
    } else if SchedStep(cfg, s, s') {
      SchedKeepsExec(cfg, s, s');
    }
  }

  lemma ExecGoesOn(cfg: Config, s: Sys, s': Sys)
    requires ExecStep(cfg, s, s') && CallAlone(cfg, s) && (s'.exec.Scan? ==> CallAlone(cfg, s'))
    ensures CallAlone(cfg, s')
  {
    hide IndexOf, Without, ResidentIn, CanStart;
  }

  /** The request that is waited for is the call's. */
  lemma CallIsAlone(cfg: Config, s: Sys)
    requires Inv(cfg, s) && CallAlone(cfg, s) && Waited(s.active, StageOf(s.sched))
    ensures Alone(cfg, s)
  {
    hide StoreOk, PinsOk, ExecOk, PinTargetOk, PosOk, Covers;
  }

  /** Where a request is failing or an allocation came up empty, exec is waited for. */
  lemma TroubleIsWaited(cfg: Config, s: Sys)
    requires Inv(cfg, s) && (s.sched.FailUnpin? || s.sched.FailFlag? || s.sched.NoSlot? || MayStall(s))
    ensures Waited(s.active, StageOf(s.sched))
  {
    hide StoreOk, PinsOk, ExecOk, PinTargetOk, Covers, SourceOk, NoEntry, Detached;
  }

  lemma NoTrouble(cfg: Config, s: Sys)
    requires Inv(cfg, s) && AllCalm(cfg, s) && CallAlone(cfg, s)
    ensures !RequestFails(s) && !s.sched.NoSlot? && !MayStall(s)
  {
    hide Inv, CalmStore, CallAlone, Alone;
    if s.sched.FailUnpin? || s.sched.FailFlag? || s.sched.NoSlot? || MayStall(s) {
      TroubleIsWaited(cfg, s);
      CallIsAlone(cfg, s);
    }
  }

  lemma {:induction false} NeverRefused(cfg: Config, tr: seq<Sys>, n: nat)
    requires RamOnly(cfg) && Run(cfg, tr) && n < |tr| && tr[n].clean && AlwaysAlone(cfg, tr)
    ensures !tr[n].refused && CallAlone(cfg, tr[n])
  {
    hide RamOnly, Inv, Next, Calm, CallAlone, AllCalm;
    if n == 0 {
      InitAlone(cfg, tr[0]);
    } else {
      hide Init;
      assert Next(cfg, tr[n - 1], tr[n - 1 + 1]);
      CleanBefore(cfg, tr[n - 1], tr[n]);
      NeverRefused(cfg, tr, n - 1);
      RunInv(cfg, tr, n - 1);
      RunCalm(cfg, tr, n - 1);
      NoFailureNow(cfg, tr[n - 1], tr[n]);
      if tr[n].exec.Scan? { ScanAlone(cfg, tr, n); }
      CallGoesOn(cfg, tr[n - 1], tr[n]);
    }
  }

  lemma InitAlone(cfg: Config, s: Sys)
    requires Init(cfg, s)
    ensures !s.refused && CallAlone(cfg, s)
  {
  }

  lemma ScanAlone(cfg: Config, tr: seq<Sys>, n: nat)
    requires AlwaysAlone(cfg, tr) && n < |tr| && tr[n].exec.Scan?
    ensures CallAlone(cfg, tr[n])
  {
  }

  lemma NoFailureNow(cfg: Config, s: Sys, s': Sys)
    requires Inv(cfg, s) && Calm(cfg, s) && s.clean && !s.refused && CallAlone(cfg, s) && Next(cfg, s, s')
    ensures !s'.refused
  {
    hide Inv, AllCalm, CallAlone, ExecStep, SchedStep, MayStall;
    NoTrouble(cfg, s);
    if ExecStep(cfg, s, s') {
      ExecTouches(cfg, s, s');
    } else if SchedStep(cfg, s, s') {
      SchedKeepsExec(cfg, s, s');
    }
  }

  /** So if all calls are entered that way, no request of a run without I/O failures ever fails. */
  lemma NoRequestFails(cfg: Config, tr: seq<Sys>, n: nat)
    requires RamOnly(cfg) && Run(cfg, tr) && n < |tr| && tr[n].clean && AlwaysAlone(cfg, tr)
    ensures !tr[n].refused && !RequestFails(tr[n]) && !tr[n].sched.NoSlot? && !MayStall(tr[n])
  {
    hide RamOnly, Inv, Run, AllCalm, CallAlone;
    NeverRefused(cfg, tr, n);
    RunInv(cfg, tr, n);
    RunCalm(cfg, tr, n);
    NoTrouble(cfg, tr[n]);
  }
}
