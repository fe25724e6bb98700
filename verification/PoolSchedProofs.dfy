/** Scheduler steps preserve the invariant. */
module PoolSchedProofs {
  import opened Basics
  import opened PoolState
  import opened PoolSteps
  import opened PoolInvariant
  import opened PoolStoreProofs
  import opened PoolExecProofs

  // ---- the handshake under scheduler steps --------------------------------------

  /** A pin for one wanted item: its bit is cleared and n_left counted down, the bump is due. */
  lemma GrantHandshake(s: Sys, stage: Stage, ex: Expert, h: Handle)
    requires HandshakeOk(s.active, stage, s.exec, s.queue, s.await, s.pins.granted) && stage in {Plain, Tail}
    requires Wanted(s.active, ex) && h.ex == ex
    ensures s.active.value.nLeft > 0
    ensures HandshakeOk(Some(s.active.value.(still := s.active.value.still - {ex.id},
              nLeft := s.active.value.nLeft - 1)),
                        Bumping, s.exec, s.queue, s.await, s.pins.granted + [h])
  {
    var a := s.active.value;
    assert a.still != {};
    assert Waited(s.active, stage);
    var still := a.still - {ex.id};
    assert a.still == still + {ex.id};
    CoversAppend(s.pins.granted, s.exec.layer, s.exec.missing - a.still, h);
    assert (s.exec.missing - a.still) + {ex.id} == s.exec.missing - still;
  }

  /** The bump of `done`: exec may now be answered. */
  lemma BumpHandshake(s: Sys)
    requires HandshakeOk(s.active, Bumping, s.exec, s.queue, s.await, s.pins.granted)
    ensures HandshakeOk(s.active, Tail, s.exec, s.queue, s.await.(done := s.await.done + 1), s.pins.granted)
    ensures s.active.Some?
  {
    var a := s.active.value;
    if a.nLeft == 0 {
      assert a.still == {};
      assert s.exec.missing - a.still == s.exec.missing;
    }
  }

  /** Leaving the tail of a settle: the request goes on, or is over and cleared. */
  lemma TailHandshake(s: Sys)
    requires HandshakeOk(s.active, Tail, s.exec, s.queue, s.await, s.pins.granted) && s.active.Some?
    ensures s.active.value.nLeft == 0 ==> HandshakeOk(None, Plain, s.exec, s.queue, s.await, s.pins.granted)
    ensures s.active.value.nLeft != 0 ==> HandshakeOk(s.active, Plain, s.exec, s.queue, s.await, s.pins.granted)
    ensures s.active.value.nLeft != 0 ==> Waited(s.active, Plain)
  {
    hide Covers;
  }

  /** A failing request releases its ledger, then raises the flag, then is cleared. */
  lemma FailHandshake(s: Sys)
    requires s.active.Some?
    ensures HandshakeOk(s.active, Plain, s.exec, s.queue, s.await, s.pins.granted) && Waited(s.active, Plain) ==>
              HandshakeOk(s.active, Failing, s.exec, s.queue, s.await, s.pins.granted)
    ensures HandshakeOk(s.active, Failing, s.exec, s.queue, s.await, s.pins.granted) && Waited(s.active, Failing) ==>
              && (s.pins.granted != [] ==>
                   HandshakeOk(s.active, Failing, s.exec, s.queue, s.await, s.pins.granted[1..]))
              && (s.pins.granted == [] ==> HandshakeOk(s.active, Flagging, s.exec, s.queue, s.await, []))
    ensures HandshakeOk(s.active, Flagging, s.exec, s.queue, s.await, s.pins.granted) && Waited(s.active, Flagging) ==>
              HandshakeOk(s.active, Clearing, s.exec, s.queue, s.await.(failed := true), s.pins.granted)
    ensures HandshakeOk(s.active, Clearing, s.exec, s.queue, s.await, s.pins.granted) ==>
              HandshakeOk(None, Plain, s.exec, s.queue, s.await, s.pins.granted)
  {
    hide Covers;
  }

  /** A queued request is popped and registered. */
  lemma AcceptHandshake(s: Sys)
    requires HandshakeOk(s.active, Plain, s.exec, s.queue, s.await, s.pins.granted) && s.active.None? && s.queue != []
    ensures var r := s.queue[0];
            HandshakeOk(Some(Active(r.layer, r.needed, r.target)), Tail, s.exec, s.queue[1..], s.await, s.pins.granted)
  {
    assert Queued(s.exec, s.queue, s.await, s.pins.granted);
    assert s.exec.missing - s.exec.missing == {};
    assert Covers([], s.exec.layer, {});
    assert s.queue[1..] == [];
  }

  // ---- what exec's pin target and Waited give -------------------------------------

  /** Directory changes that keep READY cells keep the target of a pending try_pin. */
  lemma TargetFrame(st: Store, st': Store, exec: Exec)
    requires PinTargetOk(st, exec)
    requires forall p :: p in st.dir && st.dir[p].st == Resident ==> Cell(st', p, st.dir[p])
    ensures PinTargetOk(st', exec)
  {
  }

  /** While a request is unfinished exec waits, so it has no pending try_pin. */
  lemma WaitedFacts(cfg: Config, s: Sys)
    requires Inv(cfg, s) && Waited(s.active, StageOf(s.sched))
    ensures s.exec.Waiting? && s.active.value.layer == s.exec.layer && s.active.value.layer < cfg.nLayers
    ensures s.active.value.still <= s.exec.missing && s.active.value.nLeft == |s.active.value.still|
  {
    hide StoreOk, PinsOk, PosOk, Covers;
  }

  /** At a plain position an active request is an unfinished one. */
  lemma PlainActive(cfg: Config, s: Sys)
    requires Inv(cfg, s) && StageOf(s.sched) == Plain && s.active.Some?
    ensures Waited(s.active, Plain)
  {
    hide StoreOk, PinsOk, PosOk, Covers, ExecOk;
  }

  // ---- ticks -----------------------------------------------------------------------

  lemma DrainLoadPreserves(cfg: Config, s: Sys, s': Sys, i: nat)
    requires Inv(cfg, s) && s.sched.Tick? && CanDrain(s.store, i)
    requires s' == s.(store := DrainLoad(s.store, i),
                      sched := if s.store.loads[i].status == Arrived then LoadReady(s.store.loads[i])
                          else LoadBad(s.store.loads[i]))
    ensures Inv(cfg, s')
  {
    hide StoreOk, PinsOk, HandshakeOk, ExecOk;
    DrainLoadOk(cfg, s.store, i);
    KeepsPins(s.store, s'.store, s.pins);
  }

  lemma DrainMovePreserves(cfg: Config, s: Sys, s': Sys)
    requires Inv(cfg, s) && s.sched.Tick? && CanDrainMove(s.store)
    requires s' == s.(store := DrainMove(s.store), sched := MoveReady(s.store.moves[0]))
    ensures Inv(cfg, s')
  {
    hide StoreOk, PinsOk, HandshakeOk, ExecOk;
    DrainMoveOk(cfg, s.store);
    KeepsPins(s.store, s'.store, s.pins);
  }

  lemma AcceptPreserves(cfg: Config, s: Sys)
    requires Inv(cfg, s) && s.sched.Tick? && (s.active.Some? || s.queue != [])
    ensures Inv(cfg, Accept(s))
  {
    hide StoreOk, PinsOk, HandshakeOk, ExecOk, PinTargetOk;
    if s.active.Some? {
      PlainActive(cfg, s);
    } else {
      AcceptHandshake(s);
    }
  }

  // ---- settling ----------------------------------------------------------------------

  lemma LoadReadyPreserves(cfg: Config, s: Sys, s': Sys)
    requires Inv(cfg, s) && s.sched.LoadReady?
    requires s' == Publish(s, s.sched.ld.ex, s.sched.ld.pool, s.sched.ld.slot, KRing)
    ensures Inv(cfg, s')
  {
    hide StoreOk, PinsOk, HandshakeOk, ExecOk, PinTargetOk;
    var ld := s.sched.ld;
    assert s'.store == s.store.(dir := s.store.dir[Place(ld.ex, ld.pool) := Entry(Resident, ld.slot)]);
    assert s'.sched == Settle(ld.ex, ld.pool, ld.slot, KRing);
    BusyCell(cfg, s.store, BReady(ld));
    PublishLoadOk(cfg, s.store, ld);
    KeepsPins(s.store, s'.store, s.pins);
    TargetFrame(s.store, s'.store, s.exec);
  }

  lemma BusyCell(cfg: Config, st: Store, b: Busy)
    requires StoreOk(cfg, st, b)
    ensures b.BReady? ==> Cell(st, Place(b.ld.ex, b.ld.pool), Entry(Loading, b.ld.slot))
    ensures b.BBad? ==> Cell(st, Place(b.ld.ex, b.ld.pool), Entry(Loading, b.ld.slot))
    ensures b.BMove? ==> Cell(st, Place(b.mv.ex, 0), Entry(MovingIn, b.mv.dst))
    ensures b.BReserved? ==> Cell(st, b.p, Entry(Loading, b.v)) && b.v < |st.slots| && st.slots[b.v].st == IoInflight
    ensures b.BClear? ==>
              Cell(st, b.p, Entry(Resident, b.v)) && b.v < |st.slots| == |st.bytes| && st.slots[b.v].st == Evicting
  {
  }

  lemma LoadBadPreserves(cfg: Config, s: Sys, s': Sys)
    requires Inv(cfg, s) && s.sched.LoadBad?
    requires s' == s.(store := s.store.(dir := Clear(s.store.dir, Place(s.sched.ld.ex, s.sched.ld.pool))),
               sched := LoadBadSet(s.sched.ld))
    ensures Inv(cfg, s')
  {
    hide StoreOk, PinsOk, HandshakeOk, ExecOk, PinTargetOk;
    var ld := s.sched.ld;
    BusyCell(cfg, s.store, BBad(ld));
    DropLoadOk(cfg, s.store, ld);
    KeepsPins(s.store, s'.store, s.pins);
    TargetFrame(s.store, s'.store, s.exec);
  }

  lemma MoveReadyPreserves(cfg: Config, s: Sys, s': Sys)
    requires Inv(cfg, s) && s.sched.MoveReady?
    requires s' == Publish(s, s.sched.mv.ex, 0, s.sched.mv.dst, KMove(s.sched.mv.src))
    ensures Inv(cfg, s')
  {
    hide StoreOk, PinsOk, HandshakeOk, ExecOk, PinTargetOk;
    var m := s.sched.mv;
    assert s'.store == s.store.(dir := s.store.dir[Place(m.ex, 0) := Entry(Resident, m.dst)]);
    assert s'.sched == Settle(m.ex, 0, m.dst, KMove(m.src));
    BusyCell(cfg, s.store, BMove(m));
    PublishMoveOk(cfg, s.store, m);
    KeepsPins(s.store, s'.store, s.pins);
    TargetFrame(s.store, s'.store, s.exec);
  }

  /** A failing item at a plain position starts active_fail. */
  lemma FailPreserves(cfg: Config, s: Sys, k: Cont)
    requires Inv(cfg, s) && StageOf(s.sched) == Plain && s.active.Some? && KOk(s.store, k) && !k.KTriage?
    requires BusyOf(ActiveLayer(s.active), s.sched) == NoBusy
    ensures Inv(cfg, s.(sched := FailUnpin(k)))
  {
    hide StoreOk, PinsOk, HandshakeOk, ExecOk, PinTargetOk;
    PlainActive(cfg, s);
    FailHandshake(s);
  }

  lemma LoadBadSetPreserves(cfg: Config, s: Sys, s': Sys)
    requires Inv(cfg, s) && s.sched.LoadBadSet?
    requires s' == s.(sched := if Wanted(s.active, s.sched.ld.ex) then FailUnpin(KRing) else After(KRing))
    ensures Inv(cfg, s')
  {
    hide StoreOk, PinsOk, HandshakeOk, ExecOk, PinTargetOk;
    if Wanted(s.active, s.sched.ld.ex) {
      FailPreserves(cfg, s, KRing);
    }
  }

  /** Pinning a wanted resident for the request. */
  lemma GrantPreserves(cfg: Config, s: Sys, ex: Expert, pool: nat, v: nat, k: Cont)
    requires Inv(cfg, s) && StageOf(s.sched) in {Plain, Tail} && BusyOf(ActiveLayer(s.active), s.sched) == NoBusy
    requires Wanted(s.active, ex) && Cell(s.store, Place(ex, pool), Entry(Resident, v))
    requires v < |s.store.slots| && s.store.slots[v].Pinnable() && KOk(s.store, k)
    ensures Inv(cfg, GrantPin(s, ex, pool, v, k))
    ensures GrantPin(s, ex, pool, v, k).sched == SettleBump(k)
  {
    hide StoreOk, PinsOk, HandshakeOk, ExecOk, PinTargetOk;
    var s' := GrantPin(s, ex, pool, v, k);
    var h := Handle(v, s.store.slots[v].gen, ex, pool);
    GrantHandshake(s, StageOf(s.sched), ex, h);
    assert s'.sched == SettleBump(k) && s'.exec == s.exec && s'.queue == s.queue && s'.await == s.await;
    assert s'.active ==
             Some(s.active.value.(still := s.active.value.still - {ex.id}, nLeft := s.active.value.nLeft - 1));
    assert s'.store == PinSlot(s.store, v) && s'.pins == s.pins.(granted := s.pins.granted + [h]);
    TakePin(cfg, s.store, NoBusy, s.pins, h, true);
    TargetSame(s.store, s'.store, s.exec);
    assert KOk(s'.store, k);
  }

  lemma TargetSame(st: Store, st': Store, exec: Exec)
    requires PinTargetOk(st, exec) && st'.dir == st.dir
    ensures PinTargetOk(st', exec)
  {
  }

  lemma SettlePreserves(cfg: Config, s: Sys)
    requires Inv(cfg, s) && s.sched.Settle? && s.sched.slot < |s.store.slots|
    ensures Inv(cfg, SettleStep(s))
  {
    hide StoreOk, PinsOk, HandshakeOk, ExecOk, PinTargetOk;
    var Settle(ex, pool, v, k) := s.sched;
    if Wanted(s.active, ex) {
      if s.store.slots[v].Pinnable() {
        GrantPreserves(cfg, s, ex, pool, v, k);
      } else {
        FailPreserves(cfg, s, k);
      }
    }
  }

  lemma BumpPreserves(cfg: Config, s: Sys)
    requires Inv(cfg, s) && s.sched.SettleBump?
    ensures Inv(cfg, BumpStep(s))
  {
    hide StoreOk, PinsOk, HandshakeOk, ExecOk, PinTargetOk;
    BumpHandshake(s);
  }

  lemma SettleEndPreserves(cfg: Config, s: Sys)
    requires Inv(cfg, s) && s.sched.SettleEnd?
    ensures Inv(cfg, SettleEndStep(s))
  {
    hide StoreOk, PinsOk, HandshakeOk, ExecOk, PinTargetOk;
    TailHandshake(s);
  }

  lemma FailUnpinPreserves(cfg: Config, s: Sys)
    requires Inv(cfg, s) && s.sched.FailUnpin? && (s.pins.granted != [] ==> s.pins.granted[0].slot < |s.store.slots|)
    ensures Inv(cfg, FailUnpinStep(s))
  {
    hide StoreOk, PinsOk, HandshakeOk, ExecOk, PinTargetOk;
    var s' := FailUnpinStep(s);
    FailHandshake(s);
    if s.pins.granted != [] {
      var v := s.pins.granted[0].slot;
      TailIsWithout(s.pins.granted);
      DropPin(s.store, s.pins, Granted, 0);
      assert s'.store == UnpinSlot(s.store, v) && s'.pins == DropFrom(s.pins, Granted, 0);
      RefChange(cfg, s.store, NoBusy, v, s.store.slots[v].ref - 1);
      TargetSame(s.store, s'.store, s.exec);
    }
  }

  lemma FailEndPreserves(cfg: Config, s: Sys)
    requires Inv(cfg, s)
    ensures s.sched.FailFlag? ==>
              Inv(cfg, s.(await := s.await.(failed := true), refused := true, sched := FailClear(s.sched.k)))
    ensures s.sched.FailClear? ==> Inv(cfg, s.(active := None, sched := After(s.sched.k)))
  {
    hide StoreOk, PinsOk, HandshakeOk, ExecOk, PinTargetOk;
    if s.sched.FailFlag? || s.sched.FailClear? {
      FailHandshake(s);
    }
  }

  lemma AfterPreserves(cfg: Config, s: Sys)
    requires Inv(cfg, s) && s.sched.After?
    requires s.sched.k.KMove? ==> s.sched.k.src < |s.store.slots| && s.sched.k.src < |s.store.bytes|
    ensures Inv(cfg, AfterStep(s))
  {
    hide StoreOk, PinsOk, HandshakeOk, ExecOk, PinTargetOk;
    var s' := AfterStep(s);
    match s.sched.k
    case KRing =>
    case KMove(src) =>
      ReleaseOk(cfg, s.store, src);
      KeepsPins(s.store, s'.store, s.pins);
      TargetSame(s.store, s'.store, s.exec);
    case KServe(e, pass) =>
      if s.active.Some? { PlainActive(cfg, s); }
    case KTriage(e) =>
      TailActive(cfg, s);
    case KStop =>
  }

  lemma TailActive(cfg: Config, s: Sys)
    requires Inv(cfg, s) && StageOf(s.sched) != Plain
    ensures s.active.Some?
  {
    hide StoreOk, PinsOk, PosOk, ExecOk, Covers;
  }

  // ---- triage and serve ----------------------------------------------------------------

  lemma TriagePreserves(cfg: Config, s: Sys)
    requires Inv(cfg, s) && s.sched.Triage? && s.active.Some?
    ensures Inv(cfg, TriageStep(cfg, s))
  {
    hide StoreOk, PinsOk, HandshakeOk, ExecOk, PinTargetOk;
    var e := s.sched.te;
    var ex := Expert(s.active.value.layer, e);
    if e >= cfg.nExperts {
      TailHandshake(s);
    } else if e in s.active.value.still {
      match ScanPools(s.store.dir, cfg.nPools, ex, 0)
      case None =>
      case Some(pool) =>
        var v := s.store.dir[Place(ex, pool)].slot;
        if v < |s.store.slots| && s.store.slots[v].Pinnable() {
          GrantPreserves(cfg, s, ex, pool, v, KTriage(e));
        }
    }
  }

  lemma HomePool(cfg: Config, layer: nat, pool: nat)
    requires cfg.Valid() && cfg.Home(layer, pool).Some?
    ensures pool < cfg.nPools
  {
    var r := cfg.Home(layer, pool).value;
    var i :| 0 <= i < |cfg.regions| && cfg.regions[i] == r;
  }

  lemma CellSeen(dir: Directory, nPools: nat, p: Place)
    requires p in dir && p.pool < nPools && dir[p].st in {Loading, Resident, MovingIn}
    ensures ScanPools(dir, nPools, p.ex, 0).Some? || InFlight(dir, nPools, p.ex)
  {
    assert p == Place(p.ex, p.pool);
    if dir[p].st == Resident {
      assert ResidentIn(dir, p.ex, p.pool);
    }
  }

  /** An expert that is neither resident nor in flight has no cell at all. */
  lemma NowhereMeansNoEntry(cfg: Config, s: Sys, ex: Expert)
    requires Inv(cfg, s) && BusyOf(ActiveLayer(s.active), s.sched) == NoBusy
    requires ScanPools(s.store.dir, cfg.nPools, ex, 0).None? && !InFlight(s.store.dir, cfg.nPools, ex)
    ensures NoEntry(s.store, ex)
  {
    hide StoreOk, PinsOk, HandshakeOk, ExecOk, PinTargetOk, PosOk;
    forall p | p in s.store.dir ensures p.ex != ex {
      StoreCell(cfg, s.store, NoBusy, p);
      HomePool(cfg, p.ex.layer, p.pool);
      CellSeen(s.store.dir, cfg.nPools, p);
    }
  }

  lemma ServePreserves(cfg: Config, s: Sys)
    requires Inv(cfg, s) && s.sched.Serve? && s.active.Some?
    ensures Inv(cfg, ServeStep(cfg, s))
  {
    hide StoreOk, PinsOk, HandshakeOk, ExecOk, PinTargetOk;
    var Serve(e, pass) := s.sched;
    var layer := s.active.value.layer;
    var ex := Expert(layer, e);
    WaitedFacts(cfg, s);
    if e < cfg.nExperts && e in s.active.value.still && s.ringFree != 0 {
      if cfg.GroupOf(layer).None? {
        FailPreserves(cfg, s, KStop);
      } else if ScanPools(s.store.dir, cfg.nPools, ex, 0).None? && !InFlight(s.store.dir, cfg.nPools, ex) {
        NowhereMeansNoEntry(cfg, s, ex);
      }
    }
  }

  lemma ServeEndPreserves(cfg: Config, s: Sys)
    requires Inv(cfg, s) && s.sched.ServeEnd?
    ensures Inv(cfg, s.(sched := Tick))
    ensures MayStall(s) ==> Inv(cfg, s.(sched := FailUnpin(KStop)))
  {
    hide StoreOk, PinsOk, HandshakeOk, ExecOk, PinTargetOk;
    if MayStall(s) {
      FailPreserves(cfg, s, KStop);
    }
  }

  // ---- allocation and eviction ------------------------------------------------------------

  /** Reserving slot v keeps what the allocation of an outer goal relies on. */
  lemma ReservePreserves(cfg: Config, s: Sys, g: Goal, v: nat)
    requires Inv(cfg, s) && BusyOf(ActiveLayer(s.active), s.sched) == NoBusy && StageOf(s.sched) == Plain
    requires GoalOk(cfg, s.store, s.active, g) && VictimOk(cfg, s.store, ActiveLayer(s.active), g, v)
    requires v < |s.store.bytes| && (s.store.slots[v].st == Empty || Detached(s.store, v))
    ensures Inv(cfg, ReserveStep(s, g, v))
  {
    hide StoreOk, PinsOk, HandshakeOk, ExecOk, PinTargetOk;
    var layer := s.active.value.layer;
    var p := GoalPlace(layer, g);
    var s' := ReserveStep(s, g, v);
    assert s'.store == Reserve(s.store, p, v) && s'.sched == Reserved(g, v);
    ReserveOk(cfg, s.store, p, v);
    KeepsPins(s.store, s'.store, s.pins);
    WaitedFacts(cfg, s);
    NotPinning(s.exec, s'.store);
  }

  lemma NotPinning(exec: Exec, st: Store)
    requires !exec.Pin?
    ensures PinTargetOk(st, exec)
  {
  }

  /** The chosen victim is READY, unpinned and in the goal's region. */
  lemma ChosenPreserves(cfg: Config, s: Sys, r: Region, vx: Expert)
    requires Inv(cfg, s) && s.sched.Alloc? && GoalRegion(cfg, ActiveLayer(s.active), s.sched.goal) == Some(r)
    requires Evictable(cfg, s.store, r, vx)
    ensures Inv(cfg, s.(sched := EvictCas(s.sched.goal, s.store.dir[Place(vx, r.pool)].slot, vx)))
  {
    hide StoreOk, PinsOk, HandshakeOk, ExecOk, PinTargetOk, NoEntry;
    assert r.pool == GoalPlace(s.active.value.layer, s.sched.goal).pool;
  }

  lemma AllocPreserves(cfg: Config, s: Sys, s': Sys)
    requires Inv(cfg, s) && s.sched.Alloc? && AllocStep(cfg, s, s')
    ensures Inv(cfg, s')
  {
    hide StoreOk, PinsOk, HandshakeOk, ExecOk, PinTargetOk, NoEntry;
    var g := s.sched.goal;
    match GoalRegion(cfg, s.active.value.layer, g)
    case None =>
    case Some(r) =>
      match FirstEmpty(s.store.slots, r.first, r.first + r.count) {
        case Some(i) =>
          ReservePreserves(cfg, s, g, i);
        case None =>
          if vx :|
            && Evictable(cfg, s.store, r, vx)
            && s' == s.(sched := EvictCas(g, s.store.dir[Place(vx, r.pool)].slot, vx))
          {
            ChosenPreserves(cfg, s, r, vx);
          }
      }
  }

  lemma EvictCasPreserves(cfg: Config, s: Sys)
    requires Inv(cfg, s) && s.sched.EvictCas? && s.sched.v < |s.store.slots|
    ensures Inv(cfg, EvictCasStep(s)) && EvictCasStep(s).sched.EvictClear?
  {
    hide StoreOk, PinsOk, HandshakeOk, ExecOk, PinTargetOk;
    var EvictCas(g, v, vx) := s.sched;
    var layer := s.active.value.layer;
    var s' := EvictCasStep(s);
    var p := Place(vx, GoalPlace(layer, g).pool);
    assert s'.store == WithSlot(s.store, v, s.store.slots[v].(st := Evicting)) && s'.sched == EvictClear(g, v, vx);
    CasOk(cfg, s.store, p, v);
    CasPins(s.store, s.pins, v);
    WaitedFacts(cfg, s);
    NotPinning(s.exec, s'.store);
  }

  /** A slot without pins can change its state. */
  lemma CasPins(st: Store, pins: Pins, v: nat)
    requires PinsOk(st, pins) && v < |st.slots| && st.slots[v].ref == 0
    ensures PinsOk(WithSlot(st, v, st.slots[v].(st := Evicting)), pins)
  {
    CntZero(pins.held, v);
    CntZero(pins.got, v);
    CntZero(pins.granted, v);
    OtherPins(st, pins.held, v);
    OtherPins(st, pins.got, v);
    OtherPins(st, pins.granted, v);
  }

  lemma OtherPins(st: Store, hs: seq<Handle>, v: nat)
    requires HandlesOk(st, hs) && v < |st.slots| && forall i :: 0 <= i < |hs| ==> hs[i].slot != v
    ensures HandlesOk(WithSlot(st, v, st.slots[v].(st := Evicting)), hs)
  {
    forall i | 0 <= i < |hs| ensures HandleOk(WithSlot(st, v, st.slots[v].(st := Evicting)), hs[i]) {
      assert HandleOk(st, hs[i]);
    }
  }

  lemma EvictClearPreserves(cfg: Config, s: Sys)
    requires Inv(cfg, s) && s.sched.EvictClear?
    ensures Inv(cfg, EvictClearStep(s))
  {
    hide StoreOk, PinsOk, HandshakeOk, ExecOk, PinTargetOk;
    var EvictClear(g, v, vx) := s.sched;
    var layer := s.active.value.layer;
    var p := Place(vx, GoalPlace(layer, g).pool);
    var s' := EvictClearStep(s);
    assert s'.store == s.store.(dir := Clear(s.store.dir, p)) && s'.sched == EvictDrain(g, v, vx);
    BusyCell(cfg, s.store, BClear(p, v));
    assert vx != Expert(layer, g.e) && (g.ForDemote? ==> vx != g.vx);
    ClearOk(cfg, s.store, p, v);
    KeepsPins(s.store, s'.store, s.pins);
    assert GoalOk(cfg, s'.store, s.active, g);
    WaitedFacts(cfg, s);
    NotPinning(s.exec, s'.store);
  }

  /** The drain loop never spins: the victim has no pin left. */
  lemma DrainNeverSpins(cfg: Config, s: Sys)
    requires Inv(cfg, s) && s.sched.EvictDrain?
    ensures s.sched.v < |s.store.slots| && s.store.slots[s.sched.v].ref == 0
    ensures s.exec.Waiting? && s.await.done < s.await.target && !s.await.failed
  {
    hide PinsOk, ExecOk, PinTargetOk, Covers, DirTyped, DirUnique, DirAgrees, LoadsOk, LoadsUnique, MovesOk,
        MovesUnique;
  }

  lemma EvictDrainPreserves(cfg: Config, s: Sys)
    requires Inv(cfg, s) && s.sched.EvictDrain? && s.sched.v < |s.store.slots|
    ensures Inv(cfg, EvictDrainStep(cfg, s))
  {
    hide StoreOk, PinsOk, HandshakeOk, ExecOk, PinTargetOk;
  }

  lemma ReloadPreserves(cfg: Config, s: Sys)
    requires Inv(cfg, s) && s.sched.Reload? && s.sched.v < |s.store.slots| && s.sched.v < |s.store.bytes|
    ensures Inv(cfg, ReserveStep(s, s.sched.goal, s.sched.v))
  {
    hide StoreOk, PinsOk, HandshakeOk, ExecOk, PinTargetOk;
    ReservePreserves(cfg, s, s.sched.goal, s.sched.v);
  }

  lemma SubmitLoadPreserves(cfg: Config, s: Sys, i: nat)
    requires Inv(cfg, s) && s.sched.Reserved? && s.sched.goal.ForRequest? && s.ringFree > 0 && i !in s.store.loads
    ensures Inv(cfg, SubmitLoad(s, i))
  {
    hide StoreOk, PinsOk, HandshakeOk, ExecOk, PinTargetOk;
    var Reserved(g, v) := s.sched;
    var p := GoalPlace(s.active.value.layer, g);
    var s' := SubmitLoad(s, i);
    assert s'.store == s.store.(loads := s.store.loads[i := Load(p.ex, p.pool, v, Pending)]);
    SubmitLoadOk(cfg, s.store, p, v, i);
    KeepsPins(s.store, s'.store, s.pins);
    TargetSame(s.store, s'.store, s.exec);
  }

  lemma SubmitNothingPreserves(cfg: Config, s: Sys)
    requires Inv(cfg, s) && s.sched.Reserved? && s.sched.goal.ForRequest?
    ensures Inv(cfg, SubmitNothing(s))
  {
    hide StoreOk, PinsOk, HandshakeOk, ExecOk, PinTargetOk;
    var Reserved(g, v) := s.sched;
    var p := GoalPlace(s.active.value.layer, g);
    var s' := SubmitNothing(s);
    assert s'.store == s.store.(dir := Clear(s.store.dir, p));
    AbandonOk(cfg, s.store, p, v);
    KeepsPins(s.store, s'.store, s.pins);
    WaitedFacts(cfg, s);
    NotPinning(s.exec, s'.store);
  }

  lemma SubmitMovePreserves(cfg: Config, s: Sys)
    requires Inv(cfg, s) && s.sched.Reserved? && s.sched.goal.ForDemote?
    ensures Inv(cfg, SubmitMove(s))
  {
    hide StoreOk, PinsOk, HandshakeOk, ExecOk, PinTargetOk;
    var Reserved(g, v) := s.sched;
    var s' := SubmitMove(s);
    assert s'.store ==
             s.store.(moves := s.store.moves + [Move(g.vx, g.src, v)],
                 dir := s.store.dir[Place(g.vx, 0) := Entry(MovingIn, v)]);
    SubmitMoveOk(cfg, s.store, g.vx, g.src, v);
    KeepsPins(s.store, s'.store, s.pins);
    WaitedFacts(cfg, s);
    NotPinning(s.exec, s'.store);
  }

  lemma RefuseMovePreserves(cfg: Config, s: Sys)
    requires Inv(cfg, s) && s.sched.Reserved? && s.sched.goal.ForDemote? && s.sched.v < |s.store.slots| &&
               s.sched.v < |s.store.bytes|
    ensures Inv(cfg, RefuseMove(s))
  {
    hide StoreOk, PinsOk, HandshakeOk, ExecOk, PinTargetOk;
    var Reserved(g, v) := s.sched;
    var s' := RefuseMove(s);
    assert s'.store == Release(s.store, v).(dir := Clear(s.store.dir, Place(g.vx, 0)));
    BusyCell(cfg, s.store, BReserved(Place(g.vx, 0), v));
    RefuseOk(cfg, s.store, Place(g.vx, 0), v);
    KeepsPins(s.store, s'.store, s.pins);
    WaitedFacts(cfg, s);
    NotPinning(s.exec, s'.store);
  }

  lemma NoSlotPreserves(cfg: Config, s: Sys)
    requires Inv(cfg, s) && s.sched.NoSlot?
    ensures Inv(cfg, NoSlotStep(s))
  {
    hide StoreOk, PinsOk, HandshakeOk, ExecOk, PinTargetOk;
  }

  lemma TickPreserves(cfg: Config, s: Sys, s': Sys)
    requires Inv(cfg, s) && s.sched.Tick? && TickStep(s, s')
    ensures Inv(cfg, s')
  {
    hide Inv;
    if (s.active.Some? || s.queue != []) && s' == Accept(s) {
      AcceptPreserves(cfg, s);
    } else if CanDrainMove(s.store) && s' == s.(store := DrainMove(s.store), sched := MoveReady(s.store.moves[0])) {
      DrainMovePreserves(cfg, s, s');
    } else {
      var i :| CanDrain(s.store, i) &&
          s' == s.(store := DrainLoad(s.store, i),
                   sched := if s.store.loads[i].status == Arrived then LoadReady(s.store.loads[i])
                       else LoadBad(s.store.loads[i]));
      DrainLoadPreserves(cfg, s, s', i);
    }
  }

  lemma ReservedPreserves(cfg: Config, s: Sys, s': Sys)
    requires Inv(cfg, s) && s.sched.Reserved? && ReservedStep(cfg, s, s')
    ensures Inv(cfg, s')
  {
    hide Inv;
    if s.sched.goal.ForRequest? {
      if s' == SubmitNothing(s) {
        SubmitNothingPreserves(cfg, s);
      } else {
        var i :| 0 <= i < cfg.ring && i !in s.store.loads && s' == SubmitLoad(s, i);
        SubmitLoadPreserves(cfg, s, i);
      }
    } else if s' == SubmitMove(s) {
      SubmitMovePreserves(cfg, s);
    } else {
      RefuseMovePreserves(cfg, s);
    }
  }

  lemma SchedPreserves(cfg: Config, s: Sys, s': Sys)
    requires Inv(cfg, s) && SchedStep(cfg, s, s')
    ensures Inv(cfg, s')
  {
    hide Inv;
    match s.sched
    case Tick => TickPreserves(cfg, s, s');
    case LoadReady(_) => LoadReadyPreserves(cfg, s, s');
    case LoadBad(_) => LoadBadPreserves(cfg, s, s');
    case LoadBadSet(_) => LoadBadSetPreserves(cfg, s, s');
    case MoveReady(_) => MoveReadyPreserves(cfg, s, s');
    case Settle(_, _, _, _) => SettlePreserves(cfg, s);
    case SettleBump(_) => BumpPreserves(cfg, s);
    case SettleEnd(_) => SettleEndPreserves(cfg, s);
    case FailUnpin(_) => FailUnpinPreserves(cfg, s);
    case FailFlag(_) => FailEndPreserves(cfg, s);
    case FailClear(_) => FailEndPreserves(cfg, s);
    case After(_) => AfterPreserves(cfg, s);
    case Triage(_) => TriagePreserves(cfg, s);
    case Serve(_, _) => ServePreserves(cfg, s);
    case ServeEnd(_) => ServeEndPreserves(cfg, s);
    case Alloc(_) => AllocPreserves(cfg, s, s');
    case EvictCas(_, _, _) => EvictCasPreserves(cfg, s);
    case EvictClear(_, _, _) => EvictClearPreserves(cfg, s);
    case EvictDrain(_, _, _) => EvictDrainPreserves(cfg, s);
    case Reload(_, _) => ReloadPreserves(cfg, s);
    case Reserved(_, _) => ReservedPreserves(cfg, s, s');
    case NoSlot(_) => NoSlotPreserves(cfg, s);
  }

  /** Every step of every thread keeps the invariant. */
  lemma NextPreserves(cfg: Config, s: Sys, s': Sys)
    requires Inv(cfg, s) && Next(cfg, s, s')
    ensures Inv(cfg, s')
  {
    hide Inv;
    if ExecStep(cfg, s, s') {
      ExecPreserves(cfg, s, s');
    } else if DioStep(s, s') {
      DioPreserves(cfg, s, s');
    } else if WorkerStep(s, s') {
      WorkerPreserves(cfg, s, s');
    } else {
      SchedPreserves(cfg, s, s');
    }
  }
}
