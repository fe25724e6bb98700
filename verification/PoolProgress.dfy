/** No registered item is lost, and a RAM-only pool never runs out of slots. */
module PoolProgress {
  import opened Basics
  import opened PoolState
  import opened PoolSteps
  import opened PoolInvariant
  import opened PoolStoreProofs
  import opened PoolExecProofs
  import opened PoolSchedProofs
  import opened PoolTheorems

  // ---- no item is lost between exec's scan and the registration ------------------

  /** Item e has still to be looked at by the triage or settle in progress, or the request fails. */
  ghost predicate Pending(sched: Sched, layer: nat, e: nat) {
    match sched
    case Triage(te) => te <= e
    case SettleBump(k) => k.KTriage? && k.e < e
    case SettleEnd(k) => k.KTriage? && k.e < e
    case After(k) => k.KTriage? && k.e < e
    case Settle(ex, _, _, _) => ex == Expert(layer, e)
    case FailUnpin(_) => true
    case FailFlag(_) => true
    case _ => false
  }

  /** A still-needed expert that is READY is about to be pinned; only a saturated refcount stops that. */
  ghost predicate NotLost(s: Sys) {
    Waited(s.active, StageOf(s.sched)) ==>
      forall e, q :: e in s.active.value.still && ResidentIn(s.store.dir, Expert(s.active.value.layer, e), q) ==>
        || Pending(s.sched, s.active.value.layer, e)
        || Saturated(s.store, s.store.dir[Place(Expert(s.active.value.layer, e), q)].slot)
  }

  ghost predicate Saturated(st: Store, v: nat) {
    v < |st.slots| && st.slots[v].ref >= MAX_REF
  }

  lemma NotLostPreserved(cfg: Config, s: Sys, s': Sys)
    requires Inv(cfg, s) && Next(cfg, s, s') && NotLost(s)
    ensures NotLost(s')
  {
    hide Inv, ExecStep, SchedStep, Pending;
    if ExecStep(cfg, s, s') {
      ExecStuck(cfg, s, s');
    } else if SchedStep(cfg, s, s') {
      SchedNotLost(cfg, s, s');
    } else {
      EnvNotLost(s, s');
    }
  }

  /** DIO completions and the worker change no cell and no pin. */
  lemma EnvNotLost(s: Sys, s': Sys)
    requires NotLost(s) && (DioStep(s, s') || WorkerStep(s, s'))
    ensures NotLost(s')
  {
    hide NotLost, Pending;
    KeepsNotLost(s, s');
  }

  /** While a request is unfinished exec cannot take a step. */
  lemma ExecStuck(cfg: Config, s: Sys, s': Sys)
    requires Inv(cfg, s) && ExecStep(cfg, s, s')
    ensures !Waited(s.active, StageOf(s.sched)) && s'.active == s.active && s'.sched == s.sched
  {
    hide StoreOk, PinsOk, ExecOk, PinTargetOk, PosOk, Covers;
  }

  /** A READY cell of the new store was READY before, at the same slot, with no more pins. */
  ghost predicate NoNewResident(st: Store, st': Store) {
    forall p :: p in st'.dir && st'.dir[p].st == Resident ==>
      && Cell(st, p, st'.dir[p])
      && (Saturated(st, st'.dir[p].slot) ==> Saturated(st', st'.dir[p].slot))
  }

  lemma KeepsNotLost(s: Sys, s': Sys)
    requires NotLost(s) && NoNewResident(s.store, s'.store) && s'.active == s.active
    requires Waited(s'.active, StageOf(s'.sched)) ==> Waited(s.active, StageOf(s.sched))
    requires forall layer, e :: Pending(s.sched, layer, e) ==> Pending(s'.sched, layer, e)
    ensures NotLost(s')
  {
    if Waited(s'.active, StageOf(s'.sched)) {
      var layer := s'.active.value.layer;
      forall e, q | e in s'.active.value.still && ResidentIn(s'.store.dir, Expert(layer, e), q)
        ensures Pending(s'.sched, layer, e) || Saturated(s'.store, s'.store.dir[Place(Expert(layer, e), q)].slot)
      {
        assert Cell(s.store, Place(Expert(layer, e), q), s'.store.dir[Place(Expert(layer, e), q)]);
        assert ResidentIn(s.store.dir, Expert(layer, e), q);
      }
    }
  }

  /** Steps that move no slot and publish nothing. */
  predicate Quiet(sched: Sched) {
    || sched.SettleBump? || sched.SettleEnd? || sched.LoadBadSet? || sched.ServeEnd? || sched.NoSlot?
    || sched.Serve? || sched.EvictDrain? || sched.FailFlag? || sched.FailClear?
  }

  lemma QuietNotLost(cfg: Config, s: Sys, s': Sys)
    requires NotLost(s) && SchedStep(cfg, s, s') && Quiet(s.sched)
    ensures NotLost(s')
  {
    hide SchedStep, NotLost;
    if s.sched.SettleBump? || s.sched.SettleEnd? || s.sched.LoadBadSet? || s.sched.FailFlag? || s.sched.FailClear? {
      SettlingNotLost(cfg, s, s');
    } else {
      ServingNotLost(cfg, s, s');
    }
  }

  lemma SettlingNotLost(cfg: Config, s: Sys, s': Sys)
    requires NotLost(s) && SchedStep(cfg, s, s')
    requires s.sched.SettleBump? || s.sched.SettleEnd? || s.sched.LoadBadSet? || s.sched.FailFlag? || s.sched.FailClear?
    ensures NotLost(s')
  {
    hide ResidentIn;
  }

  lemma ServingNotLost(cfg: Config, s: Sys, s': Sys)
    requires NotLost(s) && SchedStep(cfg, s, s') &&
               (s.sched.ServeEnd? || s.sched.NoSlot? || s.sched.Serve? || s.sched.EvictDrain?)
    ensures NotLost(s')
  {
    hide ResidentIn, Demotable, InFlight;
  }

  lemma TickNotLost(s: Sys, s': Sys)
    requires NotLost(s) && s.sched.Tick? && TickStep(s, s')
    ensures NotLost(s')
  {
    if s.active.Some? {
      hide NotLost;
      KeepsNotLost(s, s');
    }
  }

  /** Publishing an expert's cell makes it the pending item. */
  lemma PublishNotLost(s: Sys, ex: Expert, pool: nat, v: nat, k: Cont)
    requires NotLost(s) && (s.sched.LoadReady? || s.sched.MoveReady?)
    ensures NotLost(Publish(s, ex, pool, v, k))
  {
    var s' := Publish(s, ex, pool, v, k);
    if Waited(s'.active, StageOf(s'.sched)) {
      var layer := s'.active.value.layer;
      forall e, q | e in s'.active.value.still && ResidentIn(s'.store.dir, Expert(layer, e), q)
        ensures Pending(s'.sched, layer, e) || Saturated(s'.store, s'.store.dir[Place(Expert(layer, e), q)].slot)
      {
        if Expert(layer, e) != ex {
          assert ResidentIn(s.store.dir, Expert(layer, e), q);
        }
      }
    }
  }

  /** Pinning item ex takes it off the still-needed set; the others stay as they are. */
  lemma GrantNotLost(s: Sys, ex: Expert, pool: nat, v: nat, k: Cont)
    requires NotLost(s) && Waited(s.active, StageOf(s.sched)) && Wanted(s.active, ex) && v < |s.store.slots|
    requires forall e :: e != ex.id && Pending(s.sched, ex.layer, e) ==> k.KTriage? && k.e < e
    ensures NotLost(GrantPin(s, ex, pool, v, k))
  {
    var s' := GrantPin(s, ex, pool, v, k);
    if s.active.value.nLeft != 0 && Waited(s'.active, StageOf(s'.sched)) {
      var layer := s.active.value.layer;
      forall e, q | e in s'.active.value.still && ResidentIn(s'.store.dir, Expert(layer, e), q)
        ensures Pending(s'.sched, layer, e) || Saturated(s'.store, s'.store.dir[Place(Expert(layer, e), q)].slot)
      {
        assert ResidentIn(s.store.dir, Expert(layer, e), q);
      }
    }
  }

  lemma SettleNotLost(cfg: Config, s: Sys)
    requires Inv(cfg, s) && NotLost(s) && s.sched.Settle? && s.sched.slot < |s.store.slots|
    ensures NotLost(SettleStep(s))
  {
    hide StoreOk, PinsOk, HandshakeOk, ExecOk, PinTargetOk;
    var Settle(ex, pool, v, k) := s.sched;
    if Wanted(s.active, ex) && s.store.slots[v].Pinnable() {
      PlainActive(cfg, s);
      GrantNotLost(s, ex, pool, v, k);
    }
  }

  /** A wanted expert that triage leaves behind is not READY, or saturated. */
  lemma TriageSkips(cfg: Config, s: Sys, ex: Expert, q: nat)
    requires Inv(cfg, s) && s.sched.Triage? && ResidentIn(s.store.dir, ex, q)
    ensures ScanPools(s.store.dir, cfg.nPools, ex, 0) == Some(q)
    ensures var v := s.store.dir[Place(ex, q)].slot;
            v < |s.store.slots| && (s.store.slots[v].Pinnable() || Saturated(s.store, v))
  {
    hide PinsOk, HandshakeOk, ExecOk, PinTargetOk, PosOk, StoreOk;
    var p := Place(ex, q);
    StoreCell(cfg, s.store, NoBusy, p);
    HomePool(cfg, ex.layer, q);
    var r := ScanPools(s.store.dir, cfg.nPools, ex, 0);
    assert r.Some? && ResidentIn(s.store.dir, ex, r.value);
    OneCell(cfg, s.store, NoBusy, p, Place(ex, r.value));
    ReadyCell(cfg, s.store, p);
  }

  lemma ReadyCell(cfg: Config, st: Store, p: Place)
    requires StoreOk(cfg, st, NoBusy) && p in st.dir && st.dir[p].st == Resident
    ensures st.dir[p].slot < |st.slots| && st.slots[st.dir[p].slot].st == Ready
  {
    hide DirTyped, DirUnique, LoadsOk, MovesOk, BusyOk;
    CellAgrees(st, NoBusy, p);
  }

  lemma TriageNotLost(cfg: Config, s: Sys)
    requires Inv(cfg, s) && NotLost(s) && s.sched.Triage? && s.active.Some?
    ensures NotLost(TriageStep(cfg, s))
  {
    hide Inv;
    var te := s.sched.te;
    var ex := Expert(s.active.value.layer, te);
    if te >= cfg.nExperts {
      StillInRange(cfg, s);
    } else if te in s.active.value.still {
      TailWaits(cfg, s);
      var r := ScanPools(s.store.dir, cfg.nPools, ex, 0);
      if r.Some? && PinnableAt(s.store, s.store.dir[Place(ex, r.value)].slot) {
        GrantNotLost(s, ex, r.value, s.store.dir[Place(ex, r.value)].slot, KTriage(te));
      } else {
        forall q | ResidentIn(s.store.dir, ex, q)
          ensures Saturated(s.store, s.store.dir[Place(ex, q)].slot)
        {
          TriageSkips(cfg, s, ex, q);
        }
        SkipNotLost(s, te);
      }
    }
  }

  predicate PinnableAt(st: Store, v: nat) {
    v < |st.slots| && st.slots[v].Pinnable()
  }

  lemma SkipNotLost(s: Sys, te: nat)
    requires NotLost(s) && s.sched == Triage(te) && s.active.Some?
    requires forall q :: ResidentIn(s.store.dir, Expert(s.active.value.layer, te), q) ==>
               Saturated(s.store, s.store.dir[Place(Expert(s.active.value.layer, te), q)].slot)
    ensures NotLost(s.(sched := Triage(te + 1)))
  {
  }

  lemma StillInRange(cfg: Config, s: Sys)
    requires Inv(cfg, s)
    ensures Waited(s.active, StageOf(s.sched)) ==> forall e :: e in s.active.value.still ==> e < cfg.nExperts
  {
    hide StoreOk, PinsOk, PinTargetOk, PosOk, Covers;
  }

  /** Triage with something still needed is inside an unfinished request. */
  lemma TailWaits(cfg: Config, s: Sys)
    requires Inv(cfg, s) && s.sched.Triage? && s.active.Some? && s.active.value.still != {}
    ensures Waited(s.active, Tail)
  {
    hide StoreOk, PinsOk, PinTargetOk, PosOk, ExecOk, Covers;
  }

  /** A detached or empty slot is not the slot of a READY cell. */
  lemma ReserveNotLost(cfg: Config, s: Sys, g: Goal, v: nat)
    requires Inv(cfg, s) && NotLost(s) && (s.sched.Alloc? || s.sched.Reload?)
    requires v < |s.store.slots| && v < |s.store.bytes| && (s.store.slots[v].st == Empty || NotNamed(s.store, v))
    ensures NotLost(ReserveStep(s, g, v))
  {
    hide StoreOk, PinsOk, PinTargetOk, PosOk, HandshakeOk, ExecOk, NotLost;
    var s' := ReserveStep(s, g, v);
    var p := GoalPlace(ActiveLayer(s.active), g);
    assert s'.store.dir == s.store.dir[p := Entry(Loading, v)] && s'.sched == Reserved(g, v);
    forall q | q in s'.store.dir && s'.store.dir[q].st == Resident
      ensures Cell(s.store, q, s'.store.dir[q]) &&
                (Saturated(s.store, s'.store.dir[q].slot) ==> Saturated(s'.store, s'.store.dir[q].slot))
    {
      ReadyCell(cfg, s.store, q);
    }
    KeepsNotLost(s, s');
  }

  lemma AllocNotLost(cfg: Config, s: Sys, s': Sys)
    requires Inv(cfg, s) && NotLost(s) && (s.sched.Alloc? || s.sched.Reload?) && SchedStep(cfg, s, s')
    ensures NotLost(s')
  {
    hide StoreOk, PinsOk, PinTargetOk, HandshakeOk, ExecOk, NotLost, Evictable;
    if s.sched.Reload? {
      ReserveNotLost(cfg, s, s.sched.goal, s.sched.v);
    } else {
      hide PosOk;
      var g := s.sched.goal;
      var r := GoalRegion(cfg, ActiveLayer(s.active), g);
      if r.Some? && FirstEmpty(s.store.slots, r.value.first, r.value.first + r.value.count).Some? {
        ReserveNotLost(cfg, s, g, FirstEmpty(s.store.slots, r.value.first, r.value.first + r.value.count).value);
      } else {
        KeepsNotLost(s, s');
      }
    }
  }

  lemma ReservedNotLost(cfg: Config, s: Sys, s': Sys)
    requires Inv(cfg, s) && NotLost(s) && s.sched.Reserved? && ReservedStep(cfg, s, s')
    ensures NotLost(s')
  {
    hide StoreOk, PinsOk, PinTargetOk, PosOk, HandshakeOk, ExecOk, NotLost;
    var p := GoalPlace(ActiveLayer(s.active), s.sched.goal);
    forall q | q in s.store.dir && q != p
      ensures s.store.dir[q].slot != s.sched.v
    {
      BusyCell(cfg, s.store, BReserved(p, s.sched.v));
      OneSlot(cfg, s.store, BReserved(p, s.sched.v), p, q);
    }
    KeepsNotLost(s, s');
  }

  lemma OneSlot(cfg: Config, st: Store, b: Busy, p: Place, q: Place)
    requires StoreOk(cfg, st, b) && p in st.dir && q in st.dir && p != q
    ensures st.dir[p].slot != st.dir[q].slot
  {
    hide DirTyped, DirAgrees, LoadsOk, MovesOk, BusyOk;
  }

  lemma FailingNotLost(s: Sys, s': Sys)
    requires NotLost(s) && s.sched.FailUnpin?
    requires (s.pins.granted != [] ==> s.pins.granted[0].slot < |s.store.slots|) && s' == FailUnpinStep(s)
    ensures NotLost(s')
  {
  }

  lemma AfterNotLost(s: Sys)
    requires NotLost(s) && s.sched.After? && KOk(s.store, s.sched.k)
    requires s.sched.k.KMove? ==> s.sched.k.src < |s.store.bytes|
    ensures NotLost(AfterStep(s))
  {
    if s.sched.k.KMove? {
      hide NotLost;
      KeepsNotLost(s, AfterStep(s));
    }
  }

  lemma SchedNotLost(cfg: Config, s: Sys, s': Sys)
    requires Inv(cfg, s) && SchedStep(cfg, s, s') && NotLost(s)
    ensures NotLost(s')
  {
    hide StoreOk, PinsOk, PinTargetOk, HandshakeOk, ExecOk, NotLost;
    match s.sched
    case Tick => TickNotLost(s, s');
    case LoadReady(ld) => PublishNotLost(s, ld.ex, ld.pool, ld.slot, KRing);
    case MoveReady(m) => PublishNotLost(s, m.ex, 0, m.dst, KMove(m.src));
    case Settle(_, _, _, _) => SettleNotLost(cfg, s);
    case Triage(_) => TriageNotLost(cfg, s);
    case Alloc(_) => AllocNotLost(cfg, s, s');
    case Reload(_, _) => AllocNotLost(cfg, s, s');
    case Reserved(_, _) => ReservedNotLost(cfg, s, s');
    case FailUnpin(_) => FailingNotLost(s, s');
    case After(_) => AfterNotLost(s);
    case LoadBad(_) => KeepsNotLost(s, s');
    case EvictCas(_, _, _) => KeepsNotLost(s, s');
    case EvictClear(_, _, _) => KeepsNotLost(s, s');
    case _ => QuietNotLost(cfg, s, s');
  }

  lemma {:induction false} RunNotLost(cfg: Config, tr: seq<Sys>, n: nat)
    requires Run(cfg, tr) && n < |tr|
    ensures NotLost(tr[n])
  {
    hide Inv, Next, NotLost;
    if n == 0 {
      InitNotLost(cfg, tr[0]);
    } else {
      RunNotLost(cfg, tr, n - 1);
      RunInv(cfg, tr, n - 1);
      assert Next(cfg, tr[n - 1], tr[n - 1 + 1]);
      NotLostPreserved(cfg, tr[n - 1], tr[n]);
    }
  }

  lemma InitNotLost(cfg: Config, s: Sys)
    requires Init(cfg, s)
    ensures NotLost(s)
  {
  }

  /** Items that settle between exec's scan and the registration are not lost:
      outside triage and settle, a still-needed expert is in no pool READY, on
      any interleaving, unless its slot carries as many pins as a word can count. */
  lemma NoItemIsLost(cfg: Config, tr: seq<Sys>, n: nat, e: nat, pool: nat)
    requires Run(cfg, tr) && n < |tr| && tr[n].active.Some? && e in tr[n].active.value.still
    requires tr[n].sched.Tick? || tr[n].sched.Serve? || tr[n].sched.ServeEnd? || tr[n].sched.Alloc?
    ensures var ex := Expert(tr[n].active.value.layer, e);
            ResidentIn(tr[n].store.dir, ex, pool) ==> Saturated(tr[n].store, tr[n].store.dir[Place(ex, pool)].slot)
  {
    RunInv(cfg, tr, n);
    RunNotLost(cfg, tr, n);
    PlainActive(cfg, tr[n]);
    hide Inv;
  }
}
