/** Turns of the scheduler thread: runs of its protocol steps between two returns
    to its main loop, the single steps they are made of, and the choice of a victim. */
module PoolTurns {
  import opened Basics
  import opened PoolState
  import opened PoolSteps
  import opened PoolInvariant
  import opened PoolSchedProofs
  import opened PoolTheorems
  import opened PoolNoStall

  // ---- runs of scheduler steps -----------------------------------------------------------

  ghost predicate Chain(cfg: Config, log: seq<Sys>) {
    |log| > 0 && forall i :: 0 <= i < |log| - 1 ==> SchedStep(cfg, log[i], log[i + 1])
  }

  /** n scheduler steps from s to s', with no return to the main loop in between. */
  ghost predicate ChainFromTo(cfg: Config, log: seq<Sys>, s: Sys, s': Sys, n: nat) {
    && Chain(cfg, log) && |log| == n + 1 && log[0] == s && log[n] == s'
    && forall i :: 0 < i < n ==> !log[i].sched.Tick?
  }

  ghost predicate Leads(cfg: Config, s: Sys, s': Sys, n: nat) {
    exists log :: ChainFromTo(cfg, log, s, s', n)
  }

  lemma LeadsOn(cfg: Config, s: Sys, s': Sys, n: nat, s'': Sys)
    requires Leads(cfg, s, s', n) && SchedStep(cfg, s', s'') && (n == 0 || !s'.sched.Tick?)
    ensures Leads(cfg, s, s'', n + 1)
  {
    hide SchedStep;
    var log :| ChainFromTo(cfg, log, s, s', n);
    assert ChainFromTo(cfg, log + [s''], s, s'', n + 1);
  }

  lemma LeadsNowhere(cfg: Config, s: Sys)
    ensures Leads(cfg, s, s, 0)
  {
    assert ChainFromTo(cfg, [s], s, s, 0);
  }

  /** A run that reaches s goes on to whatever s leads to. */
  lemma LeadsContinuesRun(cfg: Config, tr: seq<Sys>, s': Sys, n: nat) returns (longer: seq<Sys>)
    requires Run(cfg, tr) && Leads(cfg, tr[|tr| - 1], s', n)
    ensures Run(cfg, longer) && tr <= longer && |longer| == |tr| + n && longer[|longer| - 1] == s'
  {
    hide SchedStep, ExecStep, DioStep, WorkerStep, Init;
    var log :| ChainFromTo(cfg, log, tr[|tr| - 1], s', n);
    longer := tr + log[1..];
    forall i | 0 <= i < |longer| - 1 ensures Next(cfg, longer[i], longer[i + 1]) {
      if i >= |tr| - 1 {
        assert longer[i] == log[i - (|tr| - 1)] && longer[i + 1] == log[i - (|tr| - 1) + 1];
      }
    }
  }

  /** A run that reaches s. */
  ghost predicate Reached(cfg: Config, tr: seq<Sys>, s: Sys) {
    Run(cfg, tr) && tr[|tr| - 1] == s
  }

  /** The first state on its own is a run, and what init leaves in the fields is in order. */
  lemma Beginning(cfg: Config, free: seq<nat>)
    requires cfg.Valid() && |free| == cfg.ring && forall i :: 0 <= i < cfg.ring ==> free[i] == i
    ensures Reached(cfg, [FirstState(cfg)], FirstState(cfg))
    ensures CellsOk(cfg, map[]) && MovesIn(cfg, []) && FreeOk(cfg, free, map[]) && LedgerOk(cfg, [])
  {
    hide Init;
  }

  /** A step of exec, of the DIO engine or of the move worker. */
  ghost predicate Foreign(cfg: Config, s: Sys, s': Sys) {
    ExecStep(cfg, s, s') || DioStep(s, s') || WorkerStep(s, s')
  }

  lemma RunGoesOn(cfg: Config, tr: seq<Sys>, s: Sys, s': Sys)
    requires Reached(cfg, tr, s) && Foreign(cfg, s, s')
    ensures Reached(cfg, tr + [s'], s')
  {
    hide SchedStep, ExecStep, DioStep, WorkerStep, Init;
    var longer := tr + [s'];
    forall i | 0 <= i < |longer| - 1 ensures Next(cfg, longer[i], longer[i + 1]) {
      if i < |tr| - 1 { assert Next(cfg, tr[i], tr[i + 1]); }
    }
  }

  /** What the scheduler's own fields mirror of the state. */
  ghost predicate SameView(s: Sys, s': Sys) {
    && s'.active == s.active && s'.sched == s.sched && s'.ringFree == s.ringFree
    && s'.store.dir == s.store.dir && s'.store.moves == s.store.moves
    && |s'.store.slots| == |s.store.slots| && |s'.store.bytes| == |s.store.bytes|
    && (s.active.Some? ==> s'.pins.granted == s.pins.granted && s'.await == s.await)
  }

  /** With an active request and no settle half done exec waits and cannot wake. */
  lemma ExecIsStuck(cfg: Config, s: Sys, s': Sys)
    requires Inv(cfg, s) && StageOf(s.sched) == Plain && s.active.Some?
    ensures !ExecStep(cfg, s, s')
  {
    hide StoreOk, PinsOk, ExecOk, PinTargetOk, PosOk, CountsOk, ExecStep;
    WaitedIsStuck(cfg, s, s');
  }

  lemma DioKeepsView(cfg: Config, free: seq<nat>, s: Sys, s': Sys)
    requires FreeOk(cfg, free, s.store.loads) && DioStep(s, s')
    ensures SameView(s, s') && FreeOk(cfg, free, s'.store.loads)
  {
  }

  /** Where no settle is half done, the other threads leave the scheduler's fields alone. */
  lemma ForeignKeepsView(cfg: Config, free: seq<nat>, s: Sys, s': Sys)
    requires Inv(cfg, s) && StageOf(s.sched) == Plain && FreeOk(cfg, free, s.store.loads) && Foreign(cfg, s, s')
    ensures SameView(s, s') && FreeOk(cfg, free, s'.store.loads)
  {
    hide Inv, ExecStep, DioStep, FreeOk;
    if ExecStep(cfg, s, s') {
      if s.active.Some? { ExecIsStuck(cfg, s, s'); }
      ExecTouches(cfg, s, s');
    } else if DioStep(s, s') {
      DioKeepsView(cfg, free, s, s');
    }
  }

  /** A request in the queue is the one exec waits for, and nothing is granted for it yet. */
  lemma QueuedRequest(cfg: Config, s: Sys)
    requires Inv(cfg, s) && s.active.None? && s.queue != []
    ensures s.pins.granted == [] && s.await == Await(0, false, s.queue[0].target)
    ensures s.queue[0].target == |s.queue[0].needed| > 0
    ensures s.queue[0].layer < cfg.nLayers && forall e :: e in s.queue[0].needed ==> e < cfg.nExperts
  {
    hide StoreOk, PinsOk, PinTargetOk, PosOk, Covers;
  }

  // ---- the triage of a new request -------------------------------------------------------

  /** The triage pins the expert: its first READY copy can be pinned. */
  predicate PinsNow(dir: Directory, slots: seq<Slot>, nPools: nat, ex: Expert) {
    var found := ScanPools(dir, nPools, ex, 0);
    && found.Some?
    && dir[Place(ex, found.value)].slot < |slots| && slots[dir[Place(ex, found.value)].slot].Pinnable()
  }

  /** The experts the triage of a request pins. */
  function Hits(dir: Directory, slots: seq<Slot>, nPools: nat, layer: nat, needed: set<nat>): set<nat> {
    set e | e in needed && PinsNow(dir, slots, nPools, Expert(layer, e))
  }

  /** Slot v holds the READY copy of one of the experts. */
  ghost predicate Houses(dir: Directory, layer: nat, ids: set<nat>, v: nat) {
    exists p :: p in dir && dir[p] == Entry(Resident, v) && p.ex.layer == layer && p.ex.id in ids
  }

  /** Each slot with the copy of one of the experts has one pin more, the others are as before. */
  ghost predicate Repinned(dir: Directory, before: seq<Slot>, after: seq<Slot>, layer: nat, ids: set<nat>) {
    && |after| == |before|
    && forall v :: 0 <= v < |after| ==>
         after[v] == if Houses(dir, layer, ids, v) then before[v].(ref := before[v].ref + 1) else before[v]
  }

  /** Earlier pins of the triage do not change what it does with expert e. */
  lemma TriageOn(dir: Directory, before: seq<Slot>, after: seq<Slot>, nPools: nat, layer: nat, ids: set<nat>, e: nat)
    requires DirUnique(dir) && Repinned(dir, before, after, layer, ids) && e !in ids
    ensures PinsNow(dir, after, nPools, Expert(layer, e)) == PinsNow(dir, before, nPools, Expert(layer, e))
    ensures PinsNow(dir, before, nPools, Expert(layer, e)) ==>
              var v := dir[Place(Expert(layer, e), ScanPools(dir, nPools, Expert(layer, e), 0).value)].slot;
              Repinned(dir, before, after[v := after[v].(ref := after[v].ref + 1)], layer, ids + {e})
  {
    var ex := Expert(layer, e);
    var found := ScanPools(dir, nPools, ex, 0);
    if found.Some? {
      var p := Place(ex, found.value);
      var v := dir[p].slot;
      assert !Houses(dir, layer, ids, v);
      if v < |before| && PinsNow(dir, before, nPools, ex) {
        forall w | 0 <= w < |after| ensures Houses(dir, layer, ids + {e}, w) <==> w == v || Houses(dir, layer, ids, w) {
          if w == v {
            assert dir[p] == Entry(Resident, w);
          } else if Houses(dir, layer, ids + {e}, w) {
            var q :| q in dir && dir[q] == Entry(Resident, w) && q.ex.layer == layer && q.ex.id in ids + {e};
            assert q.ex != ex;
          }
        }
      }
    }
  }

  lemma NotBelow(ids: set<nat>, e: nat)
    ensures e !in Below(ids, e)
  {
  }

  lemma TriageBegins(dir: Directory, slots: seq<Slot>, layer: nat, ids: set<nat>)
    ensures Below(ids, 0) == {} && Repinned(dir, slots, slots, layer, {})
  {
  }

  lemma UniqueCells(cfg: Config, s: Sys)
    requires Inv(cfg, s)
    ensures DirUnique(s.store.dir)
  {
    hide PinsOk, HandshakeOk, ExecOk, PinTargetOk, PosOk, DirUnique, DirTyped, DirAgrees, LoadsOk, LoadsUnique,
        MovesOk, MovesUnique, BusyOk;
  }

  /** The hits up to and including expert e. */
  lemma HitCount(needed: set<nat>, hits: set<nat>, e: nat)
    requires hits <= needed
    ensures Below(hits, e + 1) == (if e in hits then Below(hits, e) + {e} else Below(hits, e))
    ensures |Below(hits, e + 1)| == |Below(hits, e)| + (if e in hits then 1 else 0)
    ensures e in needed ==> |Below(hits, e)| < |needed|
  {
    assert Below(hits, e + 1) == (if e in hits then Below(hits, e) + {e} else Below(hits, e));
    if e in needed {
      assert Below(hits, e) <= needed - {e};
      SubsetSize(Below(hits, e), needed - {e});
    }
  }

  /** All hits together. */
  lemma AllHits(needed: set<nat>, hits: set<nat>, n: nat)
    requires hits <= needed && forall e :: e in needed ==> e < n
    ensures Below(hits, n) == hits && (|needed| - |hits| == 0 <==> hits == needed) && |hits| <= |needed|
  {
    assert Below(hits, n) == hits;
    SubsetSize(hits, needed);
    if |needed| == |hits| && hits != needed {
      var x :| x in needed && x !in hits;
      SubsetSize(hits, needed - {x});
    }
  }

  // ---- the choice of a victim ------------------------------------------------------------

  /** What the eviction score of an expert is computed from. */
  datatype Heat = Heat(lastUsed: map<Expert, nat>, token: nat, alpha: real, freq: map<Expert, real>) {

    function LastUsed(ex: Expert): nat {
      if ex in lastUsed then lastUsed[ex] else 0
    }

    function Score(ex: Expert): real {
      var recency := if token > LastUsed(ex) then token - LastUsed(ex) else 0;
      alpha * (1.0 / (1.0 + recency as real)) + (1.0 - alpha) * if ex in freq then freq[ex] else 0.0
    }
  }

  /** A victim of this pass: evictable, and pinned before unless fresh ones are allowed. */
  predicate Usable(cfg: Config, st: Store, r: Region, heat: Heat, allow: bool, vx: Expert) {
    Evictable(cfg, st, r, vx) && (allow || heat.LastUsed(vx) != 0)
  }

  ghost predicate NoneUsable(cfg: Config, st: Store, r: Region, heat: Heat, allow: bool, layer: nat) {
    forall e: nat :: e < cfg.nExperts ==> !Usable(cfg, st, r, heat, allow, Expert(layer, e))
  }

  /** Expert e has the lowest score of the layer's usable experts, and the lowest index among equals. */
  ghost predicate BestOfLayer(cfg: Config, st: Store, r: Region, heat: Heat, allow: bool, layer: nat, e: nat) {
    && e < cfg.nExperts && Usable(cfg, st, r, heat, allow, Expert(layer, e))
    && forall f: nat :: f < cfg.nExperts && Usable(cfg, st, r, heat, allow, Expert(layer, f)) ==>
         heat.Score(Expert(layer, e)) < heat.Score(Expert(layer, f))
         || (heat.Score(Expert(layer, e)) == heat.Score(Expert(layer, f)) && e <= f)
  }

  /** The k-th layer of the ring that starts at position pos and steps downward. */
  function RingAt(layers: seq<nat>, pos: nat, k: nat): nat
    requires pos < |layers| && k < |layers|
  {
    layers[(pos + |layers| - k) % |layers|]
  }

  /** The ring reaches every layer. */
  lemma RingReaches(layers: seq<nat>, pos: nat, i: nat)
    requires pos < |layers| && i < |layers|
    ensures exists k: nat :: k < |layers| && RingAt(layers, pos, k) == layers[i]
  {
    var n := |layers|;
    var k := if i <= pos then pos - i else pos + n - i;
    assert (pos + n - k) % n == i;
    assert RingAt(layers, pos, k) == layers[i];
  }

  ghost predicate NoneInRing(cfg: Config, st: Store, r: Region, heat: Heat, allow: bool, layers: seq<nat>, pos: nat,
                             n: nat)
    requires pos < |layers| && n <= |layers|
  {
    forall k: nat :: k < n ==> NoneUsable(cfg, st, r, heat, allow, RingAt(layers, pos, k))
  }

  /** What alloc_or_evict means by its victim: the best expert of the first layer of the
      ring that has a usable one; fresh ones only when the whole ring has none pinned before. */
  ghost predicate IsVictim(cfg: Config, st: Store, r: Region, heat: Heat, layers: seq<nat>, pos: nat, vx: Expert)
    requires pos < |layers|
  {
    exists allow: bool, k: nat :: VictimAt(cfg, st, r, heat, layers, pos, vx, allow, k)
  }

  ghost predicate VictimAt(cfg: Config, st: Store, r: Region, heat: Heat, layers: seq<nat>, pos: nat, vx: Expert,
                           allow: bool, k: nat)
    requires pos < |layers|
  {
    && k < |layers| && vx.layer == RingAt(layers, pos, k)
    && BestOfLayer(cfg, st, r, heat, allow, vx.layer, vx.id)
    && NoneInRing(cfg, st, r, heat, allow, layers, pos, k)
    && (allow ==> NoneInRing(cfg, st, r, heat, false, layers, pos, |layers|))
  }

  /** After both passes came up empty nothing in the region is evictable. */
  lemma EmptyRing(cfg: Config, st: Store, r: Region, heat: Heat, layers: seq<nat>, pos: nat)
    requires pos < |layers| && NoneInRing(cfg, st, r, heat, true, layers, pos, |layers|)
    requires forall l :: cfg.GroupOf(l) == Some(r.group) ==> l in layers
    requires forall p :: p in st.dir ==> p.ex.id < cfg.nExperts
    ensures forall vx :: !Evictable(cfg, st, r, vx)
  {
    forall vx ensures !Evictable(cfg, st, r, vx) {
      if Evictable(cfg, st, r, vx) {
        var i :| 0 <= i < |layers| && layers[i] == vx.layer;
        RingReaches(layers, pos, i);
        assert Usable(cfg, st, r, heat, true, Expert(vx.layer, vx.id));
      }
    }
  }

  // ---- single steps ------------------------------------------------------------------------------

  lemma NoRegionStep(cfg: Config, s: Sys)
    requires s.sched.Alloc? && GoalRegion(cfg, ActiveLayer(s.active), s.sched.goal).None?
    ensures SchedStep(cfg, s, s.(sched := NoSlot(s.sched.goal)))
  {
  }

  ghost predicate Searching(cfg: Config, s: Sys, r: Region) {
    && s.sched.Alloc? && GoalRegion(cfg, ActiveLayer(s.active), s.sched.goal) == Some(r)
    && r.first + r.count <= |s.store.slots| <= |s.store.bytes|
  }

  lemma FreeSlotStep(cfg: Config, s: Sys, r: Region, v: nat)
    requires Searching(cfg, s, r) && FirstEmpty(s.store.slots, r.first, r.first + r.count) == Some(v)
    ensures SchedStep(cfg, s, ReserveStep(s, s.sched.goal, v))
  {
  }

  lemma NoVictimStep(cfg: Config, s: Sys, r: Region)
    requires Searching(cfg, s, r) && FirstEmpty(s.store.slots, r.first, r.first + r.count).None?
    requires forall vx :: !Evictable(cfg, s.store, r, vx)
    ensures SchedStep(cfg, s, s.(sched := NoSlot(s.sched.goal)))
  {
  }

  lemma VictimStep(cfg: Config, s: Sys, r: Region, vx: Expert)
    requires Searching(cfg, s, r) && FirstEmpty(s.store.slots, r.first, r.first + r.count).None? &&
               Evictable(cfg, s.store, r, vx)
    ensures SchedStep(cfg, s, s.(sched := EvictCas(s.sched.goal, s.store.dir[Place(vx, r.pool)].slot, vx)))
  {
  }

  lemma CasStep(cfg: Config, s: Sys)
    requires s.sched.EvictCas? && s.sched.v < |s.store.slots|
    ensures SchedStep(cfg, s, EvictCasStep(s))
  {
  }

  lemma ClearStep(cfg: Config, s: Sys)
    requires s.sched.EvictClear?
    ensures SchedStep(cfg, s, EvictClearStep(s))
  {
  }

  lemma DrainStep(cfg: Config, s: Sys)
    requires s.sched.EvictDrain? && s.sched.v < |s.store.slots|
    ensures SchedStep(cfg, s, EvictDrainStep(cfg, s))
  {
  }

  lemma ReloadStep(cfg: Config, s: Sys)
    requires s.sched.Reload? && s.sched.v < |s.store.slots| && s.sched.v < |s.store.bytes|
    ensures SchedStep(cfg, s, ReserveStep(s, s.sched.goal, s.sched.v))
  {
  }

  lemma GiveUpStep(cfg: Config, s: Sys)
    requires s.sched.NoSlot?
    ensures SchedStep(cfg, s, NoSlotStep(s))
  {
  }

  lemma MoveStep(cfg: Config, s: Sys)
    requires s.sched.Reserved? && s.sched.goal.ForDemote? && s.sched.v < |s.store.slots| && s.sched.v < |s.store.bytes|
    ensures SchedStep(cfg, s, SubmitMove(s)) && SchedStep(cfg, s, RefuseMove(s))
  {
  }

  lemma SettleSkips(cfg: Config, s: Sys, ex: Expert, pool: nat, v: nat, k: Cont)
    requires s.sched == Settle(ex, pool, v, k) && v < |s.store.slots| && !Wanted(s.active, ex)
    ensures SchedStep(cfg, s, s.(sched := After(k)))
  {
  }

  lemma SettleFails(cfg: Config, s: Sys, ex: Expert, pool: nat, v: nat, k: Cont)
    requires s.sched == Settle(ex, pool, v, k) && v < |s.store.slots| && Wanted(s.active, ex) &&
               !s.store.slots[v].Pinnable()
    ensures SchedStep(cfg, s, s.(sched := FailUnpin(k)))
  {
  }

  lemma SettlePins(cfg: Config, s: Sys, ex: Expert, pool: nat, v: nat, k: Cont)
    requires s.sched == Settle(ex, pool, v, k) && v < |s.store.slots| && Wanted(s.active, ex) &&
               s.store.slots[v].Pinnable()
    ensures SchedStep(cfg, s, GrantPin(s, ex, pool, v, k))
  {
  }

  lemma BumpIsStep(cfg: Config, s: Sys)
    requires s.sched.SettleBump?
    ensures SchedStep(cfg, s, BumpStep(s))
  {
  }

  lemma SettleEndIsStep(cfg: Config, s: Sys)
    requires s.sched.SettleEnd?
    ensures SchedStep(cfg, s, SettleEndStep(s))
  {
  }

  lemma FailUnpinIsStep(cfg: Config, s: Sys)
    requires s.sched.FailUnpin? && (s.pins.granted != [] ==> s.pins.granted[0].slot < |s.store.slots|)
    ensures SchedStep(cfg, s, FailUnpinStep(s))
  {
  }

  lemma FailFlagIsStep(cfg: Config, s: Sys)
    requires s.sched.FailFlag?
    ensures SchedStep(cfg, s, s.(await := s.await.(failed := true), refused := true, sched := FailClear(s.sched.k)))
  {
  }

  lemma FailClearIsStep(cfg: Config, s: Sys)
    requires s.sched.FailClear?
    ensures SchedStep(cfg, s, s.(active := None, sched := After(s.sched.k)))
  {
  }

  lemma AfterTriage(cfg: Config, s: Sys, e: nat)
    requires s.sched == After(KTriage(e))
    ensures SchedStep(cfg, s, s.(sched := if s.active.Some? then Triage(e + 1) else Tick))
  {
  }

  lemma AfterServe(cfg: Config, s: Sys, e: nat, pass: Pass)
    requires s.sched == After(KServe(e, pass))
    ensures SchedStep(cfg, s, s.(sched := if s.active.Some? then Serve(e + 1, pass) else Tick))
  {
  }

  lemma AfterStop(cfg: Config, s: Sys)
    requires s.sched == After(KStop)
    ensures SchedStep(cfg, s, s.(sched := Tick))
  {
  }

  /** Item e of the triage is not wanted, has no READY copy, or cannot be pinned. */
  lemma TriageSkips(cfg: Config, s: Sys)
    requires s.sched.Triage? && s.active.Some? && s.sched.te < cfg.nExperts
    requires s.sched.te in s.active.value.still ==>
               var found := ScanPools(s.store.dir, cfg.nPools, Expert(s.active.value.layer, s.sched.te), 0);
               found.Some? ==> var v := s.store.dir[Place(Expert(s.active.value.layer, s.sched.te), found.value)].slot;
                               v < |s.store.slots| && !s.store.slots[v].Pinnable()
    ensures SchedStep(cfg, s, s.(sched := Triage(s.sched.te + 1)))
  {
  }

  lemma TriagePins(cfg: Config, s: Sys, pool: nat, v: nat)
    requires s.sched.Triage? && s.active.Some? && s.sched.te < cfg.nExperts && s.sched.te in s.active.value.still
    requires ScanPools(s.store.dir, cfg.nPools, Expert(s.active.value.layer, s.sched.te), 0) == Some(pool)
    requires v == s.store.dir[Place(Expert(s.active.value.layer, s.sched.te), pool)].slot < |s.store.slots| &&
               s.store.slots[v].Pinnable()
    ensures SchedStep(cfg, s, GrantPin(s, Expert(s.active.value.layer, s.sched.te), pool, v, KTriage(s.sched.te)))
  {
  }

  lemma TriageEnds(cfg: Config, s: Sys)
    requires s.sched.Triage? && s.active.Some? && s.sched.te >= cfg.nExperts
    ensures SchedStep(cfg, s,
              if s.active.value.nLeft == 0 then s.(active := None, sched := Tick)
                  else s.(sched := Serve(0, Pass(false, false, true))))
  {
  }

  ghost predicate Serving(s: Sys, e: nat, pass: Pass) {
    s.sched == Serve(e, pass) && s.active.Some?
  }

  /** The scheduler turns to item e and it needs serving. */
  ghost predicate Facing(cfg: Config, s: Sys, e: nat, pass: Pass) {
    Serving(s, e, pass) && e < cfg.nExperts && e in s.active.value.still && s.ringFree > 0
  }

  lemma ServeEnds(cfg: Config, s: Sys, e: nat, pass: Pass)
    requires Serving(s, e, pass) && (e >= cfg.nExperts || (e in s.active.value.still && s.ringFree == 0))
    ensures SchedStep(cfg, s, s.(sched := ServeEnd(pass)))
  {
  }

  lemma ServeUnwanted(cfg: Config, s: Sys, e: nat, pass: Pass)
    requires Serving(s, e, pass) && e < cfg.nExperts && e !in s.active.value.still
    ensures SchedStep(cfg, s, s.(sched := Serve(e + 1, pass)))
  {
  }

  lemma ServeBadLayer(cfg: Config, s: Sys, e: nat, pass: Pass)
    requires Facing(cfg, s, e, pass) && cfg.GroupOf(s.active.value.layer).None?
    ensures SchedStep(cfg, s, s.(sched := FailUnpin(KStop)))
  {
  }

  lemma ServeSettles(cfg: Config, s: Sys, e: nat, pass: Pass, pool: nat)
    requires Facing(cfg, s, e, pass) && cfg.GroupOf(s.active.value.layer).Some?
    requires ScanPools(s.store.dir, cfg.nPools, Expert(s.active.value.layer, e), 0) == Some(pool)
    ensures var ex := Expert(s.active.value.layer, e);
            SchedStep(cfg, s, s.(sched := Settle(ex, pool, s.store.dir[Place(ex, pool)].slot, KServe(e, pass))))
  {
  }

  /** The pool in which a slot is looked for first. */
  function FirstPool(cfg: Config, layer: nat): nat {
    match cfg.DevicePool(layer)
    case Some(p) => p
    case None => 0
  }

  lemma ServeAbsentStep(cfg: Config, s: Sys, e: nat, pass: Pass)
    requires Facing(cfg, s, e, pass) && cfg.GroupOf(s.active.value.layer).Some?
    requires ScanPools(s.store.dir, cfg.nPools, Expert(s.active.value.layer, e), 0).None?
    ensures SchedStep(cfg, s,
              s.(sched := if InFlight(s.store.dir, cfg.nPools, Expert(s.active.value.layer, e)) then Serve(e + 1, pass)
                                          else Alloc(ForRequest(e, FirstPool(cfg, s.active.value.layer), pass))))
  {
  }

  lemma SubmitIsStep(cfg: Config, s: Sys, i: nat)
    requires s.sched.Reserved? && s.sched.goal.ForRequest?
    ensures s.ringFree > 0 && i < cfg.ring && i !in s.store.loads ==> SchedStep(cfg, s, SubmitLoad(s, i))
    ensures SchedStep(cfg, s, SubmitNothing(s))
  {
  }

  lemma AcceptIsStep(cfg: Config, s: Sys)
    requires s.sched.Tick? && (s.active.Some? || s.queue != [])
    ensures SchedStep(cfg, s, Accept(s))
  {
  }

  lemma ServeEndIsStep(cfg: Config, s: Sys)
    requires s.sched.ServeEnd?
    ensures SchedStep(cfg, s, s.(sched := Tick))
    ensures MayStall(s) ==> SchedStep(cfg, s, s.(sched := FailUnpin(KStop)))
  {
  }

  lemma DrainMoveIsStep(cfg: Config, s: Sys)
    requires s.sched.Tick? && CanDrainMove(s.store)
    ensures SchedStep(cfg, s, s.(store := DrainMove(s.store), sched := MoveReady(s.store.moves[0])))
  {
  }

  lemma MoveReadyIsStep(cfg: Config, s: Sys)
    requires s.sched.MoveReady?
    ensures SchedStep(cfg, s, Publish(s, s.sched.mv.ex, 0, s.sched.mv.dst, KMove(s.sched.mv.src)))
  {
  }

  lemma AfterMove(cfg: Config, s: Sys, src: nat)
    requires s.sched == After(KMove(src)) && src < |s.store.slots| && src < |s.store.bytes|
    ensures SchedStep(cfg, s, s.(store := Release(s.store, src), sched := Tick))
  {
  }

  lemma DrainLoadIsStep(cfg: Config, s: Sys, i: nat)
    requires s.sched.Tick? && CanDrain(s.store, i)
    ensures var ld := s.store.loads[i];
            SchedStep(cfg, s,
                s.(store := DrainLoad(s.store, i),
                    sched := if ld.status == Arrived then LoadReady(ld) else LoadBad(ld)))
  {
  }

  lemma LoadReadyIsStep(cfg: Config, s: Sys)
    requires s.sched.LoadReady?
    ensures SchedStep(cfg, s, Publish(s, s.sched.ld.ex, s.sched.ld.pool, s.sched.ld.slot, KRing))
  {
  }

  lemma LoadBadIsStep(cfg: Config, s: Sys)
    requires s.sched.LoadBad?
    ensures SchedStep(cfg, s,
              s.(store := s.store.(dir := Clear(s.store.dir, Place(s.sched.ld.ex, s.sched.ld.pool))),
                  sched := LoadBadSet(s.sched.ld)))
  {
  }

  lemma LoadBadSetIsStep(cfg: Config, s: Sys)
    requires s.sched.LoadBadSet?
    ensures SchedStep(cfg, s, s.(sched := if Wanted(s.active, s.sched.ld.ex) then FailUnpin(KRing) else After(KRing)))
  {
  }

  lemma AfterRing(cfg: Config, s: Sys)
    requires s.sched == After(KRing)
    ensures SchedStep(cfg, s, s.(ringFree := s.ringFree + 1, sched := Tick))
  {
  }

  // ---- the scheduler --------------------------------------------------------------------------

  /** Group lists and GroupOf name the same layers. */
  ghost predicate GroupsOk(cfg: Config, layersOf: seq<seq<nat>>) {
    forall layer: nat, g: nat :: cfg.GroupOf(layer) == Some(g) <==> g < |layersOf| && layer in layersOf[g]
  }

  /** Cells name experts and slots that exist. */
  ghost predicate CellsOk(cfg: Config, dir: Directory) {
    forall p :: p in dir ==> p.ex.id < cfg.nExperts && dir[p].slot < cfg.nSlots
  }

  ghost predicate LoadIn(cfg: Config, ld: Load) {
    ld.ex.id < cfg.nExperts && ld.slot < cfg.nSlots
  }

  /** Submitted moves name experts and slots that exist. */
  ghost predicate MovesIn(cfg: Config, moves: seq<Move>) {
    forall i ::
        0 <= i < |moves| ==> moves[i].src < cfg.nSlots && moves[i].dst < cfg.nSlots && moves[i].ex.id < cfg.nExperts
  }

  /** The free ring elements are distinct and carry no load. */
  ghost predicate FreeOk(cfg: Config, free: seq<nat>, loads: map<nat, Load>) {
    && (forall i :: i in loads ==> i < cfg.ring && LoadIn(cfg, loads[i]))
    && (forall i :: 0 <= i < |free| ==> free[i] < cfg.ring && free[i] !in loads)
    && (forall i, j :: 0 <= i < j < |free| ==> free[i] != free[j])
  }

  ghost predicate LedgerOk(cfg: Config, ledger: seq<Handle>) {
    forall i :: 0 <= i < |ledger| ==> ledger[i].slot < cfg.nSlots
  }

  lemma CellsUpdated(cfg: Config, dir: Directory, p: Place, e: Entry)
    requires CellsOk(cfg, dir)
    ensures p.ex.id < cfg.nExperts && e.slot < cfg.nSlots ==> CellsOk(cfg, dir[p := e])
    ensures CellsOk(cfg, Clear(dir, p))
    ensures p in dir ==> p.ex.id < cfg.nExperts && dir[p].slot < cfg.nSlots
  {
  }

  lemma FreeTaken(cfg: Config, free: seq<nat>, loads: map<nat, Load>, ld: Load)
    requires FreeOk(cfg, free, loads) && free != [] && LoadIn(cfg, ld)
    ensures var n := |free| - 1; free[n] < cfg.ring && free[n] !in loads && FreeOk(cfg, free[..n], loads[free[n] := ld])
  {
  }

  function Unloaded(loads: map<nat, Load>, i: nat): map<nat, Load> {
    map j | j in loads && j != i :: loads[j]
  }

  lemma FreeGiven(cfg: Config, free: seq<nat>, loads: map<nat, Load>, i: nat)
    requires FreeOk(cfg, free, loads) && i in loads
    ensures LoadIn(cfg, loads[i]) && FreeOk(cfg, free, Unloaded(loads, i)) &&
              FreeOk(cfg, free + [i], Unloaded(loads, i))
  {
  }

  lemma MovesUpdated(cfg: Config, moves: seq<Move>, m: Move)
    requires MovesIn(cfg, moves)
    ensures m.src < cfg.nSlots && m.dst < cfg.nSlots && m.ex.id < cfg.nExperts ==> MovesIn(cfg, moves + [m])
    ensures moves != [] ==>
              MovesIn(cfg, moves[1..]) && moves[0].src < cfg.nSlots && moves[0].dst < cfg.nSlots &&
                  moves[0].ex.id < cfg.nExperts
  {
  }

  lemma LedgerGrows(cfg: Config, ledger: seq<Handle>, h: Handle)
    requires LedgerOk(cfg, ledger) && h.slot < cfg.nSlots
    ensures LedgerOk(cfg, ledger + [h])
  {
  }

  lemma NoPins(cfg: Config)
    ensures LedgerOk(cfg, [])
  {
  }

  /** The slots after one unpin per handle. */
  function Unpinned(slots: seq<Slot>, hs: seq<Handle>): seq<Slot>
    decreases |hs|
  {
    if hs == [] then slots
    else Unpinned(if hs[0].slot < |slots| then slots[hs[0].slot := slots[hs[0].slot].Unpin()] else slots, hs[1..])
  }

  /** Whatever the scheduler's methods reach keeps the protocol's invariant. */
  lemma {:induction false} TurnKeepsInv(cfg: Config, s: Sys, s': Sys, n: nat)
    requires Inv(cfg, s) && Leads(cfg, s, s', n)
    ensures Inv(cfg, s')
  {
    hide Inv, SchedStep;
    var log :| ChainFromTo(cfg, log, s, s', n);
    ChainKeepsInv(cfg, log, n);
  }

  lemma {:induction false} ChainKeepsInv(cfg: Config, log: seq<Sys>, n: nat)
    requires Chain(cfg, log) && Inv(cfg, log[0]) && n < |log|
    ensures Inv(cfg, log[n])
  {
    hide Inv, SchedStep;
    if n > 0 {
      ChainKeepsInv(cfg, log, n - 1);
      assert SchedStep(cfg, log[n - 1], log[n - 1 + 1]);
      NextPreserves(cfg, log[n - 1], log[n]);
    }
  }

  /** In a RAM-only system, before any failure and for a call entered without a pin,
      alloc_or_evict never returns -1 and no pass ends in a failed request. */
  lemma TurnNeverStalls(cfg: Config, tr: seq<Sys>, s': Sys, n: nat)
    requires RamOnly(cfg) && Run(cfg, tr) && Leads(cfg, tr[|tr| - 1], s', n) && s'.clean && !s'.refused &&
               Alone(cfg, s')
    ensures !s'.sched.NoSlot? && !RequestFails(s')
  {
    hide RamOnly, Leads, Next, Init, Alone, RequestFails;
    var longer := LeadsContinuesRun(cfg, tr, s', n);
    NoCapacityStall(cfg, longer, |longer| - 1);
  }

  lemma InBounds(cfg: Config, r: Region)
    requires cfg.Valid() && r in cfg.regions
    ensures r.first + r.count <= cfg.nSlots
  {
  }

  /** Position of a layer in its group's list. */
  method PositionOf(layers: seq<nat>, layer: nat) returns (pos: nat)
    requires layer in layers
    ensures pos < |layers| && layers[pos] == layer && layer !in layers[..pos]
  {
    pos := 0;
    while layers[pos] != layer
      invariant pos < |layers| && layer !in layers[..pos]
      decreases |layers| - pos
    {
      assert layers[..pos + 1] == layers[..pos] + [layers[pos]];
      assert layers[..|layers|] == layers;
      pos := pos + 1;
    }
  }
}
