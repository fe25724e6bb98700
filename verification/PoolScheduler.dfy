/** The scheduler thread's own methods, as updates of its fields, and the proof
    that each of them runs the protocol: a history variable holds the protocol
    state the fields are part of, and every update of it is a scheduler step. */
module PoolScheduler {
  import opened Basics
  import opened PoolState
  import opened PoolSteps
  import opened PoolInvariant
  import opened PoolTheorems
  import opened PoolTurns

  class Scheduler {
    const cfg: Config
    /** The layers of each expert group. */
    const layersOf: seq<seq<nat>>
    const slots: array<Slot>
    var dir: Directory
    /** Submitted moves. */
    var moves: seq<Move>
    var active: Option<Active>
    /** active_pinned_slots_. */
    var ledger: seq<Handle>
    /** The waiting caller's counter and failure flag. */
    var await: Await
    /** load_free_. */
    var loadFree: seq<nat>
    var heat: Heat
    /** The protocol state these fields are part of; the run up to the turn's first state;
        that state, and how many of the turn's steps led from there to now. */
    ghost var now: Sys
    ghost var run: seq<Sys>
    ghost var from: Sys
    ghost var steps: nat

    ghost predicate Valid()
      reads this, slots
    {
      && Sized() && Ties()
      && Reached(cfg, run, from) && Leads(cfg, from, now, steps)
    }

    ghost predicate Sized()
      reads this
    {
      && cfg.Valid() && GroupsOk(cfg, layersOf) && slots.Length == cfg.nSlots == |now.store.bytes|
      && CellsOk(cfg, dir) && MovesIn(cfg, moves) && FreeOk(cfg, loadFree, now.store.loads) && LedgerOk(cfg, ledger)
    }

    /** init: every slot EMPTY, every ring element free, and the protocol in its first state. */
    constructor (cfg: Config, layersOf: seq<seq<nat>>)
      requires cfg.Valid() && GroupsOk(cfg, layersOf)
      ensures Valid() && this.cfg == cfg && this.layersOf == layersOf
      ensures Init(cfg, now) && run == [now] && from == now && steps == 0
      ensures active.None? && dir == map[] && fresh(slots)
    {
      this.cfg, this.layersOf := cfg, layersOf;
      slots := new Slot[cfg.nSlots](_ => Slot(Empty, 0, 0));
      dir, moves, active, ledger, await, heat := map[], [], None, [], Await(0, false, 0), Heat(map[], 0, 0.0, map[]);
      loadFree := seq(cfg.ring, i => i);
      new;
      hide *;
      now := FirstState(cfg);
      run, from, steps := [now], now, 0;
      LeadsNowhere(cfg, now);
      Beginning(cfg, loadFree);
      AtFirst();
    }

    /** Freshly made fields are those of the first state. */
    lemma AtFirst()
      requires cfg.Valid() && GroupsOk(cfg, layersOf) && slots.Length == cfg.nSlots && now == FirstState(cfg)
      requires forall v :: 0 <= v < cfg.nSlots ==> slots[v] == Slot(Empty, 0, 0)
      requires dir == map[] && moves == [] && active == None && ledger == [] && await == Await(0, false, 0) &&
                 |loadFree| == cfg.ring
      requires CellsOk(cfg, dir) && MovesIn(cfg, moves) && FreeOk(cfg, loadFree, map[]) && LedgerOk(cfg, ledger)
      requires Reached(cfg, run, from) && Leads(cfg, from, now, steps)
      ensures Valid()
    {
      hide Init, Leads, Reached, GroupsOk, FreeOk, CellsOk, MovesIn, LedgerOk;
      assert now.store.slots == slots[..];
    }

    /** The fields are parts of the protocol state. */
    ghost predicate Ties()
      reads this, slots
    {
      && now.store.slots == slots[..] && now.store.dir == dir && now.store.moves == moves
      && now.active == active && now.await == await && now.ringFree == |loadFree|
      && (if active.Some? then ledger == now.pins.granted else ledger == [])
    }

    /** One protocol step. */
    ghost method Take(s': Sys)
      requires Leads(cfg, from, now, steps) && SchedStep(cfg, now, s') && (steps == 0 || !now.sched.Tick?)
      modifies this`now, this`steps
      ensures Leads(cfg, from, now, steps) && now == s' && steps == old(steps) + 1
    {
      LeadsOn(cfg, from, now, steps, s');
      now, steps := s', steps + 1;
    }

    /** A step that only moves the scheduler's position. */
    ghost method Goto(at: Sched)
      requires Valid() && SchedStep(cfg, now, now.(sched := at)) && (steps == 0 || !now.sched.Tick?)
      modifies this`now, this`steps
      ensures Valid() && now == old(now).(sched := at) && steps == old(steps) + 1
    {
      hide Leads, Reached, SchedStep, GroupsOk, FreeOk, LedgerOk, CellsOk, MovesIn;
      Take(now.(sched := at));
    }

    lemma Agree()
      requires Valid()
      ensures now.active == active && now.await == await && now.ringFree == |loadFree| && now.store.dir == dir
      ensures now.store.slots == slots[..] && slots.Length == cfg.nSlots
    {
    }

    /** A directory cell names a slot. */
    lemma CellSlot(p: Place)
      requires Valid() && p in dir
      ensures dir[p].slot < slots.Length
    {
      hide Leads, Reached, GroupsOk, FreeOk, LedgerOk;
    }

    /** The turns taken and the steps of the other threads in between are one run of the
        protocol, so whatever holds of every run holds of the state the fields are part of. */
    lemma WholeRun() returns (tr: seq<Sys>)
      requires Valid()
      ensures Reached(cfg, tr, now) && run <= tr && |tr| == |run| + steps && Inv(cfg, now)
    {
      hide Leads, Inv, Init, Next;
      tr := LeadsContinuesRun(cfg, run, now, steps);
      RunInv(cfg, tr, |tr| - 1);
    }

    /** A new turn starts where the last one ended. */
    ghost method NewTurn()
      requires Valid()
      modifies this`run, this`from, this`steps
      ensures Valid() && from == now && steps == 0
      ensures old(run) <= run && |run| == old(|run| + steps)
    {
      hide Leads, Inv, Reached, GroupsOk, CellsOk, FreeOk, LedgerOk, MovesIn;
      run := WholeRun();
      from, steps := now, 0;
      LeadsNowhere(cfg, now);
    }

    /** Another thread takes a step: exec pins, unpins, asks or collects, the DIO engine
        finishes a load, the worker copies. The scheduler sees the slot words and the
        waiting caller's counter it finds afterwards. */
    method OtherThread(after: seq<Slot>, a: Await, ghost s': Sys)
      requires Valid() && StageOf(now.sched) == Plain && Foreign(cfg, now, s')
      requires after == s'.store.slots && a == s'.await
      modifies this`await, this`now, this`run, this`from, this`steps, slots
      ensures Valid() && now == s' && from == s' && steps == 0
      ensures old(run) <= run && |run| == old(|run| + steps) + 1
    {
      hide Leads, Inv, Reached, Foreign, GroupsOk, CellsOk, FreeOk, LedgerOk, MovesIn;
      ghost var tr := WholeRun();
      ForeignKeepsView(cfg, loadFree, now, s');
      RunGoesOn(cfg, tr, now, s');
      forall i | 0 <= i < slots.Length { slots[i] := after[i]; }
      await := a;
      run, now, from, steps := tr + [s'], s', s', 0;
      LeadsNowhere(cfg, now);
    }

    /** First EMPTY slot of the region. */
    method FindFree(lo: nat, hi: nat) returns (v: int)
      requires lo <= hi <= slots.Length
      ensures var found := FirstEmpty(slots[..], lo, hi); v == if found.Some? then found.value else -1
    {
      v := lo;
      while v < hi
        invariant lo <= v <= hi && FirstEmpty(slots[..], lo, hi) == FirstEmpty(slots[..], v, hi)
      {
        if slots[v].st == Empty { return; }
        v := v + 1;
      }
      v := -1;
    }

    /** One layer of the victim scan. */
    method BestInLayer(r: Region, layer: nat, allow: bool) returns (cand: int)
      requires Ties() && cfg.GroupOf(layer) == Some(r.group)
      ensures if cand < 0 then NoneUsable(cfg, now.store, r, heat, allow, layer)
              else BestOfLayer(cfg, now.store, r, heat, allow, layer, cand)
    {
      cand := -1;
      for e := 0 to cfg.nExperts
        invariant cand < e
        invariant cand < 0 ==> forall f: nat :: f < e ==> !Usable(cfg, now.store, r, heat, allow, Expert(layer, f))
        invariant cand >= 0 ==> Usable(cfg, now.store, r, heat, allow, Expert(layer, cand))
        invariant cand >= 0 ==> forall f: nat :: f < e && Usable(cfg, now.store, r, heat, allow, Expert(layer, f)) ==>
                    heat.Score(Expert(layer, cand)) < heat.Score(Expert(layer, f))
                    || (heat.Score(Expert(layer, cand)) == heat.Score(Expert(layer, f)) && cand <= f)
      {
        var ex := Expert(layer, e);
        var p := Place(ex, r.pool);
        if p !in dir || dir[p].st != Resident || !r.Has(dir[p].slot) || dir[p].slot >= slots.Length { continue; }
        var w := slots[dir[p].slot];
        if w.st != Ready || w.ref != 0 { continue; }
        if !allow && heat.LastUsed(ex) == 0 { continue; }
        assert Usable(cfg, now.store, r, heat, allow, ex);
        if cand < 0 || heat.Score(ex) < heat.Score(Expert(layer, cand)) { cand := e; }
      }
    }

    /** One pass around the ring. */
    method ScanRing(r: Region, layers: seq<nat>, pos: nat, allow: bool) returns (found: Option<Expert>, ghost at: nat)
      requires Ties() && pos < |layers| && forall l :: l in layers ==> cfg.GroupOf(l) == Some(r.group)
      ensures found.None? ==> NoneInRing(cfg, now.store, r, heat, allow, layers, pos, |layers|)
      ensures found.Some? ==> at < |layers| && found.value.layer == RingAt(layers, pos, at)
                              && BestOfLayer(cfg, now.store, r, heat, allow, found.value.layer, found.value.id)
                              && NoneInRing(cfg, now.store, r, heat, allow, layers, pos, at)
    {
      hide NoneUsable, BestOfLayer;
      found, at := None, 0;
      for k := 0 to |layers|
        invariant NoneInRing(cfg, now.store, r, heat, allow, layers, pos, k)
      {
        var layer := RingAt(layers, pos, k);
        var cand := BestInLayer(r, layer, allow);
        if cand >= 0 { return Some(Expert(layer, cand)), k; }
      }
    }

    /** The two passes of the victim search. */
    method FindVictim(r: Region, layers: seq<nat>, pos: nat) returns (victim: Option<Expert>)
      requires Ties() && CellsOk(cfg, dir) && pos < |layers| &&
                 forall l :: l in layers <==> cfg.GroupOf(l) == Some(r.group)
      ensures victim.Some? ==> IsVictim(cfg, now.store, r, heat, layers, pos, victim.value)
      ensures victim.Some? <==> exists vx :: Evictable(cfg, now.store, r, vx)
      ensures victim.Some? ==> Evictable(cfg, now.store, r, victim.value)
    {
      hide Evictable;
      ghost var at;
      victim, at := ScanRing(r, layers, pos, false);
      if victim.Some? {
        assert VictimAt(cfg, now.store, r, heat, layers, pos, victim.value, false, at);
        assert Usable(cfg, now.store, r, heat, false, victim.value);
        return;
      }
      victim, at := ScanRing(r, layers, pos, true);
      if victim.Some? {
        assert VictimAt(cfg, now.store, r, heat, layers, pos, victim.value, true, at);
        assert Usable(cfg, now.store, r, heat, true, victim.value);
      } else {
        EmptyRing(cfg, now.store, r, heat, layers, pos);
      }
    }

    /** The victim search from the layer's own position in its group's ring. */
    method Victim(r: Region, layer: nat) returns (victim: Option<Expert>)
      requires Valid() && cfg.GroupOf(layer) == Some(r.group)
      ensures victim.Some? ==> exists pos :: 0 <= pos < |layersOf[r.group]| && layersOf[r.group][pos] == layer
                                 && IsVictim(cfg, now.store, r, heat, layersOf[r.group], pos, victim.value)
      ensures victim.Some? <==> exists vx :: Evictable(cfg, now.store, r, vx)
      ensures victim.Some? ==> Evictable(cfg, now.store, r, victim.value)
    {
      hide Evictable, IsVictim, Leads, Reached, FreeOk, LedgerOk;
      var layers := layersOf[r.group];
      var pos := PositionOf(layers, layer);
      victim := FindVictim(r, layers, pos);
    }

    /** The protocol state differs from an earlier one only in the store, the
        scheduler's position and the history flag. */
    ghost predicate SameElse(before: Sys)
      reads this`now, this`steps
    {
      now == before.(store := now.store, sched := now.sched, clean := now.clean)
    }

    /** Gives slot v to a directory cell: LOADING and a new generation. */
    method Reserve(ex: Expert, pool: nat, v: nat, ghost g: Goal)
      requires Valid() && v < slots.Length && ex.id < cfg.nExperts &&
                 GoalPlace(ActiveLayer(now.active), g) == Place(ex, pool)
      requires !now.sched.Tick? && SchedStep(cfg, now, ReserveStep(now, g, v))
      modifies this`dir, this`now, this`steps, slots
      ensures Valid() && steps > old(steps) && now == ReserveStep(old(now), g, v)
      ensures Place(ex, pool) in dir && dir[Place(ex, pool)] == Entry(Loading, v)
    {
      hide SchedStep, Leads, Reached, GroupsOk, CellsOk, FreeOk, LedgerOk, MovesIn;
      CellsUpdated(cfg, dir, Place(ex, pool), Entry(Loading, v));
      dir := dir[Place(ex, pool) := Entry(Loading, v)];
      slots[v] := slots[v].BeginReload();
      Take(ReserveStep(now, g, v));
    }

    /** begin_evict: the slot admits no further pins. */
    method BeginEvict(v: nat, ghost vx: Expert, ghost g: Goal)
      requires Valid() && v < slots.Length && now.sched == EvictCas(g, v, vx) && slots[v].st == Ready
      modifies this`now, this`steps, slots
      ensures Valid() && steps > old(steps) && SameElse(old(now)) && now.store.loads == old(now).store.loads
      ensures now.sched == EvictClear(g, v, vx) && slots[v].ref == old(slots[v].ref)
    {
      hide Leads, Reached, SchedStep, GroupsOk, CellsOk, FreeOk, LedgerOk, MovesIn;
      CasStep(cfg, now);
      slots[v] := slots[v].(st := PoolState.Evicting);
      Take(EvictCasStep(now));
    }

    /** The victim's cell becomes ABSENT. */
    method Unlist(p: Place, ghost v: nat, ghost g: Goal)
      requires Valid() && now.sched == EvictClear(g, v, p.ex) && GoalPlace(ActiveLayer(now.active), g).pool == p.pool
      modifies this`dir, this`now, this`steps
      ensures Valid() && steps > old(steps) && SameElse(old(now)) && now.store.loads == old(now).store.loads
      ensures now.sched == EvictDrain(g, v, p.ex) && dir == Clear(old(dir), p)
    {
      hide Leads, Reached, SchedStep, GroupsOk, CellsOk, FreeOk, LedgerOk, MovesIn;
      ClearStep(cfg, now);
      CellsUpdated(cfg, dir, p, Entry(Resident, 0));
      dir := Clear(dir, p);
      Take(EvictClearStep(now));
    }

    lemma CellExpert(p: Place)
      requires Valid() && p in dir
      ensures p.ex.id < cfg.nExperts
    {
      hide Leads, Reached, GroupsOk, FreeOk, LedgerOk;
    }

    /** begin_evict and the clearing of the victim's cell. The refcount is zero, so
        the wait for it to drain is over at once. */
    method Detach(r: Region, vx: Expert, ghost g: Goal) returns (v: nat)
      requires Valid() && now.sched == Alloc(g) && Evictable(cfg, now.store, r, vx) && Searching(cfg, now, r)
      requires FirstEmpty(slots[..], r.first, r.first + r.count).None?
      modifies this`dir, this`now, this`steps, slots
      ensures Valid() && steps > old(steps) && SameElse(old(now)) && now.store.loads == old(now).store.loads
      ensures v < slots.Length && now.sched == EvictDrain(g, v, vx) && slots[v].ref == 0 && vx.id < cfg.nExperts
    {
      hide Valid, Leads, Reached, SchedStep, FirstEmpty;
      Agree();
      var p := Place(vx, r.pool);
      v := dir[p].slot;
      CellExpert(p);
      VictimStep(cfg, now, r, vx);
      Goto(EvictCas(g, v, vx));
      BeginEvict(v, vx, g);
      Unlist(p, v, g);
    }

    /** Whether submit_move accepts the copy. */
    method Accepts() returns (ok: bool) {
      ok := *;
    }

    /** Demotes a detached device victim. True if its slot is being copied away;
        false if the copy is dropped and the slot may be reloaded at once. */
    method Demote(vx: Expert, v: nat, dst: int, ghost g: Goal) returns (moving: bool)
      requires Valid() && g.ForRequest? && v < slots.Length && vx.id < cfg.nExperts && -1 <= dst < slots.Length
      requires now.sched == if dst >= 0 then Reserved(ForDemote(g.e, g.pool, g.pass, v, vx), dst)
                            else NoSlot(ForDemote(g.e, g.pool, g.pass, v, vx))
      modifies this`dir, this`moves, this`now, this`steps, slots
      ensures Valid() && steps > old(steps) && SameElse(old(now)) && now.store.loads == old(now).store.loads
      ensures now.sched == if moving then NoSlot(g) else Reload(g, v)
    {
      hide Leads, Reached, SchedStep, GroupsOk, CellsOk, FreeOk, MovesIn, LedgerOk;
      if dst < 0 {
        GiveUpStep(cfg, now);
        Goto(Reload(g, v));
        return false;
      }
      MoveStep(cfg, now);
      CellsUpdated(cfg, dir, Place(vx, 0), Entry(MovingIn, dst));
      MovesUpdated(cfg, moves, Move(vx, v, dst));
      moving := Accepts();
      if moving {
        moves := moves + [Move(vx, v, dst)];
        dir := dir[Place(vx, 0) := Entry(MovingIn, dst)];
        Take(SubmitMove(now));
      } else {
        dir := Clear(dir, Place(vx, 0));
        slots[dst] := slots[dst].ReleaseToEmpty();
        Take(RefuseMove(now));
      }
    }

    /** A detached device victim is copied to the group's RAM region, if there is room. */
    method Drain(pool: nat, r: Region, vx: Expert, v: nat, ghost g: Goal) returns (moving: bool)
      requires Valid() && now.sched == EvictDrain(g, v, vx) && v < slots.Length && slots[v].ref == 0 &&
                 vx.id < cfg.nExperts
      requires GoalPlace(ActiveLayer(now.active), g).pool == pool &&
                 GoalRegion(cfg, ActiveLayer(now.active), g) == Some(r)
      modifies this`dir, this`moves, this`now, this`steps, slots
      ensures Valid() && steps > old(steps) && SameElse(old(now)) && now.store.loads == old(now).store.loads
      ensures now.sched == if moving then NoSlot(g) else Reload(g, v)
      decreases pool, 0
    {
      hide Leads, Reached, SchedStep, GoalRegion, GroupsOk, CellsOk, FreeOk, LedgerOk, MovesIn;
      DrainStep(cfg, now);
      Take(EvictDrainStep(cfg, now));
      var ram := cfg.FindRegion(0, r.group, 0);
      moving := false;
      if pool != 0 && ram.Some? && ram.value.geometry == r.geometry {
        var dst := AllocOrEvict(vx, 0, ForDemote(g.e, g.pool, g.pass, v, vx));
        moving := Demote(vx, v, dst, g);
      }
    }

    /** Steps 3 and 4 of alloc_or_evict: evict, demote a device victim, reuse the slot. */
    method EvictFor(ex: Expert, pool: nat, r: Region, vx: Expert, ghost g: Goal) returns (slot: int)
      requires Valid() && now.sched == Alloc(g) && GoalPlace(ActiveLayer(now.active), g) == Place(ex, pool) &&
                 ex.id < cfg.nExperts
      requires Searching(cfg, now, r) && FirstEmpty(slots[..], r.first, r.first + r.count).None? &&
                 Evictable(cfg, now.store, r, vx)
      modifies this`dir, this`moves, this`now, this`steps, slots
      ensures Valid() && steps > old(steps) && SameElse(old(now)) && now.store.loads == old(now).store.loads &&
                -1 <= slot < slots.Length
      ensures now.sched == if slot >= 0 then Reserved(g, slot) else NoSlot(g)
      ensures slot >= 0 ==> Place(ex, pool) in dir && dir[Place(ex, pool)] == Entry(Loading, slot)
      decreases pool, 1
    {
      hide Leads, Reached, SchedStep, FirstEmpty, Evictable, EvictDrainStep, GroupsOk, CellsOk, FreeOk, LedgerOk,
          MovesIn;
      var v := Detach(r, vx, g);
      var moving := Drain(pool, r, vx, v, g);
      if moving { return -1; }
      ReloadStep(cfg, now);
      Reserve(ex, pool, v, g);
      slot := v;
    }

    /** alloc_or_evict: a slot reserved for the expert, or -1. Protocol steps lead
        there, and nothing but the store has changed. */
    method AllocOrEvict(ex: Expert, pool: nat, ghost g: Goal) returns (slot: int)
      requires Valid() && now.sched == Alloc(g) && GoalPlace(ActiveLayer(now.active), g) == Place(ex, pool) &&
                 ex.id < cfg.nExperts
      modifies this`dir, this`moves, this`now, this`steps, slots
      ensures Valid() && steps > old(steps) && SameElse(old(now)) && now.store.loads == old(now).store.loads &&
                -1 <= slot < slots.Length
      ensures now.sched == if slot >= 0 then Reserved(g, slot) else NoSlot(g)
      ensures slot >= 0 ==> Place(ex, pool) in dir && dir[Place(ex, pool)] == Entry(Loading, slot)
      decreases pool, 2
    {
      hide Leads, Reached, SchedStep, FirstEmpty, Evictable, IsVictim, GroupsOk, CellsOk, FreeOk, LedgerOk, MovesIn;
      var region := cfg.Home(ex.layer, pool);
      if region.None? {
        NoRegionStep(cfg, now);
        Take(now.(sched := NoSlot(g)));
        return -1;
      }
      var r := region.value;
      InBounds(cfg, r);
      var free := FindFree(r.first, r.first + r.count);
      if free >= 0 {
        FreeSlotStep(cfg, now, r, free);
        Reserve(ex, pool, free, g);
        return free;
      }
      var victim := Victim(r, ex.layer);
      if victim.Some? {
        slot := EvictFor(ex, pool, r, victim.value, g);
      } else {
        NoVictimStep(cfg, now, r);
        Take(now.(sched := NoSlot(g)));
        slot := -1;
      }
    }

    /** Every pin of the ledger is released. */
    method ReleaseLedger(ghost k: Cont)
      requires Valid() && now.sched == FailUnpin(k) && active.Some?
      modifies this`ledger, this`now, this`steps, slots
      ensures Valid() && steps > old(steps) && now.sched == FailFlag(k)
      ensures slots[..] == Unpinned(old(slots[..]), old(ledger)) && ledger == [] &&
                now.store.loads == old(now).store.loads
    {
      hide Leads, Reached, SchedStep, GroupsOk, CellsOk, FreeOk, MovesIn;
      while ledger != []
        invariant Valid() && steps >= old(steps) && now.sched == FailUnpin(k)
        invariant Unpinned(slots[..], ledger) == Unpinned(old(slots[..]), old(ledger)) &&
                    now.store.loads == old(now).store.loads
        decreases |ledger|
      {
        FailUnpinIsStep(cfg, now);
        slots[ledger[0].slot] := slots[ledger[0].slot].Unpin();
        ledger := ledger[1..];
        Take(FailUnpinStep(now));
      }
      FailUnpinIsStep(cfg, now);
      Take(FailUnpinStep(now));
    }

    /** active_fail: every pin of the ledger is released, the caller sees the failure,
        the request is gone. */
    method ActiveFail(ghost k: Cont)
      requires Valid() && now.sched == FailUnpin(k) && active.Some?
      modifies this`active, this`ledger, this`await, this`now, this`steps, slots
      ensures Valid() && steps > old(steps) && now.sched == After(k) && active.None? &&
                await == old(await).(failed := true)
      ensures slots[..] == Unpinned(old(slots[..]), old(ledger)) && ledger == [] &&
                now.store.loads == old(now).store.loads
    {
      hide Leads, Reached, SchedStep, GroupsOk, CellsOk, FreeOk, MovesIn, LedgerOk, Unpinned;
      ReleaseLedger(k);
      FailFlagIsStep(cfg, now);
      await := await.(failed := true);
      Take(now.(await := await, refused := true, sched := FailClear(k)));
      FailClearIsStep(cfg, now);
      active := None;
      Take(now.(active := None, sched := After(k)));
    }

    /** One pin for the waiting caller: refcount, bit, ledger and n_left. */
    method Pin(ex: Expert, v: nat, pool: nat, ghost k: Cont) returns (underflow: bool)
      requires Valid() && v < slots.Length && Wanted(active, ex) && !now.sched.Tick? &&
                 SchedStep(cfg, now, GrantPin(now, ex, pool, v, k))
      modifies this`active, this`ledger, this`now, this`steps, slots
      ensures Valid() && steps > old(steps) && underflow == (old(active).value.nLeft == 0)
      ensures now.sched == (if underflow then FailUnpin(k) else SettleBump(k)) &&
                now.store.loads == old(now).store.loads
      ensures slots[..] == old(slots[..])[v := old(slots[v]).(ref := old(slots[v]).ref + 1)]
      ensures active == Some(old(active).value.(still := old(active).value.still - {ex.id},
                                                nLeft := if underflow then 0 else old(active).value.nLeft - 1))
    {
      hide Leads, Reached, SchedStep, GroupsOk, CellsOk, FreeOk, LedgerOk, MovesIn;
      var a := active.value;
      underflow := a.nLeft == 0;
      LedgerGrows(cfg, ledger, Handle(v, slots[v].gen, ex, pool));
      ledger := ledger + [Handle(v, slots[v].gen, ex, pool)];
      slots[v] := slots[v].(ref := slots[v].ref + 1);
      active := Some(a.(still := a.still - {ex.id}, nLeft := if underflow then 0 else a.nLeft - 1));
      Take(GrantPin(now, ex, pool, v, k));
    }

    /** The end of a settle; finish also ends the request if nothing is left. */
    method FinishIfDone(finish: bool, ghost k: Cont)
      requires Valid() && now.sched == SettleEnd(k) && active.Some? && finish == !k.KTriage?
      modifies this`active, this`ledger, this`now, this`steps
      ensures Valid() && steps > old(steps) && now.sched == After(k) && now.store == old(now).store
      ensures active == if finish && old(active).value.nLeft == 0 then None else old(active)
    {
      hide Leads, Reached, SchedStep, GroupsOk, CellsOk, FreeOk, MovesIn, LedgerOk;
      SettleEndIsStep(cfg, now);
      if finish && active.value.nLeft == 0 {
        active := None;
        ledger := [];
        NoPins(cfg);
      }
      Take(SettleEndStep(now));
    }

    /** The bump of the caller's counter, and the end of the settle. */
    method Count(finish: bool, ghost k: Cont)
      requires Valid() && now.sched == SettleBump(k) && active.Some? && finish == !k.KTriage?
      modifies this`active, this`ledger, this`await, this`now, this`steps
      ensures Valid() && steps > old(steps) && now.sched == After(k) && now.store == old(now).store
      ensures await == old(await).(done := old(await).done + 1)
      ensures active == if finish && old(active).value.nLeft == 0 then None else old(active)
    {
      hide Leads, Reached, SchedStep, GroupsOk, CellsOk, FreeOk, MovesIn, LedgerOk;
      BumpIsStep(cfg, now);
      await := await.(done := await.done + 1);
      Take(BumpStep(now));
      FinishIfDone(finish, k);
    }

    /** active_settle for a READY slot: nothing if the expert is not wanted; a failed
        request if it cannot be pinned; else one pin, one ledger entry, one bit less,
        one count more, and at the last bit the end of the request. */
    method ActiveSettle(ex: Expert, v: nat, pool: nat, ghost k: Cont)
      requires Valid() && now.sched == Settle(ex, pool, v, k) && v < slots.Length && !k.KTriage?
      modifies this`active, this`ledger, this`await, this`now, this`steps, slots
      ensures Valid() && steps > old(steps) && now.sched == After(k) && now.store.loads == old(now).store.loads
      ensures !Wanted(old(active), ex) ==>
                active == old(active) && ledger == old(ledger) && await == old(await) && slots[..] == old(slots[..])
      ensures Wanted(old(active), ex) && (!old(slots[v]).Pinnable() || old(active).value.nLeft == 0) ==>
                active.None? && await.failed
      ensures Wanted(old(active), ex) && old(slots[v]).Pinnable() && old(active).value.nLeft > 0 ==>
                && slots[..] == old(slots[..])[v := old(slots[v]).(ref := old(slots[v]).ref + 1)]
                && await == old(await).(done := old(await).done + 1)
                && active == (if old(active).value.nLeft == 1 then None
                              else Some(old(active).value.(still := old(active).value.still - {ex.id},
                                  nLeft := old(active).value.nLeft - 1)))
    {
      hide Valid, Leads, Reached, SchedStep, GrantPin, Unpinned;
      Agree();
      if !Wanted(active, ex) {
        SettleSkips(cfg, now, ex, pool, v, k);
        Goto(After(k));
        return;
      }
      if !slots[v].Pinnable() {
        SettleFails(cfg, now, ex, pool, v, k);
        Goto(FailUnpin(k));
        ActiveFail(k);
        return;
      }
      SettlePins(cfg, now, ex, pool, v, k);
      var underflow := Pin(ex, v, pool, k);
      if underflow {
        ActiveFail(k);
      } else {
        Count(true, k);
      }
    }

    /** expert_directory.scan. */
    method Scan(ex: Expert) returns (found: Option<nat>)
      ensures found == ScanPools(dir, cfg.nPools, ex, 0)
    {
      var pool := 0;
      while pool < cfg.nPools
        invariant 0 <= pool <= cfg.nPools && ScanPools(dir, cfg.nPools, ex, 0) == ScanPools(dir, cfg.nPools, ex, pool)
      {
        if ResidentIn(dir, ex, pool) { return Some(pool); }
        pool := pool + 1;
      }
      found := None;
    }

    /** The pool loop of accept_requests: is the expert READY, is it in flight anywhere? */
    method PoolStates(ex: Expert) returns (resident: bool, inFlight: bool)
      ensures resident == ScanPools(dir, cfg.nPools, ex, 0).Some? && inFlight == InFlight(dir, cfg.nPools, ex)
    {
      resident, inFlight := false, false;
      for p := 0 to cfg.nPools
        invariant resident <==> exists q :: 0 <= q < p && ResidentIn(dir, ex, q)
        invariant inFlight <==>
                    exists q ::
                        0 <= q < p && Place(ex, q) in dir && dir[Place(ex, q)].st in {Loading, MovingIn, MovingOut}
      {
        assert ResidentIn(dir, ex, p) <==> Place(ex, p) in dir && dir[Place(ex, p)].st == Resident;
        if Place(ex, p) in dir {
          if dir[Place(ex, p)].st == Resident { resident := true; }
          else if dir[Place(ex, p)].st in {Loading, MovingIn, MovingOut} { inFlight := true; }
        }
      }
    }

    /** One item of the triage of active_register. */
    method TriageItem(e: nat)
      requires Valid() && now.sched == Triage(e) && active.Some? && e < cfg.nExperts
      requires e in active.value.still ==> active.value.nLeft > 0
      modifies this`active, this`ledger, this`await, this`now, this`steps, slots
      ensures Valid() && steps > old(steps) && now.sched == Triage(e + 1) && active.Some?
      ensures var a := old(active).value;
              var ex := Expert(a.layer, e);
              if e in a.still && PinsNow(dir, old(slots[..]), cfg.nPools, ex) then
                var v := dir[Place(ex, ScanPools(dir, cfg.nPools, ex, 0).value)].slot;
                && slots[..] == old(slots[..])[v := old(slots[..])[v].(ref := old(slots[..])[v].ref + 1)]
                && await == old(await).(done := old(await).done + 1)
                && active.value == a.(still := a.still - {e}, nLeft := a.nLeft - 1)
              else slots[..] == old(slots[..]) && await == old(await) && active.value == a
    {
      hide Valid, Leads, Reached, SchedStep, GrantPin;
      Agree();
      var ex := Expert(active.value.layer, e);
      var found := Scan(ex);
      if e !in active.value.still || found.None? {
        TriageSkips(cfg, now);
        Goto(Triage(e + 1));
        Agree();
        return;
      }
      var p := Place(ex, found.value);
      CellSlot(p);
      var v := dir[p].slot;
      if slots[v].Pinnable() {
        TriagePins(cfg, now, found.value, v);
        PinTriaged(ex, found.value, v);
      } else {
        TriageSkips(cfg, now);
        Goto(Triage(e + 1));
        Agree();
      }
    }

    method PinTriaged(ex: Expert, pool: nat, v: nat)
      requires Valid() && v < slots.Length && Wanted(active, ex) && slots[v].Pinnable() && active.value.nLeft > 0
      requires !now.sched.Tick? && SchedStep(cfg, now, GrantPin(now, ex, pool, v, KTriage(ex.id)))
      modifies this`active, this`ledger, this`await, this`now, this`steps, slots
      ensures Valid() && steps > old(steps) && now.sched == Triage(ex.id + 1)
      ensures slots[..] == old(slots[..])[v := old(slots[..])[v].(ref := old(slots[..])[v].ref + 1)]
      ensures await == old(await).(done := old(await).done + 1)
      ensures active ==
                Some(old(active).value.(still := old(active).value.still - {ex.id},
                    nLeft := old(active).value.nLeft - 1))
    {
      hide Valid, Leads, Reached, SchedStep, GrantPin;
      var underflow := Pin(ex, v, pool, KTriage(ex.id));
      Count(false, KTriage(ex.id));
      Agree();
      AfterTriage(cfg, now, ex.id);
      Goto(Triage(ex.id + 1));
      Agree();
    }

    /** The popped request becomes the active one. */
    method Activate(r: Request)
      requires Valid() && now.sched == Tick && steps == 0 && active.None? && now.queue != [] && now.queue[0] == r
      modifies this`active, this`now, this`steps
      ensures Valid() && steps > old(steps) && now.sched == Triage(0) &&
                active == Some(Active(r.layer, r.needed, r.target))
      ensures now.store == old(now).store && DirUnique(dir)
      ensures r.target == |r.needed| > 0 && forall e :: e in r.needed ==> e < cfg.nExperts
    {
      hide Leads, Reached, SchedStep, GroupsOk, FreeOk, LedgerOk, CellsOk, MovesIn, Inv;
      ghost var tr := WholeRun();
      UniqueCells(cfg, now);
      QueuedRequest(cfg, now);
      AcceptIsStep(cfg, now);
      active := Some(Active(r.layer, r.needed, r.target));
      Take(Accept(now));
    }

    /** active_finish right after the triage, if nothing is left. */
    method FinishTriage()
      requires Valid() && active.Some? && now.sched.Triage? && now.sched.te >= cfg.nExperts
      modifies this`active, this`ledger, this`now, this`steps
      ensures Valid() && steps > old(steps) &&
                now.sched == if active.Some? then Serve(0, Pass(false, false, true)) else Tick
      ensures active == if old(active).value.nLeft == 0 then None else old(active)
    {
      hide Leads, Reached, SchedStep, GroupsOk, FreeOk, LedgerOk, CellsOk, MovesIn;
      TriageEnds(cfg, now);
      if active.value.nLeft == 0 {
        active := None;
        ledger := [];
        NoPins(cfg);
        Take(now.(active := None, sched := Tick));
      } else {
        Take(now.(sched := Serve(0, Pass(false, false, true))));
      }
    }

    /** Where the triage stands before expert e. */
    ghost predicate Triaged(r: Request, hits: set<nat>, before: seq<Slot>, count: Await, e: nat)
      reads this, slots
    {
      var done := Below(hits, e);
      && hits <= r.needed && r.target == |r.needed|
      && Repinned(dir, before, slots[..], r.layer, done)
      && await == count.(done := count.done + |done|)
      && |done| <= r.target && active == Some(Active(r.layer, r.needed - done, r.target - |done|))
    }

    /** One turn of the triage loop. */
    method TriageNext(r: Request, ghost hits: set<nat>, ghost before: seq<Slot>, ghost count: Await, e: nat)
      requires Valid() && now.sched == Triage(e) && e < cfg.nExperts && DirUnique(dir)
      requires Triaged(r, hits, before, count, e) && hits == Hits(dir, before, cfg.nPools, r.layer, r.needed)
      modifies this`active, this`ledger, this`await, this`now, this`steps, slots
      ensures Valid() && steps > old(steps) && now.sched == Triage(e + 1) && Triaged(r, hits, before, count, e + 1)
    {
      hide Valid, Leads, Reached, SchedStep, DirUnique, PinsNow, Repinned, Below;
      HitCount(r.needed, hits, e);
      NotBelow(hits, e);
      TriageOn(dir, before, slots[..], cfg.nPools, r.layer, Below(hits, e), e);
      TriageItem(e);
      assert r.needed - Below(hits, e) - {e} == r.needed - (Below(hits, e) + {e});
    }

    /** The triage loop. */
    method TriageAll(r: Request, ghost hits: set<nat>, ghost before: seq<Slot>, ghost count: Await)
      requires Valid() && now.sched == Triage(0) && DirUnique(dir)
      requires Triaged(r, hits, before, count, 0) && hits == Hits(dir, before, cfg.nPools, r.layer, r.needed)
      modifies this`active, this`ledger, this`await, this`now, this`steps, slots
      ensures Valid() && steps >= old(steps) && now.sched == Triage(cfg.nExperts) &&
                Triaged(r, hits, before, count, cfg.nExperts)
    {
      hide Valid, Leads, Reached, SchedStep, DirUnique, Hits, Triaged;
      for e := 0 to cfg.nExperts
        invariant Valid() && steps >= old(steps) && now.sched == Triage(e) && Triaged(r, hits, before, count, e)
      {
        TriageNext(r, hits, before, count, e);
      }
    }

    /** active_register for the request popped from the queue: the wanted experts whose
        READY copy can be pinned are pinned, counted and no longer wanted; nothing else
        happens to any slot, and the request ends here iff that was all of them. */
    method ActiveRegister(r: Request)
      requires Valid() && now.sched == Tick && steps == 0 && active.None? && now.queue != [] && now.queue[0] == r
      modifies this`active, this`ledger, this`await, this`now, this`steps, slots
      ensures Valid() && steps > old(steps) &&
                now.sched == if active.Some? then Serve(0, Pass(false, false, true)) else Tick
      ensures var hits := Hits(dir, old(slots[..]), cfg.nPools, r.layer, r.needed);
              && Repinned(dir, old(slots[..]), slots[..], r.layer, hits)
              && await == old(await).(done := old(await).done + |hits|)
              && |hits| <= r.target == |r.needed|
              && active == if hits == r.needed then None else Some(Active(r.layer, r.needed - hits, r.target - |hits|))
    {
      hide Valid, Leads, Reached, SchedStep, DirUnique, Repinned, Hits, Triaged;
      ghost var before, count := slots[..], await;
      ghost var hits := Hits(dir, before, cfg.nPools, r.layer, r.needed);
      Agree();
      Activate(r);
      Agree();
      TriageStarts(r, hits, before, count);
      TriageAll(r, hits, before, count);
      TriageDone(r, hits, before, count);
      FinishTriage();
      Agree();
    }

    lemma TriageStarts(r: Request, hits: set<nat>, before: seq<Slot>, count: Await)
      requires active == Some(Active(r.layer, r.needed, r.target)) && r.target == |r.needed|
      requires slots[..] == before && await == count && hits == Hits(dir, before, cfg.nPools, r.layer, r.needed)
      ensures Triaged(r, hits, before, count, 0)
    {
      hide PinsNow;
      TriageBegins(dir, before, r.layer, hits);
      assert r.needed - {} == r.needed;
    }

    lemma TriageDone(r: Request, hits: set<nat>, before: seq<Slot>, count: Await)
      requires Triaged(r, hits, before, count, cfg.nExperts) && forall e :: e in r.needed ==> e < cfg.nExperts
      ensures Repinned(dir, before, slots[..], r.layer, hits) && await == count.(done := count.done + |hits|)
      ensures |hits| <= r.target == |r.needed| && active == Some(Active(r.layer, r.needed - hits, r.target - |hits|))
      ensures r.target - |hits| == 0 <==> hits == r.needed
    {
      hide Repinned;
      AllHits(r.needed, hits, cfg.nExperts);
    }

    /** Whether the DIO engine took any slice of a load. */
    method Submits() returns (ok: bool) {
      ok := *;
    }

    /** LOADING is reverted, since nothing was submitted. */
    method Revert(v: nat, ex: Expert, pool: nat, ghost g: Goal)
      requires Valid() && now.sched == Reserved(g, v) && g.ForRequest? &&
                 GoalPlace(ActiveLayer(now.active), g) == Place(ex, pool)
      modifies this`dir, this`now, this`steps
      ensures Valid() && steps > old(steps) && now.sched == ServeEnd(g.pass) && dir == Clear(old(dir), Place(ex, pool))
    {
      hide Leads, Reached, SchedStep, GroupsOk, FreeOk, LedgerOk, CellsOk, MovesIn;
      SubmitIsStep(cfg, now, 0);
      CellsUpdated(cfg, dir, Place(ex, pool), Entry(Loading, v));
      dir := Clear(dir, Place(ex, pool));
      Take(SubmitNothing(now));
    }

    /** The load occupies the last free ring element. */
    method Launch(v: nat, ex: Expert, pool: nat, ghost g: Goal)
      requires Valid() && now.sched == Reserved(g, v) && g.ForRequest? && loadFree != [] && v < slots.Length &&
                 ex.id < cfg.nExperts
      requires GoalPlace(ActiveLayer(now.active), g) == Place(ex, pool)
      modifies this`loadFree, this`now, this`steps
      ensures Valid() && steps > old(steps) && now.sched == Serve(g.e + 1, g.pass.(started := true))
      ensures loadFree == old(loadFree)[..|old(loadFree)| - 1]
      ensures now.store.loads == old(now).store.loads[old(loadFree)[|old(loadFree)| - 1] := Load(ex, pool, v, Pending)]
    {
      hide Leads, Reached, SchedStep, GroupsOk, FreeOk, LedgerOk, CellsOk, MovesIn;
      var n := |loadFree| - 1;
      var idx := loadFree[n];
      FreeTaken(cfg, loadFree, now.store.loads, Load(ex, pool, v, Pending));
      SubmitIsStep(cfg, now, idx);
      loadFree := loadFree[..n];
      Take(SubmitLoad(now, idx));
    }

    /** start_async_load with the last free ring element, and the reverting of LOADING
        when nothing was submitted. */
    method StartAsyncLoad(v: nat, ex: Expert, pool: nat, ghost g: Goal) returns (ok: bool)
      requires Valid() && now.sched == Reserved(g, v) && g.ForRequest? && loadFree != [] && v < slots.Length &&
                 ex.id < cfg.nExperts
      requires GoalPlace(ActiveLayer(now.active), g) == Place(ex, pool)
      modifies this`dir, this`loadFree, this`now, this`steps
      ensures Valid() && steps > old(steps) &&
                now.sched == if ok then Serve(g.e + 1, g.pass.(started := true)) else ServeEnd(g.pass)
      ensures if ok then loadFree == old(loadFree)[..|old(loadFree)| - 1] && dir == old(dir)
              else loadFree == old(loadFree) && dir == Clear(old(dir), Place(ex, pool))
    {
      hide Valid, Leads, Reached, SchedStep, Clear;
      ok := Submits();
      if ok {
        Launch(v, ex, pool, g);
      } else {
        Revert(v, ex, pool, g);
      }
    }

    /** alloc_or_evict in the device pool, if the layer has one, then in RAM. */
    method AllocAnywhere(ex: Expert, e: nat, pass: Pass) returns (slot: int, pool: nat)
      requires Valid() && active.Some? && ex == Expert(active.value.layer, e) && e < cfg.nExperts
      requires now.sched == Alloc(ForRequest(e, FirstPool(cfg, ex.layer), pass))
      modifies this`dir, this`moves, this`now, this`steps, slots
      ensures Valid() && steps > old(steps) && SameElse(old(now)) && -1 <= slot < slots.Length
      ensures slot < 0 ==> now.sched == NoSlot(ForRequest(e, 0, pass))
      ensures slot >= 0 ==> now.sched == Reserved(ForRequest(e, pool, pass), slot)
    {
      hide Valid, Leads, Reached, SchedStep;
      Agree();
      slot, pool := -1, 0;
      var device := cfg.DevicePool(ex.layer);
      if device.Some? {
        pool := device.value;
        slot := AllocOrEvict(ex, pool, ForRequest(e, pool, pass));
        if slot >= 0 { return; }
        GiveUpStep(cfg, now);
        Goto(Alloc(ForRequest(e, 0, pass)));
        Agree();
      }
      pool := 0;
      slot := AllocOrEvict(ex, 0, ForRequest(e, 0, pass));
    }

    /** An item with no copy and nothing in flight. */
    method ServeAbsent(e: nat, pass: Pass) returns (go: bool, after: Pass)
      requires Valid() && active.Some? && e < cfg.nExperts && loadFree != []
      requires now.sched == Alloc(ForRequest(e, FirstPool(cfg, active.value.layer), pass))
      modifies this`dir, this`moves, this`loadFree, this`now, this`steps, slots
      ensures Valid() && steps > old(steps) && now.sched == if go then Serve(e + 1, after) else ServeEnd(after)
    {
      hide Valid, Leads, Reached, SchedStep;
      Agree();
      var ex := Expert(active.value.layer, e);
      var slot, pool := AllocAnywhere(ex, e, pass);
      if slot < 0 {
        GiveUpStep(cfg, now);
        Goto(Serve(e + 1, pass.(noSlot := true)));
        return true, pass.(noSlot := true);
      }
      go := StartAsyncLoad(slot, ex, pool, ForRequest(e, pool, pass));
      after := if go then pass.(started := true) else pass;
    }

    /** An item that became READY since it was registered. */
    method ServeResident(e: nat, pass: Pass) returns (go: bool)
      requires Valid() && Facing(cfg, now, e, pass) && cfg.GroupOf(active.value.layer).Some?
      requires ScanPools(dir, cfg.nPools, Expert(active.value.layer, e), 0).Some?
      modifies this`active, this`ledger, this`await, this`now, this`steps, slots
      ensures Valid() && steps > old(steps) && go == active.Some? &&
                now.sched == if go then Serve(e + 1, pass) else Tick
    {
      hide Valid, Leads, Reached, SchedStep, Wanted;
      Agree();
      var ex := Expert(active.value.layer, e);
      var found := Scan(ex);
      var p := Place(ex, found.value);
      CellSlot(p);
      var v := dir[p].slot;
      ServeSettles(cfg, now, e, pass, found.value);
      Goto(Settle(ex, found.value, v, KServe(e, pass)));
      ActiveSettle(ex, v, found.value, KServe(e, pass));
      Agree();
      AfterServe(cfg, now, e, pass);
      Goto(if active.Some? then Serve(e + 1, pass) else Tick);
      go := active.Some?;
    }

    /** A layer without a group, or the stall bound. */
    method FailRequest()
      requires Valid() && active.Some? && !now.sched.Tick? && SchedStep(cfg, now, now.(sched := FailUnpin(KStop)))
      modifies this`active, this`ledger, this`await, this`now, this`steps, slots
      ensures Valid() && steps > old(steps) && active.None? && now.sched == Tick
    {
      hide Valid, Leads, Reached, SchedStep, Unpinned;
      Agree();
      Goto(FailUnpin(KStop));
      ActiveFail(KStop);
      AfterStop(cfg, now);
      Goto(Tick);
    }

    /** A wanted item: settle a READY copy, pass over one in flight, else find a slot. */
    method ServeWanted(e: nat, pass: Pass) returns (go: bool, after: Pass)
      requires Valid() && Facing(cfg, now, e, pass) && cfg.GroupOf(active.value.layer).Some?
      modifies this`dir, this`moves, this`active, this`ledger, this`await, this`loadFree, this`now, this`steps, slots
      ensures Valid() && steps > old(steps) && (go ==> active.Some?)
      ensures now.sched == if go then Serve(e + 1, after) else if active.Some? then ServeEnd(after) else Tick
    {
      hide Valid, Leads, Reached, SchedStep;
      Agree();
      var layer := active.value.layer;
      var resident, inFlight := PoolStates(Expert(layer, e));
      if resident {
        go := ServeResident(e, pass);
        return go, pass;
      }
      ServeAbsentStep(cfg, now, e, pass);
      if inFlight {
        Goto(Serve(e + 1, pass));
        Agree();
        return true, pass;
      }
      Goto(Alloc(ForRequest(e, FirstPool(cfg, layer), pass)));
      Agree();
      go, after := ServeAbsent(e, pass);
      Agree();
    }

    /** One item of the serve loop; go is false where the loop is left. */
    method ServeItem(e: nat, pass: Pass) returns (go: bool, after: Pass)
      requires Valid() && active.Some? && e < cfg.nExperts && now.sched == Serve(e, pass)
      modifies this`dir, this`moves, this`active, this`ledger, this`await, this`loadFree, this`now, this`steps, slots
      ensures Valid() && steps > old(steps) && (go ==> active.Some?)
      ensures now.sched == if go then Serve(e + 1, after) else if active.Some? then ServeEnd(after) else Tick
    {
      hide Valid, Leads, Reached, SchedStep;
      Agree();
      var layer := active.value.layer;
      after := pass;
      if e !in active.value.still {
        ServeUnwanted(cfg, now, e, pass);
        Goto(Serve(e + 1, pass));
        return true, pass;
      }
      if loadFree == [] {
        ServeEnds(cfg, now, e, pass);
        Goto(ServeEnd(pass));
        return false, pass;
      }
      if cfg.GroupOf(layer).None? {
        ServeBadLayer(cfg, now, e, pass);
        FailRequest();
        return false, pass;
      }
      go, after := ServeWanted(e, pass);
    }

    /** The directory cell becomes READY, and the item is settled. */
    method Publish(ex: Expert, pool: nat, v: nat, ghost k: Cont)
      requires Valid() && v < slots.Length && ex.id < cfg.nExperts && !k.KTriage? && !now.sched.Tick?
      requires SchedStep(cfg, now, PoolSteps.Publish(now, ex, pool, v, k))
      modifies this`dir, this`active, this`ledger, this`await, this`now, this`steps, slots
      ensures Valid() && steps > old(steps) && now.sched == After(k) && now.store.loads == old(now).store.loads
      ensures dir == old(dir)[Place(ex, pool) := Entry(Resident, v)]
    {
      hide Leads, Reached, SchedStep, GroupsOk, FreeOk, LedgerOk, CellsOk, MovesIn, Wanted;
      CellsUpdated(cfg, dir, Place(ex, pool), Entry(Resident, v));
      dir := dir[Place(ex, pool) := Entry(Resident, v)];
      Take(PoolSteps.Publish(now, ex, pool, v, k));
      ActiveSettle(ex, v, pool, k);
    }

    /** The destination of the first finished move is marked. */
    method CompleteMove() returns (m: Move)
      requires Valid() && now.sched == Tick && steps == 0 && CanDrainMove(now.store)
      modifies this`moves, this`now, this`steps, slots
      ensures Valid() && steps > old(steps) && now.sched == MoveReady(m) && m == old(moves)[0] &&
                moves == old(moves)[1..]
      ensures m.src < slots.Length && m.dst < slots.Length && m.ex.id < cfg.nExperts
    {
      hide Leads, Reached, SchedStep, GroupsOk, FreeOk, LedgerOk, CellsOk, MovesIn;
      m := moves[0];
      MovesUpdated(cfg, moves, m);
      DrainMoveIsStep(cfg, now);
      slots[m.dst] := slots[m.dst].MarkReady();
      moves := moves[1..];
      Take(now.(store := PoolSteps.DrainMove(now.store), sched := MoveReady(m)));
    }

    /** The source of a finished move becomes EMPTY. */
    method ReleaseSource(src: nat)
      requires Valid() && src < slots.Length && now.sched == After(KMove(src))
      modifies this`now, this`steps, slots
      ensures Valid() && steps > old(steps) && now.sched == Tick && slots[src].st == Empty
    {
      hide Leads, Reached, SchedStep, GroupsOk, FreeOk, LedgerOk, CellsOk, MovesIn;
      AfterMove(cfg, now, src);
      slots[src] := slots[src].ReleaseToEmpty();
      Take(now.(store := Release(now.store, src), sched := Tick));
    }

    /** One finished move of drain_moves, as a turn of its own. */
    method DrainMove()
      requires Valid() && now.sched == Tick && CanDrainMove(now.store)
      modifies this`dir, this`moves, this`active, this`ledger, this`await, this`now, this`run, this`from, this`steps,
                 slots
      ensures Valid() && now.sched == Tick && from == old(now) && steps > 0 && old(run) <= run
      ensures moves == old(moves)[1..] && old(moves)[0].src < slots.Length && slots[old(moves)[0].src].st == Empty
      ensures dir == old(dir)[Place(old(moves)[0].ex, 0) := Entry(Resident, old(moves)[0].dst)]
    {
      hide Valid, Leads, Reached, SchedStep;
      NewTurn();
      var m := CompleteMove();
      MoveReadyIsStep(cfg, now);
      Publish(m.ex, 0, m.dst, KMove(m.src));
      ReleaseSource(m.src);
    }

    /** The slot of a finished load is marked, and the load leaves the engine. */
    method Complete(i: nat, t: Load)
      requires Valid() && now.sched == Tick && steps == 0 && CanDrain(now.store, i) && now.store.loads[i] == t
      modifies this`now, this`steps, slots
      ensures Valid() && steps > old(steps) && now.sched == (if t.status == Arrived then LoadReady(t) else LoadBad(t))
      ensures now.store.loads == Unloaded(old(now).store.loads, i)
      ensures slots[t.slot] ==
                if t.status == Arrived then old(slots[t.slot]).MarkReady() else old(slots[t.slot]).(st := Failed)
    {
      hide Leads, Reached, SchedStep, GroupsOk, FreeOk, LedgerOk, CellsOk, MovesIn;
      FreeGiven(cfg, loadFree, now.store.loads, i);
      DrainLoadIsStep(cfg, now, i);
      slots[t.slot] := if t.status == Arrived then slots[t.slot].MarkReady() else slots[t.slot].(st := Failed);
      Take(now.(store := PoolSteps.DrainLoad(now.store, i),
          sched := if t.status == Arrived then LoadReady(t) else LoadBad(t)));
    }

    /** A ring element returns to load_free_. */
    method GiveBack(i: nat, ghost loads: map<nat, Load>)
      requires Valid() && now.sched == After(KRing) && i in loads && now.store.loads == Unloaded(loads, i) &&
                 FreeOk(cfg, loadFree, loads)
      modifies this`loadFree, this`now, this`steps
      ensures Valid() && steps > old(steps) && now.sched == Tick && loadFree == old(loadFree) + [i] &&
                now.store == old(now).store
    {
      hide Leads, Reached, SchedStep, GroupsOk, FreeOk, LedgerOk, CellsOk, MovesIn;
      AfterRing(cfg, now);
      FreeGiven(cfg, loadFree, loads, i);
      loadFree := loadFree + [i];
      Take(now.(ringFree := now.ringFree + 1, sched := Tick));
    }

    lemma RingState(i: nat)
      requires Valid() && i in now.store.loads
      ensures FreeOk(cfg, loadFree, now.store.loads) && LoadIn(cfg, now.store.loads[i]) && slots.Length == cfg.nSlots
    {
    }

    /** The last completion of a load, in drain_completions, as a turn of its own: t is the
        load of ring element i. */
    method DrainLoad(i: nat, t: Load)
      requires Valid() && now.sched == Tick && CanDrain(now.store, i) && now.store.loads[i] == t
      modifies this`dir, this`active, this`ledger, this`await, this`loadFree, this`now, this`run, this`from,
                 this`steps, slots
      ensures Valid() && now.sched == Tick && from == old(now) && steps > 0 && old(run) <= run
      ensures loadFree == old(loadFree) + [i] && i !in now.store.loads
      ensures dir == if t.status == Arrived then old(dir)[Place(t.ex, t.pool) := Entry(Resident, t.slot)]
                else Clear(old(dir), Place(t.ex, t.pool))
    {
      hide Valid, Leads, Reached, SchedStep, FreeOk, Clear;
      NewTurn();
      RingState(i);
      ghost var loads := now.store.loads;
      Complete(i, t);
      if t.status == Arrived {
        LoadReadyIsStep(cfg, now);
        Publish(t.ex, t.pool, t.slot, KRing);
      } else {
        DropLoad(t);
      }
      GiveBack(i, loads);
    }

    /** A failed load: ABSENT again, and the end of the request if it wanted the expert. */
    method DropLoad(t: Load)
      requires Valid() && now.sched == LoadBad(t)
      modifies this`dir, this`active, this`ledger, this`await, this`now, this`steps, slots
      ensures Valid() && steps > old(steps) && now.sched == After(KRing) && now.store.loads == old(now).store.loads
      ensures dir == Clear(old(dir), Place(t.ex, t.pool))
    {
      hide Leads, Reached, SchedStep, GroupsOk, FreeOk, LedgerOk, CellsOk, MovesIn, Unpinned;
      LoadBadIsStep(cfg, now);
      CellsUpdated(cfg, dir, Place(t.ex, t.pool), Entry(Loading, 0));
      dir := Clear(dir, Place(t.ex, t.pool));
      Take(now.(store := now.store.(dir := dir), sched := LoadBadSet(t)));
      LoadBadSetIsStep(cfg, now);
      if Wanted(active, t.ex) {
        Goto(FailUnpin(KRing));
        ActiveFail(KRing);
      } else {
        Goto(After(KRing));
      }
    }

    /** Whether the stall window has passed. */
    method StallExpired() returns (expired: bool) {
      expired := *;
    }

    /** accept_requests with an active request, or with request r popped from the queue:
        a whole pass of the scheduler is a run of protocol steps from Tick to Tick. */
    method AcceptRequests(r: Request)
      requires Valid() && now.sched == Tick
      requires active.None? ==> now.queue != [] && now.queue[0] == r
      modifies this`dir, this`moves, this`active, this`ledger, this`await, this`loadFree, this`now, this`run,
                 this`from, this`steps
      modifies slots
      ensures Valid() && now.sched == Tick && from == old(now) && steps > 0 && old(run) <= run
    {
      hide Valid, Leads, Reached, SchedStep;
      NewTurn();
      Agree();
      var pass := Pass(false, false, active.None?);
      if active.None? {
        ActiveRegister(r);
        if active.None? { return; }
      } else {
        AcceptIsStep(cfg, now);
        Goto(Serve(0, pass));
      }
      pass := ServeItems(pass);
      if active.Some? { FinishPass(pass); }
    }

    /** The serve loop over the experts. */
    method ServeItems(first: Pass) returns (pass: Pass)
      requires Valid() && active.Some? && now.sched == Serve(0, first)
      modifies this`dir, this`moves, this`active, this`ledger, this`await, this`loadFree, this`now, this`steps, slots
      ensures Valid() && steps > old(steps) && now.sched == if active.Some? then ServeEnd(pass) else Tick
    {
      hide Valid, Leads, Reached, SchedStep;
      pass := first;
      var e, go := 0, true;
      while go && e < cfg.nExperts
        invariant 0 <= e <= cfg.nExperts && Valid() && steps >= old(steps) && (go ==> active.Some?) &&
                    (go || steps > old(steps))
        invariant now.sched == if go then Serve(e, pass) else if active.Some? then ServeEnd(pass) else Tick
        decreases cfg.nExperts - e, go
      {
        go, pass := ServeItem(e, pass);
        e := e + 1;
      }
      if go {
        Agree();
        ServeEnds(cfg, now, e, pass);
        Goto(ServeEnd(pass));
        Agree();
      }
    }

    /** The stall bound at the end of a pass. */
    method FinishPass(pass: Pass)
      requires Valid() && active.Some? && now.sched == ServeEnd(pass)
      modifies this`active, this`ledger, this`await, this`now, this`steps, slots
      ensures Valid() && steps > old(steps) && now.sched == Tick
    {
      hide Valid, Leads, Reached, SchedStep;
      Agree();
      ServeEndIsStep(cfg, now);
      if !pass.started && active.value.nLeft != 0 && pass.noSlot && !pass.first {
        var expired := StallExpired();
        if expired {
          FailRequest();
          return;
        }
      }
      Goto(Tick);
    }
  }
}
