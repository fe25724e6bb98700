/** The steps of the expert pool protocol. One step is one atomic access (or one
    access that no other thread can observe half done); exec, scheduler, DIO and
    move worker steps interleave freely. */
module PoolSteps {
  import opened Basics
  import opened PoolState

  // ---- directory lookups ----------------------------------------------------

  /** expert_directory.find: the slot of a READY cell. */
  predicate ResidentIn(dir: Directory, ex: Expert, pool: nat) {
    var p := Place(ex, pool);
    p in dir && dir[p].st == Resident
  }

  /** expert_directory.scan: first pool at or after `pool` with a READY copy. */
  function ScanPools(dir: Directory, nPools: nat, ex: Expert, pool: nat): (r: Option<nat>)
    ensures r.Some? ==> pool <= r.value < nPools && ResidentIn(dir, ex, r.value)
    ensures r.None? ==> forall q :: pool <= q < nPools ==> !ResidentIn(dir, ex, q)
    decreases nPools - pool
  {
    if pool >= nPools then None
    else if ResidentIn(dir, ex, pool) then Some(pool)
    else ScanPools(dir, nPools, ex, pool + 1)
  }

  /** Some pool has a LOADING or MOVING cell for the expert. */
  predicate InFlight(dir: Directory, nPools: nat, ex: Expert) {
    exists q :: 0 <= q < nPools && Place(ex, q) in dir &&
                dir[Place(ex, q)].st in {Loading, MovingIn, MovingOut}
  }

  /** The directory with cell p made ABSENT. */
  function Clear(dir: Directory, p: Place): (d: Directory)
    ensures forall q :: q in d <==> q in dir && q != p
    ensures forall q :: q in d ==> d[q] == dir[q]
  {
    map q | q in dir && q != p :: dir[q]
  }

  /** Lowest EMPTY slot in [lo, hi). */
  function FirstEmpty(slots: seq<Slot>, lo: nat, hi: nat): (r: Option<nat>)
    requires hi <= |slots|
    ensures r.Some? ==> lo <= r.value < hi && slots[r.value].st == Empty
    ensures r.None? ==> forall i :: lo <= i < hi ==> slots[i].st != Empty
    decreases hi - lo
  {
    if lo >= hi then None
    else if slots[lo].st == Empty then Some(lo)
    else FirstEmpty(slots, lo + 1, hi)
  }

  /** vx is a resident the two-pass ring scan may pick as a victim in region r. */
  predicate Evictable(cfg: Config, st: Store, r: Region, vx: Expert) {
    var p := Place(vx, r.pool);
    && cfg.GroupOf(vx.layer) == Some(r.group)
    && p in st.dir && st.dir[p].st == Resident
    && r.Has(st.dir[p].slot) && st.dir[p].slot < |st.slots|
    && st.slots[st.dir[p].slot].st == Ready && st.slots[st.dir[p].slot].ref == 0
  }

  // ---- slot word updates ----------------------------------------------------

  /** The store with slot v replaced. */
  function WithSlot(st: Store, v: nat, x: Slot): Store
    requires v < |st.slots|
  {
    st.(slots := st.slots[v := x])
  }

  function PinSlot(st: Store, v: nat): Store
    requires v < |st.slots|
  {
    WithSlot(st, v, st.slots[v].(ref := st.slots[v].ref + 1))
  }

  function UnpinSlot(st: Store, v: nat): Store
    requires v < |st.slots|
  {
    WithSlot(st, v, st.slots[v].Unpin())
  }

  /** Slot v returns to EMPTY, its content forgotten. */
  function Release(st: Store, v: nat): Store
    requires v < |st.slots| && v < |st.bytes|
  {
    st.(slots := st.slots[v := st.slots[v].ReleaseToEmpty()], bytes := st.bytes[v := None])
  }

  // ---- exec thread: pin_layer and unpin -------------------------------------

  predicate CanStart(cfg: Config, s: Sys, layer: nat, needed: set<nat>) {
    && s.exec.Idle? && layer < cfg.nLayers && needed != {}
    && forall e :: e in needed ==> e < cfg.nExperts
  }

  /** Entry of pin_layer with a nonempty in-range need set. */
  function StartPin(s: Sys, layer: nat, needed: set<nat>): Sys
    requires s.exec.Idle?
  {
    s.(exec := Scan(layer, needed, {}, 0, 0))
  }

  /** One directory lookup of exec's first scan, or its end. */
  function ScanStep(cfg: Config, s: Sys): Sys
    requires s.exec.Scan?
  {
    var Scan(layer, needed, missing, e, pool) := s.exec;
    if e >= cfg.nExperts then
      if missing == {} then Return(s, |needed|)
      else s.(exec := Push(layer, needed, missing), await := Await(0, false, |missing|))
    else if e !in needed then
      s.(exec := Scan(layer, needed, missing, e + 1, 0))
    else if pool >= cfg.nPools then
      s.(exec := Scan(layer, needed, missing + {e}, e + 1, 0))
    else if ResidentIn(s.store.dir, Expert(layer, e), pool) then
      s.(exec := Pin(layer, needed, missing, e, pool, s.store.dir[Place(Expert(layer, e), pool)].slot))
    else
      s.(exec := Scan(layer, needed, missing, e, pool + 1))
  }

  /** pin_layer returns the number of experts; the caller owns the handles. */
  function Return(s: Sys, n: nat): Sys {
    s.(exec := Idle, ret := n, pins := s.pins.(held := s.pins.held + s.pins.got, got := []))
  }

  /** try_pin of the slot the scan returned; the directory is not looked at again. */
  function PinStep(cfg: Config, s: Sys): Sys
    requires s.exec.Pin? && s.exec.slot < |s.store.slots|
  {
    var Pin(layer, needed, missing, e, pool, v) := s.exec;
    if s.store.slots[v].Pinnable() then
      s.(store := PinSlot(s.store, v),
         pins := s.pins.(got := s.pins.got + [Handle(v, s.store.slots[v].gen, Expert(layer, e), pool)]),
         exec := Scan(layer, needed, missing, e + 1, 0))
    else
      s.(exec := Scan(layer, needed, missing + {e}, e + 1, 0))
  }

  /** requests_.push. */
  function PushStep(s: Sys): Sys
    requires s.exec.Push?
  {
    s.(queue := s.queue + [Request(s.exec.layer, s.exec.missing, |s.exec.missing|)],
       exec := Waiting(s.exec.layer, s.exec.needed, s.exec.missing))
  }

  /** batch_await_t.wait may return. */
  predicate CanWake(s: Sys) {
    s.exec.Waiting? && (s.await.done >= s.await.target || s.await.failed)
  }

  function WakeStep(s: Sys): Sys
    requires CanWake(s)
  {
    s.(exec := Woken(s.exec.layer, s.exec.needed, s.exec.missing))
  }

  /** is_failed check after the wait. */
  function WokenStep(s: Sys): Sys
    requires s.exec.Woken?
  {
    if s.await.failed then s.(exec := Rollback)
    else s.(exec := Collect(s.exec.layer, s.exec.needed, s.exec.missing, 0, 0))
  }

  /** Index of the handle for expert ex, or |hs|. */
  function IndexOf(hs: seq<Handle>, ex: Expert): (i: nat)
    ensures i <= |hs|
    ensures i < |hs| ==> hs[i].ex == ex
    ensures i == |hs| ==> forall j :: 0 <= j < |hs| ==> hs[j].ex != ex
  {
    if hs == [] then 0 else if hs[0].ex == ex then 0 else 1 + IndexOf(hs[1..], ex)
  }

  function Without(hs: seq<Handle>, i: nat): seq<Handle> {
    if i < |hs| then hs[..i] + hs[i + 1..] else hs
  }

  /** One directory lookup of exec's post-wait scan; never pins. */
  function CollectStep(cfg: Config, s: Sys): Sys
    requires s.exec.Collect?
  {
    var Collect(layer, needed, missing, e, pool) := s.exec;
    var ex := Expert(layer, e);
    if e >= cfg.nExperts then Return(s, |needed|)
    else if e !in missing then
      s.(exec := Collect(layer, needed, missing, e + 1, 0))
    else if pool >= cfg.nPools then
      s.(exec := Rollback)
    else if ResidentIn(s.store.dir, ex, pool) && s.store.dir[Place(ex, pool)].slot < |s.store.slots| then
      var v := s.store.dir[Place(ex, pool)].slot;
      s.(pins := s.pins.(got := s.pins.got + [Handle(v, s.store.slots[v].gen, ex, pool)],
                         granted := Without(s.pins.granted, IndexOf(s.pins.granted, ex))),
         exec := Collect(layer, needed, missing, e + 1, 0))
    else
      s.(exec := Collect(layer, needed, missing, e, pool + 1))
  }

  /** One unpin of the failure path, or its return of -1. */
  function RollbackStep(s: Sys): Sys
    requires s.exec.Rollback?
    requires s.pins.got != [] ==> s.pins.got[0].slot < |s.store.slots|
  {
    if s.pins.got == [] then s.(exec := Idle, ret := -1)
    else s.(store := UnpinSlot(s.store, s.pins.got[0].slot), pins := s.pins.(got := s.pins.got[1..]))
  }

  predicate CanUnpin(s: Sys, i: nat) {
    s.exec.Idle? && i < |s.pins.held| && s.pins.held[i].slot < |s.store.slots|
  }

  /** The caller releases one of its handles. */
  function UnpinStep(s: Sys, i: nat): Sys
    requires CanUnpin(s, i)
  {
    s.(store := UnpinSlot(s.store, s.pins.held[i].slot), pins := s.pins.(held := Without(s.pins.held, i)))
  }

  ghost predicate ExecStep(cfg: Config, s: Sys, s': Sys) {
    match s.exec
    case Idle =>
      || (exists layer, needed :: CanStart(cfg, s, layer, needed) && s' == StartPin(s, layer, needed))
      || (exists i :: CanUnpin(s, i) && s' == UnpinStep(s, i))
    case Scan(_, _, _, _, _) => s' == ScanStep(cfg, s)
    case Pin(_, _, _, _, _, v) => v < |s.store.slots| && s' == PinStep(cfg, s)
    case Push(_, _, _) => s' == PushStep(s)
    case Waiting(_, _, _) => CanWake(s) && s' == WakeStep(s)
    case Woken(_, _, _) => s' == WokenStep(s)
    case Collect(_, _, _, _, _) => s' == CollectStep(cfg, s)
    case Rollback => (s.pins.got != [] ==> s.pins.got[0].slot < |s.store.slots|) && s' == RollbackStep(s)
  }

  // ---- DIO engine and move worker -------------------------------------------

  /** The last slice of load i arrives: the slot now holds the expert's bytes. */
  function Arrive(st: Store, i: nat): Store
    requires i in st.loads && st.loads[i].slot < |st.bytes|
  {
    st.(loads := st.loads[i := st.loads[i].(status := Arrived)],
        bytes := st.bytes[st.loads[i].slot := Some(st.loads[i].ex)])
  }

  /** Load i ends with a read error. */
  function ReadError(st: Store, i: nat): Store
    requires i in st.loads
  {
    st.(loads := st.loads[i := st.loads[i].(status := Errored)])
  }

  ghost predicate DioStep(s: Sys, s': Sys) {
    exists i :: i in s.store.loads && s.store.loads[i].status == Pending && s.store.loads[i].slot < |s.store.bytes| &&
      (s' == s.(store := Arrive(s.store, i)) || s' == s.(store := ReadError(s.store, i), clean := false))
  }

  predicate CanCopy(st: Store) {
    st.copied < |st.moves| && st.moves[st.copied].src < |st.bytes| && st.moves[st.copied].dst < |st.bytes|
  }

  /** The worker copies the next submitted move. */
  function Copy(st: Store): Store
    requires CanCopy(st)
  {
    var m := st.moves[st.copied];
    st.(bytes := st.bytes[m.dst := st.bytes[m.src]], copied := st.copied + 1)
  }

  ghost predicate WorkerStep(s: Sys, s': Sys) {
    CanCopy(s.store) && s' == s.(store := Copy(s.store))
  }

  // ---- scheduler thread -----------------------------------------------------

  predicate CanDrain(st: Store, i: nat) {
    i in st.loads && st.loads[i].status != Pending && st.loads[i].slot < |st.slots|
  }

  /** drain_completions: a finished load leaves the DIO queue; its slot is marked first. */
  function DrainLoad(st: Store, i: nat): Store
    requires CanDrain(st, i)
  {
    var ld := st.loads[i];
    var x := st.slots[ld.slot];
    st.(loads := map j | j in st.loads && j != i :: st.loads[j],
        slots := st.slots[ld.slot := if ld.status == Arrived then x.MarkReady() else x.(st := Failed)])
  }

  predicate CanDrainMove(st: Store) {
    st.copied > 0 && |st.moves| > 0 && st.moves[0].dst < |st.slots|
  }

  /** drain_moves: the destination is marked READY. */
  function DrainMove(st: Store): Store
    requires CanDrainMove(st)
  {
    var m := st.moves[0];
    st.(moves := st.moves[1..], copied := st.copied - 1, slots := st.slots[m.dst := st.slots[m.dst].MarkReady()])
  }

  /** accept_requests: serve the active request, or pop and register one. */
  function Accept(s: Sys): Sys
    requires s.sched.Tick? && (s.active.Some? || s.queue != [])
  {
    if s.active.Some? then s.(sched := Serve(0, Pass(false, false, false)))
    else
      var r := s.queue[0];
      s.(queue := s.queue[1..], active := Some(Active(r.layer, r.needed, r.target)), sched := Triage(0))
  }

  ghost predicate TickStep(s: Sys, s': Sys)
    requires s.sched.Tick?
  {
    || (exists i :: CanDrain(s.store, i) &&
          s' == s.(store := DrainLoad(s.store, i),
                   sched := if s.store.loads[i].status == Arrived then LoadReady(s.store.loads[i])
                       else LoadBad(s.store.loads[i])))
    || (CanDrainMove(s.store) && s' == s.(store := DrainMove(s.store), sched := MoveReady(s.store.moves[0])))
    || ((s.active.Some? || s.queue != []) && s' == Accept(s))
  }

  /** Second half of a settle: the directory cell becomes READY. */
  function Publish(s: Sys, ex: Expert, pool: nat, v: nat, k: Cont): Sys {
    s.(store := s.store.(dir := s.store.dir[Place(ex, pool) := Entry(Resident, v)]), sched := Settle(ex, pool, v, k))
  }

  predicate Wanted(active: Option<Active>, ex: Expert) {
    active.Some? && active.value.layer == ex.layer && ex.id in active.value.still
  }

  /** Pin one B item: clear its bit, record it in the ledger, count it down. */
  function GrantPin(s: Sys, ex: Expert, pool: nat, v: nat, k: Cont): Sys
    requires Wanted(s.active, ex) && v < |s.store.slots|
  {
    var a := s.active.value;
    var still := a.still - {ex.id};
    var t := s.(store := PinSlot(s.store, v),
                pins := s.pins.(granted := s.pins.granted + [Handle(v, s.store.slots[v].gen, ex, pool)]));
    if a.nLeft == 0 then t.(active := Some(a.(still := still)), sched := FailUnpin(k))
    else t.(active := Some(a.(still := still, nLeft := a.nLeft - 1)), sched := SettleBump(k))
  }

  /** active_settle. */
  function SettleStep(s: Sys): Sys
    requires s.sched.Settle? && s.sched.slot < |s.store.slots|
  {
    var Settle(ex, pool, v, k) := s.sched;
    if !Wanted(s.active, ex) then s.(sched := After(k))
    else if s.store.slots[v].Pinnable() then GrantPin(s, ex, pool, v, k)
    else s.(sched := FailUnpin(k))
  }

  function BumpStep(s: Sys): Sys
    requires s.sched.SettleBump?
  {
    s.(await := s.await.(done := s.await.done + 1), sched := SettleEnd(s.sched.k))
  }

  /** After the bump of `done`: finish when nothing is left (not inside triage). */
  function SettleEndStep(s: Sys): Sys
    requires s.sched.SettleEnd?
  {
    if !s.sched.k.KTriage? && s.active.Some? && s.active.value.nLeft == 0 then
      s.(active := None, sched := After(s.sched.k))
    else s.(sched := After(s.sched.k))
  }

  /** active_fail, first part: release the ledger one pin at a time. */
  function FailUnpinStep(s: Sys): Sys
    requires s.sched.FailUnpin?
    requires s.pins.granted != [] ==> s.pins.granted[0].slot < |s.store.slots|
  {
    if s.pins.granted == [] then s.(sched := FailFlag(s.sched.k))
    else s.(store := UnpinSlot(s.store, s.pins.granted[0].slot), pins := s.pins.(granted := s.pins.granted[1..]))
  }

  /** The continuation after an item has been settled or the request has failed. */
  function AfterStep(s: Sys): Sys
    requires s.sched.After?
    requires s.sched.k.KMove? ==> s.sched.k.src < |s.store.slots| && s.sched.k.src < |s.store.bytes|
  {
    match s.sched.k
    case KRing => s.(ringFree := s.ringFree + 1, sched := Tick)
    case KMove(src) => s.(store := Release(s.store, src), sched := Tick)
    case KServe(e, pass) => if s.active.None? then s.(sched := Tick) else s.(sched := Serve(e + 1, pass))
    case KTriage(e) => if s.active.None? then s.(sched := Tick) else s.(sched := Triage(e + 1))
    case KStop => s.(sched := Tick)
  }

  /** active_register: pin every B item that is READY already. */
  function TriageStep(cfg: Config, s: Sys): Sys
    requires s.sched.Triage? && s.active.Some?
  {
    var e := s.sched.te;
    var ex := Expert(s.active.value.layer, e);
    var next := s.(sched := Triage(e + 1));
    if e >= cfg.nExperts then
      if s.active.value.nLeft == 0 then s.(active := None, sched := Tick)
      else s.(sched := Serve(0, Pass(false, false, true)))
    else if e !in s.active.value.still then next
    else
      match ScanPools(s.store.dir, cfg.nPools, ex, 0)
      case None => next
      case Some(pool) =>
        var v := s.store.dir[Place(ex, pool)].slot;
        if v < |s.store.slots| && s.store.slots[v].Pinnable() then GrantPin(s, ex, pool, v, KTriage(e)) else next
  }

  /** One item of the serve loop of accept_requests. */
  function ServeStep(cfg: Config, s: Sys): Sys
    requires s.sched.Serve? && s.active.Some?
  {
    var Serve(e, pass) := s.sched;
    var layer := s.active.value.layer;
    var ex := Expert(layer, e);
    if e >= cfg.nExperts then s.(sched := ServeEnd(pass))
    else if e !in s.active.value.still then s.(sched := Serve(e + 1, pass))
    else if s.ringFree == 0 then s.(sched := ServeEnd(pass))
    else if cfg.GroupOf(layer).None? then s.(sched := FailUnpin(KStop))
    else
      match ScanPools(s.store.dir, cfg.nPools, ex, 0)
      case Some(pool) => s.(sched := Settle(ex, pool, s.store.dir[Place(ex, pool)].slot, KServe(e, pass)))
      case None =>
        if InFlight(s.store.dir, cfg.nPools, ex) then s.(sched := Serve(e + 1, pass))
        else
          match cfg.DevicePool(layer)
          case Some(p) => s.(sched := Alloc(ForRequest(e, p, pass)))
          case None => s.(sched := Alloc(ForRequest(e, 0, pass)))
  }

  /** Stall bound: the pass placed nothing and some item had no victim for too long. */
  predicate MayStall(s: Sys) {
    && s.sched.ServeEnd? && s.active.Some? && s.active.value.nLeft != 0
    && !s.sched.pass.started && s.sched.pass.noSlot && !s.sched.pass.first
  }

  // ---- alloc_or_evict -------------------------------------------------------

  /** The directory cell a goal allocates for. */
  function GoalPlace(layer: nat, g: Goal): Place {
    match g
    case ForRequest(e, pool, _) => Place(Expert(layer, e), pool)
    case ForDemote(_, _, _, _, vx) => Place(vx, 0)
  }

  function ActiveLayer(active: Option<Active>): nat {
    if active.Some? then active.value.layer else 0
  }

  function GoalRegion(cfg: Config, layer: nat, g: Goal): Option<Region> {
    var p := GoalPlace(layer, g);
    cfg.Home(p.ex.layer, p.pool)
  }

  /** Slot v is given to cell p: LOADING is published and the slot begins its reload. */
  function Reserve(st: Store, p: Place, v: nat): Store
    requires v < |st.slots| && v < |st.bytes|
  {
    st.(slots := st.slots[v := st.slots[v].BeginReload()], bytes := st.bytes[v := None],
        dir := st.dir[p := Entry(Loading, v)])
  }

  function ReserveStep(s: Sys, g: Goal, v: nat): Sys
    requires v < |s.store.slots| && v < |s.store.bytes|
  {
    s.(store := Reserve(s.store, GoalPlace(ActiveLayer(s.active), g), v), sched := Reserved(g, v))
  }

  ghost predicate AllocStep(cfg: Config, s: Sys, s': Sys)
    requires s.sched.Alloc?
  {
    var g := s.sched.goal;
    match GoalRegion(cfg, ActiveLayer(s.active), g)
    case None => s' == s.(sched := NoSlot(g))
    case Some(r) =>
      r.first + r.count <= |s.store.slots| <= |s.store.bytes| &&
      match FirstEmpty(s.store.slots, r.first, r.first + r.count)
      case Some(i) => s' == ReserveStep(s, g, i)
      case None =>
        || (exists vx :: Evictable(cfg, s.store, r, vx) &&
              s' == s.(sched := EvictCas(g, s.store.dir[Place(vx, r.pool)].slot, vx)))
        || ((forall vx :: !Evictable(cfg, s.store, r, vx)) && s' == s.(sched := NoSlot(g)))
  }

  function EvictCasStep(s: Sys): Sys
    requires s.sched.EvictCas? && s.sched.v < |s.store.slots|
  {
    var EvictCas(g, v, vx) := s.sched;
    if s.store.slots[v].st == Ready then
      s.(store := WithSlot(s.store, v, s.store.slots[v].(st := Evicting)), sched := EvictClear(g, v, vx))
    else s.(sched := NoSlot(g))
  }

  function EvictClearStep(s: Sys): Sys
    requires s.sched.EvictClear?
  {
    var EvictClear(g, v, vx) := s.sched;
    var p := Place(vx, GoalPlace(ActiveLayer(s.active), g).pool);
    s.(store := s.store.(dir := Clear(s.store.dir, p)), sched := EvictDrain(g, v, vx))
  }

  /** The group has a RAM region of the same geometry as the goal's region. */
  predicate Demotable(cfg: Config, layer: nat, g: Goal) {
    && GoalRegion(cfg, layer, g).Some?
    && var r := GoalRegion(cfg, layer, g).value;
    && cfg.FindRegion(0, r.group, 0).Some?
    && cfg.FindRegion(0, r.group, 0).value.geometry == r.geometry
  }

  /** Wait for the victim's refcount, then demote a device victim or reuse the slot. */
  function EvictDrainStep(cfg: Config, s: Sys): Sys
    requires s.sched.EvictDrain? && s.sched.v < |s.store.slots|
  {
    var EvictDrain(g, v, vx) := s.sched;
    if s.store.slots[v].ref != 0 then s
    else if g.ForRequest? && g.pool != 0 && Demotable(cfg, ActiveLayer(s.active), g) then
      s.(sched := Alloc(ForDemote(g.e, g.pool, g.pass, v, vx)))
    else s.(sched := Reload(g, v))
  }

  /** start_async_load succeeded with ring element i. */
  function SubmitLoad(s: Sys, i: nat): Sys
    requires s.sched.Reserved? && s.sched.goal.ForRequest? && s.ringFree > 0
  {
    var Reserved(g, v) := s.sched;
    var p := GoalPlace(ActiveLayer(s.active), g);
    s.(store := s.store.(loads := s.store.loads[i := Load(p.ex, p.pool, v, Pending)]), ringFree := s.ringFree - 1,
       sched := Serve(g.e + 1, g.pass.(started := true)))
  }

  /** No slice could be submitted: LOADING is reverted, the slot is left as it is. */
  function SubmitNothing(s: Sys): Sys
    requires s.sched.Reserved? && s.sched.goal.ForRequest?
  {
    var Reserved(g, v) := s.sched;
    var p := GoalPlace(ActiveLayer(s.active), g);
    s.(store := s.store.(dir := Clear(s.store.dir, p)), sched := ServeEnd(g.pass), clean := false)
  }

  /** submit_move accepted: the RAM cell becomes MOVING_IN, the outer allocation gives up. */
  function SubmitMove(s: Sys): Sys
    requires s.sched.Reserved? && s.sched.goal.ForDemote?
  {
    var Reserved(g, v) := s.sched;
    s.(store := s.store.(moves := s.store.moves + [Move(g.vx, g.src, v)],
                         dir := s.store.dir[Place(g.vx, 0) := Entry(MovingIn, v)]),
       sched := NoSlot(ForRequest(g.e, g.pool, g.pass)))
  }

  /** submit_move refused: release the RAM slot and drop the device copy. */
  function RefuseMove(s: Sys): Sys
    requires s.sched.Reserved? && s.sched.goal.ForDemote? && s.sched.v < |s.store.slots| && s.sched.v < |s.store.bytes|
  {
    var Reserved(g, v) := s.sched;
    s.(store := Release(s.store, v).(dir := Clear(s.store.dir, Place(g.vx, 0))),
       sched := Reload(ForRequest(g.e, g.pool, g.pass), g.src), clean := false)
  }

  ghost predicate ReservedStep(cfg: Config, s: Sys, s': Sys)
    requires s.sched.Reserved?
  {
    if s.sched.goal.ForRequest? then
      || (s.ringFree > 0 && exists i :: 0 <= i < cfg.ring && i !in s.store.loads && s' == SubmitLoad(s, i))
      || s' == SubmitNothing(s)
    else
      || s' == SubmitMove(s)
      || (s.sched.v < |s.store.slots| && s.sched.v < |s.store.bytes| && s' == RefuseMove(s))
  }

  /** alloc_or_evict returned -1. */
  function NoSlotStep(s: Sys): Sys
    requires s.sched.NoSlot?
  {
    match s.sched.goal
    case ForRequest(e, pool, pass) =>
      if pool != 0 then s.(sched := Alloc(ForRequest(e, 0, pass)))
      else s.(sched := Serve(e + 1, pass.(noSlot := true)))
    case ForDemote(e, pool, pass, src, vx) => s.(sched := Reload(ForRequest(e, pool, pass), src))
  }

  ghost predicate SchedStep(cfg: Config, s: Sys, s': Sys) {
    match s.sched
    case Tick => TickStep(s, s')
    case LoadReady(ld) => s' == Publish(s, ld.ex, ld.pool, ld.slot, KRing)
    case LoadBad(ld) =>
      s' == s.(store := s.store.(dir := Clear(s.store.dir, Place(ld.ex, ld.pool))), sched := LoadBadSet(ld))
    case LoadBadSet(ld) => s' == s.(sched := if Wanted(s.active, ld.ex) then FailUnpin(KRing) else After(KRing))
    case MoveReady(m) => s' == Publish(s, m.ex, 0, m.dst, KMove(m.src))
    case Settle(_, _, v, _) => v < |s.store.slots| && s' == SettleStep(s)
    case SettleBump(k) => s' == BumpStep(s)
    case SettleEnd(_) => s' == SettleEndStep(s)
    case FailUnpin(_) => (s.pins.granted != [] ==> s.pins.granted[0].slot < |s.store.slots|) && s' == FailUnpinStep(s)
    case FailFlag(k) => s' == s.(await := s.await.(failed := true), refused := true, sched := FailClear(k))
    case FailClear(k) => s' == s.(active := None, sched := After(k))
    case After(k) => (k.KMove? ==> k.src < |s.store.slots| && k.src < |s.store.bytes|) && s' == AfterStep(s)
    case Triage(_) => s.active.Some? && s' == TriageStep(cfg, s)
    case Serve(_, _) => s.active.Some? && s' == ServeStep(cfg, s)
    case ServeEnd(_) => s' == s.(sched := Tick) || (MayStall(s) && s' == s.(sched := FailUnpin(KStop)))
    case Alloc(_) => AllocStep(cfg, s, s')
    case EvictCas(_, v, _) => v < |s.store.slots| && s' == EvictCasStep(s)
    case EvictClear(_, _, _) => s' == EvictClearStep(s)
    case EvictDrain(_, v, _) => v < |s.store.slots| && s' == EvictDrainStep(cfg, s)
    case Reload(g, v) => v < |s.store.slots| && v < |s.store.bytes| && s' == ReserveStep(s, g, v)
    case Reserved(_, _) => ReservedStep(cfg, s, s')
    case NoSlot(_) => s' == NoSlotStep(s)
  }

  /** One step of any thread. */
  ghost predicate Next(cfg: Config, s: Sys, s': Sys) {
    ExecStep(cfg, s, s') || DioStep(s, s') || WorkerStep(s, s') || SchedStep(cfg, s, s')
  }

  /** The state init leaves. */
  function FirstState(cfg: Config): (s: Sys)
    ensures Init(cfg, s)
  {
    var store := Store(seq(cfg.nSlots, _ => Slot(Empty, 0, 0)), seq(cfg.nSlots, _ => None), map[], map[], [], 0);
    Sys(store, Pins([], [], []), None, [], Await(0, false, 0), cfg.ring, Idle, Tick, 0, true, false)
  }

  /** State after init: every slot EMPTY, nothing resident, nobody waiting. */
  ghost predicate Init(cfg: Config, s: Sys) {
    && |s.store.slots| == |s.store.bytes| == cfg.nSlots
    && (forall i :: 0 <= i < cfg.nSlots ==> s.store.slots[i] == Slot(Empty, 0, 0) && s.store.bytes[i] == None)
    && s.store.dir == map[] && s.store.loads == map[] && s.store.moves == [] && s.store.copied == 0
    && s.pins == Pins([], [], []) && s.active == None && s.queue == [] && s.await == Await(0, false, 0)
    && s.ringFree == cfg.ring && s.exec == Idle && s.sched == Tick && s.ret == 0 && s.clean && !s.refused
  }
}
