/** The inductive invariant of the expert pool protocol, in four parts: the store
    agrees with itself, the pins agree with the store, the handshake between exec
    and scheduler is consistent, and each scheduler position knows what it needs. */
module PoolInvariant {
  import opened Basics
  import opened PoolState
  import opened PoolSteps

  // ---- lists of handles -------------------------------------------------------

  /** Number of handles on a slot. */
  function Cnt(hs: seq<Handle>, slot: nat): nat {
    if hs == [] then 0 else (if hs[0].slot == slot then 1 else 0) + Cnt(hs[1..], slot)
  }

  function Ids(hs: seq<Handle>): set<nat> {
    set i | 0 <= i < |hs| :: hs[i].ex.id
  }

  /** hs holds exactly one handle for each expert of `layer` in ids, and nothing else. */
  ghost predicate Covers(hs: seq<Handle>, layer: nat, ids: set<nat>) {
    && (forall i :: 0 <= i < |hs| ==> hs[i].ex.layer == layer)
    && (forall i, j :: 0 <= i < j < |hs| ==> hs[i].ex.id != hs[j].ex.id)
    && Ids(hs) == ids
  }

  function Below(ids: set<nat>, e: nat): set<nat> {
    set x | x in ids && x < e
  }

  function From(ids: set<nat>, e: nat): set<nat> {
    set x | x in ids && x >= e
  }

  // ---- the store ---------------------------------------------------------------

  /** The half-done change, if any, that the scheduler is making to the store. */
  datatype Busy =
    | NoBusy
    | BReady(ld: Load)
    | BBad(ld: Load)
    | BMove(mv: Move)
    | BReserved(p: Place, v: nat)
    | BClear(p: Place, v: nat)

  function BusyOf(layer: nat, sched: Sched): Busy {
    match sched
    case LoadReady(ld) => BReady(ld)
    case LoadBad(ld) => BBad(ld)
    case MoveReady(m) => BMove(m)
    case Reserved(g, v) => BReserved(GoalPlace(layer, g), v)
    case EvictClear(g, v, vx) => BClear(Place(vx, GoalPlace(layer, g).pool), v)
    case _ => NoBusy
  }

  ghost predicate NoEntry(st: Store, ex: Expert) {
    forall p :: p in st.dir ==> p.ex != ex
  }

  ghost predicate NoMoveFrom(st: Store, v: nat) {
    forall i :: 0 <= i < |st.moves| ==> st.moves[i].src != v
  }

  ghost predicate NoLoadAt(st: Store, v: nat) {
    forall i :: i in st.loads ==> st.loads[i].slot != v
  }

  ghost predicate LoadingBacked(st: Store, b: Busy, p: Place, v: nat)
    requires v < |st.slots|
  {
    match b
    case BReady(ld) => (p == Place(ld.ex, ld.pool) && v == ld.slot && st.slots[v].st == Ready) || LoadedBy(st, v)
    case BBad(ld) => (p == Place(ld.ex, ld.pool) && v == ld.slot && st.slots[v].st == Failed) || LoadedBy(st, v)
    case BReserved(q, w) => (p == q && v == w && st.slots[v].st == IoInflight) || LoadedBy(st, v)
    case _ => LoadedBy(st, v)
  }

  ghost predicate LoadedBy(st: Store, v: nat)
    requires v < |st.slots|
  {
    st.slots[v].st == IoInflight && exists i :: i in st.loads && st.loads[i].slot == v
  }

  ghost predicate MoveBacked(st: Store, b: Busy, v: nat)
    requires v < |st.slots|
  {
    || (b.BMove? && b.mv.dst == v && st.slots[v].st == Ready)
    || (st.slots[v].st == IoInflight && exists i :: 0 <= i < |st.moves| && st.moves[i].dst == v)
  }

  /** A directory cell agrees with the slot it names. */
  ghost predicate EntryOk(st: Store, b: Busy, p: Place)
    requires p in st.dir && st.dir[p].slot < |st.slots| && |st.slots| == |st.bytes|
  {
    var v := st.dir[p].slot;
    match st.dir[p].st
    case Resident => st.bytes[v] == Some(p.ex) &&
        (st.slots[v].st == Ready || (b == BClear(p, v) && st.slots[v].st == Evicting))
    case Loading => LoadingBacked(st, b, p, v)
    case MovingIn => p.pool == 0 && MoveBacked(st, b, v)
    case MovingOut => false
    case LoadFailed => false
  }

  /** A cell names a slot in the region of its pool and of its layer's group. */
  ghost predicate CellInRegion(cfg: Config, p: Place, e: Entry) {
    && p.ex.layer < cfg.nLayers && p.ex.id < cfg.nExperts && e.slot < cfg.nSlots
    && cfg.Home(p.ex.layer, p.pool).Some? && cfg.Home(p.ex.layer, p.pool).value.Has(e.slot)
  }

  ghost predicate DirTyped(cfg: Config, dir: Directory) {
    forall p :: p in dir ==> CellInRegion(cfg, p, dir[p])
  }

  /** One cell per expert and one cell per slot. */
  ghost predicate DirUnique(dir: Directory) {
    && (forall p, q :: p in dir && q in dir && p.ex == q.ex ==> p == q)
    && (forall p, q :: p in dir && q in dir && dir[p].slot == dir[q].slot ==> p == q)
  }

  ghost predicate DirAgrees(st: Store, b: Busy) {
    && |st.slots| == |st.bytes|
    && forall p :: p in st.dir ==> st.dir[p].slot < |st.slots| && EntryOk(st, b, p)
  }

  ghost predicate LoadOk(st: Store, ld: Load) {
    && ld.slot < |st.slots| && ld.slot < |st.bytes|
    && Place(ld.ex, ld.pool) in st.dir && st.dir[Place(ld.ex, ld.pool)] == Entry(Loading, ld.slot)
    && st.slots[ld.slot].st == IoInflight
    && (ld.status == Arrived ==> st.bytes[ld.slot] == Some(ld.ex))
  }

  /** Every outstanding load fills the slot its LOADING cell names. */
  ghost predicate LoadsOk(st: Store) {
    forall i :: i in st.loads ==> LoadOk(st, st.loads[i])
  }

  /** One outstanding load per slot. */
  ghost predicate LoadsUnique(loads: map<nat, Load>) {
    forall i, j :: i in loads && j in loads && loads[i].slot == loads[j].slot ==> i == j
  }

  ghost predicate MoveOk(st: Store, m: Move) {
    && m.src < |st.slots| && m.dst < |st.slots| == |st.bytes|
    && Place(m.ex, 0) in st.dir && st.dir[Place(m.ex, 0)] == Entry(MovingIn, m.dst)
    && st.slots[m.dst].st == IoInflight
    && st.slots[m.src].st == Evicting
    && st.bytes[m.src] == Some(m.ex)
    && NotNamed(st, m.src)
  }

  ghost predicate NotNamed(st: Store, v: nat) {
    forall p :: p in st.dir ==> st.dir[p].slot != v
  }

  /** Every submitted move copies a detached source into the slot its MOVING_IN cell names. */
  ghost predicate MovesOk(st: Store) {
    && st.copied <= |st.moves|
    && (forall i :: 0 <= i < |st.moves| ==> MoveOk(st, st.moves[i]))
    && (forall i ::
         0 <= i < st.copied ==> st.moves[i].dst < |st.bytes| && st.bytes[st.moves[i].dst] == Some(st.moves[i].ex))
  }

  /** No slot is the source, or the destination, of two moves. */
  ghost predicate MovesUnique(moves: seq<Move>) {
    && (forall i, j :: 0 <= i < |moves| && 0 <= j < |moves| && i != j ==> moves[i].src != moves[j].src)
    && (forall i, j :: 0 <= i < |moves| && 0 <= j < |moves| && i != j ==> moves[i].dst != moves[j].dst)
  }

  /** Slot v was taken out of circulation by the scheduler and nothing refers to it. */
  ghost predicate Detached(st: Store, v: nat) {
    v < |st.slots| && st.slots[v].st == Evicting && NoMoveFrom(st, v) && NotNamed(st, v)
  }

  ghost predicate Cell(st: Store, p: Place, e: Entry) {
    p in st.dir && st.dir[p] == e
  }

  ghost predicate BusyOk(st: Store, b: Busy)
    requires |st.slots| == |st.bytes|
  {
    match b
    case NoBusy => true
    case BReady(ld) =>
      && ld.slot < |st.slots| && Cell(st, Place(ld.ex, ld.pool), Entry(Loading, ld.slot))
      && st.slots[ld.slot].st == Ready && st.bytes[ld.slot] == Some(ld.ex) && NoLoadAt(st, ld.slot)
    case BBad(ld) =>
      && ld.slot < |st.slots| && Cell(st, Place(ld.ex, ld.pool), Entry(Loading, ld.slot))
      && st.slots[ld.slot].st == Failed && NoLoadAt(st, ld.slot)
    case BMove(m) =>
      && m.dst < |st.slots| && Cell(st, Place(m.ex, 0), Entry(MovingIn, m.dst))
      && st.slots[m.dst].st == Ready && st.bytes[m.dst] == Some(m.ex) && Detached(st, m.src)
      && (forall i :: 0 <= i < |st.moves| ==> st.moves[i].dst != m.dst)
    case BReserved(p, v) =>
      v < |st.slots| && Cell(st, p, Entry(Loading, v)) && st.slots[v].st == IoInflight && NoLoadAt(st, v)
    case BClear(p, v) =>
      v < |st.slots| && Cell(st, p, Entry(Resident, v)) && st.slots[v].st == Evicting && NoMoveFrom(st, v)
  }

  ghost predicate StoreOk(cfg: Config, st: Store, b: Busy) {
    && |st.slots| == |st.bytes| == cfg.nSlots
    && (forall v :: 0 <= v < |st.slots| && st.slots[v].st != Ready ==> st.slots[v].ref == 0)
    && DirTyped(cfg, st.dir) && DirUnique(st.dir) && DirAgrees(st, b)
    && LoadsOk(st) && LoadsUnique(st.loads) && MovesOk(st) && MovesUnique(st.moves) && BusyOk(st, b)
  }

  // ---- pins ----------------------------------------------------------------------

  /** A pin is good: its slot is READY, of the same generation, full of the
      expert's bytes, and it is what the directory's READY cell names. */
  ghost predicate HandleOk(st: Store, h: Handle) {
    && h.slot < |st.slots| && h.slot < |st.bytes|
    && st.slots[h.slot].st == Ready
    && st.slots[h.slot].gen == h.gen
    && st.bytes[h.slot] == Some(h.ex)
    && Cell(st, Place(h.ex, h.pool), Entry(Resident, h.slot))
  }

  ghost predicate HandlesOk(st: Store, hs: seq<Handle>) {
    forall i :: 0 <= i < |hs| ==> HandleOk(st, hs[i])
  }

  function PinCount(pins: Pins, v: nat): nat {
    Cnt(pins.held, v) + Cnt(pins.got, v) + Cnt(pins.granted, v)
  }

  /** Every pin is good and every refcount is exactly the number of pins. */
  ghost predicate PinsOk(st: Store, pins: Pins) {
    && HandlesOk(st, pins.held) && HandlesOk(st, pins.got) && HandlesOk(st, pins.granted)
    && forall v :: 0 <= v < |st.slots| ==> st.slots[v].ref == PinCount(pins, v)
  }

  // ---- the handshake ----------------------------------------------------------------

  /** What of the scheduler position matters to exec. */
  datatype Stage = Plain | Bumping | Tail | Failing | Flagging | Clearing

  function StageOf(sched: Sched): Stage {
    match sched
    case SettleBump(_) => Bumping
    case SettleEnd(_) => Tail
    case Triage(_) => Tail
    case After(k) => if k.KTriage? then Tail else Plain
    case FailUnpin(_) => Failing
    case FailFlag(_) => Flagging
    case FailClear(_) => Clearing
    case _ => Plain
  }

  /** The scheduler has an unfinished request: exec is committed to waiting. */
  ghost predicate Waited(active: Option<Active>, stage: Stage) {
    active.Some? && stage != Clearing && (active.value.nLeft > 0 || stage == Bumping)
  }

  ghost predicate InRange(cfg: Config, layer: nat, needed: set<nat>) {
    layer < cfg.nLayers && forall e :: e in needed ==> e < cfg.nExperts
  }

  /** n_left, the popcount of still_need, done and target while exec is committed to waiting. */
  ghost predicate CountsOk(active: Active, stage: Stage, exec: Exec, queue: seq<Request>, await: Await,
                           granted: seq<Handle>) {
    && exec.Waiting? && exec.layer == active.layer
    && queue == [] && !await.failed && await.target == |exec.missing|
    && active.still <= exec.missing && active.nLeft == |active.still|
    && await.done + active.nLeft + (if stage == Bumping then 1 else 0) == await.target
    && (stage == Flagging ==> granted == [])
    && (stage != Flagging && stage != Failing ==> Covers(granted, exec.layer, exec.missing - active.still))
  }

  /** The request exec waits for is still in the queue. */
  ghost predicate Queued(exec: Exec, queue: seq<Request>, await: Await, granted: seq<Handle>) {
    && exec.Waiting? && queue == [Request(exec.layer, exec.missing, |exec.missing|)]
    && await == Await(0, false, |exec.missing|) && granted == []
  }

  /** The current request is answered: all of B granted, or failed with nothing granted. */
  ghost predicate Answered(layer: nat, missing: set<nat>, queue: seq<Request>, await: Await, granted: seq<Handle>) {
    && queue == []
    && (await.failed ==> granted == [])
    && (!await.failed ==> await.done == await.target == |missing| && Covers(granted, layer, missing))
  }

  ghost predicate HandshakeOk(active: Option<Active>, stage: Stage, exec: Exec, queue: seq<Request>, await: Await,
                              granted: seq<Handle>) {
    && (Waited(active, stage) ==> CountsOk(active.value, stage, exec, queue, await, granted))
    && (active.Some? && !Waited(active, stage) ==>
          stage == Clearing || (stage == Tail && active.value.still == {} && active.value.nLeft == 0))
    && (active.None? ==> stage == Plain)
    && match exec
       case Waiting(layer, _, missing) =>
         Waited(active, stage) || Queued(exec, queue, await, granted) || Answered(layer, missing, queue, await, granted)
       case Woken(layer, _, missing) => Answered(layer, missing, queue, await, granted)
       case Collect(layer, _, missing, e, pool) =>
         && queue == [] && !await.failed && Covers(granted, layer, From(missing, e))
         && (forall i :: 0 <= i < |granted| && granted[i].ex.id == e ==> pool <= granted[i].pool)
       case Push(_, _, missing) => queue == [] && granted == [] && await == Await(0, false, |missing|)
       case _ => queue == [] && granted == []
  }

  /** Locals of pin_layer: which experts exec has pinned or recorded so far. */
  ghost predicate ExecOk(cfg: Config, exec: Exec, got: seq<Handle>) {
    match exec
    case Idle => got == []
    case Scan(layer, needed, missing, e, pool) =>
      && InRange(cfg, layer, needed) && missing <= needed && (forall x :: x in missing ==> x < e)
      && Covers(got, layer, Below(needed - missing, e))
    case Pin(layer, needed, missing, e, pool, _) =>
      && InRange(cfg, layer, needed) && missing <= needed && e in needed && (forall x :: x in missing ==> x < e)
      && Covers(got, layer, Below(needed - missing, e))
    case Push(layer, needed, missing) =>
      InRange(cfg, layer, needed) && missing <= needed && missing != {} && Covers(got, layer, needed - missing)
    case Waiting(layer, needed, missing) =>
      InRange(cfg, layer, needed) && missing <= needed && missing != {} && Covers(got, layer, needed - missing)
    case Woken(layer, needed, missing) =>
      InRange(cfg, layer, needed) && missing <= needed && Covers(got, layer, needed - missing)
    case Collect(layer, needed, missing, e, _) =>
      InRange(cfg, layer, needed) && missing <= needed && Covers(got, layer, (needed - missing) + Below(missing, e))
    case Rollback => true
  }

  /** The slot exec is about to pin is still the one the READY cell names. */
  ghost predicate PinTargetOk(st: Store, exec: Exec) {
    exec.Pin? ==> Cell(st, Place(Expert(exec.layer, exec.e), exec.pool), Entry(Resident, exec.slot))
  }

  // ---- scheduler positions ----------------------------------------------------------

  ghost predicate KOk(st: Store, k: Cont) {
    k.KMove? ==> Detached(st, k.src)
  }

  ghost predicate InGoalRegion(cfg: Config, layer: nat, g: Goal, v: nat) {
    GoalRegion(cfg, layer, g).Some? && GoalRegion(cfg, layer, g).value.Has(v)
  }

  /** Item e of the active request is wanted: exec waits for it. */
  ghost predicate ItemOk(cfg: Config, active: Option<Active>, stage: Stage, e: nat) {
    && Waited(active, stage) && active.value.layer < cfg.nLayers && e < cfg.nExperts && e in active.value.still
  }

  ghost predicate SourceOk(cfg: Config, st: Store, layer: nat, g: Goal)
    requires g.ForDemote?
  {
    && g.pool != 0 && Detached(st, g.src) && g.src < |st.bytes| && st.bytes[g.src] == Some(g.vx)
    && g.vx.layer < cfg.nLayers && g.vx.id < cfg.nExperts && g.vx != Expert(layer, g.e)
    && InGoalRegion(cfg, layer, ForRequest(g.e, g.pool, g.pass), g.src)
  }

  /** No pool holds a cell for the goal's expert, nor for the expert a demotion is part of. */
  ghost predicate GoalOk(cfg: Config, st: Store, active: Option<Active>, g: Goal) {
    && ItemOk(cfg, active, Plain, g.e)
    && NoEntry(st, Expert(active.value.layer, g.e))
    && (g.ForDemote? ==> SourceOk(cfg, st, active.value.layer, g) && NoEntry(st, g.vx))
  }

  ghost predicate VictimOk(cfg: Config, st: Store, layer: nat, g: Goal, v: nat) {
    && InGoalRegion(cfg, layer, g, v) && v < |st.slots| && (g.ForDemote? ==> g.src != v)
  }

  ghost predicate PosOk(cfg: Config, st: Store, active: Option<Active>, sched: Sched) {
    var layer := ActiveLayer(active);
    match sched
    case Settle(ex, pool, v, k) => KOk(st, k) && Cell(st, Place(ex, pool), Entry(Resident, v)) && !k.KTriage?
    case SettleBump(k) => KOk(st, k) && active.Some?
    case SettleEnd(k) => KOk(st, k) && active.Some?
    case FailUnpin(k) => KOk(st, k) && Waited(active, Failing) && !k.KTriage?
    case FailFlag(k) => KOk(st, k) && Waited(active, Flagging) && !k.KTriage?
    case FailClear(k) => KOk(st, k) && active.Some? && !k.KTriage?
    case After(k) => KOk(st, k)
    case Triage(_) => active.Some?
    case Serve(_, _) => Waited(active, Plain)
    case Alloc(g) => GoalOk(cfg, st, active, g)
    case EvictCas(g, v, vx) =>
      && GoalOk(cfg, st, active, g) && VictimOk(cfg, st, layer, g, v)
      && Cell(st, Place(vx, GoalPlace(layer, g).pool), Entry(Resident, v)) && st.slots[v].st == Ready &&
           st.slots[v].ref == 0
    case EvictClear(g, v, vx) => GoalOk(cfg, st, active, g) && VictimOk(cfg, st, layer, g, v)
    case EvictDrain(g, v, vx) =>
      && GoalOk(cfg, st, active, g) && VictimOk(cfg, st, layer, g, v) && Detached(st, v)
      && v < |st.bytes| && st.bytes[v] == Some(vx) && NoEntry(st, vx)
      && vx.layer < cfg.nLayers && vx.id < cfg.nExperts && vx != Expert(layer, g.e)
      && (g.ForDemote? ==> vx != g.vx)
    case Reload(g, v) => GoalOk(cfg, st, active, g) && VictimOk(cfg, st, layer, g, v) && Detached(st, v)
    case Reserved(g, v) =>
      && ItemOk(cfg, active, Plain, g.e)
      && (g.ForDemote? ==> NoEntry(st, Expert(layer, g.e)) && SourceOk(cfg, st, layer, g))
    case NoSlot(g) => GoalOk(cfg, st, active, g)
    case _ => true
  }

  ghost predicate Inv(cfg: Config, s: Sys) {
    && cfg.Valid()
    && StoreOk(cfg, s.store, BusyOf(ActiveLayer(s.active), s.sched))
    && PinsOk(s.store, s.pins)
    && HandshakeOk(s.active, StageOf(s.sched), s.exec, s.queue, s.await, s.pins.granted)
    && ExecOk(cfg, s.exec, s.pins.got)
    && PinTargetOk(s.store, s.exec)
    && PosOk(cfg, s.store, s.active, s.sched)
  }

  lemma InitEstablishesInv(cfg: Config, s: Sys)
    requires cfg.Valid() && Init(cfg, s)
    ensures Inv(cfg, s)
  {
  }
}
