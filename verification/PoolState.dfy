/** The bounded expert pool shared by one exec thread, the scheduler thread, the
    DIO engine and the move worker: configuration and state.

    Counters are unbounded here; the 2^32 wrap of generations and versions is
    not modelled. */
module PoolState {
  import opened Basics

  /** Largest refcount a slot word can hold: 29 bits. */
  const MAX_REF: nat := 0x1FFF_FFFF

  datatype SlotState = Empty | IoInflight | Ready | Evicting | Failed

  /** One slot_meta word, unpacked. */
  datatype Slot = Slot(st: SlotState, ref: nat, gen: nat) {

    predicate Pinnable() {
      st == Ready && ref < MAX_REF
    }

    function Unpin(): Slot {
      if ref == 0 then this else this.(ref := ref - 1)
    }

    function MarkReady(): Slot {
      if st == IoInflight then this.(st := Ready) else this
    }

    function BeginReload(): Slot {
      Slot(IoInflight, 0, gen + 1)
    }

    function ReleaseToEmpty(): Slot {
      Slot(Empty, 0, gen + 1)
    }
  }

  /** An expert of the model: (layer, index within the layer). */
  datatype Expert = Expert(layer: nat, id: nat)

  /** A directory cell; ABSENT cells are simply not in the directory map. */
  datatype Place = Place(ex: Expert, pool: nat)

  datatype EntryState = Loading | Resident | MovingOut | MovingIn | LoadFailed

  datatype Entry = Entry(st: EntryState, slot: nat)

  type Directory = map<Place, Entry>

  /** A contiguous run of slots serving one expert group in one pool. */
  datatype Region = Region(pool: nat, group: nat, first: nat, count: nat, geometry: nat) {
    predicate Has(s: nat) {
      first <= s < first + count
    }
  }

  datatype Config = Config(nLayers: nat, nExperts: nat, nPools: nat, nSlots: nat, ring: nat,
                           groupOf: seq<Option<nat>>, regions: seq<Region>) {

    ghost predicate Valid() {
      && |groupOf| == nLayers
      && nPools >= 1
      && (forall i :: 0 <= i < |regions| ==> regions[i].first + regions[i].count <= nSlots && regions[i].pool < nPools)
      && (forall i, j :: 0 <= i < j < |regions| ==> regions[i].first + regions[i].count <= regions[j].first)
    }

    function GroupOf(layer: nat): Option<nat> {
      if layer < |groupOf| then groupOf[layer] else None
    }

    /** First region of `group` in `pool`, searching from index i. */
    function FindRegion(pool: nat, group: nat, i: nat): (r: Option<Region>)
      ensures r.Some? ==> r.value in regions && r.value.pool == pool && r.value.group == group
      decreases |regions| - i
    {
      if i >= |regions| then None
      else if regions[i].pool == pool && regions[i].group == group then Some(regions[i])
      else FindRegion(pool, group, i + 1)
    }

    /** First device region of `group`, searching from index i. */
    function FindDevice(group: nat, i: nat): (r: Option<Region>)
      ensures r.Some? ==> r.value in regions && r.value.pool != 0 && r.value.group == group
      decreases |regions| - i
    {
      if i >= |regions| then None
      else if regions[i].pool != 0 && regions[i].group == group then Some(regions[i])
      else FindDevice(group, i + 1)
    }

    /** The region in which experts of `layer` live in `pool`. */
    function Home(layer: nat, pool: nat): (r: Option<Region>)
      ensures r.Some? ==> r.value in regions && r.value.pool == pool && GroupOf(layer) == Some(r.value.group)
    {
      match GroupOf(layer)
      case None => None
      case Some(g) => FindRegion(pool, g, 0)
    }

    function DevicePool(layer: nat): (p: Option<nat>)
      ensures p.Some? ==> p.value != 0
    {
      match GroupOf(layer)
      case None => None
      case Some(g) =>
        match FindDevice(g, 0)
        case None => None
        case Some(r) => Some(r.pool)
    }
  }

  datatype LoadStatus = Pending | Arrived | Errored

  /** One asynchronous load occupying an element of the load ring. */
  datatype Load = Load(ex: Expert, pool: nat, slot: nat, status: LoadStatus)

  /** One asynchronous device-to-RAM move. */
  datatype Move = Move(ex: Expert, src: nat, dst: nat)

  /** A pin: the slot it holds, the generation seen, and whose bytes it is for. */
  datatype Handle = Handle(slot: nat, gen: nat, ex: Expert, pool: nat)

  datatype Request = Request(layer: nat, needed: set<nat>, target: nat)

  /** The single active request served by the scheduler. */
  datatype Active = Active(layer: nat, still: set<nat>, nLeft: nat)

  /** Program counter and locals of the exec thread inside pin_layer. */
  datatype Exec =
    | Idle
    | Scan(layer: nat, needed: set<nat>, missing: set<nat>, e: nat, pool: nat)
    | Pin(layer: nat, needed: set<nat>, missing: set<nat>, e: nat, pool: nat, slot: nat)
    | Push(layer: nat, needed: set<nat>, missing: set<nat>)
    | Waiting(layer: nat, needed: set<nat>, missing: set<nat>)
    | Woken(layer: nat, needed: set<nat>, missing: set<nat>)
    | Collect(layer: nat, needed: set<nat>, missing: set<nat>, e: nat, pool: nat)
    | Rollback

  /** Flags of one accept_requests pass; first marks the pass that registered the request. */
  datatype Pass = Pass(started: bool, noSlot: bool, first: bool)

  /** What a slot is being allocated for. */
  datatype Goal =
    | ForRequest(e: nat, pool: nat, pass: Pass)
    | ForDemote(e: nat, pool: nat, pass: Pass, src: nat, vx: Expert)

  /** Where the scheduler continues after settling or failing an item. */
  datatype Cont =
    | KRing
    | KMove(src: nat)
    | KServe(e: nat, pass: Pass)
    | KTriage(e: nat)
    | KStop

  /** Program counter and locals of the scheduler thread. */
  datatype Sched =
    | Tick
    | LoadReady(ld: Load)
    | LoadBad(ld: Load)
    | LoadBadSet(ld: Load)
    | MoveReady(mv: Move)
    | Settle(ex: Expert, pool: nat, slot: nat, k: Cont)
    | SettleBump(k: Cont)
    | SettleEnd(k: Cont)
    | FailUnpin(k: Cont)
    | FailFlag(k: Cont)
    | FailClear(k: Cont)
    | After(k: Cont)
    | Triage(te: nat)
    | Serve(se: nat, pass: Pass)
    | ServeEnd(pass: Pass)
    | Alloc(goal: Goal)
    | EvictCas(goal: Goal, v: nat, vx: Expert)
    | EvictClear(goal: Goal, v: nat, vx: Expert)
    | EvictDrain(goal: Goal, v: nat, vx: Expert)
    | Reload(goal: Goal, v: nat)
    | Reserved(goal: Goal, v: nat)
    | NoSlot(goal: Goal)

  /** Slots, contents, directory, outstanding loads and moves.
      bytes[s]   whose complete bytes slot s holds (a history variable);
      moves      submitted moves in queue order, the first `copied` of them done by the worker. */
  datatype Store = Store(
    slots: seq<Slot>,
    bytes: seq<Option<Expert>>,
    dir: Directory,
    loads: map<nat, Load>,
    moves: seq<Move>,
    copied: nat)

  /** Who owns the pins.
      held     owned by callers of pin_layer;
      got      taken or recorded by the current pin_layer;
      granted  taken by the scheduler for the current pin_layer and not collected by it yet
               (active_pinned_slots_ while the request is active). */
  datatype Pins = Pins(held: seq<Handle>, got: seq<Handle>, granted: seq<Handle>)

  /** The exec thread's batch_await_t. */
  datatype Await = Await(done: nat, failed: bool, target: nat)

  /** The whole system.
      ret      value returned by the last pin_layer;
      clean    history: no I/O failure so far;
      refused  history: some request has failed so far. */
  datatype Sys = Sys(
    store: Store,
    pins: Pins,
    active: Option<Active>,
    queue: seq<Request>,
    await: Await,
    ringFree: nat,
    exec: Exec,
    sched: Sched,
    ret: int,
    clean: bool,
    refused: bool)
}
