/** Exec, DIO and move worker steps preserve the invariant. */
module PoolExecProofs {
  import opened Basics
  import opened PoolState
  import opened PoolSteps
  import opened PoolInvariant
  import opened PoolStoreProofs

  // ---- counting handles --------------------------------------------------------

  lemma {:induction false} CntConcat(a: seq<Handle>, b: seq<Handle>, slot: nat)
    ensures Cnt(a + b, slot) == Cnt(a, slot) + Cnt(b, slot)
  {
    if a == [] {
      assert a + b == b;
    } else {
      assert (a + b)[1..] == a[1..] + b;
      CntConcat(a[1..], b, slot);
    }
  }

  lemma CntWithout(hs: seq<Handle>, i: nat, slot: nat)
    requires i < |hs|
    ensures Cnt(hs, slot) == Cnt(Without(hs, i), slot) + if hs[i].slot == slot then 1 else 0
  {
    assert hs == hs[..i] + ([hs[i]] + hs[i + 1..]);
    CntConcat(hs[..i], [hs[i]] + hs[i + 1..], slot);
    CntConcat([hs[i]], hs[i + 1..], slot);
    CntConcat(hs[..i], hs[i + 1..], slot);
  }

  lemma {:induction false} CntZero(hs: seq<Handle>, slot: nat)
    ensures Cnt(hs, slot) == 0 <==> forall i :: 0 <= i < |hs| ==> hs[i].slot != slot
  {
    if hs != [] {
      CntZero(hs[1..], slot);
      assert forall i :: 0 < i < |hs| ==> hs[i] == hs[1..][i - 1];
      assert forall i :: 0 <= i < |hs[1..]| ==> hs[1..][i] == hs[i + 1];
    }
  }

  // ---- covered experts -----------------------------------------------------------

  lemma CoversAppend(hs: seq<Handle>, layer: nat, ids: set<nat>, h: Handle)
    requires Covers(hs, layer, ids) && h.ex.layer == layer && h.ex.id !in ids
    ensures Covers(hs + [h], layer, ids + {h.ex.id})
  {
    var t := hs + [h];
    assert forall i :: 0 <= i < |hs| ==> t[i] == hs[i];
    assert forall i :: 0 <= i < |hs| ==> hs[i].ex.id in Ids(hs);
    assert Ids(t) == Ids(hs) + {h.ex.id} by {
      assert t[|hs|] == h;
    }
  }

  lemma CoversWithout(hs: seq<Handle>, layer: nat, ids: set<nat>, i: nat)
    requires Covers(hs, layer, ids) && i < |hs|
    ensures Covers(Without(hs, i), layer, ids - {hs[i].ex.id})
  {
    var t := Without(hs, i);
    assert forall j :: 0 <= j < |t| ==> t[j] == hs[if j < i then j else j + 1];
    forall x | x in ids - {hs[i].ex.id} ensures x in Ids(t) {
      var j :| 0 <= j < |hs| && hs[j].ex.id == x;
      assert t[if j < i then j else j - 1] == hs[j];
    }
    assert Ids(t) == ids - {hs[i].ex.id};
  }

  // ---- pins ------------------------------------------------------------------------

  lemma PinFrame(st: Store, v: nat, n: nat, h: Handle)
    requires v < |st.slots| && HandleOk(st, h)
    ensures HandleOk(WithSlot(st, v, st.slots[v].(ref := n)), h)
  {
  }

  lemma PinsFrame(st: Store, v: nat, n: nat, hs: seq<Handle>)
    requires v < |st.slots| && HandlesOk(st, hs)
    ensures HandlesOk(WithSlot(st, v, st.slots[v].(ref := n)), hs)
  {
    forall i | 0 <= i < |hs| ensures HandleOk(WithSlot(st, v, st.slots[v].(ref := n)), hs[i]) {
      PinFrame(st, v, n, hs[i]);
    }
  }

  lemma AppendHandle(st: Store, hs: seq<Handle>, h: Handle)
    requires HandlesOk(st, hs) && HandleOk(st, h)
    ensures HandlesOk(st, hs + [h])
    ensures forall v :: 0 <= v < |st.slots| ==> Cnt(hs + [h], v) == Cnt(hs, v) + if h.slot == v then 1 else 0
  {
    var t := hs + [h];
    forall i | 0 <= i < |t| ensures HandleOk(st, t[i]) {
      if i < |hs| { assert t[i] == hs[i]; }
    }
    forall v | 0 <= v < |st.slots| ensures Cnt(t, v) == Cnt(hs, v) + if h.slot == v then 1 else 0 {
      CntConcat(hs, [h], v);
    }
  }

  lemma RemoveHandle(st: Store, hs: seq<Handle>, i: nat)
    requires HandlesOk(st, hs) && i < |hs|
    ensures HandlesOk(st, Without(hs, i))
    ensures forall v :: 0 <= v < |st.slots| ==> Cnt(hs, v) == Cnt(Without(hs, i), v) + if hs[i].slot == v then 1 else 0
  {
    var t := Without(hs, i);
    forall j | 0 <= j < |t| ensures HandleOk(st, t[j]) {
      assert t[j] == hs[if j < i then j else j + 1];
    }
    forall v | 0 <= v < |st.slots| ensures Cnt(hs, v) == Cnt(t, v) + if hs[i].slot == v then 1 else 0 {
      CntWithout(hs, i, v);
    }
  }

  /** A new pin on a resident slot. */
  lemma AddPin(st: Store, pins: Pins, h: Handle, toGranted: bool)
    requires |st.slots| == |st.bytes|
    requires PinsOk(st, pins) && HandleOk(st, h)
    ensures PinsOk(PinSlot(st, h.slot),
              if toGranted then pins.(granted := pins.granted + [h]) else pins.(got := pins.got + [h]))
  {
    var st' := PinSlot(st, h.slot);
    hide HandlesOk, HandleOk;
    var n := st.slots[h.slot].ref + 1;
    PinsFrame(st, h.slot, n, pins.held);
    PinsFrame(st, h.slot, n, pins.got);
    PinsFrame(st, h.slot, n, pins.granted);
    PinFrame(st, h.slot, n, h);
    AppendHandle(st', pins.got, h);
    AppendHandle(st', pins.granted, h);
  }

  /** Which of the three lists of pins. */
  datatype Which = Held | Got | Granted

  function PinList(pins: Pins, w: Which): seq<Handle> {
    match w
    case Held => pins.held
    case Got => pins.got
    case Granted => pins.granted
  }

  function DropFrom(pins: Pins, w: Which, i: nat): Pins {
    match w
    case Held => pins.(held := Without(pins.held, i))
    case Got => pins.(got := Without(pins.got, i))
    case Granted => pins.(granted := Without(pins.granted, i))
  }

  /** Releasing pin i of one of the three lists. */
  lemma DropPin(st: Store, pins: Pins, w: Which, i: nat)
    requires PinsOk(st, pins) && i < |PinList(pins, w)| && PinList(pins, w)[i].slot < |st.slots|
    ensures PinsOk(UnpinSlot(st, PinList(pins, w)[i].slot), DropFrom(pins, w, i))
    ensures var x := st.slots[PinList(pins, w)[i].slot]; x.st == Ready && x.ref > 0
  {
    var hs := PinList(pins, w);
    var v := hs[i].slot;
    assert HandleOk(st, hs[i]);
    RemoveHandle(st, hs, i);
    hide HandlesOk, HandleOk;
    var n := st.slots[v].ref - 1;
    PinsFrame(st, v, n, pins.held);
    PinsFrame(st, v, n, pins.got);
    PinsFrame(st, v, n, pins.granted);
    RemoveHandle(WithSlot(st, v, st.slots[v].(ref := n)), hs, i);
  }

  lemma TailIsWithout(hs: seq<Handle>)
    requires hs != []
    ensures hs[1..] == Without(hs, 0)
  {
  }

  // ---- frames for scheduler positions ---------------------------------------------

  /** A scheduler that is not serving a request does not look at refcounts. */
  lemma PosFrameRef(cfg: Config, st: Store, active: Option<Active>, sched: Sched, v: nat, n: nat)
    requires v < |st.slots| && PosOk(cfg, st, active, sched) && !Waited(active, StageOf(sched))
    ensures PosOk(cfg, WithSlot(st, v, st.slots[v].(ref := n)), active, sched)
  {
  }

  lemma PosFrameEnv(cfg: Config, st: Store, st': Store, active: Option<Active>, sched: Sched)
    requires PosOk(cfg, st, active, sched) && st'.slots == st.slots && st'.dir == st.dir && st'.moves == st.moves
    requires |st'.bytes| == |st.bytes|
    requires forall v ::
               0 <= v < |st.slots| && v < |st.bytes| && st.slots[v].st == Evicting ==> st'.bytes[v] == st.bytes[v]
    ensures PosOk(cfg, st', active, sched)
  {
  }

  /** Exec waits whenever the scheduler has an unfinished request. */
  lemma NotWaited(cfg: Config, s: Sys)
    requires Inv(cfg, s) && !s.exec.Waiting?
    ensures !Waited(s.active, StageOf(s.sched))
  {
    hide StoreOk, PinsOk, ExecOk, PinTargetOk, PosOk;
  }

  lemma StoreCell(cfg: Config, st: Store, b: Busy, p: Place)
    requires StoreOk(cfg, st, b) && p in st.dir
    ensures |st.slots| == |st.bytes| == cfg.nSlots && st.dir[p].slot < cfg.nSlots && EntryOk(st, b, p)
    ensures CellInRegion(cfg, p, st.dir[p])
  {
    CellAgrees(st, b, p);
    CellTyped(cfg, st.dir, p);
  }

  /** try_pin on the slot a READY cell names: the store stays consistent, the pin is good. */
  lemma TakePin(cfg: Config, st: Store, b: Busy, pins: Pins, h: Handle, toGranted: bool)
    requires StoreOk(cfg, st, b) && PinsOk(st, pins)
    requires Cell(st, Place(h.ex, h.pool), Entry(Resident, h.slot))
    requires h.slot < |st.slots| && st.slots[h.slot].st == Ready && h.gen == st.slots[h.slot].gen
    ensures StoreOk(cfg, PinSlot(st, h.slot), b)
    ensures PinsOk(PinSlot(st, h.slot),
              if toGranted then pins.(granted := pins.granted + [h]) else pins.(got := pins.got + [h]))
  {
    hide StoreOk, PinsOk;
    StoreCell(cfg, st, b, Place(h.ex, h.pool));
    RefChange(cfg, st, b, h.slot, st.slots[h.slot].ref + 1);
    AddPin(st, pins, h, toGranted);
  }

  predicate Quiet(exec: Exec) {
    exec.Idle? || exec.Scan? || exec.Pin? || exec.Rollback?
  }

  /** Outside the wait the handshake does not depend on where exec is. */
  lemma QuietFrame(active: Option<Active>, stage: Stage, exec: Exec, exec': Exec, queue: seq<Request>, await: Await,
                   granted: seq<Handle>)
    requires HandshakeOk(active, stage, exec, queue, await, granted) && Quiet(exec) && Quiet(exec')
    ensures HandshakeOk(active, stage, exec', queue, await, granted) && queue == [] && granted == [] &&
              !Waited(active, stage)
  {
  }

  // ---- exec steps -------------------------------------------------------------------

  lemma ScanPreserves(cfg: Config, s: Sys)
    requires Inv(cfg, s) && s.exec.Scan?
    ensures Inv(cfg, ScanStep(cfg, s))
  {
    hide Inv, ScanStep;
    if s.exec.e >= cfg.nExperts {
      ScanEndPreserves(cfg, s);
    } else {
      ScanOnPreserves(cfg, s);
    }
  }

  lemma ScanEndPreserves(cfg: Config, s: Sys)
    requires Inv(cfg, s) && s.exec.Scan? && s.exec.e >= cfg.nExperts
    ensures Inv(cfg, ScanStep(cfg, s))
  {
    hide StoreOk, PosOk;
    NotWaited(cfg, s);
    assert Below(s.exec.needed - s.exec.missing, s.exec.e) == s.exec.needed - s.exec.missing;
    if s.exec.missing == {} {
      ReturnPins(s.store, s.pins);
    }
  }

  lemma ScanOnPreserves(cfg: Config, s: Sys)
    requires Inv(cfg, s) && s.exec.Scan? && s.exec.e < cfg.nExperts
    ensures Inv(cfg, ScanStep(cfg, s))
  {
    hide StoreOk, PinsOk, PosOk;
    NotWaited(cfg, s);
    var Scan(layer, needed, missing, e, pool) := s.exec;
    if e !in needed {
      assert Below(needed - missing, e) == Below(needed - missing, e + 1);
    } else if pool >= cfg.nPools {
      assert Below(needed - missing, e) == Below(needed - (missing + {e}), e + 1);
    }
  }

  lemma ReturnPins(st: Store, pins: Pins)
    requires PinsOk(st, pins)
    ensures PinsOk(st, pins.(held := pins.held + pins.got, got := []))
  {
    forall v | 0 <= v < |st.slots| ensures Cnt(pins.held + pins.got, v) == Cnt(pins.held, v) + Cnt(pins.got, v) {
      CntConcat(pins.held, pins.got, v);
    }
  }

  /** Expert e has been dealt with: pinned, or added to the missing set. */
  lemma PinExecOk(cfg: Config, exec: Exec, got: seq<Handle>, h: Handle)
    requires ExecOk(cfg, exec, got) && exec.Pin? && h.ex == Expert(exec.layer, exec.e)
    ensures ExecOk(cfg, Scan(exec.layer, exec.needed, exec.missing + {exec.e}, exec.e + 1, 0), got)
    ensures ExecOk(cfg, Scan(exec.layer, exec.needed, exec.missing, exec.e + 1, 0), got + [h])
  {
    var Pin(layer, needed, missing, e, pool, v) := exec;
    assert Below(needed - (missing + {e}), e + 1) == Below(needed - missing, e);
    assert Below(needed - missing, e + 1) == Below(needed - missing, e) + {e};
    CoversAppend(got, layer, Below(needed - missing, e), h);
  }

  lemma PinPreserves(cfg: Config, s: Sys)
    requires Inv(cfg, s) && s.exec.Pin? && s.exec.slot < |s.store.slots|
    ensures Inv(cfg, PinStep(cfg, s))
  {
    hide PosOk, PinsOk, HandshakeOk, ExecOk, StoreOk;
    var Pin(layer, needed, missing, e, pool, v) := s.exec;
    var h := Handle(v, s.store.slots[v].gen, Expert(layer, e), pool);
    var s' := PinStep(cfg, s);
    assert s'.active == s.active && s'.sched == s.sched && s'.queue == s.queue && s'.await == s.await;
    assert s'.pins.granted == s.pins.granted && Quiet(s'.exec) && !s'.exec.Pin?;
    PinExecOk(cfg, s.exec, s.pins.got, h);
    QuietFrame(s.active, StageOf(s.sched), s.exec, s'.exec, s.queue, s.await, s.pins.granted);
    if s.store.slots[v].Pinnable() {
      assert s'.store == PinSlot(s.store, v) && s'.pins == s.pins.(got := s.pins.got + [h]);
      TakePin(cfg, s.store, BusyOf(ActiveLayer(s.active), s.sched), s.pins, h, false);
      PosFrameRef(cfg, s.store, s.active, s.sched, v, s.store.slots[v].ref + 1);
    } else {
      assert s'.store == s.store && s'.pins == s.pins;
    }
  }

  lemma PushPreserves(cfg: Config, s: Sys)
    requires Inv(cfg, s) && s.exec.Push?
    ensures Inv(cfg, PushStep(s))
  {
    hide StoreOk, PinsOk, PosOk, Covers, InRange;
  }

  lemma WakePreserves(cfg: Config, s: Sys)
    requires Inv(cfg, s) && CanWake(s)
    ensures Inv(cfg, WakeStep(s))
  {
    hide StoreOk, PinsOk, PosOk, Covers, InRange;
  }

  lemma WokenHandshake(active: Option<Active>, stage: Stage, exec: Exec, queue: seq<Request>, await: Await,
                       granted: seq<Handle>)
    requires HandshakeOk(active, stage, exec, queue, await, granted) && exec.Woken?
    ensures !await.failed ==>
              HandshakeOk(active, stage, Collect(exec.layer, exec.needed, exec.missing, 0, 0), queue, await, granted)
    ensures await.failed ==> HandshakeOk(active, stage, Rollback, queue, await, granted)
  {
    assert From(exec.missing, 0) == exec.missing;
    hide Covers;
  }

  lemma WokenPreserves(cfg: Config, s: Sys)
    requires Inv(cfg, s) && s.exec.Woken?
    ensures Inv(cfg, WokenStep(s))
  {
    hide StoreOk, PinsOk, PosOk, HandshakeOk;
    WokenHandshake(s.active, StageOf(s.sched), s.exec, s.queue, s.await, s.pins.granted);
    assert (s.exec.needed - s.exec.missing) + Below(s.exec.missing, 0) == s.exec.needed - s.exec.missing;
  }

  lemma StartPreserves(cfg: Config, s: Sys, layer: nat, needed: set<nat>)
    requires Inv(cfg, s) && CanStart(cfg, s, layer, needed)
    ensures Inv(cfg, StartPin(s, layer, needed))
  {
    hide StoreOk, PinsOk, PosOk;
    assert Below(needed - {}, 0) == {};
  }

  /** The granted handle for expert e is exactly what the post-wait scan finds. */
  lemma GrantFound(cfg: Config, s: Sys, i: nat)
    requires Inv(cfg, s) && i < |s.pins.granted|
    ensures var h := s.pins.granted[i];
            HandleOk(s.store, h) && h.pool < cfg.nPools && h.slot < cfg.nSlots &&
            forall q :: ResidentIn(s.store.dir, h.ex, q) ==> q == h.pool
  {
    hide PosOk, HandshakeOk, ExecOk, LoadsOk, LoadsUnique, MovesOk, MovesUnique, BusyOk, DirAgrees;
    var h := s.pins.granted[i];
    assert HandleOk(s.store, h);
    CellTyped(cfg, s.store.dir, Place(h.ex, h.pool));
    OnlyCell(s.store.dir, Place(h.ex, h.pool));
  }

  /** The post-wait scan reaches the pool of every expert it collects. */
  lemma CollectNeverMisses(cfg: Config, s: Sys)
    requires Inv(cfg, s) && s.exec.Collect? && s.exec.e in s.exec.missing
    ensures var ex := Expert(s.exec.layer, s.exec.e);
            var i := IndexOf(s.pins.granted, ex);
            && i < |s.pins.granted| && HandleOk(s.store, s.pins.granted[i])
            && s.exec.pool <= s.pins.granted[i].pool < cfg.nPools
            && (ResidentIn(s.store.dir, ex, s.exec.pool) ==> s.exec.pool == s.pins.granted[i].pool)
  {
    hide StoreOk, PosOk, PinsOk, ExecOk;
    var ex := Expert(s.exec.layer, s.exec.e);
    assert s.exec.e in From(s.exec.missing, s.exec.e);
    var j :| 0 <= j < |s.pins.granted| && s.pins.granted[j].ex.id == s.exec.e;
    assert s.pins.granted[j].ex == ex;
    GrantFound(cfg, s, IndexOf(s.pins.granted, ex));
  }

  lemma CollectPreserves(cfg: Config, s: Sys)
    requires Inv(cfg, s) && s.exec.Collect?
    ensures Inv(cfg, CollectStep(cfg, s))
  {
    hide StoreOk, PosOk, PinsOk;
    NotWaited(cfg, s);
    var Collect(layer, needed, missing, e, pool) := s.exec;
    if e >= cfg.nExperts {
      assert Below(missing, e) == missing;
      assert From(missing, e) == {};
      NoneCovered(s.pins.granted, layer);
      ReturnPins(s.store, s.pins);
    } else if e !in missing {
      assert Below(missing, e + 1) == Below(missing, e);
      assert From(missing, e + 1) == From(missing, e);
    } else {
      CollectNeverMisses(cfg, s);
      var ex := Expert(layer, e);
      var i := IndexOf(s.pins.granted, ex);
      if ResidentIn(s.store.dir, ex, pool) {
        CollectOne(cfg, s, i);
        assert From(missing, e) - {e} == From(missing, e + 1);
        assert (needed - missing) + Below(missing, e) + {e} == (needed - missing) + Below(missing, e + 1);
        CoversAppend(s.pins.got, layer, (needed - missing) + Below(missing, e), s.pins.granted[i]);
        CoversWithout(s.pins.granted, layer, From(missing, e), i);
      } else {
        assert forall j :: 0 <= j < |s.pins.granted| && s.pins.granted[j].ex.id == e ==> j == i;
      }
    }
  }

  lemma NoneCovered(hs: seq<Handle>, layer: nat)
    requires Covers(hs, layer, {})
    ensures hs == []
  {
    assert |hs| > 0 ==> hs[0].ex.id in Ids(hs);
  }

  /** Recording a B item moves its pin from the scheduler's ledger to exec's list. */
  lemma CollectOne(cfg: Config, s: Sys, i: nat)
    requires Inv(cfg, s) && s.exec.Collect? && s.exec.e < cfg.nExperts && s.exec.e in s.exec.missing
    requires i == IndexOf(s.pins.granted, Expert(s.exec.layer, s.exec.e)) && i < |s.pins.granted|
    requires ResidentIn(s.store.dir, Expert(s.exec.layer, s.exec.e), s.exec.pool) && s.exec.pool < cfg.nPools
    ensures CollectStep(cfg, s).pins ==
              s.pins.(got := s.pins.got + [s.pins.granted[i]], granted := Without(s.pins.granted, i))
    ensures PinsOk(s.store, CollectStep(cfg, s).pins)
    ensures CollectStep(cfg, s).exec == s.exec.(e := s.exec.e + 1, pool := 0)
    ensures CollectStep(cfg, s).pins.held == s.pins.held
  {
    hide PosOk, ExecOk, StoreOk, HandshakeOk;
    GrantFound(cfg, s, i);
    var pins := s.pins;
    var h := pins.granted[i];
    var t := Without(pins.granted, i);
    assert forall j :: 0 <= j < |t| ==> t[j] == pins.granted[if j < i then j else j + 1];
    forall v | 0 <= v < |s.store.slots|
      ensures Cnt(pins.got + [h], v) + Cnt(t, v) == Cnt(pins.got, v) + Cnt(pins.granted, v)
    {
      CntConcat(pins.got, [h], v);
      CntWithout(pins.granted, i, v);
    }
  }

  lemma RollbackPreserves(cfg: Config, s: Sys)
    requires Inv(cfg, s) && s.exec.Rollback? && (s.pins.got != [] ==> s.pins.got[0].slot < |s.store.slots|)
    ensures Inv(cfg, RollbackStep(s))
  {
    hide StoreOk, PosOk, PinsOk;
    NotWaited(cfg, s);
    if s.pins.got != [] {
      var v := s.pins.got[0].slot;
      TailIsWithout(s.pins.got);
      DropPin(s.store, s.pins, Got, 0);
      RefChange(cfg, s.store, BusyOf(ActiveLayer(s.active), s.sched), v, s.store.slots[v].ref - 1);
      PosFrameRef(cfg, s.store, s.active, s.sched, v, s.store.slots[v].ref - 1);
    }
  }

  lemma UnpinPreserves(cfg: Config, s: Sys, i: nat)
    requires Inv(cfg, s) && CanUnpin(s, i)
    ensures Inv(cfg, UnpinStep(s, i))
  {
    hide StoreOk, PosOk, PinsOk;
    NotWaited(cfg, s);
    var v := s.pins.held[i].slot;
    DropPin(s.store, s.pins, Held, i);
    RefChange(cfg, s.store, BusyOf(ActiveLayer(s.active), s.sched), v, s.store.slots[v].ref - 1);
    PosFrameRef(cfg, s.store, s.active, s.sched, v, s.store.slots[v].ref - 1);
  }

  lemma ExecPreserves(cfg: Config, s: Sys, s': Sys)
    requires Inv(cfg, s) && ExecStep(cfg, s, s')
    ensures Inv(cfg, s')
  {
    hide Inv;
    match s.exec
    case Idle =>
      if layer, needed :| CanStart(cfg, s, layer, needed) && s' == StartPin(s, layer, needed) {
        StartPreserves(cfg, s, layer, needed);
      } else {
        var i :| CanUnpin(s, i) && s' == UnpinStep(s, i);
        UnpinPreserves(cfg, s, i);
      }
    case Scan(_, _, _, _, _) => ScanPreserves(cfg, s);
    case Pin(_, _, _, _, _, _) => PinPreserves(cfg, s);
    case Push(_, _, _) => PushPreserves(cfg, s);
    case Waiting(_, _, _) => WakePreserves(cfg, s);
    case Woken(_, _, _) => WokenPreserves(cfg, s);
    case Collect(_, _, _, _, _) => CollectPreserves(cfg, s);
    case Rollback => RollbackPreserves(cfg, s);
  }

  // ---- DIO and move worker -----------------------------------------------------------

  lemma LoadIsInflight(cfg: Config, s: Sys, i: nat)
    requires Inv(cfg, s) && i in s.store.loads
    ensures LoadOk(s.store, s.store.loads[i])
  {
    hide PosOk, HandshakeOk, ExecOk, PinsOk, DirTyped, DirUnique, MovesOk, BusyOk, DirAgrees;
  }

  lemma DioPreserves(cfg: Config, s: Sys, s': Sys)
    requires Inv(cfg, s) && DioStep(s, s')
    ensures Inv(cfg, s')
  {
    hide StoreOk, PosOk, PinsOk, HandshakeOk, ExecOk;
    var i :| i in s.store.loads && s.store.loads[i].status == Pending && s.store.loads[i].slot < |s.store.bytes| &&
      (s' == s.(store := Arrive(s.store, i)) || s' == s.(store := ReadError(s.store, i), clean := false));
    var b := BusyOf(ActiveLayer(s.active), s.sched);
    LoadIsInflight(cfg, s, i);
    ArriveOk(cfg, s.store, b, i);
    ReadErrorOk(cfg, s.store, b, i);
    KeepsPins(s.store, s'.store, s.pins);
    PosFrameEnv(cfg, s.store, s'.store, s.active, s.sched);
  }

  lemma WorkerPreserves(cfg: Config, s: Sys, s': Sys)
    requires Inv(cfg, s) && WorkerStep(s, s')
    ensures Inv(cfg, s')
  {
    hide StoreOk, PosOk, PinsOk, HandshakeOk, ExecOk;
    var b := BusyOf(ActiveLayer(s.active), s.sched);
    CopyOk(cfg, s.store, b);
    MoveSlot(cfg, s.store, b, s.store.copied);
    KeepsPins(s.store, s'.store, s.pins);
    PosFrameEnv(cfg, s.store, s'.store, s.active, s.sched);
  }
}
