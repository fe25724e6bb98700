/** What the invariant means for whole runs of the expert pool. */
module PoolTheorems {
  import opened Basics
  import opened PoolState
  import opened PoolSteps
  import opened PoolInvariant
  import opened PoolStoreProofs
  import opened PoolExecProofs
  import opened PoolSchedProofs

  /** A run of any length, from init, with any interleaving. */
  ghost predicate Run(cfg: Config, tr: seq<Sys>) {
    && |tr| > 0 && cfg.Valid() && Init(cfg, tr[0])
    && forall i :: 0 <= i < |tr| - 1 ==> Next(cfg, tr[i], tr[i + 1])
  }

  lemma {:induction false} RunInv(cfg: Config, tr: seq<Sys>, n: nat)
    requires Run(cfg, tr) && n < |tr|
    ensures Inv(cfg, tr[n])
  {
    hide Inv, Next, Init;
    if n == 0 {
      InitEstablishesInv(cfg, tr[0]);
    } else {
      RunInv(cfg, tr, n - 1);
      assert Next(cfg, tr[n - 1], tr[n - 1 + 1]);
      NextPreserves(cfg, tr[n - 1], tr[n]);
    }
  }

  // ---- pinned content ---------------------------------------------------------------

  /** The step is the caller's unpin of handle h. */
  ghost predicate Unpins(s: Sys, s': Sys, h: Handle) {
    exists i: nat :: CanUnpin(s, i) && s.pins.held[i] == h && s' == UnpinStep(s, i)
  }

  /** Only its unpin removes a handle from the caller's list. */
  lemma HeldUntilUnpinned(cfg: Config, s: Sys, s': Sys, h: Handle)
    requires Next(cfg, s, s') && h in s.pins.held && !Unpins(s, s', h)
    ensures h in s'.pins.held
  {
    hide SchedStep;
    if ExecStep(cfg, s, s') && s.exec.Idle? {
      if i: nat :| CanUnpin(s, i) && s' == UnpinStep(s, i) {
        var j :| 0 <= j < |s.pins.held| && s.pins.held[j] == h;
        var t := Without(s.pins.held, i);
        if j < i { assert t[j] == h; } else if j > i { assert t[j - 1] == h; }
      }
    } else if ExecStep(cfg, s, s') {
    } else if SchedStep(cfg, s, s') {
      SchedKeepsExec(cfg, s, s');
    }
  }

  /** Positions from the start of an allocation to the reserved slot. */
  predicate Allocating(sched: Sched) {
    || sched.Alloc? || sched.EvictCas? || sched.EvictClear? || sched.EvictDrain?
    || sched.Reload? || sched.Reserved? || sched.NoSlot?
  }

  /** The positions of accept_requests and active_register. */
  predicate Serving(sched: Sched) {
    sched.Triage? || sched.Serve? || sched.ServeEnd?
  }

  /** The scheduler touches neither exec's locals nor the callers' handles; only the failing
      of a request sets its history flag. */
  ghost predicate KeepsExec(s: Sys, s': Sys) {
    && s'.pins.held == s.pins.held && s'.exec == s.exec && s'.ret == s.ret
    && (s'.clean ==> s.clean) && s'.refused == (s.refused || s.sched.FailFlag?)
  }

  lemma SchedKeepsExec(cfg: Config, s: Sys, s': Sys)
    requires SchedStep(cfg, s, s')
    ensures KeepsExec(s, s')
  {
    hide SchedStep, KeepsExec;
    if s.sched.Tick? {
      TickKeepsExec(cfg, s, s');
    } else if Evicting(s.sched) {
      EvictKeepsExec(cfg, s, s');
    } else if Allocating(s.sched) {
      AllocKeepsExec(cfg, s, s');
    } else if Serving(s.sched) {
      ServeKeepsExec(cfg, s, s');
    } else {
      SettleKeepsExec(cfg, s, s');
    }
  }

  lemma TickKeepsExec(cfg: Config, s: Sys, s': Sys)
    requires SchedStep(cfg, s, s') && s.sched.Tick?
    ensures KeepsExec(s, s')
  {
  }

  lemma EvictKeepsExec(cfg: Config, s: Sys, s': Sys)
    requires SchedStep(cfg, s, s') && Evicting(s.sched)
    ensures KeepsExec(s, s')
  {
  }

  lemma AllocKeepsExec(cfg: Config, s: Sys, s': Sys)
    requires SchedStep(cfg, s, s') && Allocating(s.sched) && !Evicting(s.sched)
    ensures KeepsExec(s, s')
  {
  }

  lemma ServeKeepsExec(cfg: Config, s: Sys, s': Sys)
    requires SchedStep(cfg, s, s') && Serving(s.sched)
    ensures KeepsExec(s, s')
  {
  }

  lemma SettleKeepsExec(cfg: Config, s: Sys, s': Sys)
    requires SchedStep(cfg, s, s') && !Allocating(s.sched) && !Serving(s.sched) && !s.sched.Tick?
    ensures KeepsExec(s, s')
  {
  }

  /** From the moment pin_layer has returned a handle until it is unpinned, the
      slot stays READY, keeps its generation, holds the expert's bytes, is the
      directory's READY cell for the expert, and has at least one pin. */
  lemma {:induction false} PinnedContentIsStable(cfg: Config, tr: seq<Sys>, i: nat, j: nat, h: Handle)
    requires Run(cfg, tr) && i <= j < |tr| && h in tr[i].pins.held
    requires forall k :: i <= k < j ==> !Unpins(tr[k], tr[k + 1], h)
    ensures h in tr[j].pins.held && HandleOk(tr[j].store, h) && tr[j].store.slots[h.slot].ref > 0
    decreases j
  {
    hide Inv, Next, Init, HandleOk, Unpins;
    if i < j {
      PinnedContentIsStable(cfg, tr, i, j - 1, h);
      assert Next(cfg, tr[j - 1], tr[j - 1 + 1]) && !Unpins(tr[j - 1], tr[j - 1 + 1], h);
      HeldUntilUnpinned(cfg, tr[j - 1], tr[j], h);
    }
    RunInv(cfg, tr, j);
    HeldIsGood(cfg, tr[j], h);
  }

  lemma HeldIsGood(cfg: Config, s: Sys, h: Handle)
    requires Inv(cfg, s) && h in s.pins.held
    ensures HandleOk(s.store, h) && s.store.slots[h.slot].ref > 0
  {
    hide StoreOk, HandshakeOk, ExecOk, PinTargetOk, PosOk;
    var i :| 0 <= i < |s.pins.held| && s.pins.held[i] == h;
    assert HandleOk(s.store, s.pins.held[i]);
    CntZero(s.pins.held, h.slot);
  }

  // ---- eviction -----------------------------------------------------------------------

  predicate Evicting(sched: Sched) {
    sched.EvictCas? || sched.EvictClear? || sched.EvictDrain? || sched.Reload?
  }

  /** Eviction happens only while exec is committed to waiting: n_left, the
      popcount of still_need and target - done agree and are positive, exec can
      neither wake nor pin, and the victim carries no pin at any of the steps. */
  lemma EvictionOnlyWhileExecWaits(cfg: Config, tr: seq<Sys>, n: nat)
    requires Run(cfg, tr) && n < |tr| && Evicting(tr[n].sched)
    ensures var s := tr[n];
            && s.exec.Waiting? && !CanWake(s) && s.active.Some?
            && s.active.value.nLeft == |s.active.value.still| == s.await.target - s.await.done > 0
            && s.sched.v < |s.store.slots| && s.store.slots[s.sched.v].ref == 0
  {
    RunInv(cfg, tr, n);
    EvictionFacts(cfg, tr[n]);
  }

  lemma EvictionFacts(cfg: Config, s: Sys)
    requires Inv(cfg, s) && Evicting(s.sched)
    ensures s.exec.Waiting? && !CanWake(s) && s.active.Some?
    ensures s.active.value.nLeft == |s.active.value.still| == s.await.target - s.await.done > 0
    ensures s.sched.v < |s.store.slots| && s.store.slots[s.sched.v].ref == 0
  {
    hide PinsOk, ExecOk, PinTargetOk, Covers, DirTyped, DirUnique, DirAgrees, LoadsOk, LoadsUnique, MovesOk,
        MovesUnique;
  }

  // ---- the directory --------------------------------------------------------------------

  /** In every reachable state at most one pool has a cell for an expert, no slot
      is named twice, and every cell lies in the region of its pool and group. */
  lemma DirectoryIsExclusive(cfg: Config, tr: seq<Sys>, n: nat)
    requires Run(cfg, tr) && n < |tr|
    ensures DirUnique(tr[n].store.dir) && DirTyped(cfg, tr[n].store.dir)
  {
    RunInv(cfg, tr, n);
    hide PinsOk, HandshakeOk, ExecOk, PinTargetOk, PosOk, DirUnique, DirTyped, DirAgrees, LoadsOk, LoadsUnique,
        MovesOk, MovesUnique, BusyOk;
  }

  /** Exactly one outstanding load fills slot v, and it is for ex. */
  ghost predicate OneLoadAt(st: Store, v: nat, ex: Expert) {
    exists i :: i in st.loads && st.loads[i].slot == v && st.loads[i].ex == ex &&
      forall j :: j in st.loads && st.loads[j].slot == v ==> j == i
  }

  /** Exactly one outstanding move has destination v, and it is for ex. */
  ghost predicate OneMoveTo(st: Store, v: nat, ex: Expert) {
    exists i :: 0 <= i < |st.moves| && st.moves[i].dst == v && st.moves[i].ex == ex &&
      forall j :: 0 <= j < |st.moves| && st.moves[j].dst == v ==> j == i
  }

  /** A READY cell names a READY slot full of the expert's bytes, a LOADING or MOVING_IN
      cell an IO_INFLIGHT slot with exactly one outstanding load or move. */
  ghost predicate Settled(st: Store, p: Place)
    requires p in st.dir
  {
    var v := st.dir[p].slot;
    && v < |st.slots| == |st.bytes| && st.dir[p].st in {Resident, Loading, MovingIn}
    && (st.dir[p].st == Resident ==> st.slots[v].st == Ready && st.bytes[v] == Some(p.ex))
    && (st.dir[p].st == Loading ==> st.slots[v].st == IoInflight && OneLoadAt(st, v, p.ex))
    && (st.dir[p].st == MovingIn ==> p.pool == 0 && st.slots[v].st == IoInflight && OneMoveTo(st, v, p.ex))
  }

  /** The cell the scheduler is in the middle of changing. */
  function Changing(b: Busy): Option<Place> {
    match b
    case NoBusy => None
    case BReady(ld) => Some(Place(ld.ex, ld.pool))
    case BBad(ld) => Some(Place(ld.ex, ld.pool))
    case BMove(m) => Some(Place(m.ex, 0))
    case BReserved(p, v) => Some(p)
    case BClear(p, v) => Some(p)
  }

  /** How far that change has come: the slot is one step ahead of its cell, or just reserved. */
  ghost predicate HalfDone(st: Store, b: Busy, p: Place)
    requires p in st.dir
  {
    var v := st.dir[p].slot;
    && v < |st.slots| == |st.bytes|
    && match b
       case NoBusy => false
       case BReady(ld) => st.dir[p].st == Loading && st.slots[v].st == Ready && st.bytes[v] == Some(p.ex) &&
           NoLoadAt(st, v)
       case BBad(ld) => st.dir[p].st == Loading && st.slots[v].st == Failed && NoLoadAt(st, v)
       case BMove(m) => st.dir[p].st == MovingIn && st.slots[v].st == Ready && st.bytes[v] == Some(p.ex) &&
           Detached(st, m.src)
       case BReserved(_, _) => st.dir[p].st == Loading && st.slots[v].st == IoInflight && NoLoadAt(st, v)
       case BClear(_, _) =>
         && st.dir[p].st == Resident && st.slots[v].st == PoolState.Evicting
         && st.bytes[v] == Some(p.ex) && st.slots[v].ref == 0
  }

  /** In every reachable state every cell agrees with its slot, but for the one cell the
      scheduler is in the middle of changing, and for that one it is known how. */
  lemma DirectoryAgreesWithSlots(cfg: Config, tr: seq<Sys>, n: nat, p: Place)
    requires Run(cfg, tr) && n < |tr| && p in tr[n].store.dir
    ensures var b := BusyOf(ActiveLayer(tr[n].active), tr[n].sched);
            if Changing(b) == Some(p) then HalfDone(tr[n].store, b, p) else Settled(tr[n].store, p)
  {
    hide Run, Settled, HalfDone, StoreOk, PinsOk, HandshakeOk, ExecOk, PinTargetOk, PosOk;
    RunInv(cfg, tr, n);
    var b := BusyOf(ActiveLayer(tr[n].active), tr[n].sched);
    if Changing(b) == Some(p) {
      CellHalfDone(cfg, tr[n].store, b, p);
    } else {
      CellSettled(cfg, tr[n].store, b, p);
    }
  }

  lemma CellHalfDone(cfg: Config, st: Store, b: Busy, p: Place)
    requires StoreOk(cfg, st, b) && p in st.dir && Changing(b) == Some(p)
    ensures HalfDone(st, b, p)
  {
    hide DirUnique, DirTyped, LoadsOk, LoadsUnique, MovesOk, MovesUnique;
    CellAgrees(st, b, p);
  }

  lemma CellSettled(cfg: Config, st: Store, b: Busy, p: Place)
    requires StoreOk(cfg, st, b) && p in st.dir && Changing(b) != Some(p)
    ensures Settled(st, p)
  {
    hide DirUnique, DirTyped, LoadsOk, LoadsUnique, MovesOk, MovesUnique, OneLoadAt, OneMoveTo, NoLoadAt, Detached,
        NoMoveFrom;
    OnlyCell(st.dir, p);
    CellAgrees(st, b, p);
    match st.dir[p].st
    case Loading => LoadFound(st, p);
    case MovingIn => MoveFound(st, p);
    case _ =>
  }

  lemma LoadFound(st: Store, p: Place)
    requires LoadsOk(st) && LoadsUnique(st.loads) && DirUnique(st.dir) && p in st.dir
    requires st.dir[p].slot < |st.slots| && LoadedBy(st, st.dir[p].slot)
    ensures OneLoadAt(st, st.dir[p].slot, p.ex)
  {
    OnlyCell(st.dir, p);
    hide DirUnique;
    var i :| i in st.loads && st.loads[i].slot == st.dir[p].slot;
    assert LoadOk(st, st.loads[i]);
  }

  lemma MoveFound(st: Store, p: Place)
    requires MovesOk(st) && MovesUnique(st.moves) && DirUnique(st.dir) && p in st.dir
    requires exists i :: 0 <= i < |st.moves| && st.moves[i].dst == st.dir[p].slot
    ensures OneMoveTo(st, st.dir[p].slot, p.ex)
  {
    OnlyCell(st.dir, p);
    hide DirUnique;
    var i :| 0 <= i < |st.moves| && st.moves[i].dst == st.dir[p].slot;
    assert MoveOk(st, st.moves[i]);
  }

  // ---- one pin_layer call ------------------------------------------------------------------

  /** The states of one pin_layer call, from its entry to its return, with any
      steps of the other threads in between. */
  ghost predicate Call(cfg: Config, tr: seq<Sys>, layer: nat, needed: set<nat>) {
    && |tr| >= 3 && Inv(cfg, tr[0])
    && CanStart(cfg, tr[0], layer, needed) && tr[1] == StartPin(tr[0], layer, needed)
    && (forall i :: 1 <= i < |tr| - 1 ==> !tr[i].exec.Idle? && Next(cfg, tr[i], tr[i + 1]))
    && tr[|tr| - 1].exec.Idle?
  }

  /** Inside a call the caller's list is untouched and exec works on this request. */
  ghost predicate Inside(s: Sys, held: seq<Handle>, layer: nat, needed: set<nat>) {
    && s.pins.held == held && !s.exec.Idle?
    && (s.exec.Rollback? || (s.exec.layer == layer && s.exec.needed == needed))
  }

  /** How a call ends: with one new handle for each needed expert, or with none. */
  ghost predicate Returned(s: Sys, held: seq<Handle>, layer: nat, needed: set<nat>) {
    || (s.ret == |needed| && |held| <= |s.pins.held| && s.pins.held[..|held|] == held
        && Covers(s.pins.held[|held|..], layer, needed))
    || (s.ret == -1 && s.pins.held == held)
  }

  lemma InsideStep(cfg: Config, s: Sys, s': Sys, held: seq<Handle>, layer: nat, needed: set<nat>)
    requires Inv(cfg, s) && Next(cfg, s, s') && Inside(s, held, layer, needed)
    ensures if s'.exec.Idle? then Returned(s', held, layer, needed) else Inside(s', held, layer, needed)
  {
    hide Inv, SchedStep, ExecStep, Returned;
    if SchedStep(cfg, s, s') {
      SchedKeepsExec(cfg, s, s');
    } else if ExecStep(cfg, s, s') {
      ExecInside(cfg, s, s', held, layer, needed);
    }
  }

  lemma ExecInside(cfg: Config, s: Sys, s': Sys, held: seq<Handle>, layer: nat, needed: set<nat>)
    requires Inv(cfg, s) && ExecStep(cfg, s, s') && Inside(s, held, layer, needed)
    ensures if s'.exec.Idle? then Returned(s', held, layer, needed) else Inside(s', held, layer, needed)
  {
    hide Inv, Returned, ExecStep;
    ExecKeepsCall(cfg, s, s', held, layer, needed);
    if s'.exec.Idle? && !s.exec.Rollback? {
      FullyCovered(cfg, s);
      ReturnsAll(s, held, layer, needed);
    } else if s'.exec.Idle? {
      ReturnsNone(s', held, layer, needed);
    }
  }

  /** Exec stays inside the call, or returns at the end of a scan or of the rollback. */
  lemma ExecKeepsCall(cfg: Config, s: Sys, s': Sys, held: seq<Handle>, layer: nat, needed: set<nat>)
    requires ExecStep(cfg, s, s') && Inside(s, held, layer, needed)
    ensures !s'.exec.Idle? ==> Inside(s', held, layer, needed)
    ensures s'.exec.Idle? && s.exec.Rollback? ==> s'.ret == -1 && s'.pins.held == held
    ensures s'.exec.Idle? && !s.exec.Rollback? ==> s' == Return(s, |needed|) && AtEnd(cfg, s.exec)
  {
    hide ExecStep, Inside;
    if s.exec.Scan? || s.exec.Collect? {
      LookKeepsCall(cfg, s, s', held, layer, needed);
    } else {
      OtherKeepsCall(cfg, s, s', held, layer, needed);
    }
  }

  lemma LookKeepsCall(cfg: Config, s: Sys, s': Sys, held: seq<Handle>, layer: nat, needed: set<nat>)
    requires ExecStep(cfg, s, s') && Inside(s, held, layer, needed) && (s.exec.Scan? || s.exec.Collect?)
    ensures !s'.exec.Idle? ==> Inside(s', held, layer, needed)
    ensures s'.exec.Idle? ==> s' == Return(s, |needed|) && AtEnd(cfg, s.exec)
  {
    hide IndexOf, Without, ResidentIn;
  }

  lemma OtherKeepsCall(cfg: Config, s: Sys, s': Sys, held: seq<Handle>, layer: nat, needed: set<nat>)
    requires ExecStep(cfg, s, s') && Inside(s, held, layer, needed) && !s.exec.Scan? && !s.exec.Collect?
    ensures !s'.exec.Idle? ==> Inside(s', held, layer, needed)
    ensures s'.exec.Idle? ==> s.exec.Rollback? && s'.ret == -1 && s'.pins.held == held
  {
  }

  /** Exec has looked at every expert. */
  predicate AtEnd(cfg: Config, exec: Exec) {
    (exec.Scan? && exec.missing == {} && exec.e >= cfg.nExperts) || (exec.Collect? && exec.e >= cfg.nExperts)
  }

  lemma ReturnsNone(s: Sys, held: seq<Handle>, layer: nat, needed: set<nat>)
    requires s.ret == -1 && s.pins.held == held
    ensures Returned(s, held, layer, needed)
  {
  }

  lemma ReturnsAll(s: Sys, held: seq<Handle>, layer: nat, needed: set<nat>)
    requires s.pins.held == held && Covers(s.pins.got, layer, needed)
    ensures Returned(Return(s, |needed|), held, layer, needed)
  {
    assert (held + s.pins.got)[|held|..] == s.pins.got;
  }

  /** At the end of either scan exec has exactly one handle per needed expert. */
  lemma FullyCovered(cfg: Config, s: Sys)
    requires Inv(cfg, s) && AtEnd(cfg, s.exec)
    ensures Covers(s.pins.got, s.exec.layer, s.exec.needed)
  {
    hide StoreOk, PinsOk, HandshakeOk, PinTargetOk, PosOk;
    if s.exec.Scan? {
      assert Below(s.exec.needed - {}, s.exec.e) == s.exec.needed;
    } else {
      assert (s.exec.needed - s.exec.missing) + Below(s.exec.missing, s.exec.e) == s.exec.needed;
    }
  }

  lemma {:induction false} CallInside(cfg: Config, tr: seq<Sys>, layer: nat, needed: set<nat>, n: nat)
    requires Call(cfg, tr, layer, needed) && 1 <= n < |tr|
    ensures Inv(cfg, tr[n])
    ensures if n < |tr| - 1 then Inside(tr[n], tr[0].pins.held, layer, needed)
            else Returned(tr[n], tr[0].pins.held, layer, needed)
  {
    hide Inv, Next, Returned;
    if n == 1 {
      StartPreserves(cfg, tr[0], layer, needed);
    } else {
      CallInside(cfg, tr, layer, needed, n - 1);
      assert Next(cfg, tr[n - 1], tr[n - 1 + 1]);
      NextPreserves(cfg, tr[n - 1], tr[n]);
      InsideStep(cfg, tr[n - 1], tr[n], tr[0].pins.held, layer, needed);
    }
  }

  /** With exec idle the refcounts are exactly the pins the callers own. */
  lemma IdleRefs(cfg: Config, s: Sys, v: nat)
    requires Inv(cfg, s) && s.exec.Idle? && v < |s.store.slots|
    ensures s.store.slots[v].ref == Cnt(s.pins.held, v)
  {
    hide StoreOk, PinTargetOk, PosOk;
    assert s.pins.got == [] && s.pins.granted == [];
  }

  /** How the state after a call relates to the state before it. On success the
      caller has exactly one more handle per needed expert and every slot's refcount
      has grown by the new handles on it; on -1 handles and refcounts are as on entry. */
  ghost predicate AllOrNothing(first: Sys, last: Sys, layer: nat, needed: set<nat>) {
    var n := |first.pins.held|;
    && |last.store.slots| == |first.store.slots|
    && (last.ret == |needed| || last.ret == -1)
    && (last.ret == |needed| ==>
          && n <= |last.pins.held| && last.pins.held[..n] == first.pins.held &&
               Covers(last.pins.held[n..], layer, needed)
          && forall v :: 0 <= v < |first.store.slots| ==>
               last.store.slots[v].ref == first.store.slots[v].ref + Cnt(last.pins.held[n..], v))
    && (last.ret == -1 ==>
          && last.pins.held == first.pins.held
          && forall v :: 0 <= v < |first.store.slots| ==> last.store.slots[v].ref == first.store.slots[v].ref)
  }

  /** pin_layer is all-or-nothing with exact refcount conservation. */
  lemma PinLayerIsAllOrNothing(cfg: Config, tr: seq<Sys>, layer: nat, needed: set<nat>)
    requires Call(cfg, tr, layer, needed)
    ensures AllOrNothing(tr[0], tr[|tr| - 1], layer, needed)
  {
    hide Inv, Next, Returned;
    CallInside(cfg, tr, layer, needed, |tr| - 1);
    CallConserves(cfg, tr[0], tr[|tr| - 1], layer, needed);
  }

  lemma CallConserves(cfg: Config, first: Sys, last: Sys, layer: nat, needed: set<nat>)
    requires Inv(cfg, first) && Inv(cfg, last) && first.exec.Idle? && last.exec.Idle? &&
               Returned(last, first.pins.held, layer, needed)
    ensures AllOrNothing(first, last, layer, needed)
  {
    hide Inv, Covers;
    SameSize(cfg, first);
    SameSize(cfg, last);
    var n := |first.pins.held|;
    forall v | 0 <= v < |first.store.slots|
      ensures first.store.slots[v].ref == Cnt(first.pins.held, v) && last.store.slots[v].ref == Cnt(last.pins.held, v)
    {
      IdleRefs(cfg, first, v);
      IdleRefs(cfg, last, v);
    }
    if last.ret == |needed| {
      assert last.pins.held == first.pins.held + last.pins.held[n..];
      forall v | 0 <= v < |first.store.slots|
        ensures Cnt(last.pins.held, v) == Cnt(first.pins.held, v) + Cnt(last.pins.held[n..], v)
      {
        CntConcat(first.pins.held, last.pins.held[n..], v);
      }
    }
  }

  lemma SameSize(cfg: Config, s: Sys)
    requires Inv(cfg, s)
    ensures |s.store.slots| == cfg.nSlots
  {
    hide PinsOk, HandshakeOk, ExecOk, PinTargetOk, PosOk, DirTyped, DirUnique, DirAgrees;
  }

  /** The post-wait scan never misses an expert, so it never rolls back. */
  lemma PostWaitScanNeverMisses(cfg: Config, tr: seq<Sys>, n: nat)
    requires Run(cfg, tr) && n < |tr| && tr[n].exec.Collect?
    ensures !CollectStep(cfg, tr[n]).exec.Rollback?
  {
    hide Inv, Next, Init;
    RunInv(cfg, tr, n);
    if tr[n].exec.e < cfg.nExperts && tr[n].exec.e in tr[n].exec.missing {
      CollectNeverMisses(cfg, tr[n]);
    }
  }
}
