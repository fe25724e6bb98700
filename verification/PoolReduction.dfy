/** Turns of the scheduler may be thought of as uninterrupted: steps of the DIO engine and
    of the move worker that fall into a turn can be put off until its end. */
module PoolReduction {
  import opened Basics
  import opened PoolState
  import opened PoolSteps
  import opened PoolInvariant
  import opened PoolStoreProofs
  import opened PoolExecProofs
  import opened PoolSchedProofs
  import opened PoolTheorems
  import opened PoolNoStall
  import opened PoolTurns

  /** What the DIO engine or the worker does: load i arrives, load i fails, the next move is copied. */
  datatype Io = Arrival(i: nat) | Failure(i: nat) | Copying

  predicate Can(io: Io, s: Sys) {
    match io
    case Copying => CanCopy(s.store)
    case _ =>
      io.i in s.store.loads && s.store.loads[io.i].status == Pending && s.store.loads[io.i].slot < |s.store.bytes|
  }

  function Done(io: Io, s: Sys): Sys
    requires Can(io, s)
  {
    match io
    case Arrival(i) => s.(store := Arrive(s.store, i))
    case Failure(i) => s.(store := ReadError(s.store, i), clean := false)
    case Copying => s.(store := Copy(s.store))
  }

  /** Any number of such steps. */
  ghost predicate Later(s: Sys, ios: seq<Io>, s': Sys)
    decreases |ios|
  {
    if ios == [] then s' == s else Can(ios[0], s) && Later(Done(ios[0], s), ios[1..], s')
  }

  lemma {:induction false} LaterOn(s: Sys, ios: seq<Io>, s': Sys, io: Io)
    requires Later(s, ios, s') && Can(io, s')
    ensures Later(s, ios + [io], Done(io, s'))
    decreases |ios|
  {
    hide Can, Done;
    if ios == [] {
      assert ([io])[1..] == [];
    } else {
      LaterOn(Done(ios[0], s), ios[1..], s', io);
      assert (ios + [io])[1..] == ios[1..] + [io];
    }
  }

  lemma IoIsStep(cfg: Config, io: Io, s: Sys)
    requires Can(io, s)
    ensures (DioStep(s, Done(io, s)) || WorkerStep(s, Done(io, s))) && Next(cfg, s, Done(io, s))
  {
    hide ExecStep, SchedStep;
  }

  lemma StepIsIo(s: Sys, s': Sys) returns (io: Io)
    requires DioStep(s, s') || WorkerStep(s, s')
    ensures Can(io, s) && s' == Done(io, s)
  {
    if WorkerStep(s, s') {
      io := Copying;
    } else {
      var i: nat :| i in s.store.loads && s.store.loads[i].status == Pending &&
          s.store.loads[i].slot < |s.store.bytes| &&
        (s' == s.(store := Arrive(s.store, i)) || s' == s.(store := ReadError(s.store, i), clean := false));
      io := if s' == s.(store := Arrive(s.store, i)) then Arrival(i) else Failure(i);
    }
  }

  // ---- steps that see nothing of loads and contents ----------------------------------------

  /** s and s1 differ in contents, statuses and the failure flag only. */
  ghost predicate SameButIo(s: Sys, s1: Sys) {
    && s1 == s.(store := s1.store, clean := s1.clean)
    && s1.store == s.store.(loads := s1.store.loads, bytes := s1.store.bytes, copied := s1.store.copied)
    && |s1.store.bytes| == |s.store.bytes|
  }

  /** s2 with the loads, contents and failure flag of s. */
  function WithIoOf(s: Sys, s2: Sys): Sys {
    s2.(store := s2.store.(loads := s.store.loads, bytes := s.store.bytes, copied := s.store.copied), clean := s.clean)
  }

  /** The scheduler step s1 to s2 does not touch them, and could have been taken from s. */
  ghost predicate Blind(cfg: Config, s: Sys, s1: Sys, s2: Sys) {
    && SchedStep(cfg, s, WithIoOf(s, s2))
    && s2.store.loads == s1.store.loads && s2.store.bytes == s1.store.bytes && s2.store.copied == s1.store.copied
    && s2.store.moves == s1.store.moves && s2.clean == s1.clean
  }

  predicate Settling(sched: Sched) {
    sched.Settle? || sched.SettleBump? || sched.SettleEnd?
  }

  predicate Ending(sched: Sched) {
    sched.FailUnpin? || sched.FailFlag? || sched.FailClear? || (sched.After? && !sched.k.KMove?)
  }

  predicate Draining(sched: Sched) {
    sched.LoadReady? || sched.LoadBad? || sched.LoadBadSet? || sched.MoveReady?
  }

  /** A grant does not see what the I/O changes. */
  lemma GrantIsBlind(s: Sys, s1: Sys, ex: Expert, pool: nat, v: nat, k: Cont)
    requires SameButIo(s, s1) && Wanted(s.active, ex) && v < |s.store.slots|
    ensures var s2 := GrantPin(s1, ex, pool, v, k);
            && WithIoOf(s, s2) == GrantPin(s, ex, pool, v, k)
            && s2.store.loads == s1.store.loads && s2.store.bytes == s1.store.bytes &&
                 s2.store.copied == s1.store.copied
            && s2.store.moves == s1.store.moves && s2.clean == s1.clean
  {
  }

  lemma SettlingIsBlind(cfg: Config, s: Sys, s1: Sys, s2: Sys)
    requires SameButIo(s, s1) && SchedStep(cfg, s1, s2) && Settling(s.sched)
    ensures Blind(cfg, s, s1, s2)
  {
    hide Wanted, GrantPin;
    if s.sched.Settle? && Wanted(s.active, s.sched.ex) {
      GrantIsBlind(s, s1, s.sched.ex, s.sched.pool, s.sched.slot, s.sched.k);
    }
  }

  lemma EndingIsBlind(cfg: Config, s: Sys, s1: Sys, s2: Sys)
    requires SameButIo(s, s1) && SchedStep(cfg, s1, s2) && Ending(s.sched)
    ensures Blind(cfg, s, s1, s2)
  {
  }

  lemma DrainingIsBlind(cfg: Config, s: Sys, s1: Sys, s2: Sys)
    requires SameButIo(s, s1) && SchedStep(cfg, s1, s2) && Draining(s.sched)
    ensures Blind(cfg, s, s1, s2)
  {
    hide Wanted, Clear;
  }

  lemma TriageIsBlind(cfg: Config, s: Sys, s1: Sys, s2: Sys)
    requires SameButIo(s, s1) && SchedStep(cfg, s1, s2) && s.sched.Triage?
    ensures Blind(cfg, s, s1, s2)
  {
    hide ScanPools, GrantPin, Below;
    var ex := Expert(s.active.value.layer, s.sched.te);
    var found := ScanPools(s.store.dir, cfg.nPools, ex, 0);
    if s.sched.te in s.active.value.still && found.Some? {
      var v := s.store.dir[Place(ex, found.value)].slot;
      if v < |s.store.slots| { GrantIsBlind(s, s1, ex, found.value, v, KTriage(s.sched.te)); }
    }
  }

  lemma ServingIsBlind(cfg: Config, s: Sys, s1: Sys, s2: Sys)
    requires SameButIo(s, s1) && SchedStep(cfg, s1, s2) && (s.sched.Serve? || s.sched.ServeEnd?)
    ensures Blind(cfg, s, s1, s2)
  {
    hide ScanPools, InFlight;
  }

  lemma EvictingIsBlind(cfg: Config, s: Sys, s1: Sys, s2: Sys)
    requires SameButIo(s, s1) && SchedStep(cfg, s1, s2)
    requires s.sched.EvictCas? || s.sched.EvictClear? || s.sched.EvictDrain? || s.sched.NoSlot?
    ensures Blind(cfg, s, s1, s2)
  {
    hide Clear, Demotable;
  }

  lemma ChoosingIsBlind(cfg: Config, s: Sys, s1: Sys, s2: Sys)
    requires SameButIo(s, s1) && SchedStep(cfg, s1, s2) && s.sched.Alloc? && !s2.sched.Reserved?
    ensures Blind(cfg, s, s1, s2)
  {
    hide FirstEmpty;
    forall r, vx ensures Evictable(cfg, s1.store, r, vx) == Evictable(cfg, s.store, r, vx) {
    }
  }

  /** What a blind step leaves, the I/O can still be done on, with the same outcome. */
  lemma BlindCommutes(cfg: Config, s: Sys, io: Io, s2: Sys)
    requires Can(io, s) && Blind(cfg, s, Done(io, s), s2)
    ensures Can(io, WithIoOf(s, s2)) && s2 == Done(io, WithIoOf(s, s2))
  {
    hide SchedStep;
  }

  lemma IoKeepsView(io: Io, s: Sys)
    requires Can(io, s)
    ensures SameButIo(s, Done(io, s))
  {
  }

  // ---- steps that give or take a slot ------------------------------------------------------------

  /** The slots whose contents the I/O reads or writes. */
  predicate Touches(io: Io, s: Sys, v: nat)
    requires Can(io, s)
  {
    match io
    case Copying => v == s.store.moves[s.store.copied].src || v == s.store.moves[s.store.copied].dst
    case _ => v == s.store.loads[io.i].slot
  }

  /** I/O is under way only on IO_INFLIGHT slots, and from EVICTING ones with a move. */
  lemma TouchedSlots(cfg: Config, s: Sys, io: Io, v: nat)
    requires Inv(cfg, s) && Can(io, s) && Touches(io, s, v)
    ensures v < |s.store.slots| && s.store.slots[v].st in {IoInflight, PoolState.Evicting}
    ensures s.store.slots[v].st == PoolState.Evicting ==> !NoMoveFrom(s.store, v)
    ensures s.store.slots[v].st == IoInflight ==>
              !NoLoadAt(s.store, v) || exists p :: Cell(s.store, p, Entry(MovingIn, v))
  {
    hide PinsOk, HandshakeOk, ExecOk, PinTargetOk, PosOk, DirTyped, DirUnique, DirAgrees, LoadsUnique, MovesUnique,
        BusyOk;
    match io
    case Copying =>
      var m := s.store.moves[s.store.copied];
      assert MoveOk(s.store, m) && m == s.store.moves[s.store.copied];
      assert Cell(s.store, Place(m.ex, 0), Entry(MovingIn, m.dst));
    case _ =>
      assert LoadOk(s.store, s.store.loads[io.i]);
  }

  lemma DetachedUntouched(cfg: Config, s: Sys, io: Io, v: nat)
    requires Inv(cfg, s) && Can(io, s) && Detached(s.store, v)
    ensures !Touches(io, s, v)
  {
    hide Inv, Touches;
    if Touches(io, s, v) { TouchedSlots(cfg, s, io, v); }
  }

  lemma EmptyUntouched(cfg: Config, s: Sys, io: Io, v: nat)
    requires Inv(cfg, s) && Can(io, s) && v < |s.store.slots| && s.store.slots[v].st == Empty
    ensures !Touches(io, s, v)
  {
    hide Inv, Touches;
    if Touches(io, s, v) { TouchedSlots(cfg, s, io, v); }
  }

  /** The reserved slot has a LOADING cell and no load yet. */
  lemma ReservedUntouched(cfg: Config, s: Sys, io: Io)
    requires Inv(cfg, s) && Can(io, s) && s.sched.Reserved?
    ensures !Touches(io, s, s.sched.v)
  {
    hide Inv, Touches;
    var p := GoalPlace(ActiveLayer(s.active), s.sched.goal);
    ReservedCell(cfg, s, p);
    if Touches(io, s, s.sched.v) {
      TouchedSlots(cfg, s, io, s.sched.v);
      var q :| Cell(s.store, q, Entry(MovingIn, s.sched.v));
      UniqueCells(cfg, s);
      OnlyCell(s.store.dir, p);
      assert false;
    }
  }

  lemma ReservedCell(cfg: Config, s: Sys, p: Place)
    requires Inv(cfg, s) && s.sched.Reserved? && p == GoalPlace(ActiveLayer(s.active), s.sched.goal)
    ensures s.sched.v < |s.store.slots| && Cell(s.store, p, Entry(Loading, s.sched.v))
    ensures s.store.slots[s.sched.v].st == IoInflight && NoLoadAt(s.store, s.sched.v)
  {
    hide PinsOk, HandshakeOk, ExecOk, PinTargetOk, PosOk, DirTyped, DirUnique, DirAgrees, LoadsOk, LoadsUnique,
        MovesOk, MovesUnique;
  }

  lemma ReserveCommutes(s: Sys, io: Io, g: Goal, v: nat)
    requires Can(io, s) && v < |s.store.slots| && v < |s.store.bytes| && !Touches(io, s, v)
    ensures Can(io, ReserveStep(s, g, v)) && ReserveStep(Done(io, s), g, v) == Done(io, ReserveStep(s, g, v))
  {
    hide GoalPlace;
    var t, t' := ReserveStep(Done(io, s), g, v), Done(io, ReserveStep(s, g, v));
    assert t.store.bytes == t'.store.bytes;
  }

  lemma ReleaseCommutes(s: Sys, io: Io, v: nat, at: Sched)
    requires Can(io, s) && v < |s.store.slots| && v < |s.store.bytes| && !Touches(io, s, v)
    ensures var t := s.(store := Release(s.store, v), sched := at);
            && Can(io, t) && |Done(io, s).store.slots| == |s.store.slots| &&
                 |Done(io, s).store.bytes| == |s.store.bytes|
            && Done(io, s).(store := Release(Done(io, s).store, v), sched := at) == Done(io, t)
  {
    var t := s.(store := Release(s.store, v), sched := at);
    assert Release(Done(io, s).store, v).bytes == Done(io, t).store.bytes;
  }

  /** At Reserved every outcome of the step can be had before the I/O. */
  lemma ReservedCommutes(cfg: Config, s: Sys, io: Io, s2: Sys) returns (t: Sys)
    requires Inv(cfg, s) && Can(io, s) && s.sched.Reserved? && SchedStep(cfg, Done(io, s), s2)
    ensures SchedStep(cfg, s, t) && Can(io, t) && s2 == Done(io, t)
  {
    hide Inv, SchedStep, Can, Done;
    IoKeepsView(io, s);
    if s.sched.goal.ForRequest? {
      t := LoadCommutes(cfg, s, io, s2);
    } else {
      ReservedUntouched(cfg, s, io);
      t := MoveCommutes(cfg, s, io, s2);
    }
  }

  lemma LoadCommutes(cfg: Config, s: Sys, io: Io, s2: Sys) returns (t: Sys)
    requires Can(io, s) && s.sched.Reserved? && s.sched.goal.ForRequest? && SchedStep(cfg, Done(io, s), s2)
    ensures SchedStep(cfg, s, t) && Can(io, t) && s2 == Done(io, t)
  {
    hide Can, Done, SubmitNothing, SubmitLoad;
    IoKeepsView(io, s);
    var s1 := Done(io, s);
    if s2 == SubmitNothing(s1) {
      t := SubmitNothing(s);
      NothingCommutes(s, io);
    } else {
      var i: nat :| 0 <= i < cfg.ring && i !in s1.store.loads && s2 == SubmitLoad(s1, i);
      t := SubmitLoad(s, i);
      SubmitCommutes(s, io, i);
      assert 0 <= i < cfg.ring && i !in s.store.loads && t == SubmitLoad(s, i);
    }
  }

  lemma NothingCommutes(s: Sys, io: Io)
    requires Can(io, s) && s.sched.Reserved? && s.sched.goal.ForRequest?
    ensures Can(io, SubmitNothing(s)) && SubmitNothing(Done(io, s)) == Done(io, SubmitNothing(s))
  {
    hide GoalPlace, Clear;
  }

  lemma SubmitCommutes(s: Sys, io: Io, i: nat)
    requires Can(io, s) && s.sched.Reserved? && s.sched.goal.ForRequest? && s.ringFree > 0 &&
               i !in Done(io, s).store.loads
    ensures i !in s.store.loads && Can(io, SubmitLoad(s, i)) && SubmitLoad(Done(io, s), i) == Done(io, SubmitLoad(s, i))
  {
    hide GoalPlace;
    assert SubmitLoad(Done(io, s), i).store.loads == Done(io, SubmitLoad(s, i)).store.loads;
  }

  lemma MoveCommutes(cfg: Config, s: Sys, io: Io, s2: Sys) returns (t: Sys)
    requires Can(io, s) && s.sched.Reserved? && s.sched.goal.ForDemote? && SchedStep(cfg, Done(io, s), s2)
    requires !Touches(io, s, s.sched.v)
    ensures SchedStep(cfg, s, t) && Can(io, t) && s2 == Done(io, t)
  {
    hide Can, Done, SubmitMove, RefuseMove;
    IoKeepsView(io, s);
    if s2 == SubmitMove(Done(io, s)) {
      t := SubmitMove(s);
      DemoteCommutes(s, io);
    } else {
      t := RefuseMove(s);
      RefuseCommutes(s, io);
    }
  }

  lemma DemoteCommutes(s: Sys, io: Io)
    requires Can(io, s) && s.sched.Reserved? && s.sched.goal.ForDemote?
    ensures Can(io, SubmitMove(s)) && SubmitMove(Done(io, s)) == Done(io, SubmitMove(s))
  {
  }

  lemma RefuseCommutes(s: Sys, io: Io)
    requires Can(io, s) && s.sched.Reserved? && s.sched.goal.ForDemote? && !Touches(io, s, s.sched.v)
    requires s.sched.v < |s.store.slots| && s.sched.v < |s.store.bytes|
    ensures |Done(io, s).store.slots| == |s.store.slots| && |Done(io, s).store.bytes| == |s.store.bytes|
    ensures Can(io, RefuseMove(s)) && RefuseMove(Done(io, s)) == Done(io, RefuseMove(s))
  {
    hide Clear;
    assert RefuseMove(Done(io, s)).store.bytes == Done(io, RefuseMove(s)).store.bytes;
  }

  // ---- one step past another --------------------------------------------------------------------------

  /** A step of the scheduler inside a turn can be taken before an I/O step that came first. */
  lemma IoCanWait(cfg: Config, s: Sys, io: Io, s2: Sys) returns (t: Sys)
    requires Inv(cfg, s) && Can(io, s) && SchedStep(cfg, Done(io, s), s2) && !s.sched.Tick?
    ensures SchedStep(cfg, s, t) && Can(io, t) && s2 == Done(io, t)
  {
    var s1 := Done(io, s);
    IoKeepsView(io, s);
    hide Inv, SchedStep, Blind, SameButIo, Done;
    if s.sched.Reserved? {
      t := ReservedCommutes(cfg, s, io, s2);
    } else if s2.sched.Reserved? && (s.sched.Alloc? || s.sched.Reload?) {
      t := TakingCommutes(cfg, s, io, s2);
    } else if s.sched.After? && s.sched.k.KMove? {
      t := LeavingCommutes(cfg, s, io, s2);
    } else {
      OthersAreBlind(cfg, s, s1, s2);
      t := WithIoOf(s, s2);
      BlindCommutes(cfg, s, io, s2);
      assert SchedStep(cfg, s, t) by { BlindStep(cfg, s, s1, s2); }
    }
  }

  lemma BlindStep(cfg: Config, s: Sys, s1: Sys, s2: Sys)
    requires Blind(cfg, s, s1, s2)
    ensures SchedStep(cfg, s, WithIoOf(s, s2))
  {
  }

  lemma OthersAreBlind(cfg: Config, s: Sys, s1: Sys, s2: Sys)
    requires SameButIo(s, s1) && SchedStep(cfg, s1, s2) && s1.sched == s.sched
    requires !s.sched.Tick? && !s.sched.Reserved? && !(s.sched.After? && s.sched.k.KMove?)
    requires !(s2.sched.Reserved? && (s.sched.Alloc? || s.sched.Reload?))
    ensures Blind(cfg, s, s1, s2)
  {
    hide SchedStep, Blind, SameButIo;
    if Settling(s.sched) { SettlingIsBlind(cfg, s, s1, s2); }
    else if Ending(s.sched) { EndingIsBlind(cfg, s, s1, s2); }
    else if Draining(s.sched) { DrainingIsBlind(cfg, s, s1, s2); }
    else if s.sched.Triage? { TriageIsBlind(cfg, s, s1, s2); }
    else if s.sched.Serve? || s.sched.ServeEnd? { ServingIsBlind(cfg, s, s1, s2); }
    else if s.sched.Alloc? { ChoosingIsBlind(cfg, s, s1, s2); }
    else if s.sched.Reload? { ReloadReserves(cfg, s1, s2); }
    else { EvictingIsBlind(cfg, s, s1, s2); }
  }

  lemma ReloadReserves(cfg: Config, s: Sys, s2: Sys)
    requires SchedStep(cfg, s, s2) && s.sched.Reload?
    ensures s2.sched.Reserved?
  {
  }

  /** A slot is taken: an EMPTY one, or the victim's. */
  lemma TakingCommutes(cfg: Config, s: Sys, io: Io, s2: Sys) returns (t: Sys)
    requires Inv(cfg, s) && Can(io, s) && SchedStep(cfg, Done(io, s), s2)
    requires s2.sched.Reserved? && (s.sched.Alloc? || s.sched.Reload?)
    ensures SchedStep(cfg, s, t) && Can(io, t) && s2 == Done(io, t)
  {
    hide Inv, SchedStep, Touches, Can, Done, Detached;
    IoKeepsView(io, s);
    var v := TakenSlot(cfg, s, Done(io, s), s2);
    if s.sched.Reload? {
      ReloadVictim(cfg, s);
      DetachedUntouched(cfg, s, io, v);
    } else {
      EmptyUntouched(cfg, s, io, v);
    }
    t := ReserveStep(s, s.sched.goal, v);
    ReserveCommutes(s, io, s.sched.goal, v);
  }

  lemma TakenSlot(cfg: Config, s: Sys, s1: Sys, s2: Sys) returns (v: nat)
    requires SameButIo(s, s1) && SchedStep(cfg, s1, s2) && s2.sched.Reserved? && (s.sched.Alloc? || s.sched.Reload?)
    ensures v < |s.store.slots| && v < |s.store.bytes|
    ensures s2 == ReserveStep(s1, s.sched.goal, v) && SchedStep(cfg, s, ReserveStep(s, s.sched.goal, v))
    ensures if s.sched.Reload? then v == s.sched.v else s.store.slots[v].st == Empty
  {
    hide Evictable, GoalPlace;
    if s.sched.Reload? {
      v := s.sched.v;
    } else {
      var r := GoalRegion(cfg, ActiveLayer(s.active), s.sched.goal).value;
      v := FirstEmpty(s.store.slots, r.first, r.first + r.count).value;
    }
  }

  lemma ReloadVictim(cfg: Config, s: Sys)
    requires Inv(cfg, s) && s.sched.Reload?
    ensures Detached(s.store, s.sched.v)
  {
    hide StoreOk, PinsOk, HandshakeOk, ExecOk, PinTargetOk;
  }

  lemma LeavingSource(cfg: Config, s: Sys)
    requires Inv(cfg, s) && s.sched.After? && s.sched.k.KMove?
    ensures Detached(s.store, s.sched.k.src)
  {
    hide StoreOk, PinsOk, HandshakeOk, ExecOk, PinTargetOk;
  }

  /** The source of a finished move is released. */
  lemma LeavingCommutes(cfg: Config, s: Sys, io: Io, s2: Sys) returns (t: Sys)
    requires Inv(cfg, s) && Can(io, s) && SchedStep(cfg, Done(io, s), s2) && s.sched.After? && s.sched.k.KMove?
    ensures SchedStep(cfg, s, t) && Can(io, t) && s2 == Done(io, t)
  {
    hide Inv, Touches, Can, Done;
    LeavingSource(cfg, s);
    IoKeepsView(io, s);
    var src := s.sched.k.src;
    DetachedUntouched(cfg, s, io, src);
    t := s.(store := Release(s.store, src), sched := Tick);
    ReleaseCommutes(s, io, src, Tick);
  }

  // ---- a whole turn ---------------------------------------------------------------------------------------

  lemma {:induction false} LaterKeeps(cfg: Config, s: Sys, ios: seq<Io>, s': Sys)
    requires Inv(cfg, s) && Later(s, ios, s')
    ensures Inv(cfg, s') && s'.sched == s.sched
    decreases |ios|
  {
    hide Inv;
    if ios != [] {
      var u := Done(ios[0], s);
      IoIsStep(cfg, ios[0], s);
      IoKeepsView(ios[0], s);
      NextPreserves(cfg, s, u);
      LaterKeeps(cfg, u, ios[1..], s');
    }
  }

  /** A step of the scheduler inside a turn can be taken before all the I/O that came first. */
  lemma {:induction false} AllIoCanWait(cfg: Config, s: Sys, ios: seq<Io>, s1: Sys, s2: Sys) returns (t: Sys)
    requires Inv(cfg, s) && Later(s, ios, s1) && SchedStep(cfg, s1, s2) && !s.sched.Tick?
    ensures SchedStep(cfg, s, t) && Later(t, ios, s2)
    decreases |ios|
  {
    hide Inv, SchedStep, Can, Done;
    if ios == [] {
      t := s2;
    } else {
      var u := Done(ios[0], s);
      LaterKeeps(cfg, s, [ios[0]], u);
      var u2 := AllIoCanWait(cfg, u, ios[1..], s1, s2);
      t := IoCanWait(cfg, s, ios[0], u2);
    }
  }

  /** A turn of the scheduler with I/O steps in between: the main loop is left at the first
      state only. */
  ghost predicate MixedTurn(cfg: Config, tr: seq<Sys>) {
    && |tr| > 0
    && forall i :: 0 <= i < |tr| - 1 ==>
         || (SchedStep(cfg, tr[i], tr[i + 1]) && (i == 0 || !tr[i].sched.Tick?))
         || (i > 0 && (DioStep(tr[i], tr[i + 1]) || WorkerStep(tr[i], tr[i + 1])))
  }

  /** A turn with I/O steps in between ends where the same turn without them ends, once the
      same I/O steps have been taken after it. */
  lemma {:induction false} TurnsAreSerial(cfg: Config, tr: seq<Sys>) returns (t: Sys, n: nat, ios: seq<Io>)
    requires MixedTurn(cfg, tr) && Inv(cfg, tr[0])
    ensures Leads(cfg, tr[0], t, n) && Later(t, ios, tr[|tr| - 1]) && n + |ios| == |tr| - 1
    ensures |tr| > 1 ==> n > 0
    decreases |tr|
  {
    hide Inv, SchedStep, DioStep, WorkerStep, Can, Done, Leads;
    var k := |tr| - 1;
    if k == 0 {
      t, n, ios := tr[0], 0, [];
      LeadsNowhere(cfg, tr[0]);
    } else {
      var fore := tr[..k];
      t, n, ios := TurnsAreSerial(cfg, fore);
      ChainInv(cfg, tr[0], t, n);
      LaterKeeps(cfg, t, ios, tr[k - 1]);
      assert fore[k - 1] == tr[k - 1] && tr[k] == tr[k - 1 + 1];
      if SchedStep(cfg, tr[k - 1], tr[k]) && (k == 1 || !tr[k - 1].sched.Tick?) {
        if k == 1 {
          LeadsOn(cfg, tr[0], tr[0], 0, tr[1]);
          t, n, ios := tr[1], 1, [];
        } else {
          var t2 := AllIoCanWait(cfg, t, ios, tr[k - 1], tr[k]);
          LeadsOn(cfg, tr[0], t, n, t2);
          t, n := t2, n + 1;
        }
      } else {
        var io := StepIsIo(tr[k - 1], tr[k]);
        LaterOn(t, ios, tr[k - 1], io);
        ios := ios + [io];
      }
    }
  }

  lemma {:induction false} SegmentInv(cfg: Config, tr: seq<Sys>, n: nat)
    requires n < |tr| && Inv(cfg, tr[0]) && forall i :: 0 <= i < n ==> Next(cfg, tr[i], tr[i + 1])
    ensures Inv(cfg, tr[n])
  {
    hide Inv, Next;
    if n > 0 {
      SegmentInv(cfg, tr, n - 1);
      assert Next(cfg, tr[n - 1], tr[n - 1 + 1]);
      NextPreserves(cfg, tr[n - 1], tr[n]);
    }
  }

  /** While a request is waited for exec cannot move, so what happens from the scheduler's first
      step until the turn ends or the request is answered is a turn with I/O steps in between. */
  lemma WaitedTurnIsMixed(cfg: Config, tr: seq<Sys>)
    requires |tr| > 1 && Inv(cfg, tr[0]) && SchedStep(cfg, tr[0], tr[1])
    requires forall i :: 0 <= i < |tr| - 1 ==> Next(cfg, tr[i], tr[i + 1])
    requires forall i :: 0 < i < |tr| - 1 ==> Waited(tr[i].active, StageOf(tr[i].sched)) && !tr[i].sched.Tick?
    ensures MixedTurn(cfg, tr)
  {
    hide Inv, SchedStep, ExecStep, DioStep, WorkerStep, Waited;
    forall i | 0 <= i < |tr| - 1
      ensures || (SchedStep(cfg, tr[i], tr[i + 1]) && (i == 0 || !tr[i].sched.Tick?))
              || (i > 0 && (DioStep(tr[i], tr[i + 1]) || WorkerStep(tr[i], tr[i + 1])))
    {
      assert Next(cfg, tr[i], tr[i + 1]);
      if i > 0 {
        SegmentInv(cfg, tr, i);
        WaitedIsStuck(cfg, tr[i], tr[i + 1]);
      }
    }
  }

  lemma ChainInv(cfg: Config, s: Sys, t: Sys, n: nat)
    requires Inv(cfg, s) && Leads(cfg, s, t, n)
    ensures Inv(cfg, t)
  {
    TurnKeepsInv(cfg, s, t, n);
  }
}
