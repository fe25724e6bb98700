/** The first turn on a fresh pool: exec asks, the scheduler serves. */
module PoolFirstTurn {
  import opened Basics
  import opened PoolState
  import opened PoolSteps
  import opened PoolInvariant
  import opened PoolTurns
  import opened PoolScheduler

  /** The scheduler is at its main loop, nothing is resident and nobody asks for anything. */
  ghost predicate Fresh(s: Scheduler)
    reads s, s.slots
  {
    s.Valid() && s.now.sched == Tick && s.active.None? && s.dir == map[] && s.now.queue == []
  }

  /** A step of exec that only moves its own position. */
  method Look(s: Scheduler, ghost s': Sys)
    requires Fresh(s) && ExecStep(s.cfg, s.now, s') && s' == s.now.(exec := s'.exec)
    modifies s`await, s`now, s`run, s`from, s`steps, s.slots
    ensures Fresh(s) && s.now == s' && |s.run| > old(|s.run|)
  {
    hide ExecStep, Leads, Reached, Inv, GroupsOk, CellsOk, FreeOk, LedgerOk, MovesIn;
    s.Agree();
    s.OtherThread(s.slots[..], s.await, s');
  }

  /** exec looks for one needed expert in every pool and does not find it. */
  method LookInVain(s: Scheduler, layer: nat, needed: set<nat>, e: nat)
    requires Fresh(s) && e < s.cfg.nExperts && s.now.exec == Scan(layer, needed, Below(needed, e), e, 0)
    modifies s`await, s`now, s`run, s`from, s`steps, s.slots
    ensures Fresh(s) && s.now.exec == Scan(layer, needed, Below(needed, e + 1), e + 1, 0) && |s.run| > old(|s.run|)
  {
    hide Fresh, Inv, Below;
    NextBelow(needed, e);
    if e in needed {
      for p := 0 to s.cfg.nPools
        invariant Fresh(s) && s.now.exec == Scan(layer, needed, Below(needed, e), e, p) && |s.run| >= old(|s.run|)
      {
        Absent(s);
        Look(s, ScanStep(s.cfg, s.now));
      }
    }
    Look(s, ScanStep(s.cfg, s.now));
  }

  lemma NextBelow(needed: set<nat>, e: nat)
    ensures Below(needed, e + 1) == if e in needed then Below(needed, e) + {e} else Below(needed, e)
  {
  }

  lemma Absent(s: Scheduler)
    requires Fresh(s)
    ensures forall ex, pool :: !ResidentIn(s.now.store.dir, ex, pool)
  {
    s.Agree();
  }

  /** pin_layer on a pool without residents asks for every expert it needs. */
  method Ask(s: Scheduler, layer: nat, needed: set<nat>)
    requires Fresh(s) && CanStart(s.cfg, s.now, layer, needed)
    modifies s`await, s`now, s`run, s`from, s`steps, s.slots
    ensures s.Valid() && s.now.sched == Tick && s.active.None? && s.now.queue == [Request(layer, needed, |needed|)]
    ensures |s.run| > old(|s.run|)
  {
    hide Inv, Leads, Reached, GroupsOk, CellsOk, FreeOk, LedgerOk, MovesIn, Below;
    Starts(s.cfg, s.now, layer, needed);
    Look(s, StartPin(s.now, layer, needed));
    for e := 0 to s.cfg.nExperts
      invariant Fresh(s) && s.now.exec == Scan(layer, needed, Below(needed, e), e, 0) && |s.run| > old(|s.run|)
    {
      LookInVain(s, layer, needed, e);
    }
    AllBelow(needed, s.cfg.nExperts);
    s.Agree();
    s.OtherThread(s.slots[..], Await(0, false, |needed|), ScanStep(s.cfg, s.now));
    s.Agree();
    s.OtherThread(s.slots[..], s.await, PushStep(s.now));
  }

  lemma Starts(cfg: Config, s: Sys, layer: nat, needed: set<nat>)
    requires CanStart(cfg, s, layer, needed)
    ensures ExecStep(cfg, s, StartPin(s, layer, needed)) && Below(needed, 0) == {}
  {
  }

  lemma AllBelow(needed: set<nat>, n: nat)
    requires forall e :: e in needed ==> e < n
    ensures Below(needed, n) == needed
  {
  }

  /** From init to the end of the first pass over the first request: one run of the protocol. */
  method FirstTurn(cfg: Config, layersOf: seq<seq<nat>>, layer: nat, needed: set<nat>)
    returns (s: Scheduler, ghost tr: seq<Sys>)
    requires cfg.Valid() && GroupsOk(cfg, layersOf)
    requires layer < cfg.nLayers && needed != {} && forall e :: e in needed ==> e < cfg.nExperts
    ensures s.cfg == cfg && s.Valid() && s.now.sched == Tick
    ensures Reached(cfg, tr, s.now) && |tr| > 2
  {
    hide Inv, Leads, Reached, FreeOk, LedgerOk, MovesIn, CellsOk, GroupsOk;
    s := new Scheduler(cfg, layersOf);
    s.Agree();
    Ask(s, layer, needed);
    s.AcceptRequests(Request(layer, needed, |needed|));
    tr := s.WholeRun();
  }
}
