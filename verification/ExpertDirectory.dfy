/** The expert directory: one state and one slot per (layer, expert, pool), a
    version per expert, in flat arrays. */
module ExpertDirectory {
  import opened Basics
  import opened PoolState
  import opened PoolSteps

  const UNASSIGNED: nat := 0xFFFF_FFFF
  const VERSION_LIMIT: nat := 0x1_0000_0000

  function Code(st: EntryState): nat {
    match st
    case Loading => 1
    case Resident => 2
    case MovingOut => 3
    case MovingIn => 4
    case LoadFailed => 5
  }

  /** What transition writes: ABSENT, or an entry. */
  function CodeOf(e: Option<Entry>): nat {
    if e.Some? then Code(e.value.st) else 0
  }

  function SlotOf(e: Option<Entry>): nat {
    if e.Some? then e.value.slot else UNASSIGNED
  }

  function ExpertIndex(nExperts: nat, ex: Expert): nat {
    ex.layer * nExperts + ex.id
  }

  function CellIndex(nExperts: nat, nPools: nat, p: Place): nat {
    ExpertIndex(nExperts, p.ex) * nPools + p.pool
  }

  /** Row-major indices are within bounds and unique. */
  lemma PairIndex(a: nat, i: nat, b: nat, j: nat, n: nat, rows: nat)
    requires i < n && j < n && a < rows && b < rows
    ensures a * n + i < rows * n
    ensures a * n + i == b * n + j ==> a == b && i == j
  {
    MulMono(a + 1, rows, n);
    assert (a + 1) * n == a * n + n && (b + 1) * n == b * n + n;
    if a < b { MulMono(a + 1, b, n); }
    if b < a { MulMono(b + 1, a, n); }
  }

  predicate InRange(nLayers: nat, nExperts: nat, nPools: nat, p: Place) {
    p.ex.layer < nLayers && p.ex.id < nExperts && p.pool < nPools
  }

  lemma CellsApart(nLayers: nat, nExperts: nat, nPools: nat, p: Place, q: Place)
    requires InRange(nLayers, nExperts, nPools, p) && InRange(nLayers, nExperts, nPools, q)
    ensures CellIndex(nExperts, nPools, p) < nLayers * nExperts * nPools
    ensures CellIndex(nExperts, nPools, p) == CellIndex(nExperts, nPools, q) <==> p == q
    ensures ExpertIndex(nExperts, p.ex) < nLayers * nExperts
    ensures ExpertIndex(nExperts, p.ex) == ExpertIndex(nExperts, q.ex) <==> p.ex == q.ex
  {
    PairIndex(p.ex.layer, p.ex.id, q.ex.layer, q.ex.id, nExperts, nLayers);
    PairIndex(q.ex.layer, q.ex.id, p.ex.layer, p.ex.id, nExperts, nLayers);
    PairIndex(ExpertIndex(nExperts, p.ex), p.pool, ExpertIndex(nExperts, q.ex), q.pool, nPools, nLayers * nExperts);
  }

  class Cells {
    const nLayers: nat
    const nExperts: nat
    const nPools: nat
    const states: array<nat>
    const slots: array<nat>
    const versions: array<nat>
    /** The table as a partial map: ABSENT cells are not in it. */
    ghost var dir: Directory

    ghost predicate Valid()
      reads this, states, slots, versions
    {
      && states.Length == slots.Length == nLayers * nExperts * nPools && versions.Length == nLayers * nExperts
      && states != slots && states != versions && slots != versions
      && (forall p :: p in dir ==> InRange(nLayers, nExperts, nPools, p) && dir[p].slot < UNASSIGNED)
      && forall p :: InRange(nLayers, nExperts, nPools, p) ==> CellHolds(p)
    }

    /** The arrays at p's index hold what the map says. */
    ghost predicate CellHolds(p: Place)
      reads this, states, slots
    {
      var i := CellIndex(nExperts, nPools, p);
      var e := if p in dir then Some(dir[p]) else None;
      i < states.Length && i < slots.Length && states[i] == CodeOf(e) && slots[i] == SlotOf(e)
    }

    constructor (nLayers: nat, nExperts: nat, nPools: nat)
      ensures Valid() && dir == map[]
      ensures this.nLayers == nLayers && this.nExperts == nExperts && this.nPools == nPools
    {
      this.nLayers, this.nExperts, this.nPools := nLayers, nExperts, nPools;
      states := new nat[nLayers * nExperts * nPools](_ => 0);
      slots := new nat[nLayers * nExperts * nPools](_ => UNASSIGNED);
      versions := new nat[nLayers * nExperts](_ => 0);
      dir := map[];
      new;
      forall p | InRange(nLayers, nExperts, nPools, p) ensures CellHolds(p) {
        CellsApart(nLayers, nExperts, nPools, p, p);
      }
    }

    /** transition: exactly one cell changes, and exactly that expert's version is bumped. */
    method Transition(ex: Expert, pool: nat, e: Option<Entry>)
      requires Valid() && InRange(nLayers, nExperts, nPools, Place(ex, pool)) && (e.Some? ==> e.value.slot < UNASSIGNED)
      modifies this, states, slots, versions
      ensures Valid() &&
                dir == if e.Some? then old(dir)[Place(ex, pool) := e.value] else Clear(old(dir), Place(ex, pool))
      ensures forall i :: 0 <= i < versions.Length ==>
                versions[i] ==
                    if i == ExpertIndex(nExperts, ex) then (old(versions[i]) + 1) % VERSION_LIMIT else old(versions[i])
    {
      var p := Place(ex, pool);
      CellsApart(nLayers, nExperts, nPools, p, p);
      var i, v := CellIndex(nExperts, nPools, p), ExpertIndex(nExperts, ex);
      slots[i] := SlotOf(e);
      states[i] := CodeOf(e);
      versions[v] := (versions[v] + 1) % VERSION_LIMIT;
      dir := if e.Some? then dir[p := e.value] else Clear(dir, p);
      forall q | InRange(nLayers, nExperts, nPools, q) ensures CellHolds(q) {
        CellsApart(nLayers, nExperts, nPools, p, q);
        assert old(CellHolds(q));
      }
    }

    /** find: the slot of a READY cell, or UNASSIGNED. */
    method Find(ex: Expert, pool: nat) returns (slot: nat)
      requires Valid() && InRange(nLayers, nExperts, nPools, Place(ex, pool))
      ensures slot == if ResidentIn(dir, ex, pool) then dir[Place(ex, pool)].slot else UNASSIGNED
    {
      var p := Place(ex, pool);
      CellsApart(nLayers, nExperts, nPools, p, p);
      assert CellHolds(p);
      var i := CellIndex(nExperts, nPools, p);
      slot := if states[i] != 2 then UNASSIGNED else slots[i];
    }

    /** scan: the first pool with a READY copy, and its slot. */
    method Scan(ex: Expert) returns (found: Option<nat>, slot: nat)
      requires Valid() && ex.layer < nLayers && ex.id < nExperts
      ensures found == ScanPools(dir, nPools, ex, 0)
      ensures slot == if found.Some? then dir[Place(ex, found.value)].slot else UNASSIGNED
    {
      var pool := 0;
      while pool < nPools
        invariant 0 <= pool <= nPools && ScanPools(dir, nPools, ex, 0) == ScanPools(dir, nPools, ex, pool)
      {
        slot := Find(ex, pool);
        if slot != UNASSIGNED { return Some(pool), slot; }
        pool := pool + 1;
      }
      found, slot := None, UNASSIGNED;
    }
  }
}
