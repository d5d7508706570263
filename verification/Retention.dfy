/** How long the driver remembers a handle: the reservation scan never runs out of
    records, and a handle survives at least 110 later reservations. */
module Retention {
  import opened Protocol
  import opened Driver
  import opened System
  import opened Storage
  import opened Invariant
  import opened TableSteps
  import opened Frames
  import opened Steps

  /** An injective map into [0, n) has at most n entries. */
  lemma {:induction false} Pigeonhole(m: map<nat, nat>, n: nat)
    requires forall k :: k in m ==> m[k] < n
    requires forall j, k :: j in m && k in m && j != k ==> m[j] != m[k]
    ensures |m| <= n
  {
    if k :| k in m && m[k] == n - 1 {
      var rest := m - {k};
      assert m.Keys == rest.Keys + {k};
      Pigeonhole(rest, n - 1);
    } else if n == 0 {
      assert m.Keys == {};
    } else {
      Pigeonhole(m, n - 1);
    }
  }

  /** The first n table indices. */
  function Indices(n: nat): (r: set<nat>)
    ensures forall k: nat :: k in r <==> k < n
    ensures |r| == n
  {
    if n == 0 then {} else Indices(n - 1) + {n - 1}
  }

  function PinnedAt(ops: seq<Record>): set<nat> {
    set k: nat | k < |ops| && Pinned(ops[k])
  }

  lemma Subset(a: set<nat>, b: set<nat>)
    requires a <= b
    ensures |a| <= |b|
  {
    assert b == a + (b - a);
  }

  /** At most sixteen live creates, one per LUN, and one pending record are pinned. */
  lemma AtMostSeventeenPinned(s: System)
    requires Inv(s)
    ensures |PinnedAt(s.x.operations)| <= DISK_COUNT + 1
  {
    hide StorageInv;
    var ops, luns := s.x.operations, s.x.luns;
    var live := map k: nat | k < |ops| && ops[k].state == Succeeded && ops[k].mutation == CREATE_DISK :: ops[k].lun;
    forall j, k | j in live && k in live && j != k ensures live[j] != live[k] {
      assert LunOf(luns, ops[j]) && LunOf(luns, ops[k]);
      FindUnique(ops, s.x.nextOperation, j);
      FindUnique(ops, s.x.nextOperation, k);
    }
    Pigeonhole(live, DISK_COUNT);
    var own := if s.flight.Flight? then {Find(ops, s.flight.cmd.identity.id)} else {};
    forall k | k in PinnedAt(ops) ensures k in live.Keys + own {
      if ops[k].state == Pending { FindUnique(ops, s.x.nextOperation, k); }
    }
    Subset(PinnedAt(ops), live.Keys + own);
  }

  /** A full table always has a record to reclaim. */
  lemma VictimExists(ops: seq<Record>)
    requires |ops| == OPERATION_COUNT && |PinnedAt(ops)| <= DISK_COUNT + 1
    ensures Victim(ops) < |ops|
  {
    VictimPicks(ops);
    if forall j :: 0 <= j < |ops| ==> Pinned(ops[j]) {
      Subset(Indices(OPERATION_COUNT), PinnedAt(ops));
    }
  }

  /** Below id exhaustion and while the adapter is not stopping, every reservation of a
      create or delete succeeds. */
  lemma ReservationSucceeds(s: System, mutation: nat)
    requires Reachable(s) && (mutation == CREATE_DISK || mutation == DELETE_DISK)
    ensures NtSuccess(Reserve(s.x, mutation).0) <==> !s.x.stopping && s.x.nextOperation != 0
  {
    ReachableInvariant(s);
    AtMostSeventeenPinned(s);
    VictimExists(s.x.operations);
  }

  /** The id the next reservation would issue, counting an exhausted counter as past the end. */
  function Issuing(next: nat): nat {
    if next == 0 then U64_LIMIT else next
  }

  /** Distinct ids above `id` and below `end`, one for each of a set of indices. */
  lemma ManyYounger(ops: seq<Record>, ks: set<nat>, id: nat, end: nat)
    requires forall k :: k in ks ==> k < |ops| && id < ops[k].id < end
    requires forall j, k :: j in ks && k in ks && j != k ==> ops[j].id != ops[k].id
    requires id < end
    ensures |ks| <= end - 1 - id
  {
    var younger := map k: nat | k in ks :: ops[k].id - id - 1;
    assert younger.Keys == ks;
    Pigeonhole(younger, end - 1 - id);
  }

  /** The records that are neither pinned nor the one reclaimed. */
  function Younger(ops: seq<Record>, v: nat): set<nat> {
    Indices(|ops|) - PinnedAt(ops) - {v}
  }

  lemma ManyUnpinned(ops: seq<Record>, v: nat)
    requires |PinnedAt(ops)| <= DISK_COUNT + 1
    ensures |Younger(ops, v)| >= |ops| - (DISK_COUNT + 1) - 1
  {
  }

  /** An unpinned record that is not reclaimed was reserved after the one that is. */
  lemma ReclaimedIsOldest(ops: seq<Record>, next: nat, v: nat, k: nat)
    requires TableOk(ops, next) && v == Victim(ops) < |ops| && ops[v].id != 0 && k in Younger(ops, v)
    ensures k < |ops| && ops[v].id < ops[k].id < Issuing(next)
  {
    VictimPicks(ops);
    assert !Pinned(ops[k]) && RecordOk(ops[k], next);
  }

  lemma YoungerDiffer(ops: seq<Record>, next: nat, v: nat)
    requires TableOk(ops, next) && forall k :: k in Younger(ops, v) ==> ops[k].id != 0
    ensures forall j, k :: j in Younger(ops, v) && k in Younger(ops, v) && j != k ==> ops[j].id != ops[k].id
  {
  }

  /** When a reservation reclaims a record, at least 110 handles were reserved after it. */
  lemma EvictedLate(ops: seq<Record>, next: nat, v: nat)
    requires TableOk(ops, next) && |PinnedAt(ops)| <= DISK_COUNT + 1
    requires v == Victim(ops) < |ops| && ops[v].id != 0
    ensures Issuing(next) - 1 - ops[v].id >= 110
  {
    hide Victim, Younger, PinnedAt;
    assert RecordOk(ops[v], next);
    forall k | k in Younger(ops, v) ensures k < |ops| && ops[v].id < ops[k].id < Issuing(next) {
      ReclaimedIsOldest(ops, next, v, k);
    }
    YoungerDiffer(ops, next, v);
    ManyYounger(ops, Younger(ops, v), ops[v].id, Issuing(next));
    ManyUnpinned(ops, v);
  }

  // ---------------------------------------------------------------- Whole runs

  predicate Reserves(s: System, e: Event) {
    e.ReserveOp? && NtSuccess(Reserve(s.x, e.mutation).0)
  }

  /** The reservations of a run that succeeded. */
  function Reservations(s: System, es: seq<Event>): nat
    requires Runs(s, es)
    decreases |es|
  {
    if es == [] then 0 else (if Reserves(s, es[0]) then 1 else 0) + Reservations(Next(s, es[0]), es[1..])
  }

  lemma ReserveRetains(ops: seq<Record>, next: nat, mutation: nat, id: nat)
    requires TableOk(ops, next) && |PinnedAt(ops)| <= DISK_COUNT + 1 && next > 0
    requires Observe(ops, id).Some? && (mutation == CREATE_DISK || mutation == DELETE_DISK)
    requires Victim(ops) < |ops|
    ensures Observe(ops[Victim(ops) := FreshRecord(next, mutation)], id).Some? || Issuing(next) - 1 - id >= 110
  {
    var v := Victim(ops);
    VictimPicks(ops);
    ReserveTable(ops, next, v, mutation);
    if ops[v].id == id { EvictedLate(ops, next, v); }
  }

  lemma ReserveKeepsOrEvicts(s: System, mutation: nat, id: nat)
    requires Inv(s) && Observe(s.x.operations, id).Some?
    ensures Observe(Reserve(s.x, mutation).2.operations, id).Some? || Issuing(s.x.nextOperation) - 1 - id >= 110
  {
    if NtSuccess(Reserve(s.x, mutation).0) {
      AtMostSeventeenPinned(s);
      ReserveRetains(s.x.operations, s.x.nextOperation, mutation, id);
    }
  }

  /** One step forgets a handle only when at least 110 handles were reserved after it. */
  lemma StepRetains(s: System, e: Event, id: nat)
    requires Inv(s) && KnownSrb(s) && Enabled(s, e) && Observe(s.x.operations, id).Some?
    ensures Observe(Next(s, e).x.operations, id).Some? || (Reserves(s, e) && Issuing(s.x.nextOperation) - 1 - id >= 110)
  {
    hide StorageInv;
    if e.ReserveOp? {
      ReserveKeepsOrEvicts(s, e.mutation, id);
    } else {
      OthersKeepIds(s, e);
      FindSameIds(s.x.operations, Next(s, e).x.operations, id);
    }
  }

  lemma StepIssues(s: System, e: Event)
    requires Inv(s) && KnownSrb(s) && Enabled(s, e)
    ensures Issuing(Next(s, e).x.nextOperation) == Issuing(s.x.nextOperation) + if Reserves(s, e) then 1 else 0
  {
    if !e.ReserveOp? {
      OthersKeepIds(s, e);
    }
  }

  /** A handle the driver still knows is known after every run in which fewer than 110
      handles younger than it have been reserved in all, however many other events happen. */
  lemma {:induction false} RunRetains(s: System, es: seq<Event>, id: nat)
    requires Inv(s) && Runs(s, es) && Observe(s.x.operations, id).Some?
    requires Issuing(s.x.nextOperation) - 1 - id + Reservations(s, es) <= 110
    ensures Observe(After(s, es).x.operations, id).Some?
    decreases |es|
  {
    hide Inv, Enabled, Next;
    if es != [] {
      StepKeepsInvariant(s, es[0]);
      StepIssues(s, es[0]);
      StepRetains(s, es[0], id);
      RunRetains(Next(s, es[0]), es[1..], id);
    }
  }

  /** A fresh handle survives any run with at most 110 further reservations. */
  lemma HandleSurvives(s: System, mutation: nat, es: seq<Event>)
    requires Reachable(s) && KnownSrb(s) && Reserves(s, ReserveOp(mutation))
    requires Runs(Next(s, ReserveOp(mutation)), es) && Reservations(Next(s, ReserveOp(mutation)), es) <= 110
    ensures Observe(After(Next(s, ReserveOp(mutation)), es).x.operations, Reserve(s.x, mutation).1.id).Some?
  {
    hide Inv;
    ReachableInvariant(s);
    StepKeepsInvariant(s, ReserveOp(mutation));
    StepIssues(s, ReserveOp(mutation));
    FreshIsObserved(s, mutation);
    RunRetains(Next(s, ReserveOp(mutation)), es, s.x.nextOperation);
  }

  lemma FreshIsObserved(s: System, mutation: nat)
    requires Inv(s) && NtSuccess(Reserve(s.x, mutation).0)
    ensures Reserve(s.x, mutation).1.id == s.x.nextOperation
    ensures Observe(Reserve(s.x, mutation).2.operations, s.x.nextOperation) == Some(Reserve(s.x, mutation).1)
  {
    var ops, next, v := s.x.operations, s.x.nextOperation, Victim(s.x.operations);
    VictimPicks(ops);
    ReserveTable(ops, next, v, mutation);
    FindUnique(ops[v := FreshRecord(next, mutation)], (next + 1) % U64_LIMIT, v);
  }
}
