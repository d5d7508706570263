/** How the operation table changes, and what every change keeps: identities, the link
    to LUNs, effect counts, and the order in which a handle's observations may change. */
module TableSteps {
  import opened Protocol
  import opened Driver
  import opened System
  import opened Storage
  import opened Invariant

  /** The changes one step may make to what a handle shows. */
  predicate Later(a: Option<Record>, b: Option<Record>) {
    match (a, b)
    case (None, _) => b.None?
    case (Some(r), None) => !Pinned(r)
    case (Some(r), Some(q)) =>
      || q == r
      || (q.id == r.id && q.mutation == r.mutation && r.state == Reserved && q.state == Pending)
      || (q.id == r.id && q.mutation == r.mutation && q.create == r.create && q.remove == r.remove
          && r.state == Pending && (q.state == Succeeded || q.state == Failed))
      || (r.state == Succeeded && r.mutation == CREATE_DISK && q == r.(state := Deleted))
  }

  ghost predicate TableEvolves(ops: seq<Record>, next: nat, ops': seq<Record>, next': nat) {
    && (forall id: nat :: Issued(id, next, U64_LIMIT) ==> Issued(id, next', U64_LIMIT))
    && (forall id: nat :: Issued(id, next, U64_LIMIT) ==> Later(Observe(ops, id), Observe(ops', id)))
  }

  lemma FindUnique(ops: seq<Record>, next: nat, k: nat)
    requires TableOk(ops, next) && k < |ops| && ops[k].id != 0
    ensures Find(ops, ops[k].id) == k
  {
  }

  lemma FindSameIds(ops: seq<Record>, ops': seq<Record>, id: nat)
    requires |ops| == |ops'| && forall k :: 0 <= k < |ops| ==> ops[k].id == ops'[k].id
    ensures Find(ops', id) == Find(ops, id)
  {
  }

  /** The record at k is replaced by one of the same id. */
  lemma ReplaceTable(ops: seq<Record>, next: nat, k: nat, r: Record)
    requires TableOk(ops, next) && k < |ops| && ops[k].id == r.id != 0 && RecordOk(r, next)
    requires Later(Some(ops[k]), Some(r))
    ensures TableOk(ops[k := r], next) && TableEvolves(ops, next, ops[k := r], next)
    ensures forall id: nat :: Find(ops[k := r], id) == Find(ops, id)
  {
    forall id: nat ensures Find(ops[k := r], id) == Find(ops, id) { FindSameIds(ops, ops[k := r], id); }
  }

  // ------------------------------------------------------------- Reservation

  /** The scan picks the first unused record, or else the unpinned record of least id. */
  lemma {:induction false} ScanPicks(ops: seq<Record>, i: nat, selected: nat)
    requires i <= |ops| && selected <= |ops|
    requires forall j :: 0 <= j < i ==> ops[j].id != 0
    requires selected < |ops| ==> selected < i && !Pinned(ops[selected])
    requires forall j :: 0 <= j < i && !Pinned(ops[j]) ==> selected < |ops| && ops[selected].id <= ops[j].id
    ensures var v := Scan(ops, i, selected);
            && (v < |ops| && ops[v].id == 0 ==> forall j :: 0 <= j < v ==> ops[j].id != 0)
            && (v < |ops| && ops[v].id != 0 ==>
                  && !Pinned(ops[v])
                  && forall j :: 0 <= j < |ops| ==> ops[j].id != 0 && (Pinned(ops[j]) || ops[v].id <= ops[j].id))
            && (v == |ops| ==> forall j :: 0 <= j < |ops| ==> ops[j].id != 0 && Pinned(ops[j]))
    decreases |ops| - i
  {
    if i == |ops| || ops[i].id == 0 {
    } else if Pinned(ops[i]) {
      ScanPicks(ops, i + 1, selected);
    } else if selected == |ops| || ops[i].id < ops[selected].id {
      ScanPicks(ops, i + 1, i);
    } else {
      ScanPicks(ops, i + 1, selected);
    }
  }

  lemma VictimPicks(ops: seq<Record>)
    ensures var v := Victim(ops);
            && (v < |ops| && ops[v].id == 0 ==> forall j :: 0 <= j < v ==> ops[j].id != 0)
            && (v < |ops| && ops[v].id != 0 ==>
                  && !Pinned(ops[v])
                  && forall j :: 0 <= j < |ops| ==> ops[j].id != 0 && (Pinned(ops[j]) || ops[v].id <= ops[j].id))
            && (v == |ops| ==> forall j :: 0 <= j < |ops| ==> ops[j].id != 0 && Pinned(ops[j]))
  {
    ScanPicks(ops, 0, |ops|);
  }

  lemma ReserveTableOk(ops: seq<Record>, next: nat, v: nat, mutation: nat)
    requires TableOk(ops, next) && next > 0 && v < |ops|
    requires mutation == CREATE_DISK || mutation == DELETE_DISK
    ensures TableOk(ops[v := FreshRecord(next, mutation)], (next + 1) % U64_LIMIT)
  {
    var ops' := ops[v := FreshRecord(next, mutation)];
    forall k | 0 <= k < |ops'| ensures RecordOk(ops'[k], (next + 1) % U64_LIMIT) {
      if k != v { assert RecordOk(ops[k], next); }
    }
    forall k | 0 <= k < |ops| && ops[k].id != 0 ensures ops[k].id != next { assert RecordOk(ops[k], next); }
  }

  /** A reservation overwrites an unused or unpinned record; ids are not reissued. */
  lemma ReserveTable(ops: seq<Record>, next: nat, v: nat, mutation: nat)
    requires TableOk(ops, next) && next > 0 && v < |ops| && (ops[v].id == 0 || !Pinned(ops[v]))
    requires mutation == CREATE_DISK || mutation == DELETE_DISK
    ensures var ops' := ops[v := FreshRecord(next, mutation)];
            var next' := (next + 1) % U64_LIMIT;
            && TableOk(ops', next') && TableEvolves(ops, next, ops', next')
            && (forall k :: 0 <= k < |ops| && k != v && ops[k].id != 0 ==> Find(ops', ops[k].id) == k)
  {
    var ops' := ops[v := FreshRecord(next, mutation)];
    var next' := (next + 1) % U64_LIMIT;
    ReserveTableOk(ops, next, v, mutation);
    forall k | 0 <= k < |ops| && k != v && ops[k].id != 0 ensures Find(ops', ops[k].id) == k {
      FindUnique(ops', next', k);
    }
    forall id: nat | Issued(id, next, U64_LIMIT) ensures Later(Observe(ops, id), Observe(ops', id)) {
      ReserveLater(ops, next, v, mutation, id);
    }
  }

  lemma ReserveLater(ops: seq<Record>, next: nat, v: nat, mutation: nat, id: nat)
    requires TableOk(ops, next) && next > 0 && v < |ops| && (ops[v].id == 0 || !Pinned(ops[v]))
    requires Issued(id, next, U64_LIMIT)
    ensures Later(Observe(ops, id), Observe(ops[v := FreshRecord(next, mutation)], id))
  {
    var ops' := ops[v := FreshRecord(next, mutation)];
    var k, k' := Find(ops, id), Find(ops', id);
    assert k < |ops| && k != v ==> ops'[k].id == id;
    if k' < |ops'| {
      assert k' != v;
      FindUnique(ops, next, k');
    }
  }

  lemma ReserveBinding(ops: seq<Record>, next: nat, luns: seq<Lun>, v: nat, mutation: nat)
    requires TableOk(ops, next) && BindingOk(ops, luns) && next > 0 && v < |ops| && (ops[v].id == 0 || !Pinned(ops[v]))
    requires mutation == CREATE_DISK || mutation == DELETE_DISK
    ensures BindingOk(ops[v := FreshRecord(next, mutation)], luns)
  {
    ReserveTable(ops, next, v, mutation);
  }

  lemma ReserveEffects(ops: seq<Record>, next: nat, effects: map<nat, nat>, f: Flight, v: nat, mutation: nat)
    requires TableOk(ops, next) && EffectsOk(ops, next, effects, f) && next > 0 && v < |ops|
    ensures EffectsOk(ops[v := FreshRecord(next, mutation)], (next + 1) % U64_LIMIT, effects, f)
  {
  }

  lemma ReserveFlight(ops: seq<Record>, next: nat, luns: seq<Lun>, instance: nat, nextDevice: nat, f: Flight, v: nat,
                      mutation: nat)
    requires TableOk(ops, next) && FlightOk(ops, luns, instance, nextDevice, f) && next > 0 && v < |ops|
    requires ops[v].id == 0 || !Pinned(ops[v])
    requires mutation == CREATE_DISK || mutation == DELETE_DISK
    ensures FlightOk(ops[v := FreshRecord(next, mutation)], luns, instance, nextDevice, f)
  {
    ReserveTable(ops, next, v, mutation);
  }

  lemma ReserveDeletes(ops: seq<Record>, luns: seq<Lun>, next: nat, v: nat, r: Record)
    requires DeletesOk(ops, luns, next) && v < |ops| && r.state == Reserved
    ensures DeletesOk(ops[v := r], luns, next)
  {
  }

  // -------------------------------------- Records in the hands of a command

  /** A record that is not a live create is replaced by another that is not one. */
  lemma ReplaceBinding(ops: seq<Record>, next: nat, luns: seq<Lun>, k: nat, r: Record)
    requires TableOk(ops, next) && BindingOk(ops, luns) && k < |ops| && ops[k].id == r.id != 0 && RecordOk(r, next)
    requires Later(Some(ops[k]), Some(r))
    requires !(ops[k].state == Succeeded && ops[k].mutation == CREATE_DISK)
    requires !(r.state == Succeeded && r.mutation == CREATE_DISK)
    ensures BindingOk(ops[k := r], luns)
  {
    ReplaceTable(ops, next, k, r);
  }

  lemma ReplaceEffects(ops: seq<Record>, next: nat, effects: map<nat, nat>, f: Flight, k: nat, r: Record, f': Flight)
    requires TableOk(ops, next) && EffectsOk(ops, next, effects, f) && k < |ops| && ops[k].id == r.id != 0
    requires Expected(r, f') == Expected(ops[k], f)
    requires forall j :: 0 <= j < |ops| && j != k ==> ops[j].state != Pending
    ensures EffectsOk(ops[k := r], next, effects, f')
  {
  }

  lemma ReplaceDeletes(ops: seq<Record>, luns: seq<Lun>, next: nat, k: nat, r: Record)
    requires DeletesOk(ops, luns, next) && k < |ops|
    requires Vanished(r) ==> Gone(luns, next, r.device)
    ensures DeletesOk(ops[k := r], luns, next)
  {
  }

  /** Publication of a successful create: the record and the LUN's creating operation
      appear together. */
  lemma PublishBinding(ops: seq<Record>, next: nat, luns: seq<Lun>, k: nat, r: Record)
    requires TableOk(ops, next) && BindingOk(ops, luns) && k < |ops| && ops[k].id == r.id != 0 && RecordOk(r, next)
    requires ops[k].state == Pending && Later(Some(ops[k]), Some(r))
    requires r.state == Succeeded && r.mutation == CREATE_DISK
    requires r.lun < |luns| && luns[r.lun].state == Online && luns[r.lun].device == r.device
    requires luns[r.lun].createId == 0
    requires HasParams(luns[r.lun], r.create)
    ensures BindingOk(ops[k := r], luns[r.lun := luns[r.lun].(createId := r.id)])
  {
    hide TableEvolves;
    ReplaceTable(ops, next, k, r);
    FindUnique(ops, next, k);
  }

  // ------------------------------------------------- MarkCreatesDeletedLocked

  lemma DeletedTable(ops: seq<Record>, next: nat, device: nat)
    requires TableOk(ops, next)
    ensures var ops' := CreatesDeleted(ops, device);
            && TableOk(ops', next) && TableEvolves(ops, next, ops', next)
            && forall id: nat :: Find(ops', id) == Find(ops, id)
  {
    var ops' := CreatesDeleted(ops, device);
    forall id: nat ensures Find(ops', id) == Find(ops, id) { FindSameIds(ops, ops', id); }
    forall k | 0 <= k < |ops'| ensures RecordOk(ops'[k], next) { assert RecordOk(ops[k], next); }
  }

  lemma DeletedEffects(ops: seq<Record>, next: nat, effects: map<nat, nat>, f: Flight, device: nat)
    requires EffectsOk(ops, next, effects, f)
    ensures EffectsOk(CreatesDeleted(ops, device), next, effects, f)
  {
  }
}
