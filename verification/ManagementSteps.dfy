/** What two successive states have in common for a client that holds a handle or a
    device id, and how flights, controls and LUN identities change. */
module ManagementSteps {
  import opened Protocol
  import opened Driver
  import opened System
  import opened Storage
  import opened Invariant
  import opened TableSteps

  /** Present devices were present before under the same id, or are newly issued. */
  ghost predicate DevicesEvolve(luns: seq<Lun>, next: nat, luns': seq<Lun>, next': nat) {
    && (forall d: nat :: Issued(d, next, U32_LIMIT) ==> Issued(d, next', U32_LIMIT))
    && (forall i :: 0 <= i < |luns'| && luns'[i].state != Empty ==>
          || (i < |luns| && luns[i].state != Empty && luns[i].device == luns'[i].device)
          || !Issued(luns'[i].device, next, U32_LIMIT))
  }

  predicate Waiting(ops: seq<Record>, id: nat) {
    Find(ops, id) < |ops| && ops[Find(ops, id)].state == Pending
  }

  /** Only a handle whose record is Pending can be executed. */
  ghost predicate CountsEvolve(ops: seq<Record>, effects: map<nat, nat>, effects': map<nat, nat>) {
    forall id: nat :: !Waiting(ops, id) && id > 0 ==> Count(effects', id) == Count(effects, id)
  }

  /** The guarantee every step of the driver gives to clients. */
  ghost predicate Evolves(s: System, s': System) {
    && s'.x.instance == s.x.instance
    && TableEvolves(s.x.operations, s.x.nextOperation, s'.x.operations, s'.x.nextOperation)
    && DevicesEvolve(s.x.luns, s.x.nextDevice, s'.x.luns, s'.x.nextDevice)
    && CountsEvolve(s.x.operations, s.effects, s'.effects)
  }

  lemma SettledStays(s: System, s': System, id: nat)
    requires Evolves(s, s') && Settled(s.x.operations, s.x.nextOperation, id)
    ensures Settled(s'.x.operations, s'.x.nextOperation, id)
    ensures Count(s'.effects, id) == Count(s.effects, id)
  {
  }

  lemma GoneStays(s: System, s': System, device: nat)
    requires Evolves(s, s') && Gone(s.x.luns, s.x.nextDevice, device)
    ensures Gone(s'.x.luns, s'.x.nextDevice, device)
  {
  }

  /** A created disk whose record is forgotten is gone: live creates are pinned. */
  lemma ForgottenStaysGone(s: System, s': System, id: nat, device: nat)
    requires Evolves(s, s') && DeletesOk(s.x.operations, s.x.luns, s.x.nextDevice)
    requires Issued(id, s.x.nextOperation, U64_LIMIT)
    requires Observe(s.x.operations, id).None? ==> Gone(s.x.luns, s.x.nextDevice, device)
    requires var q := Observe(s.x.operations, id);
             q.Some? ==> q.value.device == device && (Pinned(q.value) || Vanished(q.value))
    ensures Observe(s'.x.operations, id).None? ==> Gone(s'.x.luns, s'.x.nextDevice, device)
  {
    assert Later(Observe(s.x.operations, id), Observe(s'.x.operations, id));
    if Observe(s'.x.operations, id).None? { GoneStays(s, s', device); }
  }

  lemma ReplyStays(s: System, s': System, c: Control, reply: Driver.Reply)
    requires Evolves(s, s') && ReplyOk(s, c, reply) && DeletesOk(s.x.operations, s.x.luns, s.x.nextDevice)
    ensures ReplyOk(s', c, reply)
  {
    if reply.Outcome? {
      var r := reply.response;
      SettledStays(s, s', r.id);
      RecordedStays(s, s', r);
      if Gone(s.x.luns, s.x.nextDevice, r.device) { GoneStays(s, s', r.device); }
      if r.state == StateCode(Succeeded) && r.mutation == CREATE_DISK { ForgottenStaysGone(s, s', r.id, r.device); }
    }
  }

  lemma RecordedStays(s: System, s': System, r: OperationResponse)
    requires Evolves(s, s') && Settled(s.x.operations, s.x.nextOperation, r.id)
    requires Recorded(s.x.operations, s.x.instance, r)
    ensures Recorded(s'.x.operations, s'.x.instance, r)
  {
    assert Later(Observe(s.x.operations, r.id), Observe(s'.x.operations, r.id));
  }

  /** Old replies stay true; only the reply written in this step needs a reason. */
  lemma RepliesStay(s: System, s': System)
    requires RepliesOk(s) && Evolves(s, s') && DeletesOk(s.x.operations, s.x.luns, s.x.nextDevice)
    requires forall srb :: srb in s'.controls && !s'.controls[srb].stage.Open? ==>
               || (srb in s.controls && !s.controls[srb].stage.Open? && s'.controls[srb].cmd == s.controls[srb].cmd
                   && s'.controls[srb].accepted == s.controls[srb].accepted
                   && s'.controls[srb].stage.reply == s.controls[srb].stage.reply)
               || ReplyOk(s', s'.controls[srb], s'.controls[srb].stage.reply)
    ensures RepliesOk(s')
  {
    forall srb | srb in s'.controls && !s'.controls[srb].stage.Open?
      ensures ReplyOk(s', s'.controls[srb], s'.controls[srb].stage.reply)
    {
      if srb in s.controls && !s.controls[srb].stage.Open? {
        ReplyStays(s, s', s.controls[srb], s.controls[srb].stage.reply);
      }
    }
  }

  /** Nothing a client can observe has changed. */
  lemma SameEvolves(s: System, s': System)
    requires s'.x.instance == s.x.instance && s'.x.operations == s.x.operations
    requires s'.x.nextOperation == s.x.nextOperation
    requires s'.effects == s.effects && s'.x.nextDevice == s.x.nextDevice && SamePresence(s.x.luns, s'.x.luns)
    ensures Evolves(s, s')
  {
  }

  // ------------------------------------------------------------ LUN identities

  /** The same devices are present with the same creating operations. */
  ghost predicate SamePresence(luns: seq<Lun>, luns': seq<Lun>) {
    && |luns'| == |luns|
    && (forall i :: 0 <= i < |luns| ==>
          && (luns'[i].state == Empty <==> luns[i].state == Empty)
          && luns'[i].device == luns[i].device && luns'[i].createId == luns[i].createId
          && luns'[i].size == luns[i].size && luns'[i].media == luns[i].media && luns'[i].letter == luns[i].letter)
  }

  lemma PresenceBinding(ops: seq<Record>, luns: seq<Lun>, luns': seq<Lun>)
    requires BindingOk(ops, luns) && SamePresence(luns, luns')
    ensures BindingOk(ops, luns')
  {
  }

  lemma PresenceDeletes(ops: seq<Record>, luns: seq<Lun>, next: nat, luns': seq<Lun>)
    requires DeletesOk(ops, luns, next) && SamePresence(luns, luns')
    ensures DeletesOk(ops, luns', next)
  {
  }

  /** Presence, and with it every management component, is kept by a change of one slot
      that keeps device, creating operation and emptiness. */
  lemma SlotPresence(luns: seq<Lun>, slot: nat, l: Lun)
    requires slot < |luns| && l.device == luns[slot].device && l.createId == luns[slot].createId
    requires l.size == luns[slot].size && l.media == luns[slot].media && l.letter == luns[slot].letter
    requires l.state == Empty <==> luns[slot].state == Empty
    ensures SamePresence(luns, luns[slot := l])
  {
  }

  // -------------------------------------------------- Commit and final removal

  lemma CommitPresence(luns: seq<Lun>, next: nat, slot: nat, l: Lun)
    requires slot < |luns| && luns[slot].state == Empty && 0 < next < U32_LIMIT && l.device == next && l.state == Online
    ensures DevicesEvolve(luns, next, luns[slot := l], (next + 1) % U32_LIMIT)
  {
  }

  lemma CommitBinding(ops: seq<Record>, luns: seq<Lun>, slot: nat, l: Lun)
    requires BindingOk(ops, luns) && slot < |luns| && luns[slot].state == Empty && l.createId == 0
    ensures BindingOk(ops, luns[slot := l])
  {
  }

  lemma DevicesDeletes(ops: seq<Record>, luns: seq<Lun>, next: nat, luns': seq<Lun>, next': nat)
    requires DeletesOk(ops, luns, next) && DevicesEvolve(luns, next, luns', next')
    ensures DeletesOk(ops, luns', next')
  {
  }

  /** An executed mutation belongs to a Pending record, so no other handle is counted. */
  lemma BumpEvolves(ops: seq<Record>, luns: seq<Lun>, instance: nat, nextDevice: nat, effects: map<nat, nat>, f: Flight)
    requires FlightOk(ops, luns, instance, nextDevice, f) && Unpublished(f)
    ensures CountsEvolve(ops, effects, Bump(effects, f.cmd))
  {
  }

  lemma BumpEffects(ops: seq<Record>, luns: seq<Lun>, instance: nat, next: nat, nextDevice: nat,
                    effects: map<nat, nat>, f: Flight, f': Flight)
    requires TableOk(ops, next) && FlightOk(ops, luns, instance, nextDevice, f) && EffectsOk(ops, next, effects, f)
    requires Unpublished(f) && !f.changed && f'.Flight? && f'.changed && f'.cmd == f.cmd
    ensures EffectsOk(ops, next, Bump(effects, f.cmd), f')
  {
  }
}
