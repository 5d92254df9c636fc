/**
 * What a sequence of reservation requests, each handled to completion in
 * turn, guarantees: at most one success per slot, rejection of every later
 * request for a booked slot, a ledger in which every booking holds a booked
 * slot, and independence of distinct slots.
 */
module ReservationProperties {
  import opened Common
  import opened ExperienceModel
  import opened BookingModel
  import opened BookingRoutes

  /** Slot ids are unique within one experience (assumed, not enforced by the schema). */
  predicate DistinctSlotIds(slots: seq<Slot>) {
    forall i, j :: 0 <= i < j < |slots| ==> slots[i].id != slots[j].id
  }

  predicate AllDistinctSlotIds(catalog: Catalog) {
    forall e :: e in catalog ==> DistinctSlotIds(catalog[e].slots)
  }

  /** Each slot is either unchanged or has become booked; nothing else moves. */
  predicate SlotsEvolve(before: seq<Slot>, after: seq<Slot>) {
    && |after| == |before|
    && forall i :: 0 <= i < |before| ==> after[i] == before[i] || after[i] == before[i].(is_booked := true)
  }

  /** The catalog keeps its experiences and their fields; slots only become booked. */
  predicate Evolves(before: Catalog, after: Catalog) {
    && before.Keys == after.Keys
    && forall e :: e in before ==>
         && after[e] == before[e].(slots := after[e].slots)
         && SlotsEvolve(before[e].slots, after[e].slots)
  }

  /** One request: the body plus what the environment decides (fault, clock, new id). */
  datatype Call = Call(req: BookingRequest, fault: Fault, now: int, newId: string)

  /** The two requests name the same experience and slot. */
  predicate SameSlot(a: Call, b: Call) {
    a.req.experience_id == b.req.experience_id && a.req.slot_id == b.req.slot_id
  }

  predicate Targets(c: Call, eid: string, sid: string) {
    c.req.experience_id == Some(eid) && c.req.slot_id == Some(sid)
  }

  /** A request that passes validation and meets no store fault in the update. */
  predicate ReachesUpdate(c: Call) {
    HasRequiredFields(c.req) && c.fault != UpdateFault
  }

  function StepCall(catalog: Catalog, ledger: seq<Booking>, c: Call): Outcome {
    Step(catalog, ledger, c.req, c.fault, c.now, c.newId)
  }

  datatype Trace = Trace(catalog: Catalog, ledger: seq<Booking>, replies: seq<Reply>)

  /** The requests handled one after another, each on the state the previous one left. */
  function Run(catalog: Catalog, ledger: seq<Booking>, calls: seq<Call>): (t: Trace)
    ensures |t.replies| == |calls|
    decreases |calls|
  {
    if calls == [] then Trace(catalog, ledger, [])
    else
      var out := StepCall(catalog, ledger, calls[0]);
      var rest := Run(out.catalog, out.ledger, calls[1..]);
      Trace(rest.catalog, rest.ledger, [out.reply] + rest.replies)
  }

  // ---------------------------------------------------------------------------
  // One step
  // ---------------------------------------------------------------------------

  /** A request never unbooks a slot, never adds or removes one and touches no other field. */
  lemma StepEvolves(catalog: Catalog, ledger: seq<Booking>, c: Call)
    ensures Evolves(catalog, StepCall(catalog, ledger, c).catalog)
  {
    var out := StepCall(catalog, ledger, c);
    if out.catalog != catalog {
      var eid := c.req.experience_id.value;
      var i := FreeSlotIndex(catalog[eid].slots, c.req.slot_id.value).value;
      assert BookedOnly(catalog, out.catalog, eid, i);
      forall e | e in catalog
        ensures out.catalog[e] == catalog[e].(slots := out.catalog[e].slots)
        ensures SlotsEvolve(catalog[e].slots, out.catalog[e].slots)
      {
        if e == eid {
          forall j | 0 <= j < |catalog[e].slots|
            ensures out.catalog[e].slots[j] == catalog[e].slots[j]
                 || out.catalog[e].slots[j] == catalog[e].slots[j].(is_booked := true)
          {
          }
        }
      }
    }
  }

  lemma EvolvesKeepsIds(before: Catalog, after: Catalog)
    requires Evolves(before, after) && AllDistinctSlotIds(before)
    ensures AllDistinctSlotIds(after)
  {
    forall e | e in after
      ensures DistinctSlotIds(after[e].slots)
    {
      forall i, j | 0 <= i < j < |after[e].slots|
        ensures after[e].slots[i].id != after[e].slots[j].id
      {
        assert after[e].slots[i].id == before[e].slots[i].id;
        assert after[e].slots[j].id == before[e].slots[j].id;
      }
    }
  }

  /** A slot that is not available stays unavailable: nothing ever frees a slot. */
  lemma EvolvesKeepsUnavailable(before: Catalog, after: Catalog, eid: string, sid: string)
    requires Evolves(before, after) && !SlotAvailable(before, eid, sid)
    ensures !SlotAvailable(after, eid, sid)
  {
    if eid in after {
      forall i | 0 <= i < |after[eid].slots|
        ensures !IsFreeSlot(after[eid].slots[i], sid)
      {
        assert !IsFreeSlot(before[eid].slots[i], sid);
      }
    }
  }

  /** A booked slot stays booked. */
  lemma EvolvesKeepsBooked(before: Catalog, after: Catalog, eid: string, sid: string)
    requires Evolves(before, after) && SlotBooked(before, eid, sid)
    ensures SlotBooked(after, eid, sid)
  {
    var i :| 0 <= i < |before[eid].slots| && before[eid].slots[i].id == sid && before[eid].slots[i].is_booked;
    assert after[eid].slots[i].id == sid && after[eid].slots[i].is_booked;
  }

  /** With unique ids, a booked slot is not available. */
  lemma BookedNotAvailable(catalog: Catalog, eid: string, sid: string)
    requires AllDistinctSlotIds(catalog) && SlotBooked(catalog, eid, sid)
    ensures !SlotAvailable(catalog, eid, sid)
  {
    var slots := catalog[eid].slots;
    var i :| 0 <= i < |slots| && slots[i].id == sid && slots[i].is_booked;
    assert DistinctSlotIds(slots);
    forall j | 0 <= j < |slots|
      ensures !IsFreeSlot(slots[j], sid)
    {
      if j < i {
        assert slots[j].id != slots[i].id;
      } else if i < j {
        assert slots[i].id != slots[j].id;
      }
    }
  }

  /**
   * When a request changes the catalog (a success, or an orphaned
   * reservation whose booking failed), the requested slot is booked afterwards.
   */
  lemma ChangedMeansBooked(catalog: Catalog, ledger: seq<Booking>, c: Call)
    requires StepCall(catalog, ledger, c).catalog != catalog
    ensures ReachesUpdate(c)
    ensures SlotBooked(StepCall(catalog, ledger, c).catalog, c.req.experience_id.value, c.req.slot_id.value)
  {
    var out := StepCall(catalog, ledger, c);
    var eid, sid := c.req.experience_id.value, c.req.slot_id.value;
    var i := FreeSlotIndex(catalog[eid].slots, sid).value;
    assert BookedOnly(catalog, out.catalog, eid, i);
    assert out.catalog[eid].slots[i].id == sid && out.catalog[eid].slots[i].is_booked;
  }

  /** The same, phrased for the next request: with unique ids the slot is no longer available. */
  lemma ChangedMeansUnavailable(catalog: Catalog, ledger: seq<Booking>, c: Call)
    requires AllDistinctSlotIds(catalog)
    requires StepCall(catalog, ledger, c).catalog != catalog
    ensures !SlotAvailable(StepCall(catalog, ledger, c).catalog, c.req.experience_id.value, c.req.slot_id.value)
  {
    var out := StepCall(catalog, ledger, c);
    ChangedMeansBooked(catalog, ledger, c);
    StepEvolves(catalog, ledger, c);
    EvolvesKeepsIds(catalog, out.catalog);
    BookedNotAvailable(out.catalog, c.req.experience_id.value, c.req.slot_id.value);
  }

  // ---------------------------------------------------------------------------
  // Sequences of requests
  // ---------------------------------------------------------------------------

  /**
   * Every request of `calls` for the slot fails: never with a booking, and
   * with 409 whenever it passes validation and the update raises nothing.
   */
  predicate RejectsAll(calls: seq<Call>, replies: seq<Reply>, eid: string, sid: string)
    requires |replies| == |calls|
  {
    forall i :: 0 <= i < |calls| && Targets(calls[i], eid, sid) ==>
      && !replies[i].Created?
      && (ReachesUpdate(calls[i]) ==> replies[i] == SlotUnavailable)
  }

  /** Once a slot is unavailable (booked, or never existing), every later request for it fails. */
  lemma {:induction false} RejectedWhileUnavailable(catalog: Catalog, ledger: seq<Booking>,
                                                     calls: seq<Call>, eid: string, sid: string)
    requires !SlotAvailable(catalog, eid, sid)
    ensures RejectsAll(calls, Run(catalog, ledger, calls).replies, eid, sid)
    decreases |calls|
  {
    if calls != [] {
      var out := StepCall(catalog, ledger, calls[0]);
      StepEvolves(catalog, ledger, calls[0]);
      EvolvesKeepsUnavailable(catalog, out.catalog, eid, sid);
      RejectedWhileUnavailable(out.catalog, out.ledger, calls[1..], eid, sid);
      var t := Run(catalog, ledger, calls);
      var rest := Run(out.catalog, out.ledger, calls[1..]);
      forall i | 0 <= i < |calls| && Targets(calls[i], eid, sid)
        ensures !t.replies[i].Created? && (ReachesUpdate(calls[i]) ==> t.replies[i] == SlotUnavailable)
      {
        if i > 0 {
          assert calls[i] == calls[1..][i - 1] && t.replies[i] == rest.replies[i - 1];
        }
      }
    }
  }

  /** After a success at position i, no later request for the same slot succeeds, and each is answered 409 when it reaches the update. */
  predicate NoLaterSuccess(calls: seq<Call>, replies: seq<Reply>, i: nat)
    requires |replies| == |calls| && i < |calls|
  {
    forall j :: i < j < |calls| && SameSlot(calls[i], calls[j]) ==>
      && !replies[j].Created?
      && (ReachesUpdate(calls[j]) ==> replies[j] == SlotUnavailable)
  }

  /** Every success is the last success for its slot. */
  predicate SuccessesFinal(calls: seq<Call>, replies: seq<Reply>)
    requires |replies| == |calls|
  {
    forall i :: 0 <= i < |calls| && replies[i].Created? ==> NoLaterSuccess(calls, replies, i)
  }

  /** Index bookkeeping: prefixing one request and its reply shifts NoLaterSuccess by one. */
  lemma NoLaterSuccessShift(c: Call, r: Reply, calls: seq<Call>, replies: seq<Reply>, i: nat)
    requires |replies| == |calls| && i < |calls|
    requires NoLaterSuccess(calls, replies, i)
    ensures NoLaterSuccess([c] + calls, [r] + replies, i + 1)
  {
    var calls', replies' := [c] + calls, [r] + replies;
    forall j | i + 1 < j < |calls'| && SameSlot(calls'[i + 1], calls'[j])
      ensures !replies'[j].Created? && (ReachesUpdate(calls'[j]) ==> replies'[j] == SlotUnavailable)
    {
      assert calls'[j] == calls[j - 1] && replies'[j] == replies[j - 1];
    }
  }

  /**
   * At most once per slot: of any sequence of requests, once one request
   * for a slot has succeeded no later request for the same slot succeeds,
   * and each such later request that passes validation and meets no fault
   * in the update is answered 409.
   */
  lemma {:induction false} AtMostOncePerSlot(catalog: Catalog, ledger: seq<Booking>, calls: seq<Call>)
    requires AllDistinctSlotIds(catalog)
    ensures SuccessesFinal(calls, Run(catalog, ledger, calls).replies)
    decreases |calls|
  {
    if calls != [] {
      var out := StepCall(catalog, ledger, calls[0]);
      StepEvolves(catalog, ledger, calls[0]);
      EvolvesKeepsIds(catalog, out.catalog);
      AtMostOncePerSlot(out.catalog, out.ledger, calls[1..]);
      var t := Run(catalog, ledger, calls);
      var rest := Run(out.catalog, out.ledger, calls[1..]);
      assert calls == [calls[0]] + calls[1..];
      assert t.replies == [out.reply] + rest.replies;
      forall i | 0 <= i < |calls| && t.replies[i].Created?
        ensures NoLaterSuccess(calls, t.replies, i)
      {
        if i == 0 {
          var eid, sid := calls[0].req.experience_id.value, calls[0].req.slot_id.value;
          ChangedMeansUnavailable(catalog, ledger, calls[0]);
          RejectedWhileUnavailable(out.catalog, out.ledger, calls[1..], eid, sid);
          forall j | 0 < j < |calls| && SameSlot(calls[0], calls[j])
            ensures !t.replies[j].Created? && (ReachesUpdate(calls[j]) ==> t.replies[j] == SlotUnavailable)
          {
            assert calls[j] == calls[1..][j - 1] && t.replies[j] == rest.replies[j - 1];
            assert Targets(calls[1..][j - 1], eid, sid);
          }
        } else {
          assert rest.replies[i - 1] == t.replies[i];
          assert SuccessesFinal(calls[1..], rest.replies);
          assert NoLaterSuccess(calls[1..], rest.replies, i - 1);
          NoLaterSuccessShift(calls[0], out.reply, calls[1..], rest.replies, i - 1);
        }
      }
    }
  }

  /** The ledger's invariant: each booking holds a booked slot, and no two hold the same one. */
  predicate LedgerConsistent(catalog: Catalog, ledger: seq<Booking>) {
    && (forall k :: 0 <= k < |ledger| ==> SlotBooked(catalog, ledger[k].experience_id, ledger[k].slot_id))
    && (forall k, l :: 0 <= k < l < |ledger| ==>
          ledger[k].experience_id != ledger[l].experience_id || ledger[k].slot_id != ledger[l].slot_id)
  }

  /** Every request keeps the ledger consistent (an orphaned reservation adds a booked slot, not a booking). */
  lemma StepKeepsLedgerConsistent(catalog: Catalog, ledger: seq<Booking>, c: Call)
    requires AllDistinctSlotIds(catalog) && LedgerConsistent(catalog, ledger)
    ensures LedgerConsistent(StepCall(catalog, ledger, c).catalog, StepCall(catalog, ledger, c).ledger)
  {
    var out := StepCall(catalog, ledger, c);
    StepEvolves(catalog, ledger, c);
    forall k | 0 <= k < |ledger|
      ensures SlotBooked(out.catalog, ledger[k].experience_id, ledger[k].slot_id)
    {
      EvolvesKeepsBooked(catalog, out.catalog, ledger[k].experience_id, ledger[k].slot_id);
    }
    if out.reply.Created? {
      var b := out.reply.booking;
      var eid, sid := c.req.experience_id.value, c.req.slot_id.value;
      assert b.experience_id == eid && b.slot_id == sid;
      ChangedMeansBooked(catalog, ledger, c);
      forall k | 0 <= k < |ledger|
        ensures ledger[k].experience_id != eid || ledger[k].slot_id != sid
      {
        if ledger[k].experience_id == eid && ledger[k].slot_id == sid {
          BookedNotAvailable(catalog, eid, sid);
        }
      }
      assert out.ledger == ledger + [b];
    }
  }

  /** Over any sequence of requests, each slot is held by at most one booking, and that slot is booked. */
  lemma {:induction false} RunKeepsLedgerConsistent(catalog: Catalog, ledger: seq<Booking>, calls: seq<Call>)
    requires AllDistinctSlotIds(catalog) && LedgerConsistent(catalog, ledger)
    ensures LedgerConsistent(Run(catalog, ledger, calls).catalog, Run(catalog, ledger, calls).ledger)
    decreases |calls|
  {
    if calls != [] {
      var out := StepCall(catalog, ledger, calls[0]);
      StepKeepsLedgerConsistent(catalog, ledger, calls[0]);
      StepEvolves(catalog, ledger, calls[0]);
      EvolvesKeepsIds(catalog, out.catalog);
      RunKeepsLedgerConsistent(out.catalog, out.ledger, calls[1..]);
    }
  }

  /** A run only appends to the ledger: no booking is ever removed or rewritten. */
  lemma {:induction false} RunLedgerGrows(catalog: Catalog, ledger: seq<Booking>, calls: seq<Call>)
    ensures |ledger| <= |Run(catalog, ledger, calls).ledger|
    ensures Run(catalog, ledger, calls).ledger[..|ledger|] == ledger
    decreases |calls|
  {
    if calls != [] {
      var out := StepCall(catalog, ledger, calls[0]);
      RunLedgerGrows(out.catalog, out.ledger, calls[1..]);
      assert out.ledger[..|ledger|] == ledger;
    }
  }

  /** The booking of every 201 reply is still in the ledger at the end of the run. */
  lemma {:induction false} CreatedBookingsKept(catalog: Catalog, ledger: seq<Booking>, calls: seq<Call>, i: nat)
    requires i < |calls| && Run(catalog, ledger, calls).replies[i].Created?
    ensures Run(catalog, ledger, calls).replies[i].booking in Run(catalog, ledger, calls).ledger
    decreases |calls|
  {
    var out := StepCall(catalog, ledger, calls[0]);
    var rest := Run(out.catalog, out.ledger, calls[1..]);
    if i == 0 {
      RunLedgerGrows(out.catalog, out.ledger, calls[1..]);
      assert out.ledger == ledger + [out.reply.booking];
      assert rest.ledger[..|out.ledger|][|ledger|] == out.reply.booking;
    } else {
      CreatedBookingsKept(out.catalog, out.ledger, calls[1..], i - 1);
    }
  }

  /**
   * After any run, the slot of every successful reservation is booked and
   * exactly one booking in the ledger references it: the one that reply returned.
   */
  lemma ReservedExactlyOnce(catalog: Catalog, ledger: seq<Booking>, calls: seq<Call>, i: nat)
    requires AllDistinctSlotIds(catalog) && LedgerConsistent(catalog, ledger)
    requires i < |calls| && Run(catalog, ledger, calls).replies[i].Created?
    ensures var t := Run(catalog, ledger, calls);
            var b := t.replies[i].booking;
            && SlotBooked(t.catalog, b.experience_id, b.slot_id)
            && exists k :: && 0 <= k < |t.ledger| && t.ledger[k] == b
                            && forall j :: (0 <= j < |t.ledger| && t.ledger[j].experience_id == b.experience_id
                                            && t.ledger[j].slot_id == b.slot_id) ==> j == k
  {
    var t := Run(catalog, ledger, calls);
    var b := t.replies[i].booking;
    CreatedBookingsKept(catalog, ledger, calls, i);
    RunKeepsLedgerConsistent(catalog, ledger, calls);
    var k :| 0 <= k < |t.ledger| && t.ledger[k] == b;
  }

  /** Requests for two different slots, both available, both succeed when nothing fails. */
  lemma DistinctSlotsBothSucceed(catalog: Catalog, ledger: seq<Booking>, c1: Call, c2: Call)
    requires HasRequiredFields(c1.req) && HasRequiredFields(c2.req)
    requires c1.fault == NoFault && c2.fault == NoFault
    requires !SameSlot(c1, c2)
    requires SlotAvailable(catalog, c1.req.experience_id.value, c1.req.slot_id.value)
    requires SlotAvailable(catalog, c2.req.experience_id.value, c2.req.slot_id.value)
    ensures var t := Run(catalog, ledger, [c1, c2]);
            t.replies[0].Created? && t.replies[1].Created?
  {
    var out := StepCall(catalog, ledger, c1);
    var e1, s1 := c1.req.experience_id.value, c1.req.slot_id.value;
    var e2, s2 := c2.req.experience_id.value, c2.req.slot_id.value;
    var i := FreeSlotIndex(catalog[e1].slots, s1).value;
    assert BookedOnly(catalog, out.catalog, e1, i);
    var k :| 0 <= k < |catalog[e2].slots| && IsFreeSlot(catalog[e2].slots[k], s2);
    assert IsFreeSlot(out.catalog[e2].slots[k], s2);
    assert [c1, c2][1..] == [c2];
  }
}
