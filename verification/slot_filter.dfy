/**
 * The reservation filter as it is written: `_id`, `slots._id` and
 * `slots.is_booked` are three separate conditions with no `$elemMatch`, so
 * under MongoDB's array-query rules the two conditions on `slots` may be met
 * by two different elements, and the element `slots.$` then designates is
 * not fixed by the query.
 */
module SlotFilter {
  import opened Common
  import opened ExperienceModel
  import opened BookingModel
  import opened BookingRoutes
  import opened ReservationProperties

  /** Some slot has this id, and some (possibly other) slot is unbooked. */
  predicate LiteralFilter(catalog: Catalog, eid: string, sid: string) {
    && eid in catalog
    && (exists i :: 0 <= i < |catalog[eid].slots| && catalog[eid].slots[i].id == sid)
    && (exists j :: 0 <= j < |catalog[eid].slots| && !catalog[eid].slots[j].is_booked)
  }

  /** Every request the intended filter accepts, the literal filter accepts too. */
  lemma AvailableMeetsLiteralFilter(catalog: Catalog, eid: string, sid: string)
    requires SlotAvailable(catalog, eid, sid)
    ensures LiteralFilter(catalog, eid, sid)
  {
    var i :| 0 <= i < |catalog[eid].slots| && IsFreeSlot(catalog[eid].slots[i], sid);
    assert catalog[eid].slots[i].id == sid && !catalog[eid].slots[i].is_booked;
  }

  /**
   * `slots.$` designates an element that meets one of the two conditions on
   * `slots`: it carries the requested id, or it is unbooked. Which one the
   * query leaves open; `pos` names it.
   */
  predicate DesignatedPosition(catalog: Catalog, req: BookingRequest, pos: nat) {
    HasRequiredFields(req) && LiteralFilter(catalog, req.experience_id.value, req.slot_id.value) ==>
      var slots := catalog[req.experience_id.value].slots;
      && pos < |slots|
      && (slots[pos].id == req.slot_id.value || !slots[pos].is_booked)
  }

  /**
   * The handler as written, with `pos` the array position that `slots.$`
   * resolves to.
   */
  function StepAsWritten(catalog: Catalog, ledger: seq<Booking>, req: BookingRequest,
                         fault: Fault, now: int, newId: string, pos: nat): (out: Outcome)
    requires DesignatedPosition(catalog, req, pos)
    ensures !HasRequiredFields(req) ==> out == Outcome(catalog, ledger, MissingFields)
    ensures HasRequiredFields(req) && fault == UpdateFault ==> out == Outcome(catalog, ledger, InternalError)
    ensures out.reply.SlotUnavailable? <==>
              (&& HasRequiredFields(req) && fault != UpdateFault
               && !LiteralFilter(catalog, req.experience_id.value, req.slot_id.value))
    ensures out.reply.SlotUnavailable? ==> out.catalog == catalog && out.ledger == ledger
    ensures out.reply.Created? <==>
              (&& HasRequiredFields(req) && fault == NoFault
               && LiteralFilter(catalog, req.experience_id.value, req.slot_id.value))
    ensures out.reply.Created? ==>
              && out.ledger == ledger + [out.reply.booking]
              && BookingFromRequest(out.reply.booking, req, now, newId)
    ensures !out.reply.Created? ==> out.ledger == ledger
    ensures (&& HasRequiredFields(req) && fault != UpdateFault
             && LiteralFilter(catalog, req.experience_id.value, req.slot_id.value))
            ==> BookedOnly(catalog, out.catalog, req.experience_id.value, pos)
    ensures !(&& HasRequiredFields(req) && fault != UpdateFault
              && LiteralFilter(catalog, req.experience_id.value, req.slot_id.value))
            ==> out.catalog == catalog
    ensures fault == CreateFault && out.catalog != catalog ==> out.reply == InternalError && out.ledger == ledger
  {
    if !HasRequiredFields(req) then Outcome(catalog, ledger, MissingFields)
    else if fault == UpdateFault then Outcome(catalog, ledger, InternalError)
    else
      var eid, sid := req.experience_id.value, req.slot_id.value;
      if !LiteralFilter(catalog, eid, sid) then Outcome(catalog, ledger, SlotUnavailable)
      else
        var written := catalog[eid := catalog[eid].(slots := BookSlot(catalog[eid].slots, pos))];
        if fault == CreateFault then Outcome(written, ledger, InternalError)
        else
          assert fault == NoFault;
          var b := Create(BookingInputOf(req), now, newId).value;
          Outcome(written, ledger + [b], Created(b))
  }

  /** One experience: slot "a" already booked, slot "b" still free. */
  const SampleCatalog: Catalog :=
    map["e1" := Experience("Kayaking", None, None, 999.0, None,
                           [Slot("a", 100, 200, true), Slot("b", 300, 400, false)])]

  /** The booking that holds slot "a". */
  const SampleLedger: seq<Booking> :=
    [Booking("bk1", "Alice", "a@x.com", "e1", "a", None, 1058.0, Confirmed, 10)]

  /** A second customer asks for slot "a". */
  const LateRequest: BookingRequest :=
    BookingRequest(Some("e1"), Some("a"), Some("Bob"), Some("b@x.com"), None, Some(1058.0))

  /**
   * The counterexample: starting from a consistent store in which slot "a"
   * is held by a booking, the filter as written accepts a second request
   * for "a", whichever of the two elements `slots.$` designates, and the
   * ledger ends with two bookings for the same slot. The intended filter
   * answers 409 instead.
   */
  lemma LiteralFilterDoubleBooks(pos: nat)
    requires DesignatedPosition(SampleCatalog, LateRequest, pos)
    ensures LedgerConsistent(SampleCatalog, SampleLedger)
    ensures StepAsWritten(SampleCatalog, SampleLedger, LateRequest, NoFault, 20, "bk2", pos).reply.Created?
    ensures var out := StepAsWritten(SampleCatalog, SampleLedger, LateRequest, NoFault, 20, "bk2", pos);
            && |out.ledger| == 2
            && out.ledger[0].experience_id == out.ledger[1].experience_id == "e1"
            && out.ledger[0].slot_id == out.ledger[1].slot_id == "a"
            && !LedgerConsistent(out.catalog, out.ledger)
    ensures Step(SampleCatalog, SampleLedger, LateRequest, NoFault, 20, "bk2").reply == SlotUnavailable
  {
    var slots := SampleCatalog["e1"].slots;
    assert slots[0].id == "a" && !slots[1].is_booked;
    assert LiteralFilter(SampleCatalog, "e1", "a");
    assert slots[0].is_booked;
    assert SlotBooked(SampleCatalog, "e1", "a");
    assert !IsFreeSlot(slots[0], "a") && !IsFreeSlot(slots[1], "a");
    assert !SlotAvailable(SampleCatalog, "e1", "a");
  }
}
