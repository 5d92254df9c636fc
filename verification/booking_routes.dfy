/**
 * The booking routes of the backend: the promo-code lookup and the
 * reservation handler, whose conditional update of one slot is the only
 * guard against double booking.
 */
module BookingRoutes {
  import opened Common
  import opened ExperienceModel
  import opened BookingModel

  // ---------------------------------------------------------------------------
  // Promo codes
  // ---------------------------------------------------------------------------

  /** The static promo table: a value below 1 is a rate, otherwise a flat amount. */
  const PromoCodes: map<string, real> := map["SAVE10" := 0.10, "FLAT100" := 100.0]

  /** The answer of the promo validation endpoint. */
  datatype PromoReply = PromoValid(code: string, discount: real) | PromoInvalid {
    function Status(): int {
      if PromoValid? then 200 else 404
    }
    predicate IsValid() {
      PromoValid?
    }
  }

  /** Looks a code up in the table; a missing code is looked up as no code at all. */
  function ValidatePromo(promoCode: Option<string>): (r: PromoReply)
    ensures r.IsValid() <==> promoCode == Some("SAVE10") || promoCode == Some("FLAT100")
    ensures promoCode == Some("SAVE10") ==> r == PromoValid("SAVE10", 0.10)
    ensures promoCode == Some("FLAT100") ==> r == PromoValid("FLAT100", 100.0)
    ensures !r.IsValid() ==> r.Status() == 404 && r == PromoInvalid
  {
    match promoCode
    case Some(code) =>
      if code in PromoCodes then PromoValid(code, PromoCodes[code]) else PromoInvalid
    case None => PromoInvalid
  }

  // ---------------------------------------------------------------------------
  // Reservation
  // ---------------------------------------------------------------------------

  /** The experience collection, keyed by document id. */
  type Catalog = map<string, Experience>

  /** The JSON body of a reservation request; an absent field is None. */
  datatype BookingRequest = BookingRequest(
    experience_id: Option<string>,
    slot_id: Option<string>,
    user_name: Option<string>,
    user_email: Option<string>,
    promo_code: Option<string>,
    final_price: Option<real>)

  /** The handler's first check: every required field is truthy (a price of 0 is not). */
  predicate HasRequiredFields(req: BookingRequest) {
    && TruthyString(req.experience_id)
    && TruthyString(req.slot_id)
    && TruthyString(req.user_name)
    && TruthyString(req.user_email)
    && TruthyNumber(req.final_price)
  }

  /**
   * Where the store raises an exception, if anywhere: inside the conditional
   * update (a connection fault, or an id that is not a valid ObjectId), or
   * inside the creation of the booking.
   */
  datatype Fault = NoFault | UpdateFault | CreateFault

  /** The handler's answer, with its HTTP status. */
  datatype Reply = Created(booking: Booking) | MissingFields | SlotUnavailable | InternalError {
    function Status(): int {
      match this
      case Created(_) => 201
      case MissingFields => 400
      case SlotUnavailable => 409
      case InternalError => 500
    }
  }

  /** A slot that the intended filter accepts: this id and not yet booked. */
  predicate IsFreeSlot(s: Slot, sid: string) {
    s.id == sid && !s.is_booked
  }

  /**
   * The filter the handler intends: the experience exists and one and the
   * same slot of it has this id and is unbooked.
   */
  predicate SlotAvailable(catalog: Catalog, eid: string, sid: string) {
    eid in catalog && exists i :: 0 <= i < |catalog[eid].slots| && IsFreeSlot(catalog[eid].slots[i], sid)
  }

  /** A slot with this id exists in the experience and is booked. */
  predicate SlotBooked(catalog: Catalog, eid: string, sid: string) {
    eid in catalog
    && exists i :: 0 <= i < |catalog[eid].slots| && catalog[eid].slots[i].id == sid && catalog[eid].slots[i].is_booked
  }

  /** The position the update writes to: the first slot the filter accepts. */
  function FreeSlotIndex(slots: seq<Slot>, sid: string): (r: Option<nat>)
    ensures r.Some? <==> exists i :: 0 <= i < |slots| && IsFreeSlot(slots[i], sid)
    ensures r.Some? ==> r.value < |slots| && IsFreeSlot(slots[r.value], sid)
    ensures r.Some? ==> forall j :: 0 <= j < r.value ==> !IsFreeSlot(slots[j], sid)
  {
    if slots == [] then None
    else if IsFreeSlot(slots[0], sid) then Some(0)
    else match FreeSlotIndex(slots[1..], sid)
      case None =>
        assert forall i :: 1 <= i < |slots| ==> slots[i] == slots[1..][i - 1];
        None
      case Some(i) => Some(i + 1)
  }

  /** The slot array after `slots.$.is_booked` is set at position i. */
  function BookSlot(slots: seq<Slot>, i: nat): seq<Slot>
    requires i < |slots|
  {
    slots[i := slots[i].(is_booked := true)]
  }

  /**
   * `after` differs from `before` only in the is_booked flag of slot i of
   * experience eid, which is now true.
   */
  predicate BookedOnly(before: Catalog, after: Catalog, eid: string, i: nat) {
    && before.Keys == after.Keys
    && eid in before
    && i < |before[eid].slots|
    && (forall e :: e in before && e != eid ==> after[e] == before[e])
    && after[eid] == before[eid].(slots := after[eid].slots)
    && |after[eid].slots| == |before[eid].slots|
    && after[eid].slots[i] == before[eid].slots[i].(is_booked := true)
    && (forall j :: 0 <= j < |before[eid].slots| && j != i ==> after[eid].slots[j] == before[eid].slots[j])
  }

  /** The document handed to `Booking.create`. */
  function BookingInputOf(req: BookingRequest): BookingInput {
    BookingInput(req.user_name, req.user_email, req.experience_id, req.slot_id,
                 req.promo_code, req.final_price, Some(Confirmed), None)
  }

  /** The booking carries the request's data, status 'confirmed', the clock and the new id. */
  predicate BookingFromRequest(b: Booking, req: BookingRequest, now: int, newId: string) {
    && b.id == newId
    && Some(b.experience_id) == req.experience_id
    && Some(b.slot_id) == req.slot_id
    && Some(b.user_name) == req.user_name
    && Some(b.user_email) == req.user_email
    && b.promo_code == req.promo_code
    && Some(b.final_price) == req.final_price
    && b.booking_status == Confirmed
    && b.created_at == now
  }

  /** The state of the experience collection and the booking ledger after one request, and the answer. */
  datatype Outcome = Outcome(catalog: Catalog, ledger: seq<Booking>, reply: Reply)

  /**
   * One reservation request, with the conditional update as one atomic
   * step. `now` and `newId` stand for the clock and the id generator.
   */
  function Step(catalog: Catalog, ledger: seq<Booking>, req: BookingRequest,
                fault: Fault, now: int, newId: string): (out: Outcome)
    ensures !HasRequiredFields(req) ==> out == Outcome(catalog, ledger, MissingFields)
    ensures HasRequiredFields(req) && fault == UpdateFault ==> out == Outcome(catalog, ledger, InternalError)
    ensures out.reply.SlotUnavailable? <==>
              (&& HasRequiredFields(req) && fault != UpdateFault
               && !SlotAvailable(catalog, req.experience_id.value, req.slot_id.value))
    ensures out.reply.SlotUnavailable? ==> out.catalog == catalog && out.ledger == ledger
    ensures out.reply.Created? <==>
              (&& HasRequiredFields(req) && fault == NoFault
               && SlotAvailable(catalog, req.experience_id.value, req.slot_id.value))
    ensures out.reply.Created? ==>
              && out.ledger == ledger + [out.reply.booking]
              && BookingFromRequest(out.reply.booking, req, now, newId)
    ensures !out.reply.Created? ==> out.ledger == ledger
    ensures out.catalog != catalog <==>
              (&& HasRequiredFields(req) && fault != UpdateFault
               && SlotAvailable(catalog, req.experience_id.value, req.slot_id.value))
    ensures out.catalog != catalog ==>
              var eid := req.experience_id.value;
              && eid in catalog
              && FreeSlotIndex(catalog[eid].slots, req.slot_id.value).Some?
              && BookedOnly(catalog, out.catalog, eid, FreeSlotIndex(catalog[eid].slots, req.slot_id.value).value)
    ensures fault == CreateFault && out.catalog != catalog ==> out.reply == InternalError && out.ledger == ledger
  {
    if !HasRequiredFields(req) then Outcome(catalog, ledger, MissingFields)
    else if fault == UpdateFault then Outcome(catalog, ledger, InternalError)
    else
      var eid, sid := req.experience_id.value, req.slot_id.value;
      if eid !in catalog then Outcome(catalog, ledger, SlotUnavailable)
      else match FreeSlotIndex(catalog[eid].slots, sid)
        case None => Outcome(catalog, ledger, SlotUnavailable)
        case Some(i) =>
          var booked := catalog[eid := catalog[eid].(slots := BookSlot(catalog[eid].slots, i))];
          assert IsFreeSlot(catalog[eid].slots[i], sid);
          assert booked[eid].slots[i].is_booked != catalog[eid].slots[i].is_booked;
          if fault == CreateFault then Outcome(booked, ledger, InternalError)
          else
            assert fault == NoFault;
            var b := Create(BookingInputOf(req), now, newId).value;
            Outcome(booked, ledger + [b], Created(b))
  }

  /**
   * The experience collection and the booking ledger as one store. Each
   * call of Reserve is one request, handled to completion before the next.
   */
  class Store {
    var experiences: Catalog
    var bookings: seq<Booking>

    constructor (experiences: Catalog)
      ensures this.experiences == experiences && bookings == []
    {
      this.experiences := experiences;
      bookings := [];
    }

    /** POST /bookings. */
    method Reserve(req: BookingRequest, fault: Fault, now: int, newId: string) returns (reply: Reply)
      modifies this
      ensures Outcome(experiences, bookings, reply) == Step(old(experiences), old(bookings), req, fault, now, newId)
    {
      if !HasRequiredFields(req) {
        return MissingFields;
      }
      if fault == UpdateFault {
        return InternalError;
      }
      var eid, sid := req.experience_id.value, req.slot_id.value;
      if eid !in experiences {
        return SlotUnavailable;
      }
      var experience := experiences[eid];
      var matched := FreeSlotIndex(experience.slots, sid);
      if matched.None? {
        return SlotUnavailable;
      }
      experiences := experiences[eid := experience.(slots := BookSlot(experience.slots, matched.value))];
      if fault == CreateFault {
        return InternalError;
      }
      var booking := Create(BookingInputOf(req), now, newId).value;
      bookings := bookings + [booking];
      reply := Created(booking);
    }
  }
}
