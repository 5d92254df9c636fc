/** The Booking document: required fields and the status and timestamp defaults. */
module BookingModel {
  import opened Common

  const Confirmed := "confirmed"

  /**
   * A stored booking. `experience_id` refers to an Experience document;
   * `slot_id` is a bare id that nothing checks against any experience.
   */
  datatype Booking = Booking(
    id: string,
    user_name: string,
    user_email: string,
    experience_id: string,
    slot_id: string,
    promo_code: Option<string>,
    final_price: real,
    booking_status: string,
    created_at: int)

  /** The raw fields a booking is created from. */
  datatype BookingInput = BookingInput(
    user_name: Option<string>,
    user_email: Option<string>,
    experience_id: Option<string>,
    slot_id: Option<string>,
    promo_code: Option<string>,
    final_price: Option<real>,
    booking_status: Option<string>,
    created_at: Option<int>)

  /** All required fields of BookingSchema are present. */
  predicate RequiredPresent(input: BookingInput) {
    && TruthyString(input.user_name)
    && TruthyString(input.user_email)
    && TruthyString(input.experience_id)
    && TruthyString(input.slot_id)
    && input.final_price.Some?
  }

  /**
   * `Booking.create`: validates the required fields and fills in the
   * defaults; `now` is the clock reading and `newId` the generated id.
   */
  function Create(input: BookingInput, now: int, newId: string): (r: Result<Booking>)
    ensures r.Ok? <==> RequiredPresent(input)
    ensures r.Ok? ==> && r.value.id == newId
                      && r.value.user_name == input.user_name.value
                      && r.value.user_email == input.user_email.value
                      && r.value.experience_id == input.experience_id.value
                      && r.value.slot_id == input.slot_id.value
                      && r.value.promo_code == input.promo_code
                      && r.value.final_price == input.final_price.value
    ensures r.Ok? && input.booking_status.None? ==> r.value.booking_status == Confirmed
    ensures r.Ok? && input.booking_status.Some? ==> r.value.booking_status == input.booking_status.value
    ensures r.Ok? && input.created_at.None? ==> r.value.created_at == now
    ensures r.Ok? && input.created_at.Some? ==> r.value.created_at == input.created_at.value
  {
    if !TruthyString(input.user_name) then Err("user_name")
    else if !TruthyString(input.user_email) then Err("user_email")
    else if !TruthyString(input.experience_id) then Err("experience_id")
    else if !TruthyString(input.slot_id) then Err("slot_id")
    else if input.final_price.None? then Err("final_price")
    else
      var status := match input.booking_status
        case Some(s) => s
        case None => Confirmed;
      var created := match input.created_at
        case Some(t) => t
        case None => now;
      Ok(Booking(newId, input.user_name.value, input.user_email.value,
                 input.experience_id.value, input.slot_id.value, input.promo_code,
                 input.final_price.value, status, created))
  }
}
