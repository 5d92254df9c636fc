/**
 * The checkout page: the price with its promo discount and fixed tax, the
 * promo application, and the confirmation that sends the booking.
 */
module Checkout {
  import opened Common
  import opened ClientTypes
  import opened BookingStoreModel
  import BookingRoutes

  /** The fixed tax added to every checkout total. */
  const MockTax: real := 59.0

  const PromoApplied := "Promo code applied!"
  const PromoRejected := "Invalid promo code."
  const MissingDetails := "Please fill in your name and email."
  const TermsNotAgreed := "You must agree to the terms and safety policy."
  const SlotTaken := "Sorry, this slot was just booked by someone else."
  const BookingFailed := "Booking failed. Please try again."

  datatype DiscountType = Percent | Flat

  /** A discount value below 1 is read as a rate, anything else as an amount. */
  function Classify(discount: real): (t: DiscountType)
    ensures t == Percent <==> discount < 1.0
    ensures discount in BookingRoutes.PromoCodes.Values ==>
              (t == Percent <==> discount == BookingRoutes.PromoCodes["SAVE10"])
  {
    if discount < 1.0 then Percent else Flat
  }

  /** The experience's price, or 0 when there is none. */
  function BasePrice(experience: Option<ExperienceDetails>): (r: real)
    ensures experience.None? ==> r == 0.0
    ensures experience.Some? ==> r == experience.value.price
  {
    match experience
    case Some(e) => e.price
    case None => 0.0
  }

  /** The discounted price, clamped at 0. */
  function Subtotal(base: real, discount: real, discountType: Option<DiscountType>): (r: real)
    ensures r >= 0.0
    ensures discountType.None? && base >= 0.0 ==> r == base
    ensures discountType == Some(Percent) && base >= 0.0 && 0.0 <= discount <= 1.0 ==> r == base * (1.0 - discount)
    ensures discountType == Some(Flat) && discount <= base ==> r == base - discount
    ensures discountType == Some(Flat) && base < discount ==> r == 0.0
    ensures base >= 0.0 && discount >= 0.0 ==> r <= base
  {
    var raw := match discountType
      case Some(Percent) => base - base * discount
      case Some(Flat) => base - discount
      case None => base;
    if raw < 0.0 then 0.0 else raw
  }

  /** What the page shows as the total and sends as the final price. */
  function TotalPrice(experience: Option<ExperienceDetails>, discount: real, discountType: Option<DiscountType>): (r: real)
    ensures r == Subtotal(BasePrice(experience), discount, discountType) + MockTax
    ensures r >= MockTax
    ensures discountType.None? && BasePrice(experience) >= 0.0 ==> r == BasePrice(experience) + MockTax
    ensures BasePrice(experience) >= 0.0 && discount >= 0.0 ==> r <= BasePrice(experience) + MockTax
  {
    Subtotal(BasePrice(experience), discount, discountType) + MockTax
  }

  /** The discount the page receives from the promo endpoint, or None when the call fails. */
  function PromoAnswer(reply: BookingRoutes.PromoReply): Option<real> {
    match reply
    case PromoValid(_, d) => Some(d)
    case PromoInvalid => None
  }

  /** The subtotal after applying a code whose answer came from the server's promo table. */
  function SubtotalWithCode(code: string, base: real): real {
    match PromoAnswer(BookingRoutes.ValidatePromo(Some(code)))
    case Some(d) => Subtotal(base, d, Some(Classify(d)))
    case None => Subtotal(base, 0.0, None)
  }

  /** End to end: SAVE10 takes ten percent off, FLAT100 takes 100 off down to 0, any other code nothing. */
  lemma PromoCodeEffect(code: string, base: real)
    requires base >= 0.0
    ensures code == "SAVE10" ==> SubtotalWithCode(code, base) == base * 0.9
    ensures code == "FLAT100" ==> SubtotalWithCode(code, base) == (if base < 100.0 then 0.0 else base - 100.0)
    ensures code != "SAVE10" && code != "FLAT100" ==> SubtotalWithCode(code, base) == base
  {
    if code == "SAVE10" {
      assert Classify(0.10) == Percent;
    } else if code == "FLAT100" {
      assert Classify(100.0) == Flat;
    }
  }

  /**
   * The total the page shows after a promo attempt: a successful answer sets
   * the discount and its classification, a failed one resets them to 0 and null.
   */
  lemma PromoCodeTotal(code: string, e: ExperienceDetails)
    requires e.price >= 0.0
    ensures var d := PromoAnswer(BookingRoutes.ValidatePromo(Some(code)));
            var total := if d.Some? then TotalPrice(Some(e), d.value, Some(Classify(d.value)))
                         else TotalPrice(Some(e), 0.0, None);
            && (code == "SAVE10" ==> total == e.price * 0.9 + MockTax)
            && (code == "FLAT100" ==> total == (if e.price < 100.0 then 0.0 else e.price - 100.0) + MockTax)
            && (code != "SAVE10" && code != "FLAT100" ==> total == e.price + MockTax)
  {
    PromoCodeEffect(code, e.price);
  }

  /** The JSON body the page posts to the reservation endpoint. */
  datatype BookingPayload = BookingPayload(
    experience_id: string,
    slot_id: string,
    user_name: string,
    user_email: string,
    promo_code: Option<string>,
    final_price: real)

  /** The payload; the promo code goes along only when a discount is in force. */
  function MakePayload(e: ExperienceDetails, s: SlotView, name: string, email: string,
                       promoCode: string, discount: real, total: real): (p: BookingPayload)
    ensures p.promo_code.Some? <==> discount > 0.0
    ensures p.promo_code.Some? ==> p.promo_code.value == promoCode
    ensures p.final_price == total
    ensures p.experience_id == e.id && p.slot_id == s.id && p.user_name == name && p.user_email == email
  {
    BookingPayload(e.id, s.id, name, email, if discount > 0.0 then Some(promoCode) else None, total)
  }

  /** The request the server parses from the payload (an undefined promo code is dropped from the JSON). */
  function RequestOf(p: BookingPayload): BookingRoutes.BookingRequest {
    BookingRoutes.BookingRequest(Some(p.experience_id), Some(p.slot_id), Some(p.user_name),
                                 Some(p.user_email), p.promo_code, Some(p.final_price))
  }

  /**
   * A payload the page sends always passes the server's field check: name
   * and email are non-empty by the page's guard and the final price is at
   * least the tax, so never 0. Only the ids depend on the data received.
   */
  lemma PayloadPassesServerCheck(e: ExperienceDetails, s: SlotView, name: string, email: string,
                                 promoCode: string, discount: real, discountType: Option<DiscountType>)
    requires e.id != "" && s.id != "" && name != "" && email != ""
    ensures BookingRoutes.HasRequiredFields(
              RequestOf(MakePayload(e, s, name, email, promoCode, discount,
                                    TotalPrice(Some(e), discount, discountType))))
  {
    var total := TotalPrice(Some(e), discount, discountType);
    assert total >= MockTax;
  }

  /** How the reservation request ended: a 2xx, an HTTP error status, or no response at all. */
  datatype ServerAnswer = Accepted | Rejected(status: int) | NoResponse

  /** Where the page goes: it stays with an alert, or redirects to the result page. */
  datatype Navigation = Alert(message: string) | ResultPage(success: bool, message: string)

  /** The message the result page shows for a failed reservation. */
  function FailureMessage(answer: ServerAnswer): (m: string)
    ensures m == SlotTaken <==> answer == Rejected(409)
    ensures m == BookingFailed <==> answer != Rejected(409)
  {
    if answer.Rejected? && answer.status == 409 then SlotTaken else BookingFailed
  }

  class CheckoutPage {
    const store: BookingStore
    var name: string
    var email: string
    var promoCode: string
    var agreed: bool
    var discount: real
    var discountType: Option<DiscountType>
    var promoMessage: string
    var isLoading: bool
    var isPromoLoading: bool

    constructor (store: BookingStore)
      ensures this.store == store
      ensures name == "" && email == "" && promoCode == "" && !agreed
      ensures discount == 0.0 && discountType.None? && promoMessage == ""
      ensures !isLoading && !isPromoLoading
    {
      this.store := store;
      name, email, promoCode, agreed := "", "", "", false;
      discount, discountType, promoMessage := 0.0, None, "";
      isLoading, isPromoLoading := false, false;
    }

    /** The total shown on the page and sent as the final price. */
    function Total(): real
      reads this, store
    {
      TotalPrice(store.experience, discount, discountType)
    }

    /**
     * Applies the promo code. `answer` is the discount in the server's
     * reply, or None when the request fails (an unknown code is a 404).
     */
    method ApplyPromo(answer: Option<real>)
      modifies this
      ensures old(promoCode) == "" ==> (
                && discount == old(discount) && discountType == old(discountType)
                && promoMessage == old(promoMessage) && isPromoLoading == old(isPromoLoading))
      ensures old(promoCode) != "" && answer.Some? ==> (
                && discount == answer.value
                && discountType == Some(if answer.value < 1.0 then Percent else Flat)
                && promoMessage == PromoApplied)
      ensures old(promoCode) != "" && answer.None? ==>
                discount == 0.0 && discountType.None? && promoMessage == PromoRejected
      ensures old(promoCode) != "" ==> !isPromoLoading
      ensures name == old(name) && email == old(email) && promoCode == old(promoCode)
      ensures agreed == old(agreed) && isLoading == old(isLoading)
    {
      if promoCode == "" {
        return;
      }
      isPromoLoading := true;
      promoMessage := "";
      match answer {
        case Some(d) =>
          discountType := Some(Classify(d));
          discount := d;
          promoMessage := PromoApplied;
        case None =>
          discount := 0.0;
          discountType := None;
          promoMessage := PromoRejected;
      }
      isPromoLoading := false;
    }

    /**
     * Confirms the booking. `answer` is how the reservation request would
     * end; `sent` is the payload posted, if any.
     */
    method ConfirmBooking(answer: ServerAnswer) returns (sent: Option<BookingPayload>, nav: Navigation)
      modifies this, store
      ensures var ready := old(store.experience).Some? && old(store.slot).Some? && old(name) != "" && old(email) != "";
              && (!ready ==> sent.None? && nav == Alert(MissingDetails))
              && (ready && !old(agreed) ==> sent.None? && nav == Alert(TermsNotAgreed))
              && (ready && old(agreed) ==>
                    && sent == Some(MakePayload(old(store.experience).value, old(store.slot).value,
                                                old(name), old(email), old(promoCode),
                                                old(discount), old(Total())))
                    && (answer.Accepted? ==> nav == ResultPage(true, ""))
                    && (!answer.Accepted? ==> nav == ResultPage(false, FailureMessage(answer))))
      ensures sent.Some? && answer.Accepted? ==> store.experience.None? && store.slot.None?
      ensures !(sent.Some? && answer.Accepted?) ==> store.experience == old(store.experience) && store.slot == old(store.slot)
      ensures name == old(name) && email == old(email) && promoCode == old(promoCode) && agreed == old(agreed)
      ensures discount == old(discount) && discountType == old(discountType) && promoMessage == old(promoMessage)
      ensures sent.Some? ==> !isLoading
      ensures sent.None? ==> isLoading == old(isLoading)
      ensures isPromoLoading == old(isPromoLoading)
    {
      if store.experience.None? || store.slot.None? || name == "" || email == "" {
        return None, Alert(MissingDetails);
      }
      if !agreed {
        return None, Alert(TermsNotAgreed);
      }
      isLoading := true;
      var payload := MakePayload(store.experience.value, store.slot.value, name, email,
                                 promoCode, discount, Total());
      sent := Some(payload);
      if answer.Accepted? {
        store.ClearBooking();
        nav := ResultPage(true, "");
      } else {
        nav := ResultPage(false, FailureMessage(answer));
      }
      isLoading := false;
    }
  }
}
