# Book-It slot reservation, modelled in Dafny

Book-It lets users browse experiences, pick one time slot and book it. The
backend answers a reservation with one conditional update on the experience
document. Its filter asks for the experience, a slot with the requested id, and
an unbooked slot. The same step sets `is_booked` on the slot that `slots.$`
designates. Only after that does the handler write a `confirmed` booking. The frontend computes the price (promo discount,
fixed tax of 59) and groups free slots by date. A small two-field store carries
the chosen experience and slot from the details page to checkout.

The model:

- **`ExperienceModel`, `BookingModel`** (`experience_model.dfy`, `booking_model.dfy`)
  - The documents as datatypes.
  - Schema creation as functions that check the required fields and fill in the
    defaults: `is_booked = false`, `booking_status = 'confirmed'`, `created_at = now`.
- **`BookingRoutes`** (`booking_routes.dfy`)
  - The promo lookup.
  - The reservation handler as a pure function `Step` over the experience
    collection (a map from id to `Experience`) and the booking ledger (a `seq`).
  - A `Store` class whose `Reserve` method does the same steps in place and is
    proved equal to `Step`. The atomic update becomes one method call.
  - `Step` and `Reserve` use the intended filter: one and the same slot has the
    requested id and is unbooked, as `$elemMatch` would express. The filter as
    written is modelled separately, by `SlotFilter.StepAsWritten`.
  - Exceptions raised by the store are a `Fault` parameter. The clock and the
    generated booking id are parameters too.
- **`ReservationProperties`** (`reservation_properties.dfy`)
  - Requests are run one after another (`Run`).
  - Proves at most one success per slot. Every later request for that slot that
    passes validation and meets no store fault is answered 409.
  - Proves that each successful reservation leaves its slot booked with exactly
    one booking for it, the ledger only grows, the orphaned reservation, and
    independence of distinct slots.
- **`SlotFilter`** (`slot_filter.dfy`): the handler with the filter as written, and a
  store state in which it books one slot twice (see Findings).
- **`ClientTypes`, `BookingStoreModel`, `Checkout`, `SlotGrouping`, `ExperienceDetailsClient`**
  - The frontend's JSON shapes, the booking store and the two pages.
  - Component state is a class. React's `setState` is modelled as an immediate
    assignment.

## Model

| member | source | states |
|---|---|---|
| ExperienceModel.NewSlot | bookit-backend/src/models/Experience.ts:22-26 | a slot is created iff both start_time and end_time are given; is_booked is false when not given |
| ExperienceModel.NewSlots | bookit-backend/src/models/Experience.ts:35 | the embedded slots are validated one by one; the document's slot array has the same length and order as the input |
| ExperienceModel.NewExperience | bookit-backend/src/models/Experience.ts:29-36 | an experience is created iff title (non-empty) and price are given and every slot is valid; description, location and image_url are optional and kept as given |
| BookingModel.Create | bookit-backend/src/models/Booking.ts:15-24 | a booking is created iff user_name, user_email, experience_id, slot_id and final_price are present; promo_code is optional; booking_status defaults to 'confirmed' and created_at to the clock |
| BookingRoutes.ValidatePromo | bookit-backend/src/routes/bookingRoutes.ts:9-21 | exactly 'SAVE10' gives a valid 0.10 and 'FLAT100' a valid 100; any other code (or none) is invalid with status 404 |
| BookingRoutes.FreeSlotIndex | bookit-backend/src/routes/bookingRoutes.ts:43-51 | finds a position iff some slot has the id and is unbooked; the position is the first such slot |
| BookingRoutes.Step | bookit-backend/src/routes/bookingRoutes.ts:24-83 | falsy field gives 400 with no change; 409 iff the slot is not available, with no change; 201 iff valid, no fault and available, appending exactly one booking with the request's data and status 'confirmed'; only the matched slot's is_booked changes; a fault in booking creation leaves the slot booked and no booking (500) |
| BookingRoutes.Store.Reserve | bookit-backend/src/routes/bookingRoutes.ts:24-83 | the store's new experiences, bookings and the reply are exactly those of Step on the old state |
| ReservationProperties.StepEvolves | bookit-backend/src/routes/bookingRoutes.ts:49-51 | a request never unbooks, adds or removes a slot and changes no other field of any experience |
| ReservationProperties.ChangedMeansBooked | bookit-backend/src/routes/bookingRoutes.ts:43-82 | whenever a request changes the catalog (success or orphaned reservation) the requested slot is booked afterwards |
| ReservationProperties.RejectedWhileUnavailable | bookit-backend/src/routes/bookingRoutes.ts:43-60 | once a slot is unavailable, no later request for it succeeds and every one that reaches the update gets 409, however many there are |
| ReservationProperties.AtMostOncePerSlot | bookit-backend/src/routes/bookingRoutes.ts:43-60 | in any sequence of requests, after one success for a slot no later request for that slot succeeds, and each that reaches the update gets 409 |
| ReservationProperties.StepKeepsLedgerConsistent | bookit-backend/src/routes/bookingRoutes.ts:43-71 | every request keeps each booking on a booked slot and no two bookings on the same slot |
| ReservationProperties.RunKeepsLedgerConsistent | bookit-backend/src/routes/bookingRoutes.ts:43-71 | the same over any sequence of requests |
| ReservationProperties.RunLedgerGrows | bookit-backend/src/routes/bookingRoutes.ts:62-71 | over any sequence of requests, the ledger is only appended to: the starting bookings remain as its prefix |
| ReservationProperties.CreatedBookingsKept | bookit-backend/src/routes/bookingRoutes.ts:62-77 | the booking returned with any 201 reply is still in the ledger when the sequence ends |
| ReservationProperties.ReservedExactlyOnce | bookit-backend/src/routes/bookingRoutes.ts:43-77 | after any sequence, the slot of every successful reservation is booked and exactly one booking references it, the one that reply returned |
| ReservationProperties.DistinctSlotsBothSucceed | bookit-backend/src/routes/bookingRoutes.ts:43-77 | requests for two different available slots, same experience or not, both succeed |
| SlotFilter.AvailableMeetsLiteralFilter | bookit-backend/src/routes/bookingRoutes.ts:43-48 | the written filter accepts everything the same-slot filter accepts |
| SlotFilter.StepAsWritten | bookit-backend/src/routes/bookingRoutes.ts:24-83 | with the written filter and `slots.$` at a slot that has the id or is unbooked: falsy field gives 400 and update fault 500, both with no change; 409 iff no slot has the id or no slot is unbooked, with no change; 201 iff valid, no fault and the filter matches, appending one booking; when the filter matches, only the designated slot is set booked; a creation fault leaves that write and no booking |
| SlotFilter.LiteralFilterDoubleBooks | bookit-backend/src/routes/bookingRoutes.ts:41-51 | from a consistent store where slot "a" is held, the written filter books "a" a second time whichever element `$` picks; the same-slot filter answers 409 |
| BookingStoreModel.BookingStore.constructor | bookit-frontend/app/store/bookingStore.ts:15-16 | experience and slot start as null |
| BookingStoreModel.BookingStore.SetBooking | bookit-frontend/app/store/bookingStore.ts:18 | sets experience and slot to the given values |
| BookingStoreModel.BookingStore.ClearBooking | bookit-frontend/app/store/bookingStore.ts:20 | sets both to null whatever they held |
| BookingStoreModel.SetThenClearRestoresInitial | bookit-frontend/app/store/bookingStore.ts:15-20 | setBooking then clearBooking gives the initial state |
| BookingStoreModel.ClearTwiceEqualsClearOnce | bookit-frontend/app/store/bookingStore.ts:20 | clearBooking is idempotent |
| Checkout.Classify | bookit-frontend/app/checkout/page.tsx:120-124 | a discount is a rate iff it is below 1; of the server's two codes, only SAVE10's value is read as a rate |
| Checkout.BasePrice | bookit-frontend/app/checkout/page.tsx:98 | the experience's price, or 0 when there is no experience |
| Checkout.Subtotal | bookit-frontend/app/checkout/page.tsx:98-106 | never negative; no discount keeps the base; a rate d takes base·d off; a flat amount is taken off down to 0; never above the base |
| Checkout.TotalPrice | bookit-frontend/app/checkout/page.tsx:97-108 | the total is the clamped subtotal plus 59, the value sent as final_price; so at least 59, base + 59 with no discount, and at most base + 59 |
| Checkout.PromoCodeTotal | bookit-frontend/app/checkout/page.tsx:108-130 | the total after a promo attempt: SAVE10 gives 90% of the price plus 59, FLAT100 the price minus 100 (down to 0) plus 59, any other code the price plus 59 |
| Checkout.PromoCodeEffect | bookit-frontend/app/checkout/page.tsx:117-130 | with the server's table, SAVE10 gives 90% of the base, FLAT100 the base minus 100 down to 0, any other code the base |
| Checkout.MakePayload | bookit-frontend/app/checkout/page.tsx:150-157 | promo_code is sent iff discount > 0; final_price is the total; ids, name and email are the chosen ones |
| Checkout.PayloadPassesServerCheck | bookit-frontend/app/checkout/page.tsx:138-157 | a payload the page sends (non-empty ids) always passes the server's required-field check, since its price is at least 59 |
| Checkout.FailureMessage | bookit-frontend/app/checkout/page.tsx:164-169 | the slot-taken message iff the server answered 409; the generic failure message for every other status and for no response |
| Checkout.CheckoutPage.constructor | bookit-frontend/app/checkout/page.tsx:75-85 | empty form, discount 0, no discount type, not loading |
| Checkout.CheckoutPage.ApplyPromo | bookit-frontend/app/checkout/page.tsx:112-134 | empty code changes nothing; a reply below 1 is a percent, otherwise flat, with its value as discount; a failed call resets discount to 0 and type to null |
| Checkout.CheckoutPage.ConfirmBooking | bookit-frontend/app/checkout/page.tsx:136-173 | nothing is sent without experience, slot, name and email, or without agreement; otherwise the payload is sent, success clears the store, 409 maps to the slot-taken message and any other failure to the generic one |
| SlotGrouping.Insert | bookit-frontend/app/components/ExperienceDetailsClient.tsx:61 | inserting into a sorted list keeps it sorted and adds exactly that slot |
| SlotGrouping.SortByStart | bookit-frontend/app/components/ExperienceDetailsClient.tsx:61 | the sorted copy is in ascending start order and a permutation of the slots |
| SlotGrouping.SlotsOnMembership | bookit-frontend/app/components/ExperienceDetailsClient.tsx:63-71 | a slot is in group k iff it was scanned, is unbooked and its date key is k |
| SlotGrouping.SlotsOnSorted | bookit-frontend/app/components/ExperienceDetailsClient.tsx:61-70 | groups of a sorted scan are sorted |
| SlotGrouping.DateKeysMembership | bookit-frontend/app/components/ExperienceDetailsClient.tsx:67-69 | a key is listed iff its group is non-empty |
| SlotGrouping.DateKeysDistinct | bookit-frontend/app/components/ExperienceDetailsClient.tsx:67-69 | no key is listed twice |
| SlotGrouping.FirstDateKey | bookit-frontend/app/components/ExperienceDetailsClient.tsx:67-69 | the first key is the date of the first unbooked slot scanned |
| SlotGrouping.GroupSlotsByDate | bookit-frontend/app/components/ExperienceDetailsClient.tsx:59-73 | the keys are the date keys in first-appearance order over the sorted copy, and each group is that date's unbooked slots in sorted order |
| SlotGrouping.GroupsHoldOnlyFreeSlots | bookit-frontend/app/components/ExperienceDetailsClient.tsx:64 | no booked slot is in any group, and each slot is in the group of its own date |
| SlotGrouping.EveryFreeSlotGrouped | bookit-frontend/app/components/ExperienceDetailsClient.tsx:63-71 | every unbooked slot is in the group of its date |
| SlotGrouping.GroupsSortedAndDistinct | bookit-frontend/app/components/ExperienceDetailsClient.tsx:61-70 | every group is non-empty and in ascending start order; keys are distinct |
| SlotGrouping.KeysAreFreeDates | bookit-frontend/app/components/ExperienceDetailsClient.tsx:63-69 | a date is a key iff some unbooked slot starts on it |
| SlotGrouping.FirstKeyIsEarliestDate | bookit-frontend/app/components/ExperienceDetailsClient.tsx:61-69 | when any slot is free, the first key is the date of an earliest free slot |
| ExperienceDetailsClient.ClampQuantity | bookit-frontend/app/components/ExperienceDetailsClient.tsx:111-113 | the new quantity is at least 1, and equals previous + change when that is at least 1 |
| ExperienceDetailsClient.PriceBreakdown | bookit-frontend/app/components/ExperienceDetailsClient.tsx:125-131 | subtotal = price·q and taxes = 59·q; the total is subtotal plus taxes, i.e. (price + 59)·q; for q ≥ 1 and a price that is not negative, subtotal ≥ price, taxes ≥ 59 and total ≥ 59 |
| ExperienceDetailsClient.DetailsView.constructor | bookit-frontend/app/components/ExperienceDetailsClient.tsx:81-88 | no date, no slot, quantity 1, and the grouping of the experience's slots |
| ExperienceDetailsClient.DetailsView.AvailableDates | bookit-frontend/app/components/ExperienceDetailsClient.tsx:88 | the date buttons are exactly the dates with a free slot, each listed once |
| ExperienceDetailsClient.DetailsView.SlotsForSelectedDate | bookit-frontend/app/components/ExperienceDetailsClient.tsx:91-94 | the chips are exactly the free slots on the selected date, ascending; none when the date is unset or empty |
| ExperienceDetailsClient.DetailsView.CurrentBreakdown | bookit-frontend/app/components/ExperienceDetailsClient.tsx:126-131 | the price box for the live quantity: subtotal = price·quantity, taxes = 59·quantity, total = (price + 59)·quantity; with a price that is not negative, subtotal ≥ price and taxes ≥ 59, since the quantity stays at least 1 |
| ExperienceDetailsClient.DetailsView.ApplyDefaultDate | bookit-frontend/app/components/ExperienceDetailsClient.tsx:98-100 | an unset date becomes the first available date when one exists |
| ExperienceDetailsClient.DetailsView.SelectDate | bookit-frontend/app/components/ExperienceDetailsClient.tsx:102-105 | choosing a date clears the selected slot |
| ExperienceDetailsClient.DetailsView.SelectSlot | bookit-frontend/app/components/ExperienceDetailsClient.tsx:107-109 | the chosen slot becomes the selected slot |
| ExperienceDetailsClient.DetailsView.ChangeQuantity | bookit-frontend/app/components/ExperienceDetailsClient.tsx:111-113 | the quantity becomes the clamped value and stays at least 1 under any sequence of changes |
| ExperienceDetailsClient.DetailsView.BookNow | bookit-frontend/app/components/ExperienceDetailsClient.tsx:115-123 | without a selected slot nothing changes; otherwise the store holds this experience and the slot |

## Left out

- Concurrency and the database's internals are not modelled.
  - The conditional update is one atomic method call, and requests are handled one after another.
  - The at-most-once argument is therefore sequential.
  - Interleavings and write serialisation are not modelled.
- The Mongoose, Express, HTTP and environment plumbing is not modelled. This covers server bootstrap, CORS, the database connection, the read-only experience routes, the seed script and `console.error`.
  - Replies are the variants of `Reply` with their status codes; the JSON bodies' texts are not modelled.
- ObjectId syntax is not modelled. An id that is not a valid ObjectId makes the update throw a cast error, which is the `UpdateFault` case.
- Request fields of an unexpected JSON type are not modelled, and neither is NaN as a falsy price.
- Prices are exact reals. JavaScript floating point and `toFixed` rounding are not modelled.
- Timestamps are integers. Date parsing, time zones and `toDateString` are abstracted: the date key is a function parameter.
- Presentational code is not modelled:
  - the home and result pages and the headers;
  - the date/time formatters;
  - the mocked "remaining" counts and the "Sold out" button;
  - the redirect when the store is empty on checkout;
  - the upper-casing of the typed promo code.
- Network calls are not modelled. The promo reply and the booking reply are parameters of `ApplyPromo` and `ConfirmBooking`, and browser redirects are `Navigation` values.
- The loading flags are set as the handlers set them, but the asynchronous interleaving of renders is not modelled.
- Start-before-end for slots and slot-id uniqueness are not enforced by the source, and the model does not prove them.
- ReservationProperties.AtMostOncePerSlot: requires slot ids to be unique within each experience (also RunKeepsLedgerConsistent and StepKeepsLedgerConsistent). With two slots sharing an id, each can be booked once.
- SlotGrouping.SortByStart: proves sorted order and permutation only. The stability of the browser's sort is not stated.
- Checkout.Subtotal: states the exact percent result only for a base and rate that are not negative and a rate of at most 1; other inputs are covered by the clamp alone.
- BookingRoutes.Step: models the intended same-slot filter, not the filter as written at bookingRoutes.ts:43-48. The same holds for `Store.Reserve` and the `ReservationProperties` lemmas, which build on `Step`. The filter as written is `SlotFilter.StepAsWritten` (see Findings).
- SlotFilter.StepAsWritten: the slot `slots.$` designates is a parameter. The model only requires that it has the requested id or is unbooked; MongoDB's choice among such slots is not modelled.
- The handler accepts a negative `final_price`, rejects a price of 0, and answers 500, not 400, to a malformed id; the model does the same.

## Findings

| source | as written | input that shows it | evidently intended | confidence | as-written member | corrected member |
|---|---|---|---|---|---|---|
| bookit-backend/src/routes/bookingRoutes.ts:43-51 | the filter puts `'slots._id': slot_id` and `'slots.is_booked': false` on the array as two separate conditions, without `$elemMatch`. Under MongoDB's array-query rules, different slots may meet them, and `slots.$` may designate either slot | experience `e1` has slot `a` (booked, held by a booking) and slot `b` (free). A new request for (`e1`, `a`) matches, is answered 201 and writes a second booking for `a` | the same slot has the id and is unbooked, as `$elemMatch` would express; the request gets 409 | high on the query semantics; not executed | SlotFilter.LiteralFilterDoubleBooks | BookingRoutes.Step, ReservationProperties.AtMostOncePerSlot |
