/**
 * The experience details page: date and slot selection over the grouped
 * slots, the quantity stepper, the price breakdown, and "Book now", which
 * hands the chosen slot to the booking store.
 */
module ExperienceDetailsClient {
  import opened Common
  import opened ClientTypes
  import opened SlotGrouping
  import opened BookingStoreModel

  /** The per-person tax the page adds. */
  const TaxMock: real := 59.0

  /** The quantity after a change: the new value, but never below 1. */
  function ClampQuantity(previous: int, amount: int): (q: int)
    ensures q >= 1
    ensures previous + amount >= 1 ==> q == previous + amount
    ensures previous + amount < 1 ==> q == 1
  {
    if previous + amount < 1 then 1 else previous + amount
  }

  datatype Breakdown = Breakdown(subtotal: real, taxes: real, total: real)

  /** The price box: price and tax both scale with the quantity. */
  function PriceBreakdown(price: real, quantity: int): (b: Breakdown)
    ensures b.subtotal == price * quantity as real && b.taxes == TaxMock * quantity as real
    ensures b.total == b.subtotal + b.taxes
    ensures b.total == (price + TaxMock) * quantity as real
    ensures quantity >= 1 && price >= 0.0 ==> b.subtotal >= price && b.taxes >= TaxMock && b.total >= TaxMock
  {
    var subtotal := price * quantity as real;
    var taxes := TaxMock * quantity as real;
    Breakdown(subtotal, taxes, subtotal + taxes)
  }

  class DetailsView {
    const experience: ExperienceDetails
    const store: BookingStore
    /** `toDateString` of a start time. */
    const dateKey: int -> string
    /** The memoised grouping of the experience's slots. */
    const grouped: Grouping
    var selectedDate: Option<string>
    var selectedSlot: Option<SlotView>
    var quantity: int

    ghost predicate Valid()
      reads this
    {
      quantity >= 1 && IsGroupingOf(experience.slots, dateKey, grouped)
    }

    constructor (experience: ExperienceDetails, store: BookingStore, dateKey: int -> string)
      ensures Valid()
      ensures this.experience == experience && this.store == store && this.dateKey == dateKey
      ensures selectedDate.None? && selectedSlot.None? && quantity == 1
    {
      var g := GroupSlotsByDate(experience.slots, dateKey);
      this.experience := experience;
      this.store := store;
      this.dateKey := dateKey;
      grouped := g;
      selectedDate := None;
      selectedSlot := None;
      quantity := 1;
    }

    /** The dates that have at least one free slot, in order of their first slot. */
    function AvailableDates(): (r: seq<string>)
      reads this
      requires Valid()
      ensures forall k :: k in r <==> exists x :: x in experience.slots && !x.is_booked && dateKey(x.start_time) == k
      ensures forall i, j :: 0 <= i < j < |r| ==> r[i] != r[j]
    {
      KeysAreFreeDates(experience.slots, dateKey, grouped);
      GroupsSortedAndDistinct(experience.slots, dateKey, grouped);
      grouped.keys
    }

    /** The time chips: the free slots of the selected date, earliest first. */
    function SlotsForSelectedDate(): (r: seq<SlotView>)
      reads this
      requires Valid()
      ensures forall x :: x in r ==> !x.is_booked && selectedDate == Some(dateKey(x.start_time))
      ensures SortedByStart(r)
      ensures !TruthyString(selectedDate) ==> r == []
      ensures TruthyString(selectedDate) ==>
                forall x :: x in experience.slots && !x.is_booked && selectedDate == Some(dateKey(x.start_time)) ==> x in r
    {
      GroupsHoldOnlyFreeSlots(experience.slots, dateKey, grouped);
      GroupsSortedAndDistinct(experience.slots, dateKey, grouped);
      EveryFreeSlotGrouped(experience.slots, dateKey, grouped);
      if !TruthyString(selectedDate) then []
      else if selectedDate.value in grouped.groups then grouped.groups[selectedDate.value]
      else []
    }

    /** On render, an unset date defaults to the first available date, if any. */
    method ApplyDefaultDate()
      requires Valid()
      modifies this
      ensures Valid()
      ensures !TruthyString(old(selectedDate)) && |AvailableDates()| > 0 ==> selectedDate == Some(AvailableDates()[0])
      ensures TruthyString(old(selectedDate)) || |AvailableDates()| == 0 ==> selectedDate == old(selectedDate)
      ensures selectedSlot == old(selectedSlot) && quantity == old(quantity)
    {
      if !TruthyString(selectedDate) && |grouped.keys| > 0 {
        selectedDate := Some(grouped.keys[0]);
      }
    }

    /** Choosing a date drops the chosen slot. */
    method SelectDate(key: string)
      requires Valid()
      modifies this
      ensures Valid()
      ensures selectedDate == Some(key) && selectedSlot.None? && quantity == old(quantity)
    {
      selectedDate := Some(key);
      selectedSlot := None;
    }

    method SelectSlot(slot: SlotView)
      requires Valid()
      modifies this
      ensures Valid()
      ensures selectedSlot == Some(slot) && selectedDate == old(selectedDate) && quantity == old(quantity)
    {
      selectedSlot := Some(slot);
    }

    /** The +/- buttons: quantity never drops below 1, whatever the sequence of changes. */
    method ChangeQuantity(amount: int)
      requires Valid()
      modifies this
      ensures Valid()
      ensures quantity == ClampQuantity(old(quantity), amount)
      ensures selectedDate == old(selectedDate) && selectedSlot == old(selectedSlot)
    {
      quantity := ClampQuantity(quantity, amount);
    }

    /** The price box for the current quantity. */
    function CurrentBreakdown(): (r: Breakdown)
      reads this
      requires Valid()
      ensures r.subtotal == experience.price * quantity as real && r.taxes == TaxMock * quantity as real
      ensures r.total == (experience.price + TaxMock) * quantity as real
      ensures experience.price >= 0.0 ==> r.subtotal >= experience.price && r.taxes >= TaxMock
    {
      PriceBreakdown(experience.price, quantity)
    }

    /** "Book now": without a chosen slot nothing happens; otherwise the store gets the experience and slot. */
    method BookNow() returns (navigated: bool)
      requires Valid()
      modifies store
      ensures Valid()
      ensures navigated <==> old(selectedSlot).Some?
      ensures !navigated ==> store.experience == old(store.experience) && store.slot == old(store.slot)
      ensures navigated ==> store.experience == Some(experience) && store.slot == selectedSlot
    {
      if selectedSlot.None? {
        return false;
      }
      store.SetBooking(experience, selectedSlot.value);
      navigated := true;
    }
  }
}
