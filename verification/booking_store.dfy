/** The client-side store that carries the chosen experience and slot from the details page to checkout. */
module BookingStoreModel {
  import opened Common
  import opened ClientTypes

  class BookingStore {
    var experience: Option<ExperienceDetails>
    var slot: Option<SlotView>

    /** The store starts empty. */
    constructor ()
      ensures experience == None && slot == None
    {
      experience := None;
      slot := None;
    }

    /** Saves the chosen experience and slot together. */
    method SetBooking(experience: ExperienceDetails, slot: SlotView)
      modifies this
      ensures this.experience == Some(experience) && this.slot == Some(slot)
    {
      this.experience := Some(experience);
      this.slot := Some(slot);
    }

    /** Empties both fields, whatever they held. */
    method ClearBooking()
      modifies this
      ensures experience == None && slot == None
    {
      experience := None;
      slot := None;
    }
  }

  /** Setting a booking and then clearing it leaves a store that looks like a fresh one. */
  method SetThenClearRestoresInitial(e: ExperienceDetails, s: SlotView) returns (restored: bool)
    ensures restored
  {
    var initial := new BookingStore();
    var store := new BookingStore();
    store.SetBooking(e, s);
    store.ClearBooking();
    restored := store.experience == initial.experience && store.slot == initial.slot;
  }

  /** Clearing twice leaves the same state as clearing once. */
  method ClearTwiceEqualsClearOnce(e: ExperienceDetails, s: SlotView) returns (same: bool)
    ensures same
  {
    var once := new BookingStore();
    var twice := new BookingStore();
    once.SetBooking(e, s);
    twice.SetBooking(e, s);
    once.ClearBooking();
    twice.ClearBooking();
    twice.ClearBooking();
    same := once.experience == twice.experience && once.slot == twice.slot;
  }
}
