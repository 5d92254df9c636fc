/**
 * The Experience document and its embedded Slot sub-documents, with the
 * schema's required fields and defaults.
 */
module ExperienceModel {
  import opened Common

  /** A bookable time window; times are timestamps in milliseconds. */
  datatype Slot = Slot(id: string, start_time: int, end_time: int, is_booked: bool)

  /** An experience owns its slots as an ordered, embedded array. */
  datatype Experience = Experience(
    title: string,
    description: Option<string>,
    location: Option<string>,
    price: real,
    image_url: Option<string>,
    slots: seq<Slot>)

  /** The raw fields a slot is created from; `id` is the generated sub-document id. */
  datatype SlotInput = SlotInput(
    id: string,
    start_time: Option<int>,
    end_time: Option<int>,
    is_booked: Option<bool>)

  /** The raw fields an experience is created from. */
  datatype ExperienceInput = ExperienceInput(
    title: Option<string>,
    description: Option<string>,
    location: Option<string>,
    price: Option<real>,
    image_url: Option<string>,
    slots: seq<SlotInput>)

  /** SlotSchema: both times are required, `is_booked` defaults to false. */
  function NewSlot(input: SlotInput): (r: Result<Slot>)
    ensures r.Ok? <==> input.start_time.Some? && input.end_time.Some?
    ensures r.Ok? ==> (&& r.value.id == input.id
                       && r.value.start_time == input.start_time.value
                       && r.value.end_time == input.end_time.value)
    ensures r.Ok? && input.is_booked.None? ==> !r.value.is_booked
    ensures r.Ok? && input.is_booked.Some? ==> r.value.is_booked == input.is_booked.value
  {
    if input.start_time.None? then Err("start_time")
    else if input.end_time.None? then Err("end_time")
    else
      var booked := match input.is_booked
        case Some(b) => b
        case None => false;
      Ok(Slot(input.id, input.start_time.value, input.end_time.value, booked))
  }

  /** Validates every embedded slot in order; the first invalid one fails the document. */
  function NewSlots(inputs: seq<SlotInput>): (r: Result<seq<Slot>>)
    ensures r.Ok? <==> forall i :: 0 <= i < |inputs| ==> NewSlot(inputs[i]).Ok?
    ensures r.Ok? ==> |r.value| == |inputs|
    ensures r.Ok? ==> forall i :: 0 <= i < |inputs| ==> r.value[i] == NewSlot(inputs[i]).value
  {
    if inputs == [] then Ok([])
    else match NewSlot(inputs[0])
      case Err(f) => Err(f)
      case Ok(s) =>
        match NewSlots(inputs[1..])
        case Err(f) => Err(f)
        case Ok(rest) =>
          assert forall i :: 1 <= i < |inputs| ==> inputs[i] == inputs[1..][i - 1];
          Ok([s] + rest)
  }

  /**
   * ExperienceSchema: `title` and `price` are required (a required string
   * rejects the empty string), the other scalar fields are optional and the
   * slots keep their order.
   */
  function NewExperience(input: ExperienceInput): (r: Result<Experience>)
    ensures r.Ok? <==> (&& TruthyString(input.title)
                        && input.price.Some?
                        && forall i :: 0 <= i < |input.slots| ==> NewSlot(input.slots[i]).Ok?)
    ensures r.Ok? ==> (&& r.value.title == input.title.value
                       && r.value.price == input.price.value
                       && r.value.description == input.description
                       && r.value.location == input.location
                       && r.value.image_url == input.image_url)
    ensures r.Ok? ==> |r.value.slots| == |input.slots|
    ensures r.Ok? ==> forall i :: 0 <= i < |input.slots| ==>
                        r.value.slots[i] == NewSlot(input.slots[i]).value
  {
    if !TruthyString(input.title) then Err("title")
    else if input.price.None? then Err("price")
    else match NewSlots(input.slots)
      case Err(f) => Err(f)
      case Ok(slots) =>
        Ok(Experience(input.title.value, input.description, input.location,
                      input.price.value, input.image_url, slots))
  }
}
