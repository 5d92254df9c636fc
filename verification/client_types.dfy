/** The JSON shapes the frontend receives; timestamps are already parsed to milliseconds. */
module ClientTypes {

  /** An embedded slot as sent to the browser. */
  datatype SlotView = SlotView(id: string, start_time: int, end_time: int, is_booked: bool)

  /** A full experience, slots included. */
  datatype ExperienceDetails = ExperienceDetails(
    id: string,
    title: string,
    description: string,
    location: string,
    price: real,
    image_url: string,
    slots: seq<SlotView>)
}
