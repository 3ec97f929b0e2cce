/** The records the hotel slice reads, and the outcome type its layers pass on. */
module Entities {

  datatype Option<T> = None | Some(value: T)

  /** A user's registration for the event; only its id is used, to find the ticket. */
  datatype Enrollment = Enrollment(id: int, userId: int)

  /** A ticket category: remote attendance and hotel inclusion. */
  datatype TicketType = TicketType(id: int, name: string, isRemote: bool, includesHotel: bool)

  /** A ticket as the ticket repository returns it, with its type attached. */
  datatype Ticket = Ticket(id: int, enrollmentId: int, status: string, ticketType: TicketType)

  /** The status string a ticket carries once paid. */
  const PaidStatus: string := "PAID"

  /** Timestamps are kept abstract (an instant as an integer). */
  datatype Hotel = Hotel(id: int, name: string, image: string, createdAt: int, updatedAt: int)

  datatype Room = Room(id: int, name: string, capacity: int, hotelId: int, createdAt: int, updatedAt: int)

  /** A hotel row together with its rooms, in the order the store returns them. */
  datatype HotelWithRooms = HotelWithRooms(id: int, name: string, image: string, createdAt: int, updatedAt: int, rooms: seq<Room>)

  /** The error kinds the service raises; any other failure keeps only its name. */
  datatype AppError = NotFoundError | PaymentRequiredError | OtherError(errorName: string)

  /** The `name` field of the raised error object, which is what the controllers inspect. */
  function Name(e: AppError): string
  {
    match e
    case NotFoundError => "NotFoundError"
    case PaymentRequiredError => "PaymentRequiredError"
    case OtherError(n) => n
  }

  /** Normal return with a value, or a raised error. */
  datatype Result<T> = Ok(value: T) | Err(error: AppError)
}
