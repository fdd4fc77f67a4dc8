/** The records the hotel endpoints read, and the reads themselves.

    The stores are owned by other parts of the system and are only read
    here. Enrollments and tickets are kept as partial maps keyed by what they
    are looked up by (the enrollment by its user, the ticket by its
    enrollment); hotels and rooms are tables in storage order. */
module Store {

  datatype Option<+T> = None | Some(value: T)

  datatype Hotel = Hotel(id: int, name: string, image: string)

  datatype Room = Room(id: int, name: string, capacity: int, hotelId: int)

  /** A hotel together with its rooms, as the find-by-id query returns it. */
  datatype HotelWithRooms = HotelWithRooms(hotel: Hotel, rooms: seq<Room>)

  /** An enrollment; the user it belongs to is its key in `enrollmentsByUser`. */
  datatype Enrollment = Enrollment(id: int)

  datatype TicketStatus = Reserved | Paid

  datatype TicketType = TicketType(isRemote: bool, includesHotel: bool)

  /** A ticket; the enrollment it was bought under is its key in `ticketsByEnrollment`. */
  datatype Ticket = Ticket(id: int, status: TicketStatus, ticketType: TicketType)

  datatype Db = Db(
    enrollmentsByUser: map<int, Enrollment>,
    ticketsByEnrollment: map<int, Ticket>,
    hotels: seq<Hotel>,
    rooms: seq<Room>)

  /** The enrollment registered for a user, if any. */
  function FindEnrollmentByUserId(db: Db, userId: int): (r: Option<Enrollment>)
    ensures r.Some? <==> userId in db.enrollmentsByUser
    ensures r.Some? ==> r.value == db.enrollmentsByUser[userId]
  {
    if userId in db.enrollmentsByUser then Some(db.enrollmentsByUser[userId]) else None
  }

  /** The ticket bought under an enrollment, if any. */
  function FindTicketByEnrollmentId(db: Db, enrollmentId: int): (r: Option<Ticket>)
    ensures r.Some? <==> enrollmentId in db.ticketsByEnrollment
    ensures r.Some? ==> r.value == db.ticketsByEnrollment[enrollmentId]
  {
    if enrollmentId in db.ticketsByEnrollment then Some(db.ticketsByEnrollment[enrollmentId]) else None
  }

  /** True when some hotel in the table carries the identifier. */
  predicate HasHotelWithId(hotels: seq<Hotel>, id: int) {
    exists i :: 0 <= i < |hotels| && hotels[i].id == id
  }

  /** The position of the first hotel, in storage order, with the identifier. */
  function FirstIndexWithId(hotels: seq<Hotel>, id: int): (r: Option<nat>)
    ensures r.Some? ==> r.value < |hotels| && hotels[r.value].id == id
    ensures r.Some? ==> forall j :: 0 <= j < r.value ==> hotels[j].id != id
    ensures r.None? ==> forall j :: 0 <= j < |hotels| ==> hotels[j].id != id
  {
    if |hotels| == 0 then None
    else if hotels[0].id == id then Some(0)
    else match FirstIndexWithId(hotels[1..], id)
      case None => None
      case Some(k) => Some(k + 1)
  }

  /** The rooms of a hotel: every row of the room table that points at it,
      in table order. */
  function RoomsOf(rooms: seq<Room>, hotelId: int): (r: seq<Room>)
    ensures |r| <= |rooms|
    ensures forall x :: x in r ==> x.hotelId == hotelId
    ensures forall x :: multiset(r)[x] == if x.hotelId == hotelId then multiset(rooms)[x] else 0
  {
    if |rooms| == 0 then []
    else
      assert rooms == [rooms[0]] + rooms[1..];
      if rooms[0].hotelId == hotelId then [rooms[0]] + RoomsOf(rooms[1..], hotelId)
      else RoomsOf(rooms[1..], hotelId)
  }

  /** `findFirst` on the hotel table by identifier, including its rooms. */
  function FindHotelById(db: Db, hotelId: int): (r: Option<HotelWithRooms>)
    ensures r.Some? <==> HasHotelWithId(db.hotels, hotelId)
    ensures r.Some? ==> r.value.hotel in db.hotels && r.value.hotel.id == hotelId
    ensures r.Some? ==> exists i :: 0 <= i < |db.hotels| && db.hotels[i] == r.value.hotel &&
                          forall j :: 0 <= j < i ==> db.hotels[j].id != hotelId
    ensures r.Some? ==> r.value.rooms == RoomsOf(db.rooms, hotelId)
  {
    match FirstIndexWithId(db.hotels, hotelId)
    case None => None
    case Some(i) => Some(HotelWithRooms(db.hotels[i], RoomsOf(db.rooms, hotelId)))
  }
}
