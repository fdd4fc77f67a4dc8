/** The hotels service: the eligibility check and the two hotel queries
    guarded by it. Each operation returns the error the service would throw
    as an `Err`, and a check that passes as `Pass`. */
module HotelsService {
  import opened Errors
  import opened Store

  /** A ticket opens the hotel listings when it is paid for, is for
      attendance in person, and its type includes accommodation. */
  predicate GrantsHotelAccess(t: Ticket) {
    t.status == Paid && !t.ticketType.isRemote && t.ticketType.includesHotel
  }

  /** The key has an enrollment and that enrollment has a ticket. */
  predicate HasTicket(db: Db, userId: int) {
    userId in db.enrollmentsByUser && db.enrollmentsByUser[userId].id in db.ticketsByEnrollment
  }

  /** The ticket found for the key; only defined when there is one. */
  function TicketOf(db: Db, userId: int): Ticket
    requires HasTicket(db, userId)
  {
    db.ticketsByEnrollment[db.enrollmentsByUser[userId].id]
  }

  /** The eligibility rule on its own: enrolled, holding a ticket, and the
      ticket grants hotel access. */
  predicate Eligible(db: Db, userId: int) {
    HasTicket(db, userId) && GrantsHotelAccess(TicketOf(db, userId))
  }

  /** `verifyEnrollmentAndTicket`: looks the enrollment up by the key, then
      the ticket by the enrollment, and fails at the first thing missing or
      wrong. */
  function VerifyEnrollmentAndTicket(db: Db, userId: int): (r: Outcome)
    ensures r.Pass? <==> Eligible(db, userId)
    ensures r.Fail? ==> r.error == NotFoundError || r.error == PaymentRequiredError
    ensures r == Fail(NotFoundError) <==> !HasTicket(db, userId)
    ensures r == Fail(PaymentRequiredError) <==>
              HasTicket(db, userId) &&
              (TicketOf(db, userId).status != Paid ||
               TicketOf(db, userId).ticketType.isRemote ||
               !TicketOf(db, userId).ticketType.includesHotel)
  {
    match FindEnrollmentByUserId(db, userId)
    case None => Fail(NotFoundError)
    case Some(enrollment) =>
      match FindTicketByEnrollmentId(db, enrollment.id)
      case None => Fail(NotFoundError)
      case Some(ticket) =>
        if ticket.status != Paid || ticket.ticketType.isRemote || !ticket.ticketType.includesHotel then
          Fail(PaymentRequiredError)
        else
          Pass
  }

  /** `getHotels`: the whole catalogue for an eligible user; an empty
      catalogue is reported as not found. */
  function GetHotels(db: Db, userId: int): (r: Result<seq<Hotel>>)
    ensures VerifyEnrollmentAndTicket(db, userId).Fail? ==>
              r == Err(VerifyEnrollmentAndTicket(db, userId).error)
    ensures r.Ok? <==> Eligible(db, userId) && |db.hotels| > 0
    ensures r.Ok? ==> r.value == db.hotels
    ensures Eligible(db, userId) && |db.hotels| == 0 ==> r == Err(NotFoundError)
  {
    match VerifyEnrollmentAndTicket(db, userId)
    case Fail(e) => Err(e)
    case Pass =>
      var hotels := db.hotels;
      if |hotels| < 1 then Err(NotFoundError) else Ok(hotels)
  }

  /** `getHotelById` as the repository has it: the eligibility check is run
      on the hotel's identifier, and the user's identifier is not used. */
  function GetHotelById(db: Db, userId: int, hotelId: int): (r: Result<HotelWithRooms>)
    ensures VerifyEnrollmentAndTicket(db, hotelId).Fail? ==>
              r == Err(VerifyEnrollmentAndTicket(db, hotelId).error)
    ensures r.Ok? <==> Eligible(db, hotelId) && HasHotelWithId(db.hotels, hotelId)
    ensures Eligible(db, hotelId) && !HasHotelWithId(db.hotels, hotelId) ==> r == Err(NotFoundError)
    ensures r.Ok? ==> r.value.hotel in db.hotels && r.value.hotel.id == hotelId
    ensures r.Ok? ==> r.value.rooms == RoomsOf(db.rooms, hotelId)
  {
    match VerifyEnrollmentAndTicket(db, hotelId)
    case Fail(e) => Err(e)
    case Pass =>
      match FindHotelById(db, hotelId)
      case None => Err(NotFoundError)
      case Some(hotel) => Ok(hotel)
  }

  /** The same query with the eligibility check keyed by the user
      identifier the function receives. It is not what the endpoint runs; it
      is kept as the reference the as-written query is compared with. */
  function GetHotelByIdForUser(db: Db, userId: int, hotelId: int): (r: Result<HotelWithRooms>)
    ensures VerifyEnrollmentAndTicket(db, userId).Fail? ==>
              r == Err(VerifyEnrollmentAndTicket(db, userId).error)
    ensures r.Ok? <==> Eligible(db, userId) && HasHotelWithId(db.hotels, hotelId)
    ensures Eligible(db, userId) && !HasHotelWithId(db.hotels, hotelId) ==> r == Err(NotFoundError)
    ensures r.Ok? ==> r.value.hotel in db.hotels && r.value.hotel.id == hotelId
    ensures r.Ok? ==> r.value.rooms == RoomsOf(db.rooms, hotelId)
  {
    match VerifyEnrollmentAndTicket(db, userId)
    case Fail(e) => Err(e)
    case Pass =>
      match FindHotelById(db, hotelId)
      case None => Err(NotFoundError)
      case Some(hotel) => Ok(hotel)
  }

  /** Without an enrollment the check reports not found, whatever the
      ticket table holds. */
  lemma NoEnrollmentIsNotFound(db: Db, tickets: map<int, Ticket>, userId: int)
    requires userId !in db.enrollmentsByUser
    ensures VerifyEnrollmentAndTicket(db.(ticketsByEnrollment := tickets), userId) == Fail(NotFoundError)
  {
  }

  /** With an enrollment but no ticket for it the check reports not found,
      whatever ticket the enrollment might otherwise have had. */
  lemma NoTicketIsNotFound(db: Db, userId: int)
    requires userId in db.enrollmentsByUser
    requires db.enrollmentsByUser[userId].id !in db.ticketsByEnrollment
    ensures VerifyEnrollmentAndTicket(db, userId) == Fail(NotFoundError)
  {
  }

  /** The three ticket conditions collapse into one error: whichever of them
      fails, and however many, the check reports payment required. */
  lemma EachTicketConditionIsPaymentRequired(db: Db, userId: int)
    requires HasTicket(db, userId)
    ensures TicketOf(db, userId).status != Paid ==> VerifyEnrollmentAndTicket(db, userId) == Fail(PaymentRequiredError)
    ensures TicketOf(db, userId).ticketType.isRemote ==> VerifyEnrollmentAndTicket(db, userId) == Fail(PaymentRequiredError)
    ensures !TicketOf(db, userId).ticketType.includesHotel ==> VerifyEnrollmentAndTicket(db, userId) == Fail(PaymentRequiredError)
  {
  }

  /** Check order: the ticket table is only consulted once an enrollment is
      found, and then only under that enrollment's identifier. So with no
      enrollment the ticket table does not matter at all, and with one only
      the entry under its identifier does. */
  lemma CheckOrder(db: Db, db': Db, userId: int)
    requires db'.enrollmentsByUser == db.enrollmentsByUser
    ensures userId !in db.enrollmentsByUser ==>
              VerifyEnrollmentAndTicket(db, userId) == VerifyEnrollmentAndTicket(db', userId)
    ensures userId in db.enrollmentsByUser &&
            (var k := db.enrollmentsByUser[userId].id;
             (k in db.ticketsByEnrollment <==> k in db'.ticketsByEnrollment) &&
             (k in db.ticketsByEnrollment ==> db.ticketsByEnrollment[k] == db'.ticketsByEnrollment[k])) ==>
              VerifyEnrollmentAndTicket(db, userId) == VerifyEnrollmentAndTicket(db', userId)
  {
  }

  /** The hotel found by identifier depends on the hotel identifier alone:
      the user identifier passed in is never read. */
  lemma GetHotelByIdIgnoresUser(db: Db, userId: int, otherUserId: int, hotelId: int)
    ensures GetHotelById(db, userId, hotelId) == GetHotelById(db, otherUserId, hotelId)
  {
  }

  /** A user whose own ticket is in order can still be refused a hotel: the
      as-written query asks about the hotel's identifier instead. User 1 holds
      a paid in-person ticket with accommodation, and hotel 2 exists. */
  lemma KeyedByHotelIdDiffers()
    ensures var db := Db(map[1 := Enrollment(10)],
                         map[10 := Ticket(100, Paid, TicketType(false, true))],
                         [Hotel(2, "Grand", "grand.png")],
                         []);
            GetHotelById(db, 1, 2) == Err(NotFoundError) &&
            GetHotelByIdForUser(db, 1, 2) == Ok(HotelWithRooms(Hotel(2, "Grand", "grand.png"), []))
  {
  }

  /** With identifiers unique in the hotel table, the hotel returned is the
      one stored under that identifier. */
  lemma GetHotelByIdFindsStoredHotel(db: Db, userId: int, i: nat)
    requires i < |db.hotels|
    requires forall j, k :: 0 <= j < k < |db.hotels| ==> db.hotels[j].id != db.hotels[k].id
    requires Eligible(db, db.hotels[i].id)
    ensures GetHotelById(db, userId, db.hotels[i].id) ==
              Ok(HotelWithRooms(db.hotels[i], RoomsOf(db.rooms, db.hotels[i].id)))
  {
  }
}
