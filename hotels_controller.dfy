/** The hotels controller: runs a service query and turns its outcome into
    the HTTP status the response is sent with. */
module HotelsController {
  import opened Errors
  import opened Store
  import opened HotelsService

  const Ok200 := 200
  const BadRequest400 := 400
  const PaymentRequired402 := 402
  const NotFound404 := 404

  /** A response: its status, and the body sent with a success. Error
      responses carry no payload of the service's. */
  datatype Response<+T> = Response(status: int, body: Option<T>)

  /** The catch block shared by both handlers: the error's name picks the
      status, and any name it does not know is a bad request. */
  function StatusFor(e: AppError): (s: int)
    ensures s == NotFound404 <==> e.name == "NotFoundError"
    ensures s == PaymentRequired402 <==> e.name == "PaymentRequiredError"
    ensures s == BadRequest400 <==> e.name != "NotFoundError" && e.name != "PaymentRequiredError"
  {
    if e.name == "NotFoundError" then NotFound404
    else if e.name == "PaymentRequiredError" then PaymentRequired402
    else BadRequest400
  }

  /** The try block's success path and the catch block together: a value is
      sent unchanged with 200, an error with the status its name selects. */
  function Reply<T>(r: Result<T>): (resp: Response<T>)
    ensures resp.status == Ok200 <==> r.Ok?
    ensures r.Ok? ==> resp.body == Some(r.value)
    ensures r.Err? ==> resp.body == None && resp.status == StatusFor(r.error)
    ensures resp.status in {Ok200, BadRequest400, PaymentRequired402, NotFound404}
  {
    match r
    case Ok(v) => Response(Ok200, Some(v))
    case Err(e) => Response(StatusFor(e), None)
  }

  /** `GET /hotels` for the authenticated user. */
  function HandleGetHotels(db: Db, userId: int): (resp: Response<seq<Hotel>>)
    ensures resp.status == Ok200 <==> Eligible(db, userId) && |db.hotels| > 0
    ensures resp.status == Ok200 ==> resp.body == Some(db.hotels)
    ensures resp.status == NotFound404 <==> !HasTicket(db, userId) || (Eligible(db, userId) && |db.hotels| == 0)
    ensures resp.status == PaymentRequired402 <==> HasTicket(db, userId) && !GrantsHotelAccess(TicketOf(db, userId))
    ensures resp.status != BadRequest400
  {
    Reply(GetHotels(db, userId))
  }

  /** `GET /hotels/:hotelId` for the authenticated user. The path parameter
      is converted with `Number` and passed on without any check of its own,
      so the identifier arrives here as a number. */
  function HandleGetHotelById(db: Db, userId: int, hotelId: int): (resp: Response<HotelWithRooms>)
    ensures resp.status == Ok200 <==> Eligible(db, hotelId) && HasHotelWithId(db.hotels, hotelId)
    ensures resp.status == Ok200 ==> resp.body.Some? && resp.body.value.hotel.id == hotelId &&
                                     resp.body.value.hotel in db.hotels
    ensures resp.status == Ok200 ==> forall room :: room in resp.body.value.rooms ==> room.hotelId == hotelId
    ensures resp.status == Ok200 ==> resp.body.value.rooms == RoomsOf(db.rooms, hotelId)
    ensures resp.status == NotFound404 <==>
              !HasTicket(db, hotelId) || (Eligible(db, hotelId) && !HasHotelWithId(db.hotels, hotelId))
    ensures resp.status == PaymentRequired402 <==> HasTicket(db, hotelId) && !GrantsHotelAccess(TicketOf(db, hotelId))
    ensures resp.status != BadRequest400
  {
    Reply(GetHotelById(db, userId, hotelId))
  }

  /** Both handlers send an error with the same status: the one its name
      selects. */
  lemma HandlersShareErrorMapping(db: Db, userId: int, hotelId: int)
    ensures GetHotels(db, userId).Err? ==>
              HandleGetHotels(db, userId).status == StatusFor(GetHotels(db, userId).error)
    ensures GetHotelById(db, userId, hotelId).Err? ==>
              HandleGetHotelById(db, userId, hotelId).status == StatusFor(GetHotelById(db, userId, hotelId).error)
  {
  }

  /** A user with no enrollment gets 404 from the listing, and so does any
      request for a hotel whose identifier has no enrollment. */
  lemma NotEnrolledIsNotFound(db: Db, userId: int, hotelId: int)
    requires userId !in db.enrollmentsByUser
    requires hotelId !in db.enrollmentsByUser
    ensures HandleGetHotels(db, userId).status == NotFound404
    ensures HandleGetHotelById(db, userId, hotelId).status == NotFound404
  {
  }
}
