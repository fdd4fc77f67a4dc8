# Hotel listings gated by ticket eligibility

This project models the hotel endpoints of an event-registration backend.
A user may see the hotel catalogue only when these conditions all hold:

- the user has an enrollment;
- the enrollment has a ticket;
- the ticket is paid;
- the ticket is for attendance in person;
- the ticket's type includes accommodation.

The model has four modules:

- `Errors` holds the application's error values and the result types. Errors are identified by name, as the handlers identify them.
- `Store` holds the records: enrollments, tickets and their types, hotels and rooms. It also holds the reads the service makes.
  - Enrollments are a partial map keyed by user.
  - Tickets are a partial map keyed by enrollment.
  - The hotel and room tables are sequences in storage order.
  - Finding a hotel by identifier returns the first hotel in storage order with that identifier, together with every room that points at it.
- `HotelsService` holds the eligibility check (`VerifyEnrollmentAndTicket`) and the two queries it guards (`GetHotels` and `GetHotelById`). They are functions that return the error the service would throw as an `Err`.
- `HotelsController` holds the two handlers. Each one runs a query and picks the response status from the outcome:
  - success gives 200 and sends the value unchanged;
  - an error named `NotFoundError` gives 404;
  - an error named `PaymentRequiredError` gives 402;
  - an error with any other name gives 400.

Everything is a pure function of the stored data. Repeating a request against unchanged data therefore gives the same response.

### Two behaviours of the code worth knowing

- **The by-identifier query checks the hotel identifier.** `getHotelById` takes a `userId` it never reads and runs the eligibility check on `hotelId` (src/services/hotels-service/index.ts:17-18). `GetHotelById` models exactly that, and `GetHotelByIdIgnoresUser` proves that its result depends only on the hotel identifier. `GetHotelByIdForUser` is the same query with the check keyed by the user identifier it receives. `KeyedByHotelIdDiffers` gives data on which the two disagree: a user with a valid ticket is answered 404 for a hotel that exists.
- **The hotel identifier is not validated.** The controller forwards `Number(hotelId)` to the service without checking it (src/controllers/hotels-controller.ts:28), and no validation error is raised anywhere in the code. In the model the identifier reaches the service as a number.

## Model

| member | source | states |
|---|---|---|
| `Store.FirstIndexWithId` | src/repositories/hotel-repository/index.ts:7-11 | the position returned holds a hotel with the identifier and no earlier hotel has it; no position is returned only when no hotel has it |
| `Store.RoomsOf` | src/repositories/hotel-repository/index.ts:12-14 | the rooms included are those whose hotel is the requested one, each as often as it is stored, and no others |
| `Store.FindHotelById` | src/repositories/hotel-repository/index.ts:7-16 | a hotel is found iff one has the identifier; it is the first such hotel in storage order, it is a stored hotel, and it comes with exactly the rooms pointing at it |
| `HotelsService.VerifyEnrollmentAndTicket` | src/services/hotels-service/index.ts:27-35 | passes iff enrolled, ticketed, paid, in person and with accommodation; fails only with not found or payment required; not found iff the enrollment or ticket is missing; payment required iff a ticket exists and is unpaid, remote or without accommodation |
| `HotelsService.GetHotels` | src/services/hotels-service/index.ts:7-15 | a failed check is passed on unchanged; it succeeds iff the user is eligible and the catalogue is non-empty, and then returns the catalogue unchanged and in order; an empty catalogue is not found |
| `HotelsService.GetHotelById` | src/services/hotels-service/index.ts:17-25 | the check runs on the hotel identifier and its failure is passed on; it succeeds iff that identifier is eligible and a hotel has it; a missing hotel is not found; the hotel returned is stored, has that identifier and comes with exactly the rooms pointing at it |
| `HotelsService.GetHotelByIdForUser` | src/services/hotels-service/index.ts:17-25 | the reference version keyed by the user: the check's failure on the user is passed on; it succeeds iff the user is eligible and the hotel exists; a missing hotel is not found; the hotel returned is stored, has that identifier and comes with exactly its rooms |
| `HotelsService.NoEnrollmentIsNotFound` | src/services/hotels-service/index.ts:28-29 | without an enrollment the check fails with not found, whatever tickets are stored |
| `HotelsService.NoTicketIsNotFound` | src/services/hotels-service/index.ts:31-32 | with an enrollment and no ticket for it, the check fails with not found |
| `HotelsService.EachTicketConditionIsPaymentRequired` | src/services/hotels-service/index.ts:34 | an unpaid ticket, a remote ticket and a ticket without accommodation each fail with payment required, whatever the other two flags are |
| `HotelsService.CheckOrder` | src/services/hotels-service/index.ts:28-34 | without an enrollment the outcome is the same whatever the ticket table holds; with one, it depends on the ticket table only through the entry under that enrollment's identifier |
| `HotelsService.GetHotelByIdIgnoresUser` | src/services/hotels-service/index.ts:17-18 | the result of the by-identifier query is the same for every user identifier |
| `HotelsService.KeyedByHotelIdDiffers` | src/services/hotels-service/index.ts:18 | on concrete data, the as-written query reports not found where the user-keyed version returns the hotel |
| `HotelsService.GetHotelByIdFindsStoredHotel` | src/services/hotels-service/index.ts:20-24 | with unique identifiers, an eligible lookup of a stored hotel's identifier returns that hotel and its rooms |
| `HotelsController.StatusFor` | src/controllers/hotels-controller.ts:12-19 | 404 iff the error is named NotFoundError, 402 iff it is named PaymentRequiredError, 400 iff it has any other name |
| `HotelsController.Reply` | src/controllers/hotels-controller.ts:9-19 | 200 iff the query succeeded, and then the value is sent unchanged; otherwise the status its error's name selects, with no payload; the status is always one of 200, 400, 402 and 404 |
| `HotelsController.HandleGetHotels` | src/controllers/hotels-controller.ts:6-21 | 200 with the whole catalogue iff eligible and the catalogue is non-empty; 404 iff not enrolled, not ticketed or the catalogue is empty; 402 iff the ticket does not grant hotel access; never 400 |
| `HotelsController.HandleGetHotelById` | src/controllers/hotels-controller.ts:23-39 | the numeric identifier is forwarded; 200 iff that identifier is eligible and the hotel exists, and then the body is that hotel with exactly the rooms that point at it; 404 and 402 as for the check and the lookup; never 400 |
| `HotelsController.HandlersShareErrorMapping` | src/controllers/hotels-controller.ts:12-37 | both handlers send an error with the status its name selects |
| `HotelsController.NotEnrolledIsNotFound` | tests/integration/hotels.test.ts:47-54 | with no enrollment for the identifier checked, both endpoints answer 404 |

## Left out

- Transport: Express request and response objects are not modelled. Responses are reduced to a status and, on success, the value sent. The status text that `sendStatus` writes as the body is not modelled.
- Authentication: the middleware and its 401 answers are not part of this model. The user identifier is taken as given.
- Asynchrony: `async` and `await` are not modelled. The service is a sequence of pure reads.
- Storage faults: a failing database call would be caught and answered with 400. The stores here always answer, so the model never produces 400. `StatusFor` still maps every other error name to 400.
- Error messages: errors carry their name only, because the handlers read nothing else.
- Number conversion: `Number(hotelId)` and its `NaN` result are not modelled. The hotel identifier is an integer parameter.
- Enrollment and ticket lookups: those repositories are not part of this model. They are read as partial maps (enrollment by user, ticket by enrollment) and have no behaviour of their own. The hotel listing (`findMany`) is read as the hotel table itself, in storage order.
- Keys are not duplicated in records: an enrollment's user and a ticket's enrollment are the keys they are stored under, not fields.
- Stored fields the core never reads are not modelled: timestamps, ticket price, enrollment address details.
- Test factories and fixture data are not modelled.
