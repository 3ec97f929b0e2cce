# Hotel access for an event backend, in Dafny

This project models the hotel slice of a conference-management backend: the
service that decides whether a user may see hotel data and then reads it, and
the two HTTP handlers that call the service and turn its outcome into a status
code and a body.

- `entities.dfy` (module `Entities`): enrollments, tickets, ticket types, hotels
  and rooms as datatypes; the error kinds the service raises (`AppError`) with
  the `name` each carries; `Result<T>` for "returned a value or raised an error".
- `hotels_service.dfy` (module `HotelsService`): the repositories' answers as a
  `Repository` record of lookups (enrollment by user id, ticket by enrollment
  id, the hotel list, a hotel with its rooms by id); the eligibility rule
  `VerifyEnrollmentAndTicketType`; the two queries. `Eligible` states the rule
  declaratively, and `FirstFailure` over `CheckOrder` states "the five checks,
  in this order, stopping at the first that fails" independently of the nested
  conditionals.
- `hotels_controllers.dfy` (module `HotelsControllers`): the `!hotelId` guard
  over an abstract parsed id (`NaN` or a number), the catch-block dispatch on
  the error name (`"NotFoundError"` to 404, `"PaymentRequiredError"` to 402,
  anything else to 400), and both handlers as functions returning a
  `Response(status, body)`.

The name `"PaymentRequiredError"` is the one set at
`src/errors/payment-required-error.ts:5`; the file that defines the not-found
error is not part of this model, and its name `"NotFoundError"` is the one the
controllers compare against.

## Model

| member | source | states |
|---|---|---|
| `HotelsService.FirstFailure` | src/services/hotels-service/index.ts:6-31 | Reference meaning of a short-circuit chain: the outcome passes iff no check fails, and an error is the error of a failing check with every earlier check passing |
| `HotelsService.VerifyEnrollmentAndTicketType` | src/services/hotels-service/index.ts:6-31 | Passes iff enrollment and ticket exist, the status is `PAID`, the type is not remote and includes the hotel; no enrollment or no ticket gives NotFound whatever the ticket data; unpaid gives PaymentRequired whatever the flags; remote gives PaymentRequired even with the hotel included; no hotel gives PaymentRequired; only these two errors occur |
| `HotelsService.VerifyFollowsCheckOrder` | src/services/hotels-service/index.ts:8-30 | The rule's outcome is exactly the first failure in the order enrollment, ticket, paid, remote, hotel |
| `HotelsService.GetAllHotels` | src/services/hotels-service/index.ts:33-43 | An ineligible user gets the eligibility error unchanged; success iff eligible and the list is present, with the stored list unchanged (empty included); NotFound for an eligible user only when the list is absent |
| `HotelsService.GetHotelByHotelId` | src/services/hotels-service/index.ts:45-55 | An ineligible user gets the eligibility error even if the hotel exists; an eligible user gets the stored hotel with its rooms unchanged, or NotFound when there is none |
| `HotelsService.EmptyHotelListIsSuccess` | src/services/hotels-service/index.ts:36-42 | An eligible user with an empty hotel list gets the empty list as a success, not NotFound |
| `HotelsControllers.ErrorStatus` | src/controllers/hotels-controllers.ts:13-21 | 404 iff the error's name is `NotFoundError`, 402 iff it is `PaymentRequiredError`, 400 iff it is neither |
| `HotelsControllers.ListResponse` | src/controllers/hotels-controllers.ts:9-21 | A success is 200 with the service value as the body; an error is its mapped status with no JSON body; the status is one of 200, 400, 402, 404 |
| `HotelsControllers.DetailResponse` | src/controllers/hotels-controllers.ts:32-44 | Same as the list route, with the hotel and its rooms as the body |
| `HotelsControllers.SameErrorSameResponse` | src/controllers/hotels-controllers.ts:13-44 | The two catch blocks give the same response for the same error, and an error never yields 200 |
| `HotelsControllers.GetAllHotels` | src/controllers/hotels-controllers.ts:6-22 | Composed with the service (the response is the catch-block mapping of the service outcome): the status is 200, 402 or 404; 200 iff eligible with a stored list, whose body is that list; 404 iff there is no enrollment or ticket, or the user is eligible and the list is absent; 402 iff a ticket exists that fails eligibility (unpaid, remote, no hotel) |
| `HotelsControllers.GetHotelByHotelId` | src/controllers/hotels-controllers.ts:24-45 | A NaN or zero id is 400 before the service is called, and while the store answers no other id is; any other id reaches the service unchanged; 200 iff eligible and the hotel exists, with that hotel as the body; 404 iff the id is accepted and there is no enrollment or ticket, or no such hotel for an eligible user; 402 iff the id is accepted and a ticket exists that fails eligibility |
| `HotelsControllers.FalsyIdIgnoresStore` | src/controllers/hotels-controllers.ts:26-30 | A rejected id gives the same response for every user and store: the service and its eligibility check are not consulted |
| `HotelsControllers.NonZeroIdReachesService` | src/controllers/hotels-controllers.ts:28-33 | Every non-zero id, negative or fractional included, passes the guard and reaches the service as it is |
| `HotelsControllers.RoutesAgreeOnIneligibility` | src/controllers/hotels-controllers.ts:6-45 | For an accepted id, an eligibility failure gives the same status on both routes, the mapped status of that error |
| `HotelsControllers.EmptyHotelListAnswersOk` | src/controllers/hotels-controllers.ts:10-12 | An eligible user with no hotels stored is answered 200 with an empty list |

## Code versus tests

- Empty hotel list. The list service raises NotFound only when the
  repository's answer is absent (`!hotels` is false for an empty array), so an
  eligible user with no hotels gets 200 and `[]`. The integration test at
  `tests/integration/hotels.test.ts:108-121` expects 404 for that case. The
  model follows the code (`EmptyHotelListIsSuccess`,
  `EmptyHotelListAnswersOk`). Which side is intended is unclear: the test also
  expects the body `[]`, which a `sendStatus(404)` answer cannot carry.
- Rejected ids. The guard at `src/controllers/hotels-controllers.ts:28`
  rejects only NaN and 0, so negative and fractional ids reach the service
  (`NonZeroIdReachesService`).

## Left out

- Routing and the authentication middleware (`src/routers/hotels-router.ts`): the 401 answers come from outside the modelled code; handlers take an authenticated user id.
- The repositories and the ORM behind them: their answers are the lookups of `HotelsService.Repository`; a failing store call (a rejected promise that would reach the catch block as some other error, hence 400) is not produced by the service model, though the controllers' mapping of such errors is modelled through `OtherError`.
- HotelsControllers.GetHotelByHotelId, HotelsControllers.NonZeroIdReachesService: the store lookup by id cannot fail in the model, so an accepted id is never answered 400 here; in the source a rejected store call (a fractional id against an integer key, say) reaches the catch block at `src/controllers/hotels-controllers.ts:36-43` and is answered 400.
- `Number(req.params.hotelId)`: string-to-number parsing is not modelled, only its outcome (`NaN` or a number, as a real); infinities are not represented.
- Express response side effects: `sendStatus` is modelled as a body `ReasonPhrase` (the reason-phrase text it writes), JSON serialisation and `toISOString` timestamps are abstracted (timestamps are integers).
- async/await and error message texts: they carry no decision.
