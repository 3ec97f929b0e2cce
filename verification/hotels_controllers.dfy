/** The hotel HTTP handlers: an id guard, a service call and the error-to-status map. */
module HotelsControllers {
  import opened Entities
  import HotelsService

  const StatusOk := 200
  const StatusBadRequest := 400
  const StatusPaymentRequired := 402
  const StatusNotFound := 404

  /** What a handler sends: a JSON value, or (for `sendStatus`) the status's reason phrase. */
  datatype Body = Hotels(list: seq<Hotel>) | HotelDetail(hotel: HotelWithRooms) | ReasonPhrase

  datatype Response = Response(status: int, body: Body)

  /** The result of `Number(req.params.hotelId)`: NaN, or a number. */
  datatype ParsedId = NaN | Num(value: real)

  /** `!hotelId` in the source: true for NaN and for zero. */
  predicate IsFalsy(id: ParsedId)
  {
    id.NaN? || id.value == 0.0
  }

  /** The catch block: dispatch on the error's name. */
  function ErrorStatus(e: AppError): (s: int)
    ensures s == StatusNotFound <==> Name(e) == "NotFoundError"
    ensures s == StatusPaymentRequired <==> Name(e) == "PaymentRequiredError"
    ensures s == StatusBadRequest <==> Name(e) != "NotFoundError" && Name(e) != "PaymentRequiredError"
    ensures e == NotFoundError ==> s == StatusNotFound
    ensures e == PaymentRequiredError ==> s == StatusPaymentRequired
  {
    if Name(e) == "NotFoundError" then StatusNotFound
    else if Name(e) == "PaymentRequiredError" then StatusPaymentRequired
    else StatusBadRequest
  }

  /** The try/catch around the list service call. */
  function ListResponse(r: Result<seq<Hotel>>): (resp: Response)
    ensures r.Ok? ==> resp.status == StatusOk && resp.body == Hotels(r.value)
    ensures r.Err? ==> resp.status == ErrorStatus(r.error) && resp.body == ReasonPhrase
    ensures resp.status in {StatusOk, StatusBadRequest, StatusPaymentRequired, StatusNotFound}
  {
    match r
    case Ok(hotels) => Response(StatusOk, Hotels(hotels))
    case Err(e) => Response(ErrorStatus(e), ReasonPhrase)
  }

  /** The try/catch around the by-id service call. */
  function DetailResponse(r: Result<HotelWithRooms>): (resp: Response)
    ensures r.Ok? ==> resp.status == StatusOk && resp.body == HotelDetail(r.value)
    ensures r.Err? ==> resp.status == ErrorStatus(r.error) && resp.body == ReasonPhrase
    ensures resp.status in {StatusOk, StatusBadRequest, StatusPaymentRequired, StatusNotFound}
  {
    match r
    case Ok(hotel) => Response(StatusOk, HotelDetail(hotel))
    case Err(e) => Response(ErrorStatus(e), ReasonPhrase)
  }

  /** Both handlers turn the same error into the same response. */
  lemma SameErrorSameResponse(e: AppError)
    ensures ListResponse(Err(e)) == DetailResponse(Err(e))
    ensures ListResponse(Err(e)).status in {StatusBadRequest, StatusPaymentRequired, StatusNotFound}
  {
  }

  /** GET /hotels for an authenticated user. */
  function GetAllHotels(repo: HotelsService.Repository, userId: int): (resp: Response)
    ensures resp.status in {StatusOk, StatusPaymentRequired, StatusNotFound}
    ensures resp.status == StatusOk <==> HotelsService.Eligible(repo, userId) && repo.manyHotels.Some?
    ensures resp.status == StatusOk ==> resp.body == Hotels(repo.manyHotels.value)
    ensures resp.status == StatusNotFound <==>
              HotelsService.UserTicket(repo, userId).None? || (HotelsService.Eligible(repo, userId) && repo.manyHotels.None?)
    ensures resp.status == StatusPaymentRequired <==>
              HotelsService.UserTicket(repo, userId).Some? && !HotelsService.Eligible(repo, userId)
    ensures resp == ListResponse(HotelsService.GetAllHotels(repo, userId))
  {
    ListResponse(HotelsService.GetAllHotels(repo, userId))
  }

  /** GET /hotels/:hotelId for an authenticated user. */
  function GetHotelByHotelId(repo: HotelsService.Repository, userId: int, hotelId: ParsedId): (resp: Response)
    ensures IsFalsy(hotelId) ==> resp == Response(StatusBadRequest, ReasonPhrase)
    ensures !IsFalsy(hotelId) ==> resp == DetailResponse(HotelsService.GetHotelByHotelId(repo, userId, hotelId.value))
    ensures resp.status in {StatusOk, StatusBadRequest, StatusPaymentRequired, StatusNotFound}
    ensures resp.status == StatusBadRequest <==> IsFalsy(hotelId)
    ensures resp.status == StatusOk <==>
              !IsFalsy(hotelId) && HotelsService.Eligible(repo, userId) && repo.hotelByHotelId(hotelId.value).Some?
    ensures resp.status == StatusOk ==> resp.body == HotelDetail(repo.hotelByHotelId(hotelId.value).value)
    ensures resp.status == StatusNotFound <==>
              !IsFalsy(hotelId) && (HotelsService.UserTicket(repo, userId).None?
                || (HotelsService.Eligible(repo, userId) && repo.hotelByHotelId(hotelId.value).None?))
    ensures resp.status == StatusPaymentRequired <==>
              !IsFalsy(hotelId) && HotelsService.UserTicket(repo, userId).Some? && !HotelsService.Eligible(repo, userId)
  {
    if IsFalsy(hotelId) then Response(StatusBadRequest, ReasonPhrase)
    else DetailResponse(HotelsService.GetHotelByHotelId(repo, userId, hotelId.value))
  }

  /** A rejected id answers 400 whatever the user and the store hold: the service is not called. */
  lemma FalsyIdIgnoresStore(repo1: HotelsService.Repository, repo2: HotelsService.Repository,
                            user1: int, user2: int, hotelId: ParsedId)
    requires IsFalsy(hotelId)
    ensures GetHotelByHotelId(repo1, user1, hotelId) == GetHotelByHotelId(repo2, user2, hotelId)
  {
  }

  /** Negative and fractional ids pass the guard and reach the service as they are. */
  lemma NonZeroIdReachesService(repo: HotelsService.Repository, userId: int, v: real)
    requires v != 0.0
    ensures GetHotelByHotelId(repo, userId, Num(v)) == DetailResponse(HotelsService.GetHotelByHotelId(repo, userId, v))
  {
  }

  /** An eligibility failure gives the same status on both routes, for any accepted id. */
  lemma RoutesAgreeOnIneligibility(repo: HotelsService.Repository, userId: int, hotelId: ParsedId)
    requires !IsFalsy(hotelId)
    requires HotelsService.VerifyEnrollmentAndTicketType(repo, userId).Err?
    ensures GetAllHotels(repo, userId).status == GetHotelByHotelId(repo, userId, hotelId).status
              == ErrorStatus(HotelsService.VerifyEnrollmentAndTicketType(repo, userId).error)
  {
  }

  /** With no hotels stored, an eligible user is answered 200 with an empty list. */
  lemma EmptyHotelListAnswersOk(repo: HotelsService.Repository, userId: int)
    requires HotelsService.Eligible(repo, userId) && repo.manyHotels == Some([])
    ensures GetAllHotels(repo, userId) == Response(StatusOk, Hotels([]))
  {
    HotelsService.EmptyHotelListIsSuccess(repo, userId);
  }
}
