/** The hotel service: the eligibility rule, then one repository read. */
module HotelsService {
  import opened Entities

  /** The answers of the enrollment, ticket and hotel repositories, as lookups. */
  datatype Repository = Repository(
    enrollmentByUserId: int -> Option<Enrollment>,
    ticketByEnrollmentId: int -> Option<Ticket>,
    manyHotels: Option<seq<Hotel>>,
    hotelByHotelId: real -> Option<HotelWithRooms>)

  /** The ticket the service reaches for a user: looked up by the enrollment's id, if any. */
  function UserTicket(repo: Repository, userId: int): Option<Ticket>
  {
    match repo.enrollmentByUserId(userId)
    case None => None
    case Some(enrollment) => repo.ticketByEnrollmentId(enrollment.id)
  }

  /** Declarative statement of who may see hotel data. */
  ghost predicate Eligible(repo: Repository, userId: int)
  {
    && repo.enrollmentByUserId(userId).Some?
    && UserTicket(repo, userId).Some?
    && UserTicket(repo, userId).value.status == PaidStatus
    && !UserTicket(repo, userId).value.ticketType.isRemote
    && UserTicket(repo, userId).value.ticketType.includesHotel
  }

  /** The five checks of the eligibility rule. */
  datatype Check = NoEnrollment | NoTicket | NotPaid | Remote | NoHotel

  /** The order in which the rule applies its checks. */
  const CheckOrder: seq<Check> := [NoEnrollment, NoTicket, NotPaid, Remote, NoHotel]

  /** Whether check `c` fails for the user, read on its own. */
  ghost predicate Fails(c: Check, repo: Repository, userId: int)
  {
    var t := UserTicket(repo, userId);
    match c
    case NoEnrollment => repo.enrollmentByUserId(userId).None?
    case NoTicket => t.None?
    case NotPaid => t.Some? && t.value.status != PaidStatus
    case Remote => t.Some? && t.value.ticketType.isRemote
    case NoHotel => t.Some? && !t.value.ticketType.includesHotel
  }

  /** The error a failing check raises. */
  function ErrorOf(c: Check): AppError
  {
    if c == NoEnrollment || c == NoTicket then NotFoundError else PaymentRequiredError
  }

  /** Reference semantics of a short-circuit chain: the error of the first failing check. */
  ghost function FirstFailure(checks: seq<Check>, repo: Repository, userId: int): (r: Result<()>)
    ensures r.Ok? <==> forall i :: 0 <= i < |checks| ==> !Fails(checks[i], repo, userId)
    ensures r.Err? ==> exists i :: 0 <= i < |checks| && Fails(checks[i], repo, userId)
                          && r.error == ErrorOf(checks[i])
                          && forall j :: 0 <= j < i ==> !Fails(checks[j], repo, userId)
  {
    if checks == [] then Ok(())
    else if Fails(checks[0], repo, userId) then Err(ErrorOf(checks[0]))
    else
      var r := FirstFailure(checks[1..], repo, userId);
      if r.Ok? then r
      else
        var i :| 0 <= i < |checks[1..]| && Fails(checks[1..][i], repo, userId)
                 && r.error == ErrorOf(checks[1..][i])
                 && forall j :: 0 <= j < i ==> !Fails(checks[1..][j], repo, userId);
        assert checks[i + 1] == checks[1..][i];
        assert forall j :: 0 <= j < i + 1 ==> !Fails(checks[j], repo, userId) by {
          forall j | 0 <= j < i + 1 ensures !Fails(checks[j], repo, userId) {
            if j > 0 { assert checks[j] == checks[1..][j - 1]; }
          }
        }
        r
  }

  /**
   * The eligibility rule: no enrollment or no ticket is NotFound; an unpaid,
   * remote or hotel-less ticket is PaymentRequired; otherwise it passes.
   */
  function VerifyEnrollmentAndTicketType(repo: Repository, userId: int): (r: Result<()>)
    ensures r.Ok? <==> Eligible(repo, userId)
    ensures repo.enrollmentByUserId(userId).None? ==> r == Err(NotFoundError)
    ensures repo.enrollmentByUserId(userId).Some? && UserTicket(repo, userId).None? ==> r == Err(NotFoundError)
    ensures (UserTicket(repo, userId).Some? && UserTicket(repo, userId).value.status != PaidStatus)
              ==> r == Err(PaymentRequiredError)
    ensures (UserTicket(repo, userId).Some? && UserTicket(repo, userId).value.ticketType.isRemote)
              ==> r == Err(PaymentRequiredError)
    ensures (UserTicket(repo, userId).Some? && !UserTicket(repo, userId).value.ticketType.includesHotel)
              ==> r == Err(PaymentRequiredError)
    ensures r.Err? ==> (r.error == NotFoundError <==> UserTicket(repo, userId).None?)
    ensures r.Err? ==> r.error.NotFoundError? || r.error.PaymentRequiredError?
  {
    match repo.enrollmentByUserId(userId)
    case None => Err(NotFoundError)
    case Some(enrollment) =>
      match repo.ticketByEnrollmentId(enrollment.id)
      case None => Err(NotFoundError)
      case Some(ticket) =>
        if ticket.status != PaidStatus then Err(PaymentRequiredError)
        else if ticket.ticketType.isRemote then Err(PaymentRequiredError)
        else if !ticket.ticketType.includesHotel then Err(PaymentRequiredError)
        else Ok(())
  }

  /** The rule applies its checks in CheckOrder and stops at the first that fails. */
  lemma VerifyFollowsCheckOrder(repo: Repository, userId: int)
    ensures VerifyEnrollmentAndTicketType(repo, userId) == FirstFailure(CheckOrder, repo, userId)
  {
    var r := FirstFailure(CheckOrder, repo, userId);
    assert CheckOrder[0] == NoEnrollment && CheckOrder[1] == NoTicket && CheckOrder[2] == NotPaid
           && CheckOrder[3] == Remote && CheckOrder[4] == NoHotel;
    if r.Ok? {
      assert forall i :: 0 <= i < 5 ==> !Fails(CheckOrder[i], repo, userId);
      assert Eligible(repo, userId);
      // The unit payload has a single value, but the verifier needs it spelled out.
      assert r.value == ();
    } else {
      var i :| 0 <= i < |CheckOrder| && Fails(CheckOrder[i], repo, userId)
               && r.error == ErrorOf(CheckOrder[i])
               && forall j :: 0 <= j < i ==> !Fails(CheckOrder[j], repo, userId);
      assert !Eligible(repo, userId) by {
        assert Fails(CheckOrder[i], repo, userId);
      }
    }
  }

  /** Lists all hotels for an eligible user; an absent list is NotFound. */
  function GetAllHotels(repo: Repository, userId: int): (r: Result<seq<Hotel>>)
    ensures VerifyEnrollmentAndTicketType(repo, userId).Err? ==> r == Err(VerifyEnrollmentAndTicketType(repo, userId).error)
    ensures r.Ok? <==> Eligible(repo, userId) && repo.manyHotels.Some?
    ensures r.Ok? ==> r.value == repo.manyHotels.value
    ensures Eligible(repo, userId) && repo.manyHotels.None? ==> r == Err(NotFoundError)
    ensures r.Err? ==> r.error.NotFoundError? || r.error.PaymentRequiredError?
  {
    match VerifyEnrollmentAndTicketType(repo, userId)
    case Err(e) => Err(e)
    case Ok(_) =>
      match repo.manyHotels
      case None => Err(NotFoundError)
      case Some(hotels) => Ok(hotels)
  }

  /** Fetches one hotel with its rooms for an eligible user; no such hotel is NotFound. */
  function GetHotelByHotelId(repo: Repository, userId: int, hotelId: real): (r: Result<HotelWithRooms>)
    ensures VerifyEnrollmentAndTicketType(repo, userId).Err? ==> r == Err(VerifyEnrollmentAndTicketType(repo, userId).error)
    ensures r.Ok? <==> Eligible(repo, userId) && repo.hotelByHotelId(hotelId).Some?
    ensures r.Ok? ==> r.value == repo.hotelByHotelId(hotelId).value
    ensures Eligible(repo, userId) && repo.hotelByHotelId(hotelId).None? ==> r == Err(NotFoundError)
    ensures r.Err? ==> r.error.NotFoundError? || r.error.PaymentRequiredError?
  {
    match VerifyEnrollmentAndTicketType(repo, userId)
    case Err(e) => Err(e)
    case Ok(_) =>
      match repo.hotelByHotelId(hotelId)
      case None => Err(NotFoundError)
      case Some(hotel) => Ok(hotel)
  }

  /** An eligible user with an empty hotel table gets the empty list as a success. */
  lemma EmptyHotelListIsSuccess(repo: Repository, userId: int)
    requires Eligible(repo, userId) && repo.manyHotels == Some([])
    ensures GetAllHotels(repo, userId) == Ok([])
  {
  }
}
