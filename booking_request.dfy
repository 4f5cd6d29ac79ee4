/**
 * `POST /api/reservations/request`: the public booking form's request. It checks the
 * required fields and the email shape, then mails the owner a summary; nothing is stored.
 */
module BookingRequest {
  import opened Wrappers
  import opened DateRange
  import opened Records
  import opened MailRoutes
  import BookingPage

  /** The JSON body the booking page sends; `checkIn` and `checkOut` are ISO texts. */
  datatype BookingBody = BookingBody(
    name: Option<string>,
    email: Option<string>,
    phone: Option<string>,
    guests: Option<string>,
    specialRequests: Option<string>,
    checkIn: DateText,
    checkOut: DateText,
    nights: int,
    total: int)

  /** What `request.json()` gives: the body, or the error it throws. */
  datatype RequestBody = Json(body: BookingBody) | Unreadable(error: Thrown)

  /** The owner's mail: the reply-to address and the lines of the financial summary. */
  datatype OwnerMail = OwnerMail(replyTo: string, arrival: Day, departure: Day, nights: int, subtotal: int, total: int)

  /** What the handler did: its answer and the mail it handed to the mail service, if any. */
  datatype Handled = Handled(response: ApiResponse, mail: Option<OwnerMail>)

  /** `name`, `email`, `phone`, `guests`, `checkIn` and `checkOut` are all given and non-empty. */
  predicate RequiredPresent(b: BookingBody)
  {
    Present(b.name) && Present(b.email) && Present(b.phone) && Present(b.guests)
    && !b.checkIn.NoDate? && !b.checkOut.NoDate?
  }

  /** "Sous-total hébergement": nights at 96. */
  function Subtotal(nights: int): (s: int)
    ensures s % BookingPage.PricePerNight == 0
    ensures nights >= 1 ==> s >= BookingPage.PricePerNight
  {
    nights * BookingPage.PricePerNight
  }

  const RequestSent := ApiResponse(200, true,
    "Votre demande de réservation a été envoyée avec succès ! Le propriétaire vous répondra rapidement pour confirmer la disponibilité.")
  const RateLimitedResponse := ApiResponse(429, false, "Trop de demandes envoyées. Veuillez attendre quelques minutes.")
  const GenericFailure := ApiResponse(500, false, "Erreur lors de l'envoi de la demande. Veuillez réessayer.")

  /** The `catch` block's answer for a thrown value. */
  function ErrorResponse(e: Thrown): (resp: ApiResponse)
    ensures !resp.success && resp.status == StatusOf(Classify(e))
  {
    match Classify(e)
    case ConfigError => ConfigErrorResponse
    case RateLimited => RateLimitedResponse
    case AccessDenied => AccessDeniedResponse
    case Unclassified => GenericFailure
  }

  /** `format` of an invalid date throws a `RangeError`, before the mail is sent. */
  const InvalidTimeValue := ErrorWithMessage("Invalid time value")

  /**
   * The handler: an unreadable body goes to the `catch`; missing fields (400), then a bad
   * email (400), are refused before anything else; a date that cannot be read makes the
   * template throw; otherwise the mail goes out and its outcome decides the answer.
   */
  function Handle(request: RequestBody, send: SendOutcome): (h: Handled)
    ensures request.Unreadable? ==> h == Handled(ErrorResponse(request.error), None)
    ensures request.Json? && !RequiredPresent(request.body) ==> h == Handled(MissingFields, None)
    ensures request.Json? && RequiredPresent(request.body) && !IsValidEmail(request.body.email.value) ==>
      h == Handled(InvalidEmail, None)
    ensures h.mail.Some? <==>
      request.Json? && RequiredPresent(request.body) && IsValidEmail(request.body.email.value)
      && request.body.checkIn.OnDay? && request.body.checkOut.OnDay?
    ensures h.mail.Some? ==>
      h.mail.value.replyTo == request.body.email.value
      && h.mail.value.arrival == request.body.checkIn.day && h.mail.value.departure == request.body.checkOut.day
      && h.mail.value.nights == request.body.nights && h.mail.value.total == request.body.total
      && h.mail.value.subtotal == request.body.nights * 96
    ensures h.response.success <==> h.mail.Some? && send.Sent?
    ensures h.response.success ==> h.response == RequestSent
    ensures h.mail.Some? && send.SendThrew? ==> h.response == ErrorResponse(send.error)
  {
    match request
    case Unreadable(e) => Handled(ErrorResponse(e), None)
    case Json(b) =>
      if !RequiredPresent(b) then Handled(MissingFields, None)
      else if !IsValidEmail(b.email.value) then Handled(InvalidEmail, None)
      else if !b.checkIn.OnDay? || !b.checkOut.OnDay? then Handled(ErrorResponse(InvalidTimeValue), None)
      else
        var mail := OwnerMail(b.email.value, b.checkIn.day, b.checkOut.day, b.nights, Subtotal(b.nights), b.total);
        match send
        case Sent => Handled(RequestSent, Some(mail))
        case SendThrew(e) => Handled(ErrorResponse(e), Some(mail))
  }

  /** A request the booking page built carries a total equal to the mail's subtotal plus the cleaning fee. */
  lemma PageTotalIsSubtotalPlusFee(checkIn: Day, checkOut: Day)
    ensures var p := BookingPage.Submit(Some(checkIn), Some(checkOut)).value;
      p.total == Subtotal(p.nights) + BookingPage.CleaningFee
  {
  }

  /** A well-formed request from the booking page, sent without error, is answered with success. */
  lemma PageRequestAccepted(b: BookingBody, checkIn: Day, checkOut: Day)
    requires RequiredPresent(b) && IsValidEmail(b.email.value)
    requires b.checkIn == OnDay(checkIn) && b.checkOut == OnDay(checkOut)
    ensures Handle(Json(b), Sent) == Handled(RequestSent, Some(OwnerMail(b.email.value, checkIn, checkOut, b.nights, Subtotal(b.nights), b.total)))
  {
  }
}
