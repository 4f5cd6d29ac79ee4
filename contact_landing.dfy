/**
 * `POST /api/contact-landing`: the landing page's contact form. It checks the required
 * fields and the email shape, then mails the owner the message.
 */
module ContactLanding {
  import opened Wrappers
  import opened Records
  import opened MailRoutes
  import BookingRequest

  /** The JSON body; `phone` is optional. */
  datatype ContactBody = ContactBody(name: Option<string>, email: Option<string>, phone: Option<string>, message: Option<string>)

  /** What `request.json()` gives: the body, or the error it throws. */
  datatype RequestBody = Json(body: ContactBody) | Unreadable(error: Thrown)

  /** The owner's mail: the reply-to address, the phone line of the template and the message. */
  datatype OwnerMail = OwnerMail(replyTo: string, phoneLine: string, message: string)

  /** What the handler did: its answer and the mail it handed to the mail service, if any. */
  datatype Handled = Handled(response: ApiResponse, mail: Option<OwnerMail>)

  /** `name`, `email` and `message` are given and non-empty. */
  predicate RequiredPresent(b: ContactBody)
  {
    Present(b.name) && Present(b.email) && Present(b.message)
  }

  const PhonePrefix := "<p><strong>Téléphone :</strong> "
  const PhoneSuffix := "</p>"

  /** The template's phone line: present exactly when a non-empty phone was given. */
  function PhoneLine(phone: Option<string>): (line: string)
    ensures line == "" <==> !Present(phone)
    ensures Present(phone) ==> line == PhonePrefix + phone.value + PhoneSuffix
  {
    if Present(phone) then PhonePrefix + phone.value + PhoneSuffix else ""
  }

  const MessageSent := ApiResponse(200, true, "Votre message a été envoyé avec succès ! Nous vous répondrons rapidement.")
  const RateLimitedResponse := ApiResponse(429, false, "Trop de messages envoyés. Veuillez attendre quelques minutes.")
  const GenericFailure := ApiResponse(500, false, "Erreur lors de l'envoi du message. Veuillez réessayer.")

  /** The `catch` block's answer for a thrown value. */
  function ErrorResponse(e: Thrown): (resp: ApiResponse)
    ensures !resp.success && resp.status == StatusOf(Classify(e))
  {
    match Classify(e)
    case ConfigError => ConfigErrorResponse
    case RateLimited => RateLimitedResponse
    case AccessDenied => AccessDeniedResponse
    case Unclassified => GenericFailure
  }

  /**
   * The handler: an unreadable body goes to the `catch`; missing fields (400), then a bad
   * email (400), are refused; otherwise the mail goes out and its outcome decides the answer.
   */
  function Handle(request: RequestBody, send: SendOutcome): (h: Handled)
    ensures request.Unreadable? ==> h == Handled(ErrorResponse(request.error), None)
    ensures request.Json? && !RequiredPresent(request.body) ==> h == Handled(MissingFields, None)
    ensures request.Json? && RequiredPresent(request.body) && !IsValidEmail(request.body.email.value) ==>
      h == Handled(InvalidEmail, None)
    ensures h.mail.Some? <==> request.Json? && RequiredPresent(request.body) && IsValidEmail(request.body.email.value)
    ensures h.mail.Some? ==> h.mail.value == OwnerMail(request.body.email.value, PhoneLine(request.body.phone), request.body.message.value)
    ensures h.response.success <==> h.mail.Some? && send.Sent?
    ensures h.response.success ==> h.response == MessageSent
    ensures h.mail.Some? && send.SendThrew? ==> h.response == ErrorResponse(send.error)
  {
    match request
    case Unreadable(e) => Handled(ErrorResponse(e), None)
    case Json(b) =>
      if !RequiredPresent(b) then Handled(MissingFields, None)
      else if !IsValidEmail(b.email.value) then Handled(InvalidEmail, None)
      else
        var mail := OwnerMail(b.email.value, PhoneLine(b.phone), b.message.value);
        match send
        case Sent => Handled(MessageSent, Some(mail))
        case SendThrew(e) => Handled(ErrorResponse(e), Some(mail))
  }

  /** The phone is optional: leaving it out changes nothing but the phone line. */
  lemma PhoneOptional(b: ContactBody, send: SendOutcome)
    requires RequiredPresent(b) && IsValidEmail(b.email.value)
    ensures Handle(Json(b.(phone := None)), send).response == Handle(Json(b), send).response
    ensures Handle(Json(b.(phone := None)), send).mail.value.phoneLine == ""
  {
  }

  /** Both routes read a thrown error the same way, with the same status; only the 429 and fallback wording differ. */
  lemma SameClassificationAsBookingRequest(e: Thrown)
    ensures ErrorResponse(e).status == BookingRequest.ErrorResponse(e).status
    ensures Classify(e) != RateLimited && Classify(e) != Unclassified ==>
      ErrorResponse(e) == BookingRequest.ErrorResponse(e)
  {
  }
}
