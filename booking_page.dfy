/**
 * The public booking page (`/reservation`): the night count and price shown beside the
 * date pickers, which days each picker lets a visitor choose, and the guard of its submit
 * handler. Days are day numbers; `today` is the visitor's current day.
 */
module BookingPage {
  import opened Wrappers
  import opened DateRange

  const PricePerNight := 96
  /** `Pricehousehold`: the cleaning fee added once per stay. */
  const CleaningFee := 40

  /** `calculateNights`: the distance between the two chosen days, or 0 while either is missing. */
  function CalculateNights(checkIn: Option<Day>, checkOut: Option<Day>): (n: nat)
    ensures checkIn.None? || checkOut.None? ==> n == 0
    ensures checkIn.Some? && checkOut.Some? ==>
      n == checkOut.value - checkIn.value || n == checkIn.value - checkOut.value
  {
    if checkIn.Some? && checkOut.Some? then
      if checkOut.value >= checkIn.value then checkOut.value - checkIn.value else checkIn.value - checkOut.value
    else 0
  }

  /** `calculateTotal`: nights at 96 plus the fee of 40. */
  function CalculateTotal(checkIn: Option<Day>, checkOut: Option<Day>): (t: int)
    ensures t >= CleaningFee
    ensures (t - CleaningFee) % PricePerNight == 0
  {
    CalculateNights(checkIn, checkOut) * PricePerNight + CleaningFee
  }

  /** The check-in picker's `disabled`: days before today. */
  predicate CheckInDisabled(date: Day, today: Day)
  {
    date < today
  }

  /** The check-out picker's `disabled`: days before today and, once a check-in is chosen, every day up to it. */
  predicate CheckOutDisabled(date: Day, today: Day, checkIn: Option<Day>)
  {
    date < today || (checkIn.Some? && date <= checkIn.value)
  }

  /** The JSON body the page posts to the booking-request route. */
  datatype RequestPayload = RequestPayload(checkIn: Day, checkOut: Day, nights: nat, total: int)

  /**
   * `handleSubmit`: with either day missing nothing is sent; otherwise the body carries
   * both days and the night count and total shown on the page.
   */
  function Submit(checkIn: Option<Day>, checkOut: Option<Day>): (p: Option<RequestPayload>)
    ensures p.None? <==> checkIn.None? || checkOut.None?
    ensures p.Some? ==> p.value.checkIn == checkIn.value && p.value.checkOut == checkOut.value
    ensures p.Some? ==> p.value.nights == CalculateNights(checkIn, checkOut)
    ensures p.Some? ==> p.value.total == p.value.nights * PricePerNight + CleaningFee
  {
    if checkIn.None? || checkOut.None? then None
    else Some(RequestPayload(checkIn.value, checkOut.value, CalculateNights(checkIn, checkOut), CalculateTotal(checkIn, checkOut)))
  }

  /** The night count does not depend on which of the two days is the arrival. */
  lemma NightsSymmetric(a: Option<Day>, b: Option<Day>)
    ensures CalculateNights(a, b) == CalculateNights(b, a)
  {
  }

  /** With no day chosen the page shows the fee alone. */
  lemma TotalWithoutDates()
    ensures CalculateTotal(None, None) == CleaningFee
  {
  }

  /**
   * A pair both pickers allow (check-in chosen first) is a stay of at least one night,
   * priced from its exact length.
   */
  lemma EnabledPairHasNights(checkIn: Day, checkOut: Day, today: Day)
    requires !CheckInDisabled(checkIn, today) && !CheckOutDisabled(checkOut, today, Some(checkIn))
    ensures CalculateNights(Some(checkIn), Some(checkOut)) == checkOut - checkIn >= 1
    ensures CalculateTotal(Some(checkIn), Some(checkOut)) == (checkOut - checkIn) * PricePerNight + CleaningFee
  {
  }

  /**
   * A check-in moved after an already chosen check-out is not refused: the page still
   * posts the reversed pair, priced from the absolute distance.
   */
  lemma ReversedPairStillSent(checkIn: Day, checkOut: Day)
    requires checkOut < checkIn
    ensures Submit(Some(checkIn), Some(checkOut)).Some?
    ensures Submit(Some(checkIn), Some(checkOut)).value.nights == checkIn - checkOut >= 1
  {
  }
}
