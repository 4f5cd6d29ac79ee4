/**
 * The admin dashboard's own reading of the reservations it loaded: the client copy of
 * the conflict check, the pre-checks of its submit handler, the reload of its list and
 * the reserved-day markers of its calendar.
 */
module Dashboard {
  import opened Wrappers
  import opened DateRange
  import opened Records
  import opened Browser
  import SimpleAuth
  import ReservationsRoute
  import Calendar

  /**
   * The client `checkDateConflict(startDate, endDate, excludeId)`: `some` over the loaded
   * rows, where the row whose id equals a non-empty `excludeId` answers false and every
   * other row answers the lodging rule.
   */
  function ClientCheckDateConflict(rs: seq<Reservation>, newStart: Day, newEnd: Day, excludeId: Option<string>): bool
  {
    if rs == [] then false
    else if ReservationsRoute.Excluded(rs[0], excludeId) then ClientCheckDateConflict(rs[1..], newStart, newEnd, excludeId)
    else Conflicts(newStart, newEnd, rs[0].dateDebut, rs[0].dateFin) || ClientCheckDateConflict(rs[1..], newStart, newEnd, excludeId)
  }

  /** The client check gives the same answer as the server's on the same rows. */
  lemma {:induction false} ClientMatchesServer(rs: seq<Reservation>, newStart: Day, newEnd: Day, excludeId: Option<string>)
    ensures ClientCheckDateConflict(rs, newStart, newEnd, excludeId)
        == ReservationsRoute.CheckDateConflict(rs, newStart, newEnd, excludeId)
  {
    if rs != [] {
      ClientMatchesServer(rs[1..], newStart, newEnd, excludeId);
      assert forall r :: r in rs <==> r == rs[0] || r in rs[1..];
    }
  }

  /** The dialog's form once the `required` date inputs are filled. */
  datatype ReservationForm = ReservationForm(
    nom: string,
    email: string,
    telephone: string,
    dateDebut: Day,
    dateFin: Day,
    commentaire: string)

  /** What the submit handler does: refuse with one of its two messages, or send the form. */
  datatype SubmitAction =
    | RejectDates      // "La date de fin doit être après la date de début"
    | RejectConflict   // "Ces dates sont en conflit avec une réservation existante"
    | SendUpdate(id: string)  // PUT /api/reservations/<id>
    | SendCreate              // POST /api/reservations

  /** `editingReservation?.id`. */
  function EditedId(editing: Option<Reservation>): Option<string>
  {
    if editing.Some? then Some(editing.value.id) else None
  }

  /**
   * `handleSubmit`: a start on or after the end is refused first; then a local conflict,
   * with the edited reservation's own id excluded, is refused; otherwise the form goes out
   * as an update of the edited reservation or as a creation.
   */
  function SubmitDecision(rs: seq<Reservation>, form: ReservationForm, editing: Option<Reservation>): (a: SubmitAction)
    ensures a == RejectDates <==> form.dateDebut >= form.dateFin
    ensures a == RejectConflict <==>
      form.dateDebut < form.dateFin && ClientCheckDateConflict(rs, form.dateDebut, form.dateFin, EditedId(editing))
    ensures a.SendUpdate? <==> a != RejectDates && a != RejectConflict && editing.Some?
    ensures a.SendUpdate? ==> a.id == editing.value.id
  {
    if form.dateDebut >= form.dateFin then RejectDates
    else if ClientCheckDateConflict(rs, form.dateDebut, form.dateFin, EditedId(editing)) then RejectConflict
    else if editing.Some? then SendUpdate(editing.value.id)
    else SendCreate
  }

  /**
   * Editing a stored reservation: its own row never blocks the new dates. When no other
   * row conflicts, the update is sent, whatever the edited row's old dates were.
   */
  lemma OwnDatesNeverBlock(rs: seq<Reservation>, k: nat, form: ReservationForm)
    requires k < |rs| && rs[k].id != "" && UniqueIds(rs)
    requires form.dateDebut < form.dateFin
    requires forall i :: 0 <= i < |rs| && i != k ==>
      !Conflicts(form.dateDebut, form.dateFin, rs[i].dateDebut, rs[i].dateFin)
    ensures SubmitDecision(rs, form, Some(rs[k])) == SendUpdate(rs[k].id)
  {
    var s, e, ex := form.dateDebut, form.dateFin, Some(rs[k].id);
    ClientMatchesServer(rs, s, e, ex);
  }

  /** A creation is stopped by every stored row it conflicts with: nothing is excluded. */
  lemma CreateBlockedByAnyConflict(rs: seq<Reservation>, i: nat, form: ReservationForm)
    requires i < |rs| && form.dateDebut < form.dateFin
    requires Conflicts(form.dateDebut, form.dateFin, rs[i].dateDebut, rs[i].dateFin)
    ensures SubmitDecision(rs, form, None) == RejectConflict
  {
    ClientMatchesServer(rs, form.dateDebut, form.dateFin, None);
    assert rs[i] in rs;
  }

  class AdminDashboard {
    /** The `reservations` state, in the order the server listed them. */
    var reservations: seq<Reservation>

    /** The page starts with no reservations. */
    constructor ()
      ensures reservations == []
    {
      reservations := [];
    }

    /**
     * `loadReservations`: a 401 logs the admin out and keeps the list; a successful
     * answer replaces the list with its rows; any other answer keeps the list.
     */
    method LoadReservations(outcome: Calendar.FetchOutcome, browser: Browser)
      modifies this, browser
      ensures outcome.Answered? && outcome.success ==> reservations == outcome.rows
      ensures !(outcome.Answered? && outcome.success) ==> reservations == old(reservations)
      ensures outcome.Unauthorized? && browser.isClient ==>
        browser.localStorage == old(browser.localStorage) - {SimpleAuth.TokenKey}
        && browser.cookies == old(browser.cookies) - {SimpleAuth.TokenKey}
      ensures outcome.Unauthorized? ==> !SimpleAuth.IsAuthenticated(browser)
      ensures !outcome.Unauthorized? ==>
        browser.localStorage == old(browser.localStorage) && browser.cookies == old(browser.cookies)
    {
      match outcome
      case Unauthorized =>
        SimpleAuth.Logout(browser);
      case Answered(success, rows) =>
        if success {
          reservations := rows;
        }
      case NetworkError =>
    }

    /**
     * `getReservedDates`: for each reservation, a `while` loop pushes every day from its
     * start through its end, so the result is the calendar's reserved-day markers.
     */
    method GetReservedDates() returns (dates: seq<Day>)
      ensures dates == Calendar.ReservedDays(reservations)
      ensures |dates| == Calendar.TotalDaysMarked(reservations)
    {
      var rs := reservations;
      dates := [];
      var i := 0;
      while i < |rs|
        invariant 0 <= i <= |rs|
        invariant dates == Calendar.ReservedDays(rs[..i])
      {
        var start, end := rs[i].dateDebut, rs[i].dateFin;
        ghost var before := dates;
        var current := start;
        while current <= end
          invariant start <= current && (current <= end + 1 || current == start)
          invariant dates == before + Calendar.DayRange(start, current - 1)
          decreases end - current
        {
          Calendar.DayRangeSnoc(start, current - 1);
          dates := dates + [current];
          current := current + 1;
        }
        assert rs[..i + 1][..i] == rs[..i];
        i := i + 1;
      }
      assert rs[..i] == rs;
      Calendar.ReservedDaysLength(rs);
    }
  }
}
