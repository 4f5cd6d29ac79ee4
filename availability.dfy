/**
 * The public availability page (`/disponibilite`): it loads the reservations without a
 * token, marks every day of every stay on its calendar and tells a visitor whether a
 * selected day is available.
 */
module Availability {
  import opened Wrappers
  import opened DateRange
  import opened Records
  import opened Calendar

  /**
   * The selected-day panel shows "Date non disponible" exactly when the filtered list is
   * not empty, that is when some stay covers the day, both ends included.
   */
  function ShownUnavailable(rs: seq<Reservation>, d: Day): (r: bool)
    ensures r <==> exists i :: 0 <= i < |rs| && Covers(rs[i], d)
  {
    var onDay := ReservationsOnDay(rs, Some(d));
    if |onDay| > 0 then
      assert onDay[0] in onDay;
      true
    else
      assert forall i :: 0 <= i < |rs| ==> rs[i] in rs;
      false
  }

  /** The panel and the calendar markers agree: a day is shown unavailable iff it is marked reserved. */
  lemma UnavailableIffMarked(rs: seq<Reservation>, d: Day)
    ensures ShownUnavailable(rs, d) <==> d in ReservedDays(rs)
  {
    ReservedDaysMembership(rs, d);
  }

  /**
   * The departure day of any stored stay is shown unavailable, yet no stay arriving that
   * day conflicts with it: the calendar is inclusive where the booking rule is not.
   */
  lemma DepartureDayShownYetBookable(rs: seq<Reservation>, i: nat, newEnd: Day)
    requires i < |rs| && WellFormed(rs[i]) && rs[i].dateFin < newEnd
    ensures ShownUnavailable(rs, rs[i].dateFin)
    ensures !Conflicts(rs[i].dateFin, newEnd, rs[i].dateDebut, rs[i].dateFin)
  {
    assert Covers(rs[i], rs[i].dateFin);
  }

  class AvailabilityPage {
    /** The `reservations` state. */
    var reservations: seq<Reservation>
    /** The `reservedDates` state: the calendar's `reserved` markers. */
    var reservedDates: seq<Day>

    /** The page starts with no reservations and no markers. */
    constructor ()
      ensures reservations == [] && reservedDates == []
    {
      reservations := [];
      reservedDates := [];
    }

    /**
     * `loadReservations`: only an answer reporting success replaces the rows, and then
     * the markers become, stay after stay, every day from its start through its end.
     * Any other answer leaves both as they were.
     */
    method LoadReservations(outcome: FetchOutcome)
      modifies this
      ensures outcome.Answered? && outcome.success ==>
        reservations == outcome.rows && reservedDates == ReservedDays(outcome.rows)
      ensures !(outcome.Answered? && outcome.success) ==>
        reservations == old(reservations) && reservedDates == old(reservedDates)
    {
      if !(outcome.Answered? && outcome.success) {
        return;
      }
      var rows := outcome.rows;
      reservations := rows;
      var all: seq<Day> := [];
      var i := 0;
      while i < |rows|
        invariant 0 <= i <= |rows|
        invariant all == ReservedDays(rows[..i])
      {
        all := all + DayRange(rows[i].dateDebut, rows[i].dateFin);
        assert rows[..i + 1][..i] == rows[..i];
        i := i + 1;
      }
      assert rows[..i] == rows;
      reservedDates := all;
    }
  }
}
