/**
 * The calendar views' reading of the stored stays, shared by the admin dashboard and the
 * public availability page: the days a stay marks as reserved and the stays listed for a
 * selected day. Both views count a stay from its start day through its end day inclusive.
 */
module Calendar {
  import opened Wrappers
  import opened DateRange
  import opened Records

  /** `eachDayOfInterval({ start, end })`: every day from `start` through `end`, in order. */
  function DayRange(start: Day, end: Day): (days: seq<Day>)
    ensures |days| == if start <= end then end - start + 1 else 0
    ensures forall k :: 0 <= k < |days| ==> days[k] == start + k
    decreases end - start
  {
    if start > end then [] else [start] + DayRange(start + 1, end)
  }

  /** Extending the range by its next day appends that day. */
  lemma DayRangeSnoc(start: Day, end: Day)
    requires start <= end + 1
    ensures DayRange(start, end + 1) == DayRange(start, end) + [end + 1]
  {
    var a, b := DayRange(start, end + 1), DayRange(start, end) + [end + 1];
    assert |a| == |b|;
    forall k | 0 <= k < |a| ensures a[k] == b[k] {
      if k < |a| - 1 { assert b[k] == DayRange(start, end)[k]; }
    }
  }

  /** The stay covers day `d` on the calendar: start <= d <= end, both ends included. */
  predicate Covers(r: Reservation, d: Day)
  {
    r.dateDebut <= d <= r.dateFin
  }

  /** The reserved-day markers: each stay's days, stay after stay, in table order. */
  function ReservedDays(rs: seq<Reservation>): seq<Day>
  {
    if rs == [] then []
    else ReservedDays(rs[..|rs| - 1]) + DayRange(rs[|rs| - 1].dateDebut, rs[|rs| - 1].dateFin)
  }

  /** The number of days a stay marks: end - start + 1, or none for a reversed range. */
  function DaysMarked(r: Reservation): nat
  {
    if r.dateDebut <= r.dateFin then r.dateFin - r.dateDebut + 1 else 0
  }

  /** The total number of markers of a list of stays. */
  function TotalDaysMarked(rs: seq<Reservation>): nat
  {
    if rs == [] then 0 else TotalDaysMarked(rs[..|rs| - 1]) + DaysMarked(rs[|rs| - 1])
  }

  /** Each stay contributes exactly end - start + 1 markers. */
  lemma {:induction false} ReservedDaysLength(rs: seq<Reservation>)
    ensures |ReservedDays(rs)| == TotalDaysMarked(rs)
  {
    if rs != [] {
      ReservedDaysLength(rs[..|rs| - 1]);
    }
  }

  /** A day is marked reserved iff some stay covers it. */
  lemma {:induction false} ReservedDaysMembership(rs: seq<Reservation>, d: Day)
    ensures d in ReservedDays(rs) <==> exists i :: 0 <= i < |rs| && Covers(rs[i], d)
  {
    if rs != [] {
      var init, last := rs[..|rs| - 1], rs[|rs| - 1];
      ReservedDaysMembership(init, d);
      var range := DayRange(last.dateDebut, last.dateFin);
      assert d in range <==> Covers(last, d) by {
        if Covers(last, d) { assert range[d - last.dateDebut] == d; }
      }
      assert forall i :: 0 <= i < |init| ==> init[i] == rs[i];
    }
  }

  /** The `reservationsForSelectedDate` filter: the stays covering the selected day, in order; none without a selection. */
  function ReservationsOnDay(rs: seq<Reservation>, selected: Option<Day>): (r: seq<Reservation>)
    ensures |r| <= |rs|
    ensures forall x :: x in r <==> selected.Some? && x in rs && Covers(x, selected.value)
  {
    if rs == [] then []
    else if selected.Some? && Covers(rs[0], selected.value) then [rs[0]] + ReservationsOnDay(rs[1..], selected)
    else ReservationsOnDay(rs[1..], selected)
  }

  /** What the GET of `/api/reservations` gave a calendar page. */
  datatype FetchOutcome =
    | Unauthorized                                        // status 401
    | Answered(success: bool, rows: seq<Reservation>)     // the JSON body
    | NetworkError                                        // fetch or JSON reading threw
}
