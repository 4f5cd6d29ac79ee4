/**
 * The lodging conflict rule shared by the server route and the admin dashboard.
 * Dates are calendar days, numbered from 1970-01-01; a stay [start, end) occupies
 * the nights start, start + 1, ..., end - 1 and frees the house on the day `end`.
 */
module DateRange {

  /** A calendar day, as a day number. */
  type Day = int

  /** `areIntervalsOverlapping(a, b, { inclusive: false })` on ordered intervals. */
  predicate OverlapsExclusive(aStart: Day, aEnd: Day, bStart: Day, bEnd: Day)
  {
    aStart < bEnd && bStart < aEnd
  }

  /**
   * The test run for each existing reservation inside `some`: same-day turnover
   * (the new stay starts the day the existing one ends, or ends the day it starts)
   * is never a conflict; otherwise the two stays conflict iff they overlap exclusively.
   */
  function Conflicts(newStart: Day, newEnd: Day, existingStart: Day, existingEnd: Day): (r: bool)
    ensures newStart == existingEnd || newEnd == existingStart ==> !r
  {
    if newStart == existingEnd then false
    else if newEnd == existingStart then false
    else OverlapsExclusive(newStart, newEnd, existingStart, existingEnd)
  }

  /** On whole days the two same-day exemptions add nothing to the exclusive-overlap test. */
  lemma ConflictsIsExclusiveOverlap(newStart: Day, newEnd: Day, existingStart: Day, existingEnd: Day)
    ensures Conflicts(newStart, newEnd, existingStart, existingEnd)
        <==> OverlapsExclusive(newStart, newEnd, existingStart, existingEnd)
  {
  }

  /** The rule does not depend on which of the two stays is the new one. */
  lemma ConflictsSymmetric(aStart: Day, aEnd: Day, bStart: Day, bEnd: Day)
    ensures Conflicts(aStart, aEnd, bStart, bEnd) == Conflicts(bStart, bEnd, aStart, aEnd)
  {
  }

  /** Night `n` belongs to the stay [start, end). */
  predicate OccupiesNight(start: Day, end: Day, n: Day)
  {
    start <= n < end
  }

  /** Two stays of at least one night conflict exactly when some night belongs to both. */
  lemma ConflictsIffSharedNight(aStart: Day, aEnd: Day, bStart: Day, bEnd: Day)
    requires aStart < aEnd && bStart < bEnd
    ensures Conflicts(aStart, aEnd, bStart, bEnd)
        <==> exists n :: OccupiesNight(aStart, aEnd, n) && OccupiesNight(bStart, bEnd, n)
  {
    if Conflicts(aStart, aEnd, bStart, bEnd) {
      var n := if aStart < bStart then bStart else aStart;
      assert OccupiesNight(aStart, aEnd, n) && OccupiesNight(bStart, bEnd, n);
    }
  }

  /** Touching stays (one ends the day the other starts) never conflict. */
  lemma TouchingNeverConflicts(aStart: Day, aEnd: Day, bStart: Day)
    ensures !Conflicts(aStart, aEnd, aEnd, bStart) && !Conflicts(aEnd, bStart, aStart, aEnd)
  {
  }

  /** A stay of at least one night always conflicts with an identical stay. */
  lemma IdenticalStaysConflict(start: Day, end: Day)
    requires start < end
    ensures Conflicts(start, end, start, end)
  {
  }
}
