/**
 * The three demonstration stays that both the setup route and the seed script insert,
 * and the calendar arithmetic that turns their ISO dates into day numbers.
 */
module SampleData {
  import opened DateRange
  import opened Records

  /** The day number of a proleptic Gregorian date, counted from 1970-01-01 (day 0). */
  function DayNumber(y: nat, m: nat, d: nat): Day
    requires 1 <= m <= 12 && 1 <= d <= 31 && y >= 1
  {
    var y' := if m <= 2 then y - 1 else y;
    var era := y' / 400;
    var yoe := y' - era * 400;
    var mp := if m > 2 then m - 3 else m + 9;
    var doy := (153 * mp + 2) / 5 + d - 1;
    var doe := yoe * 365 + yoe / 4 - yoe / 100 + doy;
    era * 146097 + doe - 719468
  }

  /** A demonstration stay, before the database gives it an id. */
  datatype SampleStay = SampleStay(nom: string, email: string, telephone: string,
                                   dateDebut: Day, dateFin: Day, commentaire: string)

  /**
   * The three stays, in insertion order, from 2024-12-20 to 2024-12-23, to 2025-01-02,
   * to 2025-01-05 (see SampleDays); each one ends the day the next one starts.
   */
  const Samples: seq<SampleStay> := [
    SampleStay("Jean Dupont", "jean.dupont@email.com", "+33 6 12 34 56 78",
               20077, 20080, "Séjour en famille, 2 adultes + 2 enfants"),
    SampleStay("Marie Martin", "marie.martin@email.com", "+33 6 98 76 54 32",
               20080, 20090, "Réveillon du Nouvel An"),
    SampleStay("Pierre Lambert", "pierre.lambert@email.com", "+33 6 55 44 33 22",
               20090, 20093, "Week-end détente")]

  /** The row a stay becomes under a given id. */
  function WithId(s: SampleStay, id: string): (r: Reservation)
    ensures r.id == id && r.nom == s.nom && r.dateDebut == s.dateDebut && r.dateFin == s.dateFin
  {
    Reservation(id, s.nom, s.email, s.telephone, s.dateDebut, s.dateFin, s.commentaire)
  }

  /** The first `|ids|` sample rows, under the ids given. */
  function SampleRows(ids: seq<string>): (rows: seq<Reservation>)
    requires |ids| <= |Samples|
    ensures |rows| == |ids|
    ensures forall i :: 0 <= i < |ids| ==> rows[i] == WithId(Samples[i], ids[i])
  {
    seq(|ids|, i requires 0 <= i < |ids| => WithId(Samples[i], ids[i]))
  }

  /** The day numbers are those of the ISO dates the source writes. */
  lemma SampleDays()
    ensures Samples[0].dateDebut == DayNumber(2024, 12, 20) && Samples[0].dateFin == DayNumber(2024, 12, 23)
    ensures Samples[1].dateDebut == DayNumber(2024, 12, 23) && Samples[1].dateFin == DayNumber(2025, 1, 2)
    ensures Samples[2].dateDebut == DayNumber(2025, 1, 2) && Samples[2].dateFin == DayNumber(2025, 1, 5)
  {
  }

  /** Day 0 is 1970-01-01, and a leap year's 29 February is followed by 1 March. */
  lemma DayNumberAnchors()
    ensures DayNumber(1970, 1, 1) == 0
    ensures DayNumber(2024, 3, 1) == DayNumber(2024, 2, 29) + 1
    ensures DayNumber(2025, 1, 1) == DayNumber(2024, 12, 31) + 1
  {
  }

  /** Whatever ids they get, the sample rows are well formed and pairwise free of conflict. */
  lemma SampleRowsConflictFree(ids: seq<string>)
    requires |ids| <= |Samples|
    ensures AllWellFormed(SampleRows(ids))
    ensures ConflictFree(SampleRows(ids))
  {
  }
}
