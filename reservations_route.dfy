/**
 * The `/api/reservations` route: the server's conflict check, the listing (GET) and
 * the creation (POST) of a confirmed reservation.
 */
module ReservationsRoute {
  import opened Wrappers
  import opened DateRange
  import opened Records
  import opened Database

  /** `excludeId ? { NOT: { id: excludeId } } : {}`: a row is left out only for a non-empty excludeId equal to its id. */
  predicate Excluded(r: Reservation, excludeId: Option<string>)
  {
    Present(excludeId) && r.id == excludeId.value
  }

  /** The rows `findMany` returns under that filter, in table order. */
  function Candidates(rs: seq<Reservation>, excludeId: Option<string>): (c: seq<Reservation>)
    ensures forall r :: r in c <==> r in rs && !Excluded(r, excludeId)
  {
    if rs == [] then []
    else if Excluded(rs[0], excludeId) then Candidates(rs[1..], excludeId)
    else [rs[0]] + Candidates(rs[1..], excludeId)
  }

  /** `existingReservations.some(...)`: some row conflicts with the new stay. */
  function AnyConflict(rs: seq<Reservation>, newStart: Day, newEnd: Day): (b: bool)
    ensures b <==> exists r :: r in rs && Conflicts(newStart, newEnd, r.dateDebut, r.dateFin)
  {
    if rs == [] then false
    else Conflicts(newStart, newEnd, rs[0].dateDebut, rs[0].dateFin) || AnyConflict(rs[1..], newStart, newEnd)
  }

  /** The server's `checkDateConflict(startDate, endDate, excludeId)`. */
  function CheckDateConflict(rs: seq<Reservation>, newStart: Day, newEnd: Day, excludeId: Option<string>): (b: bool)
    ensures b <==> exists r :: r in rs && !Excluded(r, excludeId) && Conflicts(newStart, newEnd, r.dateDebut, r.dateFin)
  {
    AnyConflict(Candidates(rs, excludeId), newStart, newEnd)
  }

  // ---- GET ----

  /** Ordered by `dateDebut`, ascending. */
  ghost predicate SortedByStart(rs: seq<Reservation>)
  {
    forall i, j :: 0 <= i < j < |rs| ==> rs[i].dateDebut <= rs[j].dateDebut
  }

  /** Putting a row in front of an ordered list that starts no earlier keeps it ordered. */
  lemma ConsKeepsSorted(x: Reservation, rest: seq<Reservation>)
    requires SortedByStart(rest)
    requires rest == [] || x.dateDebut <= rest[0].dateDebut
    ensures SortedByStart([x] + rest)
  {
    var t := [x] + rest;
    forall i, j | 0 <= i < j < |t| ensures t[i].dateDebut <= t[j].dateDebut {
      if i == 0 {
        assert t[j] == rest[j - 1];
        assert rest[0].dateDebut <= rest[j - 1].dateDebut;
      } else {
        assert t[i] == rest[i - 1] && t[j] == rest[j - 1];
      }
    }
  }

  /** The tail of an ordered list is ordered and starts no earlier than its head. */
  lemma TailSorted(sorted: seq<Reservation>)
    requires SortedByStart(sorted) && sorted != []
    ensures SortedByStart(sorted[1..])
    ensures |sorted| > 1 ==> sorted[0].dateDebut <= sorted[1..][0].dateDebut
  {
    var tail := sorted[1..];
    forall i, j | 0 <= i < j < |tail| ensures tail[i].dateDebut <= tail[j].dateDebut {
      assert tail[i] == sorted[i + 1] && tail[j] == sorted[j + 1];
    }
  }

  /** Puts `r` before the first row that starts later than it. */
  function InsertByStart(r: Reservation, sorted: seq<Reservation>): (t: seq<Reservation>)
    ensures |t| == |sorted| + 1
    ensures t[0] == r || (sorted != [] && t[0] == sorted[0])
  {
    if sorted == [] || r.dateDebut <= sorted[0].dateDebut then [r] + sorted
    else [sorted[0]] + InsertByStart(r, sorted[1..])
  }

  /** Inserting into an ordered list keeps it ordered. */
  lemma {:induction false} InsertKeepsSorted(r: Reservation, sorted: seq<Reservation>)
    requires SortedByStart(sorted)
    ensures SortedByStart(InsertByStart(r, sorted))
  {
    if sorted == [] || r.dateDebut <= sorted[0].dateDebut {
      ConsKeepsSorted(r, sorted);
    } else {
      var tail := sorted[1..];
      TailSorted(sorted);
      InsertKeepsSorted(r, tail);
      var rest := InsertByStart(r, tail);
      assert rest[0] == r || rest[0] == tail[0];
      ConsKeepsSorted(sorted[0], rest);
    }
  }

  /** Inserting adds exactly the one row and loses none. */
  lemma {:induction false} InsertAddsRow(r: Reservation, sorted: seq<Reservation>)
    ensures multiset(InsertByStart(r, sorted)) == multiset(sorted) + multiset{r}
  {
    if sorted != [] && r.dateDebut > sorted[0].dateDebut {
      InsertAddsRow(r, sorted[1..]);
      assert sorted == [sorted[0]] + sorted[1..];
    }
  }

  /** `findMany({ orderBy: { dateDebut: "asc" } })`: every row, ordered by start day. */
  function ListReservations(rs: seq<Reservation>): (t: seq<Reservation>)
    ensures |t| == |rs|
  {
    if rs == [] then [] else InsertByStart(rs[0], ListReservations(rs[1..]))
  }

  /** The listing is ordered by start day. */
  lemma {:induction false} ListReservationsSorted(rs: seq<Reservation>)
    ensures SortedByStart(ListReservations(rs))
  {
    if rs != [] {
      ListReservationsSorted(rs[1..]);
      InsertKeepsSorted(rs[0], ListReservations(rs[1..]));
    }
  }

  /** The listing holds exactly the stored rows, each as often as it is stored. */
  lemma {:induction false} ListReservationsPermutes(rs: seq<Reservation>)
    ensures multiset(ListReservations(rs)) == multiset(rs)
  {
    if rs != [] {
      ListReservationsPermutes(rs[1..]);
      InsertAddsRow(rs[0], ListReservations(rs[1..]));
      assert rs == [rs[0]] + rs[1..];
    }
  }

  // ---- POST ----

  /** The JSON body of a creation request. */
  datatype ReservationInput = ReservationInput(
    nom: Option<string>,
    email: Option<string>,
    telephone: Option<string>,
    dateDebut: DateText,
    dateFin: DateText,
    commentaire: Option<string>)

  /** `nom`, `email`, `telephone`, `dateDebut` and `dateFin` are all given and non-empty. */
  predicate RequiredPresent(input: ReservationInput)
  {
    Present(input.nom) && Present(input.email) && Present(input.telephone)
    && !input.dateDebut.NoDate? && !input.dateFin.NoDate?
  }

  const MissingFields := ApiResponse(400, false, "Tous les champs obligatoires doivent être remplis")
  const EndNotAfterStart := ApiResponse(400, false, "La date de fin doit être après la date de début")
  const DatesConflict := ApiResponse(409, false, "Ces dates sont en conflit avec une réservation existante")
  const ReservationCreated := ApiResponse(201, true, "Réservation créée avec succès")
  const CreationFailed := ApiResponse(500, false, "Erreur lors de la création de la réservation")

  /** The row `create` writes for a request with two readable dates; `commentaire` defaults to "". */
  function NewRecord(input: ReservationInput, id: string): (r: Reservation)
    requires input.dateDebut.OnDay? && input.dateFin.OnDay?
    ensures r.id == id && r.dateDebut == input.dateDebut.day && r.dateFin == input.dateFin.day
    ensures Present(input.nom) ==> r.nom == input.nom.value
    ensures Present(input.email) ==> r.email == input.email.value
    ensures Present(input.telephone) ==> r.telephone == input.telephone.value
    ensures r.commentaire == (if Present(input.commentaire) then input.commentaire.value else "")
  {
    Reservation(id, input.nom.GetOr(""), input.email.GetOr(""), input.telephone.GetOr(""),
                input.dateDebut.day, input.dateFin.day, input.commentaire.GetOr(""))
  }

  /**
   * `POST /api/reservations`: missing fields (400), then end not after start (400),
   * then a conflict with any stored row (409), then the insert (201). A date that
   * cannot be read makes the conflict check or the insert throw (500). `generatedId`
   * stands for the id the database assigns; a taken one makes the insert fail (500).
   */
  method Post(db: Database, input: ReservationInput, generatedId: string)
    returns (resp: ApiResponse, created: Option<Reservation>)
    requires db.Valid()
    modifies db
    ensures db.Valid() && db.users == old(db.users)
    ensures created.Some? <==> resp == ReservationCreated
    ensures created.None? ==> db.reservations == old(db.reservations)
    ensures !RequiredPresent(input) ==> resp == MissingFields
    ensures RequiredPresent(input) && (input.dateDebut.Unparseable? || input.dateFin.Unparseable?) ==>
      resp == CreationFailed
    ensures RequiredPresent(input) && input.dateDebut.OnDay? && input.dateFin.OnDay? ==>
      var s, e := input.dateDebut.day, input.dateFin.day;
      if s >= e then resp == EndNotAfterStart
      else if CheckDateConflict(old(db.reservations), s, e, None) then resp == DatesConflict
      else if IdTaken(old(db.reservations), generatedId) then resp == CreationFailed
      else created == Some(NewRecord(input, generatedId)) && db.reservations == old(db.reservations) + [created.value]
    ensures created.Some? ==>
      && created.value.id == generatedId
      && created.value.nom == input.nom.value && created.value.email == input.email.value
      && created.value.telephone == input.telephone.value
      && created.value.dateDebut == input.dateDebut.day && created.value.dateFin == input.dateFin.day
    ensures created.Some? ==> WellFormed(created.value)
    ensures AllWellFormed(old(db.reservations)) ==> AllWellFormed(db.reservations)
    ensures ConflictFree(old(db.reservations)) ==> ConflictFree(db.reservations)
  {
    created := None;
    if !RequiredPresent(input) {
      return MissingFields, None;
    }
    if input.dateDebut.Unparseable? || input.dateFin.Unparseable? {
      return CreationFailed, None;
    }
    var s, e := input.dateDebut.day, input.dateFin.day;
    if s >= e {
      return EndNotAfterStart, None;
    }
    if CheckDateConflict(db.reservations, s, e, None) {
      return DatesConflict, None;
    }
    var r := NewRecord(input, generatedId);
    ghost var before := db.reservations;
    var ok := db.CreateReservation(r);
    if !ok {
      return CreationFailed, None;
    }
    if ConflictFree(before) {
      AppendKeepsConflictFree(before, r);
    }
    resp, created := ReservationCreated, Some(r);
  }
}
