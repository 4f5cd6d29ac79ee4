/**
 * `GET`/`POST /api/setup` (`setupAdmin`): creates the account "admin1" and three
 * demonstration reservations, once. The password hash and the ids the database
 * assigns are parameters. No transaction wraps the writes: a failed insert leaves
 * the earlier ones in place.
 */
module Setup {
  import opened DateRange
  import opened Records
  import opened Database
  import opened SampleData

  const AdminUsername := "admin1"
  const AdminEmail := "admin@gite-ellezelles.be"
  const AdminRole := "admin"

  const AlreadySetUp := ApiResponse(200, true, "Admin déjà créé")
  const SetupDone := ApiResponse(200, true, "Admin et données de test créés avec succès!")
  const SetupFailed := ApiResponse(500, false, "Erreur lors de la création")

  /** The account the route creates. */
  function AdminRow(id: string, hashedPassword: string): (u: User)
    ensures u.id == id && u.username == AdminUsername && u.role == AdminRole && u.password == hashedPassword
  {
    User(id, AdminUsername, hashedPassword, AdminEmail, AdminRole)
  }

  /** A row whose id is in neither the table nor the rows before it finds its id free. */
  lemma FreshIdNotTaken(base: seq<Reservation>, rows: seq<Reservation>, j: nat)
    requires j < |rows| && UniqueIds(rows) && !IdTaken(base, rows[j].id)
    ensures !IdTaken(base + rows[..j], rows[j].id)
  {
    var t := base + rows[..j];
    forall i | 0 <= i < |t| ensures t[i].id != rows[j].id {
      if i < |base| {
        assert t[i] == base[i];
      } else {
        assert t[i] == rows[i - |base|];
      }
    }
  }

  /**
   * The `for ... of` loop of `create` calls: rows go in one by one until one fails;
   * `written` rows are then stored and, on a failure, the next one's id was taken.
   */
  method InsertRows(db: Database, rows: seq<Reservation>) returns (written: nat, ok: bool)
    requires db.Valid()
    modifies db
    ensures db.Valid() && db.users == old(db.users)
    ensures written <= |rows| && db.reservations == old(db.reservations) + rows[..written]
    ensures ok <==> written == |rows|
    ensures !ok ==> IdTaken(db.reservations, rows[written].id)
    ensures UniqueIds(rows) && (forall i :: 0 <= i < |rows| ==> !IdTaken(old(db.reservations), rows[i].id)) ==> ok
  {
    written := 0;
    while written < |rows|
      invariant 0 <= written <= |rows|
      invariant db.Valid() && db.users == old(db.users)
      invariant db.reservations == old(db.reservations) + rows[..written]
    {
      if UniqueIds(rows) && (forall i :: 0 <= i < |rows| ==> !IdTaken(old(db.reservations), rows[i].id)) {
        FreshIdNotTaken(old(db.reservations), rows, written);
      }
      ok := db.CreateReservation(rows[written]);
      if !ok {
        return;
      }
      assert rows[..written + 1] == rows[..written] + [rows[written]];
      written := written + 1;
    }
    ok := true;
  }

  /**
   * `setupAdmin`: with "admin1" present nothing is written; otherwise the account is
   * created and the three stays are inserted one by one, without any conflict check.
   * Any failed insert stops the run with 500, keeping what was written before it.
   */
  method SetupAdmin(db: Database, adminId: string, hashedPassword: string, sampleIds: seq<string>)
    returns (resp: ApiResponse)
    requires db.Valid() && |sampleIds| == |Samples|
    modifies db
    ensures db.Valid()
    ensures IndexOfUsername(old(db.users), AdminUsername).Some? ==>
      resp == AlreadySetUp && db.users == old(db.users) && db.reservations == old(db.reservations)
    ensures IndexOfUsername(old(db.users), AdminUsername).None? ==>
      if IndexOfUserId(old(db.users), adminId).Some? then
        resp == SetupFailed && db.users == old(db.users) && db.reservations == old(db.reservations)
      else
        db.users == old(db.users) + [AdminRow(adminId, hashedPassword)]
        && (exists j :: && 0 <= j <= |Samples|
                         && db.reservations == old(db.reservations) + SampleRows(sampleIds)[..j]
                         && (resp == SetupDone <==> j == |Samples|)
                         && (resp != SetupDone ==> resp == SetupFailed)
                         && (j < |Samples| ==> IdTaken(old(db.reservations) + SampleRows(sampleIds)[..j], sampleIds[j])))
    ensures (&& IndexOfUsername(old(db.users), AdminUsername).None?
             && IndexOfUserId(old(db.users), adminId).None?
             && (forall i, k :: 0 <= i < k < |sampleIds| ==> sampleIds[i] != sampleIds[k])
             && (forall i :: 0 <= i < |sampleIds| ==> !IdTaken(old(db.reservations), sampleIds[i])))
      ==> resp == SetupDone && db.reservations == old(db.reservations) + SampleRows(sampleIds)
    ensures resp.success ==> IndexOfUsername(db.users, AdminUsername).Some?
  {
    if IndexOfUsername(db.users, AdminUsername).Some? {
      return AlreadySetUp;
    }
    var ok := db.CreateUser(AdminRow(adminId, hashedPassword));
    if !ok {
      return SetupFailed;
    }
    assert db.users[|db.users| - 1].username == AdminUsername;
    var rows := SampleRows(sampleIds);
    assert forall i :: 0 <= i < |rows| ==> rows[i].id == sampleIds[i];
    var written;
    written, ok := InsertRows(db, rows);
    assert rows[..|rows|] == rows;
    resp := if ok then SetupDone else SetupFailed;
  }

  /**
   * The stays go in without the booking rule: a stored stay that conflicts with the
   * k-th sample stay leaves a conflict in every table the inserts reach past that stay,
   * whatever the table held before.
   */
  lemma SetupSkipsConflictCheck(rs: seq<Reservation>, ids: seq<string>, i: nat, k: nat, j: nat)
    requires |ids| == |Samples| && i < |rs| && k < j <= |Samples|
    requires Conflicts(rs[i].dateDebut, rs[i].dateFin, Samples[k].dateDebut, Samples[k].dateFin)
    ensures !ConflictFree(rs + SampleRows(ids)[..j])
  {
    var t := rs + SampleRows(ids)[..j];
    assert t[i] == rs[i] && t[|rs| + k] == WithId(Samples[k], ids[k]);
  }

  /**
   * GET and POST run the same setup: after a successful call, a second one answers
   * "Admin déjà créé" and leaves both tables as the first call left them.
   */
  method SetupTwice(db: Database, adminId: string, hashedPassword: string, sampleIds: seq<string>)
    returns (first: ApiResponse, second: ApiResponse, ghost usersAfterFirst: seq<User>, ghost reservationsAfterFirst: seq<Reservation>)
    requires db.Valid() && |sampleIds| == |Samples|
    modifies db
    ensures db.Valid()
    ensures first.success ==>
      second == AlreadySetUp && db.users == usersAfterFirst && db.reservations == reservationsAfterFirst
  {
    first := SetupAdmin(db, adminId, hashedPassword, sampleIds);
    usersAfterFirst, reservationsAfterFirst := db.users, db.reservations;
    second := SetupAdmin(db, adminId, hashedPassword, sampleIds);
  }
}
