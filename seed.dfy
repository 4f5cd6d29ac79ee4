/**
 * The seed script (`prisma/seed.ts`): upserts the admin account, then upserts the three
 * demonstration stays under ids derived from the guest's name and the start date.
 * The password hash and the admin's database id are parameters.
 */
module Seed {
  import opened Wrappers
  import opened Strings
  import opened DateRange
  import opened Records
  import opened Database
  import opened SampleData
  import Setup

  // ---- Reservation ids ----

  /** Milliseconds per day: `new Date("yyyy-mm-dd")` is midnight UTC of that day. */
  const MsPerDay := 24 * 60 * 60 * 1000

  /** `${date.getTime()}` for midnight UTC of day `d`. */
  function TimestampText(d: Day): (t: string)
    ensures t != [] && NoSpace(t)
  {
    var ms := d * MsPerDay;
    var digits := NatToString(if ms < 0 then -ms else ms);
    assert NoSpace(digits) by {
      forall k | 0 <= k < |digits| ensures !IsSpace(digits[k]) {
        assert IsDigit(digits[k]);
      }
    }
    if ms < 0 then "-" + digits else digits
  }

  /** `${nom.replace(/\s+/g, "").toLowerCase()}-${dateDebut.getTime()}`. */
  function SeedId(nom: string, start: Day): string
  {
    ToLower(RemoveSpaces(nom)) + "-" + TimestampText(start)
  }

  /** A derived id never holds whitespace. */
  lemma SeedIdNoSpace(nom: string, start: Day)
    ensures NoSpace(SeedId(nom, start))
  {
    var name, stamp := ToLower(RemoveSpaces(nom)), TimestampText(start);
    ToLowerKeepsNoSpace(RemoveSpaces(nom));
    var id := name + "-" + stamp;
    forall k | 0 <= k < |id| ensures !IsSpace(id[k]) {
      if k < |name| {
        assert id[k] == name[k];
      } else if k > |name| {
        assert id[k] == stamp[k - |name| - 1];
      }
    }
  }

  /** For a name that starts with a non-space, the id starts with its lower-cased first letter. */
  lemma SeedIdFirstChar(nom: string, start: Day)
    requires nom != [] && !IsSpace(nom[0])
    ensures SeedId(nom, start)[0] == LowerChar(nom[0])
  {
    assert RemoveSpaces(nom)[0] == nom[0];
  }

  /** The ids the script gives the three stays: the where-id and the create-id alike. */
  function SeedIds(): (ids: seq<string>)
    ensures |ids| == |Samples|
    ensures forall i :: 0 <= i < |Samples| ==> ids[i] == SeedId(Samples[i].nom, Samples[i].dateDebut)
  {
    seq(|Samples|, i requires 0 <= i < |Samples| => SeedId(Samples[i].nom, Samples[i].dateDebut))
  }

  /** The rows the script creates. */
  function SeedRows(): (rows: seq<Reservation>)
    ensures |rows| == |Samples|
    ensures forall i :: 0 <= i < |rows| ==> rows[i].id == SeedIds()[i]
  {
    SampleRows(SeedIds())
  }

  /** The three ids hold no whitespace. */
  lemma SeedIdsNoSpace()
    ensures forall i :: 0 <= i < |Samples| ==> NoSpace(SeedIds()[i])
  {
    forall i | 0 <= i < |Samples| ensures NoSpace(SeedIds()[i]) {
      SeedIdNoSpace(Samples[i].nom, Samples[i].dateDebut);
    }
  }

  /** Each seed id starts with its guest's initial, lower-cased: "j", "m", "p". */
  lemma SeedIdInitial(i: nat)
    requires i < |Samples|
    ensures SeedIds()[i] != [] && SeedIds()[i][0] == "jmp"[i]
  {
    var nom := Samples[i].nom;
    assert nom != [] && nom[0] == "JMP"[i];
    SeedIdFirstChar(nom, Samples[i].dateDebut);
  }

  /** Two sample stays get different seed ids: their guests' names start with different letters. */
  lemma SeedIdsPairDistinct(i: nat, j: nat)
    requires i < j < |Samples|
    ensures SeedIds()[i] != SeedIds()[j]
  {
    SeedIdInitial(i);
    SeedIdInitial(j);
  }

  /** The seed ids are pairwise distinct, so the three upserts write three rows. */
  lemma SeedIdsDistinct()
    ensures forall i, j :: 0 <= i < j < |Samples| ==> SeedIds()[i] != SeedIds()[j]
  {
    forall i, j | 0 <= i < j < |Samples| ensures SeedIds()[i] != SeedIds()[j] {
      SeedIdsPairDistinct(i, j);
    }
  }

  // ---- Upserts ----

  /**
   * `prisma.user.upsert({ where: { username }, update: {}, create })`: a row matching
   * `where` is kept as it is; otherwise `create` is inserted, which fails (`None`) when
   * its id or username is taken.
   */
  function UpsertUserByName(users: seq<User>, whereUsername: string, create: User): (r: Option<seq<User>>)
    ensures IndexOfUsername(users, whereUsername).Some? ==> r == Some(users)
    ensures IndexOfUsername(users, whereUsername).None? ==>
      (r.Some? <==> IndexOfUserId(users, create.id).None? && IndexOfUsername(users, create.username).None?)
    ensures IndexOfUsername(users, whereUsername).None? && r.Some? ==> r.value == users + [create]
  {
    if IndexOfUsername(users, whereUsername).Some? then Some(users)
    else if IndexOfUserId(users, create.id).None? && IndexOfUsername(users, create.username).None? then Some(users + [create])
    else None
  }

  /** The admin upsert as written: it looks up "admin" but creates "admin1". */
  function AdminUpsert(users: seq<User>, adminId: string, hashedPassword: string): Option<seq<User>>
  {
    UpsertUserByName(users, "admin", Setup.AdminRow(adminId, hashedPassword))
  }

  /** The admin upsert looking up the username it creates. */
  function IntendedAdminUpsert(users: seq<User>, adminId: string, hashedPassword: string): Option<seq<User>>
  {
    UpsertUserByName(users, Setup.AdminUsername, Setup.AdminRow(adminId, hashedPassword))
  }

  /** An existing "admin" row is never modified by the admin upsert. */
  lemma AdminUpsertKeepsAdmin(users: seq<User>, adminId: string, hashedPassword: string)
    requires exists i :: 0 <= i < |users| && users[i].username == "admin"
    ensures AdminUpsert(users, adminId, hashedPassword) == Some(users)
  {
  }

  /** As written, a second run on a fresh table fails: "admin" is never there, "admin1" already is. */
  lemma SecondRunFails(id1: string, id2: string, hashedPassword: string)
    ensures AdminUpsert([], id1, hashedPassword) == Some([Setup.AdminRow(id1, hashedPassword)])
    ensures AdminUpsert([Setup.AdminRow(id1, hashedPassword)], id2, hashedPassword).None?
  {
    var t := [Setup.AdminRow(id1, hashedPassword)];
    assert [] + t == t;
    DiffersAtTwo();
    assert IndexOfUsername(t, "admin").None?;
    assert IndexOfUsername(t, Setup.AdminUsername) == Some(0);
  }

  /** "admin1" is not "admin". */
  lemma DiffersAtTwo()
    ensures Setup.AdminUsername != "admin"
  {
    assert |Setup.AdminUsername| != |"admin"|;
  }

  /** The corrected upsert is idempotent: once it succeeds, running it again changes nothing. */
  lemma IntendedAdminUpsertIdempotent(users: seq<User>, id1: string, id2: string, hashedPassword: string)
    requires IntendedAdminUpsert(users, id1, hashedPassword).Some?
    ensures var t := IntendedAdminUpsert(users, id1, hashedPassword).value;
      IntendedAdminUpsert(t, id2, hashedPassword) == Some(t)
  {
    var t := IntendedAdminUpsert(users, id1, hashedPassword).value;
    if IndexOfUsername(users, Setup.AdminUsername).None? {
      assert t[|t| - 1].username == Setup.AdminUsername;
    }
  }

  /**
   * `prisma.reservation.upsert({ where: { id }, update: {}, create })` with the same id
   * in both: a stored row is left as it is, otherwise the row is added.
   */
  function UpsertReservationById(rs: seq<Reservation>, row: Reservation): (t: seq<Reservation>)
    ensures IdTaken(rs, row.id) ==> t == rs
    ensures !IdTaken(rs, row.id) ==> t == rs + [row]
  {
    if IdTaken(rs, row.id) then rs else rs + [row]
  }

  /** The `for` loop's upserts, in order. */
  function UpsertAll(rs: seq<Reservation>, rows: seq<Reservation>): seq<Reservation>
    decreases |rows|
  {
    if rows == [] then rs else UpsertAll(UpsertReservationById(rs, rows[0]), rows[1..])
  }

  /** One more upsert at the end of the loop. */
  lemma {:induction false} UpsertAllSnoc(rs: seq<Reservation>, rows: seq<Reservation>, row: Reservation)
    ensures UpsertAll(rs, rows + [row]) == UpsertReservationById(UpsertAll(rs, rows), row)
    decreases |rows|
  {
    if rows != [] {
      assert (rows + [row])[1..] == rows[1..] + [row];
      UpsertAllSnoc(UpsertReservationById(rs, rows[0]), rows[1..], row);
    }
  }

  /** The upserts keep every stored row and leave every upserted id stored. */
  lemma {:induction false} UpsertAllStoresIds(rs: seq<Reservation>, rows: seq<Reservation>)
    ensures rs <= UpsertAll(rs, rows)
    ensures forall i :: 0 <= i < |rows| ==> IdTaken(UpsertAll(rs, rows), rows[i].id)
    decreases |rows|
  {
    if rows != [] {
      var next := UpsertReservationById(rs, rows[0]);
      UpsertAllStoresIds(next, rows[1..]);
      var t := UpsertAll(next, rows[1..]);
      assert IdTaken(t, rows[0].id) by {
        var k :| 0 <= k < |next| && next[k].id == rows[0].id;
        assert t[k] == next[k];
      }
      forall i | 1 <= i < |rows| ensures IdTaken(t, rows[i].id) {
        assert rows[1..][i - 1] == rows[i];
      }
    }
  }

  /** Upserting rows whose ids are all stored changes nothing. */
  lemma {:induction false} UpsertAllNoop(rs: seq<Reservation>, rows: seq<Reservation>)
    requires forall i :: 0 <= i < |rows| ==> IdTaken(rs, rows[i].id)
    ensures UpsertAll(rs, rows) == rs
    decreases |rows|
  {
    if rows != [] {
      assert IdTaken(rs, rows[0].id);
      forall i | 0 <= i < |rows[1..]| ensures IdTaken(rs, rows[1..][i].id) {
        assert rows[1..][i] == rows[i + 1];
      }
      UpsertAllNoop(rs, rows[1..]);
    }
  }

  /** Running the reservation loop twice gives what running it once gives. */
  lemma SeedReservationsIdempotent(rs: seq<Reservation>)
    ensures UpsertAll(UpsertAll(rs, SeedRows()), SeedRows()) == UpsertAll(rs, SeedRows())
  {
    UpsertAllStoresIds(rs, SeedRows());
    UpsertAllNoop(UpsertAll(rs, SeedRows()), SeedRows());
  }

  /** The reservation loop: each row is created unless its id is already stored. */
  method UpsertReservations(db: Database, rows: seq<Reservation>)
    requires db.Valid()
    modifies db
    ensures db.Valid() && db.users == old(db.users)
    ensures db.reservations == UpsertAll(old(db.reservations), rows)
  {
    var i := 0;
    while i < |rows|
      invariant 0 <= i <= |rows|
      invariant db.Valid() && db.users == old(db.users)
      invariant db.reservations == UpsertAll(old(db.reservations), rows[..i])
    {
      UpsertAllSnoc(old(db.reservations), rows[..i], rows[i]);
      assert rows[..i + 1] == rows[..i] + [rows[i]];
      if !IdTaken(db.reservations, rows[i].id) {
        var created := db.CreateReservation(rows[i]);
      }
      i := i + 1;
    }
    assert rows[..i] == rows;
  }

  /**
   * `main()`: the admin upsert, then the three reservation upserts. `false` stands for
   * the rejected promise that ends the process with exit code 1; nothing after a failed
   * step runs.
   */
  method RunSeed(db: Database, adminId: string, hashedPassword: string) returns (ok: bool)
    requires db.Valid()
    modifies db
    ensures db.Valid()
    ensures ok == AdminUpsert(old(db.users), adminId, hashedPassword).Some?
    ensures !ok ==> db.users == old(db.users) && db.reservations == old(db.reservations)
    ensures ok ==>
      && db.users == AdminUpsert(old(db.users), adminId, hashedPassword).value
      && db.reservations == UpsertAll(old(db.reservations), SeedRows())
  {
    if IndexOfUsername(db.users, "admin").None? {
      ok := db.CreateUser(Setup.AdminRow(adminId, hashedPassword));
      if !ok {
        return;
      }
    }
    ok := true;
    UpsertReservations(db, SeedRows());
  }
}
