/** The records the persistence layer holds, and the reading of the tables the handlers do. */
module Records {
  import opened Wrappers
  import opened DateRange

  /** A stored reservation; `statut` is not kept, since the schema that defaults it is not part of this model. */
  datatype Reservation = Reservation(
    id: string,
    nom: string,
    email: string,
    telephone: string,
    dateDebut: Day,
    dateFin: Day,
    commentaire: string)

  /** A stored account: `password` holds the bcrypt hash. */
  datatype User = User(id: string, username: string, password: string, email: string, role: string)

  /** What a route handler answers: the HTTP status and the JSON `success` and `message` fields. */
  datatype ApiResponse = ApiResponse(status: int, success: bool, message: string)

  /** A date field of a JSON body: missing or empty, text the date parser cannot read, or a day. */
  datatype DateText = NoDate | Unparseable | OnDay(day: Day)

  /** The stay spans at least one night. */
  predicate WellFormed(r: Reservation)
  {
    r.dateDebut < r.dateFin
  }

  /** Every stored stay spans at least one night. */
  predicate AllWellFormed(rs: seq<Reservation>)
  {
    forall i :: 0 <= i < |rs| ==> WellFormed(rs[i])
  }

  /** No two stored reservations conflict under the lodging rule. */
  ghost predicate ConflictFree(rs: seq<Reservation>)
  {
    forall i, j :: 0 <= i < |rs| && 0 <= j < |rs| && i != j ==>
      !Conflicts(rs[i].dateDebut, rs[i].dateFin, rs[j].dateDebut, rs[j].dateFin)
  }

  /** The reservation table's primary key: ids are pairwise distinct. */
  ghost predicate UniqueIds(rs: seq<Reservation>)
  {
    forall i, j :: 0 <= i < j < |rs| ==> rs[i].id != rs[j].id
  }

  /** The user table's keys: ids and usernames are each pairwise distinct. */
  ghost predicate UniqueUsers(us: seq<User>)
  {
    forall i, j :: 0 <= i < j < |us| ==> us[i].id != us[j].id && us[i].username != us[j].username
  }

  /** Some stored reservation already has this id. */
  function IdTaken(rs: seq<Reservation>, id: string): (r: bool)
    ensures r <==> exists i :: 0 <= i < |rs| && rs[i].id == id
  {
    if rs == [] then false else rs[0].id == id || IdTaken(rs[1..], id)
  }

  /** `findUnique({ where: { <field>: value } })`: the position of the first user whose `field` is `value`. */
  function IndexOfKey(us: seq<User>, field: User -> string, value: string): (r: Option<nat>)
    ensures r.Some? ==> r.value < |us| && field(us[r.value]) == value
    ensures r.None? <==> forall i :: 0 <= i < |us| ==> field(us[i]) != value
  {
    if us == [] then None
    else if field(us[0]) == value then Some(0)
    else match IndexOfKey(us[1..], field, value)
      case None => None
      case Some(k) => Some(k + 1)
  }

  /** The position of the user with this username. */
  function IndexOfUsername(us: seq<User>, username: string): (r: Option<nat>)
    ensures r.Some? ==> r.value < |us| && us[r.value].username == username
    ensures r.None? <==> forall i :: 0 <= i < |us| ==> us[i].username != username
  {
    IndexOfKey(us, (u: User) => u.username, username)
  }

  /** The position of the user with this id. */
  function IndexOfUserId(us: seq<User>, id: string): (r: Option<nat>)
    ensures r.Some? ==> r.value < |us| && us[r.value].id == id
    ensures r.None? <==> forall i :: 0 <= i < |us| ==> us[i].id != id
  {
    IndexOfKey(us, (u: User) => u.id, id)
  }

  /** Looking a user up by username. */
  function FindUserByUsername(us: seq<User>, username: string): (r: Option<User>)
    ensures r.Some? ==> r.value in us && r.value.username == username
    ensures r.None? <==> forall i :: 0 <= i < |us| ==> us[i].username != username
  {
    match IndexOfUsername(us, username)
    case None => None
    case Some(k) => Some(us[k])
  }

  /** The table without the row at position `k`. */
  function RemoveAt<T>(s: seq<T>, k: nat): (r: seq<T>)
    requires k < |s|
    ensures |r| == |s| - 1
    ensures forall i :: 0 <= i < k ==> r[i] == s[i]
    ensures forall i :: k <= i < |r| ==> r[i] == s[i + 1]
  {
    s[..k] + s[k + 1..]
  }

  /** Adding a reservation that conflicts with no stored one keeps the table conflict-free. */
  lemma {:induction false} AppendKeepsConflictFree(rs: seq<Reservation>, r: Reservation)
    requires ConflictFree(rs)
    requires forall i :: 0 <= i < |rs| ==> !Conflicts(r.dateDebut, r.dateFin, rs[i].dateDebut, rs[i].dateFin)
    ensures ConflictFree(rs + [r])
  {
    var t := rs + [r];
    forall i, j | 0 <= i < |t| && 0 <= j < |t| && i != j
      ensures !Conflicts(t[i].dateDebut, t[i].dateFin, t[j].dateDebut, t[j].dateFin)
    {
      if i == |rs| {
        assert t[j] == rs[j];
      } else if j == |rs| {
        assert t[i] == rs[i];
        ConflictsSymmetric(r.dateDebut, r.dateFin, rs[i].dateDebut, rs[i].dateFin);
      } else {
        assert t[i] == rs[i] && t[j] == rs[j];
      }
    }
  }

  /** Removing a row keeps the remaining users unique. */
  lemma RemoveAtKeepsUniqueUsers(us: seq<User>, k: nat)
    requires k < |us| && UniqueUsers(us)
    ensures UniqueUsers(RemoveAt(us, k))
  {
    var r := RemoveAt(us, k);
    forall i, j | 0 <= i < j < |r| ensures r[i].id != r[j].id && r[i].username != r[j].username {
      var i' := if i < k then i else i + 1;
      var j' := if j < k then j else j + 1;
      assert r[i] == us[i'] && r[j] == us[j'];
    }
  }
}
