/**
 * The `/api/admin/delete-user` route: DELETE removes one account chosen by its id or,
 * when no id is given, by its username; GET removes the account with the given
 * username, "admin" by default. `prisma.user.delete` throws on a missing row, which
 * the handlers' catch blocks answer with 500.
 */
module DeleteUser {
  import opened Wrappers
  import opened Records
  import opened Database

  /** The `where` clause of the delete. */
  datatype Key = ById(id: string) | ByUsername(username: string)

  /** The row a key names. */
  predicate Matches(u: User, key: Key)
  {
    match key
    case ById(id) => u.id == id
    case ByUsername(name) => u.username == name
  }

  /**
   * `userId ? { id: userId } : { username: username! }`, behind the guard
   * `!userId && !username`: the id wins whenever it is a non-empty string.
   */
  function DeleteTarget(id: Option<string>, username: Option<string>): (k: Option<Key>)
    ensures k.None? <==> !Present(id) && !Present(username)
    ensures k.Some? && k.value.ById? <==> Present(id)
    ensures k.Some? ==> (if k.value.ById? then k.value.id == id.value else k.value.username == username.value)
  {
    if Present(id) then Some(ById(id.value))
    else if Present(username) then Some(ByUsername(username.value))
    else None
  }

  /** Once an id is given, the username parameter plays no part in the choice of row. */
  lemma IdOverridesUsername(id: Option<string>, u1: Option<string>, u2: Option<string>)
    requires Present(id)
    ensures DeleteTarget(id, u1) == DeleteTarget(id, u2) == Some(ById(id.value))
  {
  }

  /** The position of the row a key names, if any. */
  function Locate(us: seq<User>, key: Key): (r: Option<nat>)
    ensures r.Some? ==> r.value < |us| && Matches(us[r.value], key)
    ensures r.None? <==> forall i :: 0 <= i < |us| ==> !Matches(us[i], key)
  {
    match key
    case ById(id) => IndexOfUserId(us, id)
    case ByUsername(name) => IndexOfUsername(us, name)
  }

  /** In a table with unique keys, the row a key names is the only one it names. */
  lemma {:induction false} OnlyMatch(us: seq<User>, key: Key, k: nat)
    requires UniqueUsers(us) && k < |us| && Matches(us[k], key)
    ensures forall i :: 0 <= i < |RemoveAt(us, k)| ==> !Matches(RemoveAt(us, k)[i], key)
  {
    var r := RemoveAt(us, k);
    forall i | 0 <= i < |r| ensures !Matches(r[i], key) {
      if i < k {
        assert r[i] == us[i];
        assert us[i].id != us[k].id && us[i].username != us[k].username;
      } else {
        assert r[i] == us[i + 1];
        assert us[k].id != us[i + 1].id && us[k].username != us[i + 1].username;
      }
    }
  }

  const IdOrUsernameRequired := ApiResponse(400, false, "ID ou username requis")
  const DeleteFailed := ApiResponse(500, false, "Erreur lors de la suppression")
  const UserNotFound := ApiResponse(500, false, "Utilisateur non trouvé ou erreur")

  /** The success answer, naming the deleted row's username. */
  function Deleted(username: string): (r: ApiResponse)
    ensures r.status == 200 && r.success
  {
    ApiResponse(200, true, "Utilisateur " + username + " supprimé avec succès")
  }

  /** The username GET deletes: the query parameter, or "admin" when it is missing or empty. */
  function GetUsername(username: Option<string>): (name: string)
    ensures name != []
    ensures Present(username) ==> name == username.value
  {
    if Present(username) then username.value else "admin"
  }

  /** Removes the row `key` names and answers Deleted, or answers `failure` when no row matches. */
  method DeleteByKey(db: Database, key: Key, failure: ApiResponse) returns (resp: ApiResponse)
    requires db.Valid() && !failure.success
    modifies db
    ensures db.Valid() && db.reservations == old(db.reservations)
    ensures match Locate(old(db.users), key)
      case None => resp == failure && db.users == old(db.users)
      case Some(k) => resp == Deleted(old(db.users)[k].username) && db.users == RemoveAt(old(db.users), k)
    ensures resp.success ==> |db.users| == |old(db.users)| - 1
    ensures forall i :: 0 <= i < |db.users| ==> !Matches(db.users[i], key)
  {
    match Locate(db.users, key)
    case None =>
      resp := failure;
    case Some(k) =>
      var removed := db.users[k];
      OnlyMatch(db.users, key, k);
      db.DeleteUserAt(k);
      resp := Deleted(removed.username);
  }

  /**
   * `DELETE`: 400 without an id or a username, changing nothing; otherwise the
   * row chosen by DeleteTarget is removed (200), or 500 when there is none.
   */
  method Delete(db: Database, id: Option<string>, username: Option<string>) returns (resp: ApiResponse)
    requires db.Valid()
    modifies db
    ensures db.Valid() && db.reservations == old(db.reservations)
    ensures !Present(id) && !Present(username) ==> resp == IdOrUsernameRequired && db.users == old(db.users)
    ensures DeleteTarget(id, username).Some? ==>
      var key := DeleteTarget(id, username).value;
      match Locate(old(db.users), key)
      case None => resp == DeleteFailed && db.users == old(db.users)
      case Some(k) => resp == Deleted(old(db.users)[k].username) && db.users == RemoveAt(old(db.users), k)
    ensures DeleteTarget(id, username).Some? ==>
      forall i :: 0 <= i < |db.users| ==> !Matches(db.users[i], DeleteTarget(id, username).value)
  {
    var target := DeleteTarget(id, username);
    if target.None? {
      return IdOrUsernameRequired;
    }
    resp := DeleteByKey(db, target.value, DeleteFailed);
  }

  /** `GET`: removes the row with the username GetUsername gives (200), or 500 when there is none. */
  method Get(db: Database, username: Option<string>) returns (resp: ApiResponse)
    requires db.Valid()
    modifies db
    ensures db.Valid() && db.reservations == old(db.reservations)
    ensures match IndexOfUsername(old(db.users), GetUsername(username))
      case None => resp == UserNotFound && db.users == old(db.users)
      case Some(k) => resp == Deleted(old(db.users)[k].username) && db.users == RemoveAt(old(db.users), k)
    ensures forall i :: 0 <= i < |db.users| ==> db.users[i].username != GetUsername(username)
  {
    resp := DeleteByKey(db, ByUsername(GetUsername(username)), UserNotFound);
  }
}
