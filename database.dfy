/**
 * The persistence layer the handlers share: the `reservation` and `user` tables,
 * each a sequence of rows in insertion order. `create` fails (the handlers' catch
 * blocks then answer 500) when a key is already taken.
 */
module Database {
  import opened Records

  class Database {
    var reservations: seq<Reservation>
    var users: seq<User>

    /** The tables' unique keys hold. */
    ghost predicate Valid()
      reads this
    {
      UniqueIds(reservations) && UniqueUsers(users)
    }

    /** An empty database. */
    constructor ()
      ensures Valid() && reservations == [] && users == []
    {
      reservations := [];
      users := [];
    }

    /** `prisma.reservation.create`: appends the row unless its id is taken. */
    method CreateReservation(r: Reservation) returns (ok: bool)
      requires Valid()
      modifies this
      ensures Valid()
      ensures ok == !IdTaken(old(reservations), r.id)
      ensures reservations == if ok then old(reservations) + [r] else old(reservations)
      ensures users == old(users)
    {
      ok := !IdTaken(reservations, r.id);
      if ok {
        reservations := reservations + [r];
      }
    }

    /** `prisma.user.create`: appends the row unless its id or its username is taken. */
    method CreateUser(u: User) returns (ok: bool)
      requires Valid()
      modifies this
      ensures Valid()
      ensures ok == (IndexOfUserId(old(users), u.id).None? && IndexOfUsername(old(users), u.username).None?)
      ensures users == if ok then old(users) + [u] else old(users)
      ensures reservations == old(reservations)
    {
      ok := IndexOfUserId(users, u.id).None? && IndexOfUsername(users, u.username).None?;
      if ok {
        users := users + [u];
      }
    }

    /** `prisma.user.delete` of the row at position `k`. */
    method DeleteUserAt(k: nat)
      requires Valid() && k < |users|
      modifies this
      ensures Valid()
      ensures users == RemoveAt(old(users), k)
      ensures reservations == old(reservations)
    {
      RemoveAtKeepsUniqueUsers(users, k);
      users := RemoveAt(users, k);
    }
  }
}
