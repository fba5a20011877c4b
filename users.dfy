/** The user projection service: the only way other services read or write
    users, and the one place that removes password digests from what it returns. */
module Users {
  import opened Common
  import opened Store

  /** A user without its password field. */
  datatype SafeUser = SafeUser(id: Id, name: string, email: string, role: Role,
                               createdAt: nat, updatedAt: nat)

  /** Removes the password field and keeps every other field as it is. */
  function StripPassword(u: User): (s: SafeUser)
    ensures s.id == u.id && s.name == u.name && s.email == u.email && s.role == u.role
    ensures s.createdAt == u.createdAt && s.updatedAt == u.updatedAt
  {
    SafeUser(u.id, u.name, u.email, u.role, u.createdAt, u.updatedAt)
  }

  /** The projection forgets the password and nothing else: two users have the
      same projection exactly when they differ at most in their password. */
  lemma StripPasswordForgetsOnlyPassword(u: User, v: User)
    ensures StripPassword(u) == StripPassword(v) <==> u == v.(password := u.password)
  {
  }

  /** `users.map(u => stripPassword(u))`: every user stripped, in order. */
  function StripAll(users: seq<User>): (r: seq<SafeUser>)
    ensures |r| == |users|
    ensures forall i :: 0 <= i < |r| ==> r[i] == StripPassword(users[i])
  {
    if users == [] then [] else [StripPassword(users[0])] + StripAll(users[1..])
  }

  /** Stripping a newest-first listing of a table keeps its order and yields
      the projection of every record. */
  lemma StripListing(order: seq<Id>, users: map<Id, User>, rows: seq<User>)
    requires |rows| == |order|
    requires forall i :: 0 <= i < |rows| ==> order[i] in users && rows[i] == users[order[i]]
    requires forall u :: u in users.Values <==> u in rows
    requires forall i, j :: 0 <= i < j < |rows| ==> rows[i].createdAt >= rows[j].createdAt
    ensures forall i :: 0 <= i < |rows| ==> StripAll(rows)[i] == StripPassword(users[order[i]])
    ensures forall u :: u in users.Values ==> StripPassword(u) in StripAll(rows)
    ensures forall i, j :: 0 <= i < j < |rows| ==> StripAll(rows)[i].createdAt >= StripAll(rows)[j].createdAt
  {
  }

  class UsersService {
    const db: Database

    constructor (db: Database)
      ensures this.db == db
    {
      this.db := db;
    }

    /** Inserts a user and returns it stripped; store errors (a duplicated id
        or email) propagate untranslated. */
    method CreateUser(data: UserData, newId: Id, now: nat) returns (r: Result<SafeUser, StoreError>)
      requires db.Valid()
      modifies db
      ensures db.Valid() && db.customers == old(db.customers) && db.tasks == old(db.tasks)
      ensures old(db.UserClash(newId, data.email)).Some? ==>
        && r == Err(StoreError(UniqueViolation, [old(db.UserClash(newId, data.email)).value]))
        && db.users == old(db.users)
      ensures old(db.UserClash(newId, data.email)).None? ==>
        var u := User(newId, data.name, data.email, data.password, data.role, now, now);
        && db.users == old(db.users)[newId := u]
        && |db.users| == |old(db.users)| + 1
        && r == Ok(StripPassword(u))
    {
      var created := db.CreateUser(data, newId, now);
      match created
      case Err(e) => r := Err(e);
      case Ok(u) => r := Ok(StripPassword(u));
    }

    /** The stored user (password included) whose email is `email`. */
    function FindByEmail(email: string): (r: Option<User>)
      reads db
      requires db.Valid()
      ensures r.None? <==> forall k :: k in db.users ==> db.users[k].email != email
      ensures r.Some? ==> r.value.id in db.users && db.users[r.value.id] == r.value && r.value.email == email
    {
      if exists k :: k in db.users && db.users[k].email == email then
        var k :| k in db.users && db.users[k].email == email;
        Some(db.users[k])
      else
        None
    }

    /** The user stored under `id`, stripped, or nothing. */
    function FindById(id: Id): (r: Option<SafeUser>)
      reads db
      requires db.Valid()
      ensures r.None? <==> id !in db.users
      ensures r.Some? ==> r.value == StripPassword(db.users[id]) && r.value.id == id
    {
      if id in db.users then Some(StripPassword(db.users[id])) else None
    }

    /** Every user, stripped, newest first. */
    method FindAll() returns (r: seq<SafeUser>, ghost order: seq<Id>)
      requires db.Valid()
      ensures ListsNewestFirst(order, UserTimes(db.users))
      ensures |r| == |order| == |db.users|
      ensures forall i :: 0 <= i < |r| ==> r[i] == StripPassword(db.users[order[i]])
      ensures forall u :: u in db.users.Values ==> StripPassword(u) in r
      ensures forall i, j :: 0 <= i < j < |r| ==> r[i].createdAt >= r[j].createdAt
    {
      var rows;
      rows, order := db.ListUsers();
      r := StripAll(rows);
      StripListing(order, db.users, rows);
    }

    /** Sets the role of user `id` and returns it stripped; a missing id is the
        store's untranslated record-not-found error. */
    method UpdateUserRole(id: Id, role: Role, now: nat) returns (r: Result<SafeUser, StoreError>)
      requires db.Valid()
      modifies db
      ensures db.Valid() && db.customers == old(db.customers) && db.tasks == old(db.tasks)
      ensures id !in old(db.users) ==> r == Err(StoreError(RecordNotFound, [])) && db.users == old(db.users)
      ensures id in old(db.users) ==>
        var u := old(db.users)[id].(role := role, updatedAt := now);
        && db.users == old(db.users)[id := u]
        && r == Ok(StripPassword(u))
    {
      var updated := db.UpdateUserRole(id, role, now);
      match updated
      case Err(e) => r := Err(e);
      case Ok(u) => r := Ok(StripPassword(u));
    }
  }
}
