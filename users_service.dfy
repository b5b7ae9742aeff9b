/** UsersService of src/users/users.service.ts: user accounts in the `User`
    table, with the email address unique. Password hashing happens before
    `create` is called; the hash is an opaque string here. */
module Users {
  import opened Common
  import opened Entities
  import opened Store
  import Ranking

  const USER_NOT_FOUND := "User not found"
  const USER_DELETED := "User deleted successfully"

  datatype CreateUserData = CreateUserData(email: string, password: string, name: string, role: Option<Role>)

  /** The row `create` inserts; a missing role means USER. */
  function NewUser(data: CreateUserData, id: string, now: int): (u: User)
    ensures u.role == if data.role.Some? then data.role.value else USER
    ensures u.id == id && u.email == data.email && u.password == data.password
  {
    User(id, data.email, data.password, data.name, data.role.GetOr(USER), now, now)
  }

  /** The creation times of all users, the key `findAll` sorts by. */
  function UserStamps(users: map<string, User>): (r: map<string, int>)
    ensures r.Keys == users.Keys
  {
    map id | id in users :: users[id].createdAt
  }

  class UsersService {
    const db: Database

    ghost predicate Valid()
      reads this, db
    {
      db.Valid()
    }

    constructor (db: Database)
      requires db.Valid()
      ensures Valid() && this.db == db
    {
      this.db := db;
    }

    /** `create`: inserts the user; the unique email index refuses an
        address already registered. `id` is the identifier the database
        assigns. */
    method Create(data: CreateUserData, id: string, now: int) returns (r: Result<UserView>)
      requires Valid() && id !in db.users
      modifies db
      ensures Valid()
      ensures db.orders == old(db.orders) && db.trackingIndex == old(db.trackingIndex)
      ensures data.email in old(db.emailIndex) ==>
        && r == Err(Conflict("email"))
        && db.users == old(db.users) && db.emailIndex == old(db.emailIndex)
      ensures data.email !in old(db.emailIndex) ==>
        && r == Ok(UserStandardView(NewUser(data, id, now)))
        && db.users == old(db.users)[id := NewUser(data, id, now)]
        && db.emailIndex == old(db.emailIndex)[data.email := id]
    {
      if data.email in db.emailIndex {
        r := Err(Conflict("email"));
        return;
      }
      var user := NewUser(data, id, now);
      db.users := db.users[id := user];
      db.emailIndex := db.emailIndex[data.email := id];
      r := Ok(UserStandardView(user));
    }

    /** `findByEmail`: the login view, password hash included, of the one
        user with that address; none when nobody has it. */
    method FindByEmail(email: string) returns (r: Option<UserAuth>)
      requires Valid()
      ensures r.Some? <==> exists id :: id in db.users && db.users[id].email == email
      ensures forall id :: id in db.users && db.users[id].email == email ==> r == Some(UserAuthView(db.users[id]))
    {
      UserWithEmailExact(db, email);
      var user := UserWithEmail(db.users, db.emailIndex, email);
      r := if user.Some? then Some(UserAuthView(user.value)) else None;
    }

    /** `findById`: the standard view of the user, none when missing. */
    method FindById(id: string) returns (r: Option<UserView>)
      requires Valid()
      ensures r.Some? <==> id in db.users
      ensures r.Some? ==> r.value == UserStandardView(db.users[id]) && r.value.id == id
    {
      r := if id in db.users then Some(UserStandardView(db.users[id])) else None;
    }

    /** `findAll`: every user, newest first. `ranked` is the order the
        database sorted the ids into. */
    method FindAll() returns (r: seq<UserView>, ghost ranked: seq<string>)
      requires Valid()
      ensures Ranking.IsNewestFirst(UserStamps(db.users), ranked)
      ensures |r| == |ranked| == |db.users|
      ensures forall i :: 0 <= i < |r| ==> ranked[i] in db.users && r[i] == UserStandardView(db.users[ranked[i]])
    {
      var users := db.users;
      var stamps := UserStamps(users);
      var ids := Ranking.NewestFirst(stamps);
      ranked := ids;
      assert |stamps| == |stamps.Keys|;
      r := seq(|ids|, i requires 0 <= i < |ids| => UserStandardView(users[ids[i]]));
    }

    /** `updateRole`: sets the role of an existing user. */
    method UpdateRole(id: string, role: Role, now: int) returns (r: Result<UserView>)
      requires Valid()
      modifies db
      ensures Valid()
      ensures db.orders == old(db.orders) && db.trackingIndex == old(db.trackingIndex) && db.emailIndex == old(db.emailIndex)
      ensures id !in old(db.users) ==> r == Err(NotFound(USER_NOT_FOUND)) && db.users == old(db.users)
      ensures id in old(db.users) ==>
        var updated := old(db.users)[id].(role := role, updatedAt := now);
        && r == Ok(UserStandardView(updated))
        && db.users == old(db.users)[id := updated]
    {
      if id !in db.users {
        r := Err(NotFound(USER_NOT_FOUND));
        return;
      }
      var updated := db.users[id].(role := role, updatedAt := now);
      db.users := db.users[id := updated];
      r := Ok(UserStandardView(updated));
    }

    /** `delete`: removes an existing user and frees the address. */
    method Delete(id: string) returns (r: Result<string>)
      requires Valid()
      modifies db
      ensures Valid()
      ensures db.orders == old(db.orders) && db.trackingIndex == old(db.trackingIndex)
      ensures id !in old(db.users) ==>
        r == Err(NotFound(USER_NOT_FOUND)) && db.users == old(db.users) && db.emailIndex == old(db.emailIndex)
      ensures id in old(db.users) ==>
        && r == Ok(USER_DELETED)
        && db.users == old(db.users) - {id}
        && db.emailIndex == old(db.emailIndex) - {old(db.users)[id].email}
    {
      if id !in db.users {
        r := Err(NotFound(USER_NOT_FOUND));
        return;
      }
      var email := db.users[id].email;
      db.users := db.users - {id};
      db.emailIndex := db.emailIndex - {email};
      r := Ok(USER_DELETED);
    }
  }
}
