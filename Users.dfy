/** src/users/users.service.ts: the user store, with duplicate-email
    rejection, field-merge edits and soft deletion. */
module Users {
  import opened Common
  import opened Entities
  import opened Strings

  /** The fields an edit request may carry; None leaves the field as it is
      (Object.assign copies only the properties present in `data`). */
  datatype UserPatch = UserPatch(
    email: Option<string>,
    password: Option<string>,
    login: Option<string>,
    roles: Option<Role>,
    confirmed: Option<bool>)

  const NoChanges: UserPatch := UserPatch(None, None, None, None, None)

  function Pick<T>(given: Option<T>, current: T): T
  {
    if given.Some? then given.value else current
  }

  /** Object.assign(user, data): each field present in `data` overwrites the
      user's, every other field keeps its value. */
  function ApplyPatch(u: UserRecord, data: UserPatch): (r: UserRecord)
    ensures r.id == u.id && r.deletedAt == u.deletedAt
    ensures data.email.None? ==> r.email == u.email
    ensures data.password.None? ==> r.password == u.password
    ensures data.login.None? ==> r.login == u.login
    ensures data.roles.None? ==> r.roles == u.roles
    ensures data.confirmed.None? ==> r.confirmed == u.confirmed
  {
    u.(email := Pick(data.email, u.email),
       password := Pick(data.password, u.password),
       login := if data.login.Some? then data.login else u.login,
       roles := Pick(data.roles, u.roles),
       confirmed := Pick(data.confirmed, u.confirmed))
  }

  /** An edit without fields changes nothing; applying the same edit twice is
      the same as applying it once. */
  lemma ApplyPatchLaws(u: UserRecord, data: UserPatch)
    ensures ApplyPatch(u, NoChanges) == u
    ensures ApplyPatch(ApplyPatch(u, data), data) == ApplyPatch(u, data)
    ensures data.email.Some? ==> ApplyPatch(u, data).email == data.email.value
    ensures data.password.Some? ==> ApplyPatch(u, data).password == data.password.value
  {
  }

  /** The `where` clauses the services pass to findOne. */
  datatype UserQuery = ById(id: Id) | ByEmail(email: string)

  predicate Matches(u: UserRecord, q: UserQuery)
  {
    match q
    case ById(id) => u.id == id
    case ByEmail(email) => u.email == email
  }

  /** A user row as create() builds it: role USER and not confirmed by default. */
  function NewUser(id: Id, email: string, password: string): UserRecord
  {
    UserRecord(id, email, password, None, UserRole, false, None)
  }

  /** The users table after every row with id `id` is marked confirmed. */
  function Confirmed(rows: map<Id, UserRecord>, id: Id): (r: map<Id, UserRecord>)
    ensures r.Keys == rows.Keys
    ensures forall k :: k in r && rows[k].id == id ==> r[k].confirmed
    ensures forall k :: k in r && rows[k].id != id ==> r[k] == rows[k]
  {
    map k | k in rows :: if rows[k].id == id then rows[k].(confirmed := true) else rows[k]
  }

  ghost predicate HasLive(rows: map<Id, UserRecord>, q: UserQuery)
  {
    exists k :: k in rows && Live(rows[k]) && Matches(rows[k], q)
  }

  /** `u`'s id is the greatest among the live rows matching `q`: `u` is the
      row an `order: { id: 'desc' }` query puts first (a uuid's canonical
      text sorts as its bytes do). */
  ghost predicate LatestMatch(rows: map<Id, UserRecord>, q: UserQuery, u: UserRecord)
  {
    forall k :: k in rows && Live(rows[k]) && Matches(rows[k], q) ==> LexAtMost(rows[k].id, u.id)
  }

  class UsersService {
    const userRepository: Repository<UserRecord>

    constructor (repository: Repository<UserRecord>)
      ensures userRepository == repository
    {
      userRepository := repository;
    }

    /** findOne(where): the live matching row with the greatest id, or
        undefined. Soft-deleted rows are never found. */
    method FindOne(q: UserQuery) returns (r: Option<UserRecord>)
      ensures r.Some? ==> r.value in userRepository.rows.Values && Live(r.value) && Matches(r.value, q)
      ensures r.Some? ==> LatestMatch(userRepository.rows, q, r.value)
      ensures r.None? <==> !HasLive(userRepository.rows, q)
    {
      var rows := userRepository.rows;
      var ids := set k | k in rows && Live(rows[k]) && Matches(rows[k], q) :: rows[k].id;
      if ids == {} {
        assert forall k :: k in rows && Live(rows[k]) && Matches(rows[k], q) ==> rows[k].id in ids;
        return None;
      }
      LexMaxExists(ids);
      var greatest :| greatest in ids && forall x :: x in ids ==> LexAtMost(x, greatest);
      var k :| k in rows && Live(rows[k]) && Matches(rows[k], q) && rows[k].id == greatest;
      r := Some(rows[k]);
    }

    /** findById: findOneOrFail, which throws when no live user has the id. */
    method FindById(id: Id) returns (r: Result<UserRecord>)
      ensures r.Err? <==> !HasLive(userRepository.rows, ById(id))
      ensures r.Err? ==> r.error == EntityNotFound
      ensures r.Ok? ==> r.value in userRepository.rows.Values && Live(r.value) && r.value.id == id
    {
      var found := FindOne(ById(id));
      if found.Some? {
        r := Ok(found.value);
      } else {
        r := Err(EntityNotFound);
      }
    }

    /** findByEmail: the live user with that email, or null. */
    method FindByEmail(email: string) returns (r: Option<UserRecord>)
      ensures r.Some? ==> r.value in userRepository.rows.Values && Live(r.value) && r.value.email == email
      ensures r.None? <==> !HasLive(userRepository.rows, ByEmail(email))
    {
      r := FindOne(ByEmail(email));
    }

    /** create: rejects an email a live user already has; otherwise adds
        exactly one row, under the fresh id the database assigns. */
    method Create(email: string, password: string, freshId: Id) returns (r: Result<UserRecord>)
      requires freshId !in userRepository.rows
      modifies userRepository
      ensures HasLive(old(userRepository.rows), ByEmail(email)) ==>
                r == Err(BadRequest("User already exists")) && userRepository.rows == old(userRepository.rows)
      ensures !HasLive(old(userRepository.rows), ByEmail(email)) ==>
                r == Ok(NewUser(freshId, email, password)) &&
                userRepository.rows == old(userRepository.rows)[freshId := r.value]
      ensures UniqueLiveEmails(old(userRepository.rows)) ==> UniqueLiveEmails(userRepository.rows)
      ensures UserRowsKeyed(old(userRepository.rows)) ==> UserRowsKeyed(userRepository.rows)
    {
      var userInDb := FindOne(ByEmail(email));
      if userInDb.Some? {
        return Err(BadRequest("User already exists"));
      }
      var user := NewUser(freshId, email, password);
      userRepository.rows := userRepository.rows[freshId := user];
      r := Ok(user);
    }

    /** editUser: Object.assign on the fetched row, then save. A missing user
        makes Object.assign throw; a failed save is swallowed and the method
        returns undefined. */
    method EditUser(id: Id, data: UserPatch, storageFault: Option<string>) returns (r: Result<Option<UserRecord>>)
      modifies userRepository
      ensures !HasLive(old(userRepository.rows), ById(id)) ==>
                r == Err(TypeError("Cannot convert undefined or null to object")) &&
                userRepository.rows == old(userRepository.rows)
      ensures HasLive(old(userRepository.rows), ById(id)) && storageFault.Some? ==>
                r == Ok(None) && userRepository.rows == old(userRepository.rows)
      ensures HasLive(old(userRepository.rows), ById(id)) && storageFault.None? ==>
                exists k :: k in old(userRepository.rows) && Live(old(userRepository.rows)[k]) &&
                  old(userRepository.rows)[k].id == id &&
                  r == Ok(Some(ApplyPatch(old(userRepository.rows)[k], data))) &&
                  userRepository.rows == old(userRepository.rows)[k := ApplyPatch(old(userRepository.rows)[k], data)]
    {
      var rows := userRepository.rows;
      if !(exists k :: k in rows && Live(rows[k]) && Matches(rows[k], ById(id))) {
        return Err(TypeError("Cannot convert undefined or null to object"));
      }
      var k :| k in rows && Live(rows[k]) && Matches(rows[k], ById(id));
      var updated := ApplyPatch(rows[k], data);
      if storageFault.Some? {
        return Ok(None);
      }
      userRepository.rows := rows[k := updated];
      r := Ok(Some(updated));
    }

    /** removeUser: softDelete({id}) stamps deletedAt on the live rows with
        that id; no row leaves the table. */
    method RemoveUser(id: Id, now: Millis)
      modifies userRepository
      ensures userRepository.rows.Keys == old(userRepository.rows.Keys)
      ensures forall k :: k in userRepository.rows ==>
                userRepository.rows[k] ==
                  if old(userRepository.rows)[k].id == id && Live(old(userRepository.rows)[k])
                  then old(userRepository.rows)[k].(deletedAt := Some(now))
                  else old(userRepository.rows)[k]
      ensures !HasLive(userRepository.rows, ById(id))
    {
      var rows := userRepository.rows;
      userRepository.rows := map k | k in rows ::
        if rows[k].id == id && Live(rows[k]) then rows[k].(deletedAt := Some(now)) else rows[k];
    }

    /** The `updateUserFiled(id, {confirmed: true})` the verification
        services call: every row with that id becomes confirmed. */
    method MarkConfirmed(id: Id)
      modifies userRepository
      ensures userRepository.rows == Confirmed(old(userRepository.rows), id)
    {
      userRepository.rows := Confirmed(userRepository.rows, id);
    }
  }

  /** After removeUser(id), findById(id) fails: the row is still there but
      soft-deleted. */
  method RemovedUserIsNotFound(service: UsersService, id: Id, now: Millis) returns (r: Result<UserRecord>)
    modifies service.userRepository
    ensures r == Err(EntityNotFound)
    ensures service.userRepository.rows.Keys == old(service.userRepository.rows.Keys)
  {
    service.RemoveUser(id, now);
    r := service.FindById(id);
  }
}
