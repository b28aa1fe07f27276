/**
 * The user repository of `lib/actions/user.action.ts` over the collection
 * described by `lib/databse/models/user.model.ts`.
 *
 * The collection is first described as a value, `Table`, with one function
 * per operation (create, get, update, delete, credit increment); the class
 * `UserStore` then holds the same collection as fields that its methods
 * update in place, each method proved to do what its function says.
 */
module UserActions {
  import opened Wrappers

  /** One stored record; `internalId` is the store's own `_id`. */
  datatype User = User(
    internalId: nat,
    clerkId: string,
    email: string,
    username: string,
    firstName: string,
    lastName: string,
    photo: string,
    creditBalance: int)

  datatype CreateUserParams = CreateUserParams(
    clerkId: string,
    email: string,
    username: string,
    firstName: string,
    lastName: string,
    photo: string)

  /** A partial update; `None` is a field left `undefined` by the caller. */
  datatype UpdateUserParams = UpdateUserParams(
    firstName: Option<string>,
    lastName: Option<string>,
    username: Option<string>,
    photo: Option<string>)

  /** Why an operation threw; every one of them is rethrown by `handleError`. */
  datatype Failure =
    | ValidationError(path: string)  // a `required` string field is missing or empty
    | DuplicateKey(path: string)     // a `unique` field already holds that value
    | NotFound(message: string)      // no record matched the query

  /** The schema's default for `creditBalance`. */
  const DefaultCreditBalance: int := 10

  /** The collection: records by `clerkId`, the `_id` index, and the next fresh `_id`. */
  datatype Table = Table(users: map<string, User>, byId: map<nat, string>, nextId: nat)

  /** What an operation returns, or throws, together with the collection afterwards. */
  datatype Step = Step(result: Result<User, Failure>, table: Table)

  /**
   * Records are filed under their own `clerkId`, the `_id` index and the
   * records agree both ways, every `_id` is below the next fresh one, and no
   * two records share an email (the two unique indexes of the schema).
   */
  ghost predicate WellFormed(t: Table) {
    && (forall c :: c in t.users ==> t.users[c].clerkId == c)
    && (forall c :: c in t.users ==>
          t.users[c].internalId in t.byId && t.byId[t.users[c].internalId] == c)
    && (forall i :: i in t.byId ==> t.byId[i] in t.users && t.users[t.byId[i]].internalId == i)
    && (forall i :: i in t.byId ==> i < t.nextId)
    && (forall c, d :: c in t.users && d in t.users && c != d ==> t.users[c].email != t.users[d].email)
  }

  /** Some stored record already uses `email`. */
  predicate EmailTaken(t: Table, email: string) {
    exists c :: c in t.users && t.users[c].email == email
  }

  /** The first `required` string field, in schema order, that is empty. */
  function MissingRequired(p: CreateUserParams): (r: Option<string>)
    ensures r.None? <==> p.clerkId != "" && p.email != "" && p.username != "" && p.firstName != ""
  {
    if p.clerkId == "" then Some("clerkId")
    else if p.email == "" then Some("email")
    else if p.username == "" then Some("username")
    else if p.firstName == "" then Some("firstName")
    else None
  }

  // ---------------------------------------------------------------------
  // The operations, as functions of the collection
  // ---------------------------------------------------------------------

  /**
   * `createUser`: validation of the required fields, then the two unique
   * indexes, then the insert of a record with a fresh `_id` and the default
   * balance.
   */
  function Create(t: Table, p: CreateUserParams): (s: Step)
    ensures s.result.Success? <==>
              MissingRequired(p).None? && p.clerkId !in t.users && !EmailTaken(t, p.email)
    ensures s.result.Failure? ==> s.table == t
    ensures s.result.Success? ==>
              var u := s.result.value;
              && u.clerkId == p.clerkId && u.email == p.email && u.username == p.username
              && u.firstName == p.firstName && u.lastName == p.lastName && u.photo == p.photo
              && u.creditBalance == DefaultCreditBalance
              && s.table.users == t.users[p.clerkId := u]
  {
    match MissingRequired(p)
    case Some(path) => Step(Failure(ValidationError(path)), t)
    case None =>
      if p.clerkId in t.users then Step(Failure(DuplicateKey("clerkId")), t)
      else if EmailTaken(t, p.email) then Step(Failure(DuplicateKey("email")), t)
      else
        var u := User(t.nextId, p.clerkId, p.email, p.username, p.firstName, p.lastName, p.photo,
                      DefaultCreditBalance);
        Step(Success(u), Table(t.users[p.clerkId := u], t.byId[t.nextId := p.clerkId], t.nextId + 1))
  }

  /** `getUserById`: the record with that `clerkId`, or "User not found". */
  function Get(t: Table, clerkId: string): (r: Result<User, Failure>)
    ensures r.Success? <==> clerkId in t.users
    ensures r.Success? ==> r.value == t.users[clerkId]
    ensures r.Failure? ==> r.error == NotFound("User not found")
  {
    if clerkId in t.users then Success(t.users[clerkId]) else Failure(NotFound("User not found"))
  }

  /** The entries of an update object, by field name. */
  function Entries(p: UpdateUserParams): map<string, Option<string>> {
    map["firstName" := p.firstName, "lastName" := p.lastName,
        "username" := p.username, "photo" := p.photo]
  }

  /** The entries of an update whose value is not `undefined`, by field name. */
  function DefinedFields(p: UpdateUserParams): (m: map<string, string>)
    ensures m.Keys <= {"firstName", "lastName", "username", "photo"}
    ensures ("firstName" in m <==> p.firstName.Some?) && ("lastName" in m <==> p.lastName.Some?)
    ensures ("username" in m <==> p.username.Some?) && ("photo" in m <==> p.photo.Some?)
    ensures p.firstName.Some? ==> m["firstName"] == p.firstName.value
    ensures p.lastName.Some? ==> m["lastName"] == p.lastName.value
    ensures p.username.Some? ==> m["username"] == p.username.value
    ensures p.photo.Some? ==> m["photo"] == p.photo.value
  {
    var entries := Entries(p);
    map k | k in entries && entries[k].Some? :: entries[k].value
  }

  /** The record after the update document `data` is applied to it. */
  function ApplyUpdate(u: User, data: map<string, string>): User {
    u.(firstName := if "firstName" in data then data["firstName"] else u.firstName,
       lastName := if "lastName" in data then data["lastName"] else u.lastName,
       username := if "username" in data then data["username"] else u.username,
       photo := if "photo" in data then data["photo"] else u.photo)
  }

  /**
   * `updateUser`: a supplied field replaces the stored one, an `undefined`
   * field leaves it as it is; nothing else of the record, and no other
   * record, changes. An unknown `clerkId` throws and changes nothing.
   */
  function Update(t: Table, clerkId: string, p: UpdateUserParams): (s: Step)
    ensures clerkId !in t.users ==> s == Step(Failure(NotFound("User update failed")), t)
    ensures clerkId in t.users ==>
              var old_ := t.users[clerkId];
              && s.result.Success?
              && var u := s.result.value;
              && s.table == t.(users := t.users[clerkId := u])
              && u.firstName == p.firstName.GetOr(old_.firstName)
              && u.lastName == p.lastName.GetOr(old_.lastName)
              && u.username == p.username.GetOr(old_.username)
              && u.photo == p.photo.GetOr(old_.photo)
              && u.internalId == old_.internalId && u.clerkId == old_.clerkId
              && u.email == old_.email && u.creditBalance == old_.creditBalance
  {
    var updateData := DefinedFields(p);
    if clerkId in t.users then
      var u := ApplyUpdate(t.users[clerkId], updateData);
      Step(Success(u), t.(users := t.users[clerkId := u]))
    else
      Step(Failure(NotFound("User update failed")), t)
  }

  /**
   * `deleteUser`: the record is looked up by `clerkId`, removed by its
   * `_id`, and returned as it was; an unknown `clerkId` throws.
   */
  function Delete(t: Table, clerkId: string): (s: Step)
    ensures clerkId !in t.users ==> s == Step(Failure(NotFound("User not found")), t)
    ensures clerkId in t.users ==>
              && s.result == Success(t.users[clerkId])
              && s.table == Table(t.users - {clerkId}, t.byId - {t.users[clerkId].internalId}, t.nextId)
  {
    if clerkId in t.users then
      var userToDelete := t.users[clerkId];
      Step(Success(userToDelete),
           Table(t.users - {clerkId}, t.byId - {userToDelete.internalId}, t.nextId))
    else
      Step(Failure(NotFound("User not found")), t)
  }

  /** The `clerkId` an `_id` resolves to, when it resolves to a stored record. */
  predicate Resolves(t: Table, userId: nat) {
    userId in t.byId && t.byId[userId] in t.users
  }

  /**
   * `updateCredits`: adds `creditFee`, of either sign and with no floor, to
   * the balance of the record with that `_id`; an unknown `_id` throws.
   */
  function AddCredits(t: Table, userId: nat, creditFee: int): (s: Step)
    ensures !Resolves(t, userId) ==> s == Step(Failure(NotFound("Failed to update user credits")), t)
    ensures Resolves(t, userId) ==>
              var c := t.byId[userId];
              && s.result == Success(t.users[c].(creditBalance := t.users[c].creditBalance + creditFee))
              && s.table == t.(users := t.users[c := s.result.value])
  {
    if Resolves(t, userId) then
      var c := t.byId[userId];
      var u := t.users[c].(creditBalance := t.users[c].creditBalance + creditFee);
      Step(Success(u), t.(users := t.users[c := u]))
    else
      Step(Failure(NotFound("Failed to update user credits")), t)
  }

  // ---------------------------------------------------------------------
  // Properties of the operations
  // ---------------------------------------------------------------------

  /** The empty collection is well formed. */
  lemma EmptyWellFormed()
    ensures WellFormed(Table(map[], map[], 0))
  {
  }

  /**
   * A successful create keeps the collection well formed and adds exactly
   * one record, under its own `clerkId`, with a balance of 10.
   */
  lemma CreateAddsOne(t: Table, p: CreateUserParams)
    requires WellFormed(t)
    ensures var s := Create(t, p);
              && WellFormed(s.table)
              && (s.result.Success? ==>
                    && s.table.users.Keys == t.users.Keys + {p.clerkId}
                    && |s.table.users| == |t.users| + 1
                    && s.result.value.creditBalance == DefaultCreditBalance
                    && Get(s.table, p.clerkId) == s.result)
  {
    var s := Create(t, p);
    if s.result.Success? {
      InsertWellFormed(t, s.result.value);
    }
  }

  /** Inserting a record with a fresh `clerkId`, a fresh email and the next `_id` keeps the collection well formed. */
  lemma InsertWellFormed(t: Table, u: User)
    requires WellFormed(t)
    requires u.clerkId !in t.users && !EmailTaken(t, u.email) && u.internalId == t.nextId
    ensures WellFormed(Table(t.users[u.clerkId := u], t.byId[t.nextId := u.clerkId], t.nextId + 1))
  {
    var t' := Table(t.users[u.clerkId := u], t.byId[t.nextId := u.clerkId], t.nextId + 1);
    assert t.nextId !in t.byId;
    forall c | c in t'.users
      ensures t'.users[c].internalId in t'.byId && t'.byId[t'.users[c].internalId] == c
    {
      if c != u.clerkId {
        assert t'.users[c] == t.users[c];
        assert t.users[c].internalId != t.nextId;
      }
    }
    forall i | i in t'.byId
      ensures t'.byId[i] in t'.users && t'.users[t'.byId[i]].internalId == i
    {
      if i != t.nextId {
        assert t'.byId[i] == t.byId[i] != u.clerkId;
      }
    }
    forall c, d | c in t'.users && d in t'.users && c != d
      ensures t'.users[c].email != t'.users[d].email
    {
      if c != u.clerkId && d != u.clerkId {
        assert t'.users[c] == t.users[c] && t'.users[d] == t.users[d];
      } else if c == u.clerkId {
        assert t'.users[d] == t.users[d];
      } else {
        assert t'.users[c] == t.users[c];
      }
    }
  }

  /** A `clerkId` or an email that is already stored makes create throw and change nothing. */
  lemma CreateDuplicateThrows(t: Table, p: CreateUserParams)
    requires p.clerkId in t.users || EmailTaken(t, p.email)
    ensures Create(t, p).result.Failure?
    ensures Create(t, p).table == t
  {
  }

  /** In a well-formed collection, the record found is the one with the asked `clerkId`. */
  lemma GetMatchesId(t: Table, clerkId: string)
    requires WellFormed(t)
    ensures Get(t, clerkId).Success? ==> Get(t, clerkId).value.clerkId == clerkId
  {
  }

  /** Update keeps the collection well formed, and every other record untouched. */
  lemma UpdateKeepsOthers(t: Table, clerkId: string, p: UpdateUserParams)
    requires WellFormed(t)
    ensures var s := Update(t, clerkId, p);
              && WellFormed(s.table)
              && s.table.users.Keys == t.users.Keys
              && (forall c :: c in t.users && c != clerkId ==> s.table.users[c] == t.users[c])
  {
    var s := Update(t, clerkId, p);
    if clerkId in t.users {
      var t' := s.table;
      forall c, d | c in t'.users && d in t'.users && c != d
        ensures t'.users[c].email != t'.users[d].email
      {
        assert t'.users[c].email == t.users[c].email;
        assert t'.users[d].email == t.users[d].email;
      }
    }
  }

  /** Applying the same update twice gives the same record and collection as applying it once. */
  lemma UpdateIdempotent(t: Table, clerkId: string, p: UpdateUserParams)
    ensures Update(Update(t, clerkId, p).table, clerkId, p) == Update(t, clerkId, p)
  {
    var once := Update(t, clerkId, p);
    if clerkId in t.users {
      var twice := Update(once.table, clerkId, p);
      assert twice.result.value == once.result.value;
      assert twice.table.users == once.table.users;
    }
  }

  /**
   * Delete keeps the collection well formed and removes exactly the one
   * record, both from the records and from the `_id` index.
   */
  lemma DeleteRemovesOne(t: Table, clerkId: string)
    requires WellFormed(t)
    ensures var s := Delete(t, clerkId);
              && WellFormed(s.table)
              && s.table.users.Keys == t.users.Keys - {clerkId}
              && (forall c :: c in s.table.users ==> s.table.users[c] == t.users[c])
              && (clerkId in t.users ==> Get(s.table, clerkId).Failure?)
  {
    var s := Delete(t, clerkId);
    if clerkId in t.users {
      var gone := t.users[clerkId].internalId;
      var t' := s.table;
      forall i | i in t'.byId
        ensures t'.byId[i] in t'.users && t'.users[t'.byId[i]].internalId == i
      {
        assert i != gone;
        assert t.byId[i] != clerkId;
      }
    }
  }

  /** A credit update keeps the collection well formed and changes nothing but one balance. */
  lemma UpdateCreditsKeepsOthers(t: Table, userId: nat, creditFee: int)
    requires WellFormed(t)
    ensures var s := AddCredits(t, userId, creditFee);
              && WellFormed(s.table)
              && s.table.users.Keys == t.users.Keys
              && (forall c :: c in t.users ==>
                    s.table.users[c] == t.users[c] ||
                    (s.result.Success? && c == t.byId[userId] &&
                     s.table.users[c] == t.users[c].(creditBalance := t.users[c].creditBalance + creditFee)))
  {
    var s := AddCredits(t, userId, creditFee);
    if Resolves(t, userId) {
      var t' := s.table;
      forall c, d | c in t'.users && d in t'.users && c != d
        ensures t'.users[c].email != t'.users[d].email
      {
        assert t'.users[c].email == t.users[c].email;
        assert t'.users[d].email == t.users[d].email;
      }
    }
  }

  /** Adding a fee and then its negation gives back the original collection. */
  lemma UpdateCreditsRoundTrip(t: Table, userId: nat, creditFee: int)
    requires WellFormed(t)
    ensures AddCredits(AddCredits(t, userId, creditFee).table, userId, -creditFee).table == t
  {
    if Resolves(t, userId) {
      var c := t.byId[userId];
      var t1 := AddCredits(t, userId, creditFee).table;
      assert Resolves(t1, userId);
      var t2 := AddCredits(t1, userId, -creditFee).table;
      assert t2.users[c] == t.users[c];
      assert t2.users == t.users;
    }
  }

  // ---------------------------------------------------------------------
  // The collection as mutable state
  // ---------------------------------------------------------------------

  /** The `User` collection, updated in place by the repository operations. */
  class UserStore {
    var users: map<string, User>
    var byId: map<nat, string>
    var nextId: nat

    /** The collection's current contents as a value. */
    function Snapshot(): Table
      reads this
    {
      Table(users, byId, nextId)
    }

    ghost predicate Valid()
      reads this
    {
      WellFormed(Snapshot())
    }

    constructor ()
      ensures Valid()
      ensures users == map[] && byId == map[] && nextId == 0
    {
      users, byId, nextId := map[], map[], 0;
      EmptyWellFormed();
    }

    method CreateUser(user: CreateUserParams) returns (r: Result<User, Failure>)
      requires Valid()
      modifies this
      ensures Valid()
      ensures Step(r, Snapshot()) == Create(old(Snapshot()), user)
    {
      CreateAddsOne(Snapshot(), user);
      if user.clerkId == "" {
        return Failure(ValidationError("clerkId"));
      }
      if user.email == "" {
        return Failure(ValidationError("email"));
      }
      if user.username == "" {
        return Failure(ValidationError("username"));
      }
      if user.firstName == "" {
        return Failure(ValidationError("firstName"));
      }
      if user.clerkId in users {
        return Failure(DuplicateKey("clerkId"));
      }
      if exists c :: c in users && users[c].email == user.email {
        return Failure(DuplicateKey("email"));
      }
      var newUser := User(nextId, user.clerkId, user.email, user.username,
                          user.firstName, user.lastName, user.photo, DefaultCreditBalance);
      users := users[user.clerkId := newUser];
      byId := byId[nextId := user.clerkId];
      nextId := nextId + 1;
      r := Success(newUser);
    }

    method GetUserById(userId: string) returns (r: Result<User, Failure>)
      ensures r == Get(Snapshot(), userId)
    {
      if userId !in users {
        return Failure(NotFound("User not found"));
      }
      r := Success(users[userId]);
    }

    method UpdateUser(clerkId: string, user: UpdateUserParams) returns (r: Result<User, Failure>)
      requires Valid()
      modifies this
      ensures Valid()
      ensures Step(r, Snapshot()) == Update(old(Snapshot()), clerkId, user)
    {
      UpdateKeepsOthers(Snapshot(), clerkId, user);
      var updateData := DefinedFields(user);
      if clerkId !in users {
        return Failure(NotFound("User update failed"));
      }
      var updatedUser := ApplyUpdate(users[clerkId], updateData);
      users := users[clerkId := updatedUser];
      r := Success(updatedUser);
    }

    method DeleteUser(clerkId: string) returns (r: Result<User, Failure>)
      requires Valid()
      modifies this
      ensures Valid()
      ensures Step(r, Snapshot()) == Delete(old(Snapshot()), clerkId)
    {
      DeleteRemovesOne(Snapshot(), clerkId);
      if clerkId !in users {
        return Failure(NotFound("User not found"));
      }
      var userToDelete := users[clerkId];
      users := users - {clerkId};
      byId := byId - {userToDelete.internalId};
      r := Success(userToDelete);
    }

    method UpdateCredits(userId: nat, creditFee: int) returns (r: Result<User, Failure>)
      requires Valid()
      modifies this
      ensures Valid()
      ensures Step(r, Snapshot()) == AddCredits(old(Snapshot()), userId, creditFee)
    {
      UpdateCreditsKeepsOthers(Snapshot(), userId, creditFee);
      if userId !in byId || byId[userId] !in users {
        return Failure(NotFound("Failed to update user credits"));
      }
      var c := byId[userId];
      var updatedUser := users[c].(creditBalance := users[c].creditBalance + creditFee);
      users := users[c := updatedUser];
      r := Success(updatedUser);
    }
  }
}
