/**
 * The user and ping tables of the server (server/api/models.py) as an
 * in-memory store: `UserManager.create_user` and `create_superuser`, the
 * field constraints the database enforces on a save (unique email and code
 * name, NOT NULL ping columns, foreign keys), and the delete semantics of the
 * two foreign keys of `Ping` (CASCADE from the owner, SET_NULL from the parent).
 *
 * Email normalisation and password validation are Django internals; they are
 * parameters here (`normalizeEmail`, `passwordAccepted`). Hashing is reduced to
 * remembering which raw password a hash was made from.
 */
module Models {
  import opened Wrappers

  /** A password as `AbstractBaseUser` stores it: not yet set, or hashed. */
  datatype PasswordHash = Unset | Hashed(from: string)

  /** `set_password`. */
  function MakePassword(raw: string): PasswordHash {
    Hashed(raw)
  }

  /** `check_password`: does the stored hash belong to `raw`? */
  predicate CheckPassword(hash: PasswordHash, raw: string) {
    hash.Hashed? && hash.from == raw
  }

  /** A row of the user table (models.py:33-69). */
  datatype User = User(
    email: string,
    name: string,
    codeName: string,
    password: PasswordHash,
    isActive: bool,
    isStaff: bool,
    isSuperuser: bool)

  /** The `**extra_fields` a caller may pass; None is a field not passed. */
  datatype ExtraFields = ExtraFields(
    name: Option<string>,
    codeName: Option<string>,
    isActive: Option<bool>,
    isStaff: Option<bool>,
    isSuperuser: Option<bool>)

  /** A row of the ping table (models.py:75-88). Coordinates are opaque payloads. */
  datatype PingRow = PingRow(
    user: int,
    latitude: real,
    longitude: real,
    timestamp: int,
    parentPing: Option<int>)

  /** The database constraint a failed save violates. */
  datatype Constraint = NotNull(column: string) | ForeignKey(column: string) | Unique(column: string)

  /** What `create_user`, `create_superuser` and `Ping.objects.create` raise. */
  datatype StoreError =
    | ValueError(message: string)
    | PasswordValidationError
    | IntegrityError(violated: Constraint)

  const EmailRequiredMessage := "The Email field must be set"
  const PasswordRequiredMessage := "The Password field must be set"

  /** Python truthiness of an optional string argument: `None` and `""` are falsy. */
  predicate Truthy(s: Option<string>) {
    s.Some? && s.value != ""
  }

  /** `dict.setdefault`: keep a value the caller passed, otherwise use the default. */
  function SetDefault<T>(field: Option<T>, default: T): Option<T> {
    if field.Some? then field else Some(default)
  }

  /**
   * `self.model(email=email, **extra_fields)`: an unsaved user with the model
   * defaults (models.py:37-62) for every field not passed, and no password yet.
   */
  function NewUser(email: string, extra: ExtraFields): User {
    User(email,
         extra.name.GetOr(""),
         extra.codeName.GetOr(""),
         Unset,
         extra.isActive.GetOr(true),
         extra.isStaff.GetOr(false),
         extra.isSuperuser.GetOr(false))
  }

  /** `create_superuser`'s two `setdefault` calls (models.py:27-28). */
  function SuperuserFields(extra: ExtraFields): ExtraFields {
    extra.(isStaff := SetDefault(extra.isStaff, true),
           isSuperuser := SetDefault(extra.isSuperuser, true))
  }

  /** No two users share an email or a code name (models.py:34-36, 48-60). */
  predicate UniqueUsers(users: map<int, User>) {
    forall a, b :: a in users && b in users && a != b ==>
      users[a].email != users[b].email && users[a].codeName != users[b].codeName
  }

  /** Some stored user already has this email. */
  predicate EmailTaken(users: map<int, User>, email: string) {
    exists k :: k in users && users[k].email == email
  }

  /** Some stored user already has this code name. */
  predicate CodeNameTaken(users: map<int, User>, codeName: string) {
    exists k :: k in users && users[k].codeName == codeName
  }

  /** Every ping's owner exists, and so does its parent when it has one. */
  predicate PingsLinked(users: map<int, User>, pings: map<int, PingRow>) {
    forall k :: k in pings ==>
      pings[k].user in users && (pings[k].parentPing.Some? ==> pings[k].parentPing.value in pings)
  }

  /** The invariant the database's constraints keep. */
  predicate StoreInvariant(users: map<int, User>, pings: map<int, PingRow>) {
    UniqueUsers(users) && PingsLinked(users, pings)
  }

  /**
   * What `create_user` (models.py:13-24) does to a store holding `users`: the
   * user it saves, or the exception it raises. The checks come in the source's
   * order; of two unique constraints violated at once, the email is reported.
   */
  function CreateUserOutcome(
    users: map<int, User>,
    email: Option<string>,
    password: Option<string>,
    extra: ExtraFields,
    normalizeEmail: string -> string,
    passwordAccepted: (string, User) -> bool): Result<User, StoreError>
  {
    if !Truthy(email) then Failure(ValueError(EmailRequiredMessage))
    else
      var user := NewUser(normalizeEmail(email.value), extra);
      if !Truthy(password) then Failure(ValueError(PasswordRequiredMessage))
      else if !passwordAccepted(password.value, user) then Failure(PasswordValidationError)
      else
        var saved := user.(password := MakePassword(password.value));
        if EmailTaken(users, saved.email) then Failure(IntegrityError(Unique("email")))
        else if CodeNameTaken(users, saved.codeName) then Failure(IntegrityError(Unique("code_name")))
        else Success(saved)
  }

  /**
   * What `Ping.objects.create` does: the NOT NULL columns `user`, `latitude`
   * and `longitude` must be given, and both foreign keys must point at
   * existing rows. The timestamp is the server's clock (`auto_now_add`).
   */
  function CreatePingOutcome(
    users: map<int, User>,
    pings: map<int, PingRow>,
    user: Option<int>,
    latitude: Option<real>,
    longitude: Option<real>,
    parentPing: Option<int>,
    now: int): Result<PingRow, StoreError>
  {
    if user.None? then Failure(IntegrityError(NotNull("user_id")))
    else if latitude.None? then Failure(IntegrityError(NotNull("latitude")))
    else if longitude.None? then Failure(IntegrityError(NotNull("longitude")))
    else if user.value !in users then Failure(IntegrityError(ForeignKey("user_id")))
    else if parentPing.Some? && parentPing.value !in pings then Failure(IntegrityError(ForeignKey("parent_ping_id")))
    else Success(PingRow(user.value, latitude.value, longitude.value, now, parentPing))
  }

  /** The pings owned by `user`: what deleting the user cascades to (models.py:76-78). */
  function OwnedBy(pings: map<int, PingRow>, user: int): set<int> {
    set k | k in pings && pings[k].user == user
  }

  /**
   * The ping table once the pings in `gone` are deleted: the rest stay, and a
   * remaining ping whose parent was deleted has its parent set to null
   * (`on_delete=models.SET_NULL`, models.py:82-88).
   */
  function AfterDelete(pings: map<int, PingRow>, gone: set<int>): map<int, PingRow> {
    map k | k in pings && k !in gone ::
      if pings[k].parentPing.Some? && pings[k].parentPing.value in gone
      then pings[k].(parentPing := None)
      else pings[k]
  }

  /** The server's two tables. */
  class Database {
    var users: map<int, User>
    var pings: map<int, PingRow>
    /** The next primary keys the auto-increment columns hand out. */
    var nextUserId: int
    var nextPingId: int

    ghost predicate Valid()
      reads this
    {
      && StoreInvariant(users, pings)
      && 0 < nextUserId && 0 < nextPingId
      && (forall k :: k in users ==> 0 < k < nextUserId)
      && (forall k :: k in pings ==> 0 < k < nextPingId)
    }

    /** An empty database. */
    constructor ()
      ensures Valid()
      ensures users == map[] && pings == map[]
    {
      users, pings := map[], map[];
      nextUserId, nextPingId := 1, 1;
    }

    /** `UserManager.create_user` (models.py:13-24). */
    method CreateUser(
      email: Option<string>,
      password: Option<string>,
      extra: ExtraFields,
      normalizeEmail: string -> string,
      passwordAccepted: (string, User) -> bool) returns (r: Result<int, StoreError>)
      requires Valid()
      modifies this`users, this`nextUserId
      ensures Valid()
      ensures match CreateUserOutcome(old(users), email, password, extra, normalizeEmail, passwordAccepted)
        case Failure(e) => r == Failure(e) && users == old(users) && nextUserId == old(nextUserId)
        case Success(u) => r == Success(old(nextUserId)) && old(nextUserId) !in old(users)
                           && users == old(users)[old(nextUserId) := u] && nextUserId == old(nextUserId) + 1
    {
      if !Truthy(email) {
        return Failure(ValueError(EmailRequiredMessage));
      }
      var normalized := normalizeEmail(email.value);
      var user := NewUser(normalized, extra);
      if Truthy(password) {
        if !passwordAccepted(password.value, user) {
          return Failure(PasswordValidationError);
        }
        user := user.(password := MakePassword(password.value));
      } else {
        return Failure(ValueError(PasswordRequiredMessage));
      }
      // user.save(): the unique constraints are checked by the database.
      if EmailTaken(users, user.email) {
        return Failure(IntegrityError(Unique("email")));
      }
      if CodeNameTaken(users, user.codeName) {
        return Failure(IntegrityError(Unique("code_name")));
      }
      var id := nextUserId;
      users := users[id := user];
      nextUserId := nextUserId + 1;
      r := Success(id);
    }

    /** `UserManager.create_superuser` (models.py:26-30). */
    method CreateSuperuser(
      email: Option<string>,
      password: Option<string>,
      extra: ExtraFields,
      normalizeEmail: string -> string,
      passwordAccepted: (string, User) -> bool) returns (r: Result<int, StoreError>)
      requires Valid()
      modifies this`users, this`nextUserId
      ensures Valid()
      ensures match CreateUserOutcome(old(users), email, password, SuperuserFields(extra), normalizeEmail, passwordAccepted)
        case Failure(e) => r == Failure(e) && users == old(users) && nextUserId == old(nextUserId)
        case Success(u) => r == Success(old(nextUserId)) && old(nextUserId) !in old(users)
                           && users == old(users)[old(nextUserId) := u] && nextUserId == old(nextUserId) + 1
    {
      var fields := extra;
      fields := fields.(isStaff := SetDefault(fields.isStaff, true));
      fields := fields.(isSuperuser := SetDefault(fields.isSuperuser, true));
      r := CreateUser(email, password, fields, normalizeEmail, passwordAccepted);
    }

    /** `Ping.objects.create(...)`: the new ping's id, or the integrity error. */
    method CreatePing(
      user: Option<int>,
      latitude: Option<real>,
      longitude: Option<real>,
      parentPing: Option<int>,
      now: int) returns (r: Result<int, StoreError>)
      requires Valid()
      modifies this`pings, this`nextPingId
      ensures Valid()
      ensures match CreatePingOutcome(users, old(pings), user, latitude, longitude, parentPing, now)
        case Failure(e) => r == Failure(e) && pings == old(pings) && nextPingId == old(nextPingId)
        case Success(p) => r == Success(old(nextPingId)) && old(nextPingId) !in old(pings)
                           && pings == old(pings)[old(nextPingId) := p] && nextPingId == old(nextPingId) + 1
    {
      var outcome := CreatePingOutcome(users, pings, user, latitude, longitude, parentPing, now);
      if outcome.Failure? {
        return Failure(outcome.error);
      }
      var id := nextPingId;
      pings := pings[id := outcome.value];
      nextPingId := nextPingId + 1;
      r := Success(id);
    }

    /** `ping.delete()`: children are kept with their parent set to null. */
    method DeletePing(id: int) returns (deleted: bool)
      requires Valid()
      modifies this`pings
      ensures Valid()
      ensures deleted == (id in old(pings))
      ensures pings == if deleted then AfterDelete(old(pings), {id}) else old(pings)
    {
      deleted := id in pings;
      if deleted {
        DeleteKeepsLinks(users, pings, users, {id});
        pings := AfterDelete(pings, {id});
      }
    }

    /** `user.delete()`: the user's pings go with it (CASCADE). */
    method DeleteUser(id: int) returns (deleted: bool)
      requires Valid()
      modifies this`users, this`pings
      ensures Valid()
      ensures deleted == (id in old(users))
      ensures users == old(users) - {id}
      ensures pings == if deleted then AfterDelete(old(pings), OwnedBy(old(pings), id)) else old(pings)
    {
      deleted := id in users;
      if deleted {
        DeleteKeepsLinks(users, pings, users - {id}, OwnedBy(pings, id));
        pings := AfterDelete(pings, OwnedBy(pings, id));
        users := users - {id};
      } else {
        assert users - {id} == users;
      }
    }
  }

  // ---------------------------------------------------------------------------
  // create_user and create_superuser

  /** Without an email (None or ""), `create_user` raises ValueError (tests.py:58-60). */
  lemma EmailRequired(users: map<int, User>, email: Option<string>, password: Option<string>,
                      extra: ExtraFields, normalizeEmail: string -> string, passwordAccepted: (string, User) -> bool)
    requires email.None? || email.value == ""
    ensures CreateUserOutcome(users, email, password, extra, normalizeEmail, passwordAccepted)
            == Failure(ValueError("The Email field must be set"))
  {
  }

  /** With an email but no password, `create_user` raises ValueError (tests.py:62-64). */
  lemma PasswordRequired(users: map<int, User>, email: Option<string>, password: Option<string>,
                         extra: ExtraFields, normalizeEmail: string -> string, passwordAccepted: (string, User) -> bool)
    requires Truthy(email)
    requires password.None? || password.value == ""
    ensures CreateUserOutcome(users, email, password, extra, normalizeEmail, passwordAccepted)
            == Failure(ValueError("The Password field must be set"))
  {
  }

  /**
   * A created user has the normalised email, the passed fields or the model
   * defaults (active, not staff, not superuser, empty name and code name), and a
   * password hash that checks against the given password (tests.py:26-34).
   */
  lemma CreatedUserFields(users: map<int, User>, email: Option<string>, password: Option<string>,
                          extra: ExtraFields, normalizeEmail: string -> string, passwordAccepted: (string, User) -> bool)
    requires CreateUserOutcome(users, email, password, extra, normalizeEmail, passwordAccepted).Success?
    ensures var u := CreateUserOutcome(users, email, password, extra, normalizeEmail, passwordAccepted).value;
      && Truthy(email) && Truthy(password)
      && u.email == normalizeEmail(email.value)
      && CheckPassword(u.password, password.value)
      && u.isActive == extra.isActive.GetOr(true)
      && u.isStaff == extra.isStaff.GetOr(false)
      && u.isSuperuser == extra.isSuperuser.GetOr(false)
      && u.name == extra.name.GetOr("")
      && u.codeName == extra.codeName.GetOr("")
  {
  }

  /**
   * The unique constraints: a user is saved only when neither its email nor
   * its code name is taken, so saving it keeps the users unique; an existing
   * email is refused (tests.py:46-51).
   */
  lemma CreateUserKeepsUnique(users: map<int, User>, id: int, email: Option<string>, password: Option<string>,
                              extra: ExtraFields, normalizeEmail: string -> string, passwordAccepted: (string, User) -> bool)
    requires UniqueUsers(users)
    requires id !in users
    ensures match CreateUserOutcome(users, email, password, extra, normalizeEmail, passwordAccepted)
      case Success(u) => !EmailTaken(users, u.email) && !CodeNameTaken(users, u.codeName)
                         && UniqueUsers(users[id := u])
      case Failure(_) => true
    ensures Truthy(email) && EmailTaken(users, normalizeEmail(email.value)) ==>
      CreateUserOutcome(users, email, password, extra, normalizeEmail, passwordAccepted).Failure?
  {
  }

  /**
   * The empty code name is a value like any other for the unique constraint:
   * once one user has it, creating another without a code name fails.
   */
  lemma SecondBlankCodeNameRefused(users: map<int, User>, email: Option<string>, password: Option<string>,
                                   extra: ExtraFields, normalizeEmail: string -> string, passwordAccepted: (string, User) -> bool)
    requires CodeNameTaken(users, "")
    requires extra.codeName.None? || extra.codeName == Some("")
    ensures CreateUserOutcome(users, email, password, extra, normalizeEmail, passwordAccepted).Failure?
  {
  }

  /**
   * `create_superuser` sets staff and superuser only where the caller passed
   * nothing, and otherwise behaves as `create_user`: without extra fields the
   * new user is active, staff and superuser (tests.py:36-44).
   */
  lemma SuperuserDefaults(users: map<int, User>, email: Option<string>, password: Option<string>,
                          extra: ExtraFields, normalizeEmail: string -> string, passwordAccepted: (string, User) -> bool)
    requires CreateUserOutcome(users, email, password, SuperuserFields(extra), normalizeEmail, passwordAccepted).Success?
    ensures var u := CreateUserOutcome(users, email, password, SuperuserFields(extra), normalizeEmail, passwordAccepted).value;
      && u.isStaff == extra.isStaff.GetOr(true)
      && u.isSuperuser == extra.isSuperuser.GetOr(true)
      && u.isActive == extra.isActive.GetOr(true)
      && (extra == ExtraFields(None, None, None, None, None) ==> u.isActive && u.isStaff && u.isSuperuser)
  {
  }

  // ---------------------------------------------------------------------------
  // Pings

  /**
   * A ping is created only with an existing owner, both coordinates and an
   * existing parent (tests.py:87-105), and keeps the tables linked.
   */
  lemma CreatePingRequiresFields(users: map<int, User>, pings: map<int, PingRow>, id: int,
                                 user: Option<int>, latitude: Option<real>, longitude: Option<real>,
                                 parentPing: Option<int>, now: int)
    requires PingsLinked(users, pings)
    requires id !in pings
    ensures (user.None? || latitude.None? || longitude.None?) ==>
      CreatePingOutcome(users, pings, user, latitude, longitude, parentPing, now).Failure?
    ensures match CreatePingOutcome(users, pings, user, latitude, longitude, parentPing, now)
      case Success(p) => user == Some(p.user) && p.user in users
                         && latitude == Some(p.latitude) && longitude == Some(p.longitude)
                         && p.parentPing == parentPing && p.timestamp == now
                         && PingsLinked(users, pings[id := p])
      case Failure(e) => e.IntegrityError?
  {
  }

  /**
   * Deleting pings deletes no other ping: every remaining ping keeps its owner,
   * coordinates and timestamp, and loses its parent exactly when the parent
   * was deleted.
   */
  lemma AfterDeleteOrphans(pings: map<int, PingRow>, gone: set<int>)
    ensures AfterDelete(pings, gone).Keys == pings.Keys - gone
    ensures forall k :: k in pings && k !in gone ==>
      var before, after := pings[k], AfterDelete(pings, gone)[k];
      && after.user == before.user && after.latitude == before.latitude
      && after.longitude == before.longitude && after.timestamp == before.timestamp
      && (after.parentPing == if before.parentPing.Some? && before.parentPing.value in gone
                              then None else before.parentPing)
  {
  }

  /**
   * Deleting a set of pings, and possibly users whose pings are all in the
   * set, keeps every owner and every parent reference pointing at a stored row.
   */
  lemma DeleteKeepsLinks(users: map<int, User>, pings: map<int, PingRow>, users': map<int, User>, gone: set<int>)
    requires StoreInvariant(users, pings)
    requires users'.Keys <= users.Keys && forall k :: k in users' ==> users'[k] == users[k]
    requires forall k :: k in pings && k !in gone ==> pings[k].user in users'
    ensures StoreInvariant(users', AfterDelete(pings, gone))
  {
    var after := AfterDelete(pings, gone);
    forall k | k in after
      ensures after[k].user in users'
      ensures after[k].parentPing.Some? ==> after[k].parentPing.value in after
    {
    }
    assert UniqueUsers(users') by {
      forall a, b | a in users' && b in users' && a != b
        ensures users'[a].email != users'[b].email && users'[a].codeName != users'[b].codeName
      {
        assert users'[a] == users[a] && users'[b] == users[b];
      }
    }
  }

  /** After deleting a user, none of the remaining pings belongs to it. */
  lemma CascadeRemovesOwned(pings: map<int, PingRow>, user: int)
    ensures forall k :: k in AfterDelete(pings, OwnedBy(pings, user)) ==>
      AfterDelete(pings, OwnedBy(pings, user))[k].user != user
    ensures forall k :: k in pings && pings[k].user != user ==> k in AfterDelete(pings, OwnedBy(pings, user))
  {
  }
}
