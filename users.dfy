/** UserService: registration with a username-uniqueness check, login,
    role changes and the user lookups, over the store's user collection. */
module Users {
  import opened Errors
  import opened Model
  import opened Dto
  import opened Repository

  /** The password encoder: a hashing function and the check that a raw
      password fits a stored hash. */
  datatype PasswordEncoder = PasswordEncoder(encode: string -> string, matches: (string, string) -> bool)

  /** What every encoder promises: a password fits its own hash. */
  ghost predicate Sound(e: PasswordEncoder) {
    forall p :: e.matches(p, e.encode(p))
  }

  // ---- Queries ------------------------------------------------------------

  /** `findById`: the stored user or UserNotFound(id, "id"). */
  function FindUserById(users: seq<User>, id: Id): (r: Result<User>)
    ensures r.Ok? <==> exists i :: 0 <= i < |users| && users[i].id == id
    ensures r.Ok? ==> r.value in users && r.value.id == id
    ensures r.Err? ==> r.error == UserNotFound(id, "id")
  {
    match UserById(users, id)
    case None => Err(UserNotFound(id, "id"))
    case Some(u) => Ok(u)
  }

  /** `findByUsername`: the stored user or UserNotFound(username, "username"). */
  function FindUserByUsername(users: seq<User>, username: string): (r: Result<User>)
    ensures r.Ok? <==> exists i :: 0 <= i < |users| && users[i].username == username
    ensures r.Ok? ==> r.value in users && r.value.username == username
    ensures r.Err? ==> r.error == UserNotFound(username, "username")
  {
    match UserByName(users, username)
    case None => Err(UserNotFound(username, "username"))
    case Some(u) => Ok(u)
  }

  /** `login`: an unknown username and a password that does not fit are
      reported alike. On success the stored user itself is returned. */
  function Login(users: seq<User>, enc: PasswordEncoder, username: string, password: string): (r: Result<User>)
    ensures r.Err? ==> r.error == InvalidCredentials
    ensures r.Ok? ==> r.value in users && r.value.username == username && enc.matches(password, r.value.password)
    ensures UserByName(users, username).None? ==> r.Err?
  {
    match UserByName(users, username)
    case None => Err(InvalidCredentials)
    case Some(u) => if enc.matches(password, u.password) then Ok(u) else Err(InvalidCredentials)
  }

  /** With unique usernames, login succeeds exactly when some stored user has
      that name and a hash the password fits. */
  lemma LoginIff(users: seq<User>, enc: PasswordEncoder, username: string, password: string)
    requires UsernamesDistinct(users)
    ensures Login(users, enc, username, password).Ok? <==>
      exists i :: 0 <= i < |users| && users[i].username == username && enc.matches(password, users[i].password)
  {
    if exists i :: 0 <= i < |users| && users[i].username == username && enc.matches(password, users[i].password) {
      var i :| 0 <= i < |users| && users[i].username == username && enc.matches(password, users[i].password);
      var u := UserByName(users, username).value;
      var k :| 0 <= k < |users| && users[k] == u;
    }
  }

  /** "No such user" and "wrong password" give the same error. */
  lemma LoginFailuresAlike(users: seq<User>, enc: PasswordEncoder, unknown: string, known: User, password: string)
    requires UserByName(users, unknown).None?
    requires UsernamesDistinct(users) && known in users && !enc.matches(password, known.password)
    ensures Login(users, enc, unknown, password) == Err(InvalidCredentials)
    ensures Login(users, enc, known.username, password) == Err(InvalidCredentials)
  {
    LoginIff(users, enc, known.username, password);
  }

  /** `getAllUsers`: the three-field DTO of each stored user, in store order. */
  function GetAllUsers(users: seq<User>): (r: seq<UserDTO>)
    ensures |r| == |users|
    ensures forall i :: 0 <= i < |users| ==> r[i] == UserDtoOf(users[i])
  {
    seq(|users|, i requires 0 <= i < |users| => UserDTO(users[i].id, users[i].username, users[i].role))
  }

  // ---- Writes, as functions of the state --------------------------------------

  /** `register`: refused when the username is taken; otherwise the user is
      saved under a fresh id with the encoded password and the STUDENT role,
      whatever role it came with. */
  function RegisterOn(db: Db, enc: PasswordEncoder, user: User): (t: Transition<UserDTO>)
    ensures t.out.Ok? <==> UserByName(db.users, user.username).None?
    ensures t.out.Err? ==> t.out.error == UserAlreadyExists(user.username) && t.after == db
    ensures t.out.Ok? ==>
      && t.after.menuItems == db.menuItems && t.after.orders == db.orders
      && |t.after.users| == |db.users| + 1 && t.after.users[..|db.users|] == db.users
      && var u := t.after.users[|db.users|];
        && u.id == NewId(db) && u.username == user.username && u.orders == user.orders
        && u.password == enc.encode(user.password) && u.role == "STUDENT"
        && t.out.value == UserDtoOf(u)
  {
    if UserByName(db.users, user.username).Some? then
      Transition(Err(UserAlreadyExists(user.username)), db)
    else
      var d := AddUser(db, user.(password := enc.encode(user.password), role := "STUDENT"));
      assert d.users[..|db.users|] == db.users;
      Transition(Ok(UserDtoOf(d.users[|db.users|])), d)
  }

  /** Registration keeps the store invariant (unique usernames among it),
      whether it succeeds or not. */
  lemma RegisterValid(db: Db, enc: PasswordEncoder, user: User)
    requires ValidDb(db)
    ensures ValidDb(RegisterOn(db, enc, user).after)
  {
    if UserByName(db.users, user.username).None? {
      AddUserValid(db, user.(password := enc.encode(user.password), role := "STUDENT"));
    }
  }

  /** The role a client sends has no effect on registration. */
  lemma RegisterIgnoresRole(db: Db, enc: PasswordEncoder, user: User, role: string)
    ensures RegisterOn(db, enc, user.(role := role)) == RegisterOn(db, enc, user)
  {
  }

  /** A freshly registered user can log in with the password they registered. */
  lemma RegisterThenLogin(db: Db, enc: PasswordEncoder, user: User)
    requires Sound(enc)
    requires RegisterOn(db, enc, user).out.Ok?
    ensures var d := RegisterOn(db, enc, user).after;
      Login(d.users, enc, user.username, user.password) == Ok(d.users[|db.users|])
  {
    var d := RegisterOn(db, enc, user).after;
    var k := |db.users|;
    assert forall j :: 0 <= j < k ==> d.users[j] == db.users[j];
    assert UserByName(d.users, user.username) == Some(d.users[k]);
    assert enc.matches(user.password, enc.encode(user.password));
  }

  /** `changeUserRole`: UserNotFound for an unknown id; otherwise the role is
      replaced by the argument as given, with no check of its value. */
  function ChangeUserRoleOn(db: Db, userId: Id, role: string): (t: Transition<User>)
    ensures t.out.Ok? <==> UserById(db.users, userId).Some?
    ensures t.out.Err? ==> t.out.error == UserNotFound(userId, "id") && t.after == db
    ensures t.out.Ok? ==> t.out.value == UserById(db.users, userId).value.(role := role)
    ensures t.out.Ok? ==> t.after == PutUser(db, t.out.value)
  {
    match UserById(db.users, userId)
    case None => Transition(Err(UserNotFound(userId, "id")), db)
    case Some(u) =>
      var saved := u.(role := role);
      Transition(Ok(saved), PutUser(db, saved))
  }

  /** A role change touches the role of that one user and nothing else. */
  lemma ChangeUserRoleOnlyThatRole(db: Db, userId: Id, role: string)
    requires ValidDb(db)
    requires UserById(db.users, userId).Some?
    ensures var d := ChangeUserRoleOn(db, userId, role).after;
      && |d.users| == |db.users| && d.menuItems == db.menuItems && d.orders == db.orders
      && forall i :: 0 <= i < |db.users| ==>
        d.users[i] == if db.users[i].id == userId then db.users[i].(role := role) else db.users[i]
  {
    var u := UserById(db.users, userId).value;
    var k :| 0 <= k < |db.users| && db.users[k] == u;
    forall i | 0 <= i < |db.users| && db.users[i].id == userId
      ensures db.users[i] == u
    {
      assert db.users[i].id == db.users[k].id;
    }
  }

  lemma ChangeUserRoleValid(db: Db, userId: Id, role: string)
    requires ValidDb(db)
    ensures ValidDb(ChangeUserRoleOn(db, userId, role).after)
  {
    if UserById(db.users, userId).Some? {
      PutUserValid(db, UserById(db.users, userId).value.(role := role));
    }
  }

  /** Any string is stored as the role, even one the entity's own role pattern refuses. */
  lemma ChangeUserRoleUnchecked(db: Db, userId: Id)
    requires UserById(db.users, userId).Some?
    ensures var t := ChangeUserRoleOn(db, userId, "SUPERUSER");
      t.out.Ok? && t.out.value.role == "SUPERUSER" && !RoleValid(Some(t.out.value.role))
  {
  }

  // ---- The service object -------------------------------------------------------

  class UserService {
    const store: Store
    const encoder: PasswordEncoder

    constructor (store: Store, encoder: PasswordEncoder)
      ensures this.store == store && this.encoder == encoder
    {
      this.store := store;
      this.encoder := encoder;
    }

    method Register(user: User) returns (r: Result<UserDTO>)
      requires store.Valid()
      modifies store
      ensures store.Valid()
      ensures Transition(r, store.Snapshot()) == RegisterOn(old(store.Snapshot()), encoder, user)
    {
      if UserByName(store.users, user.username).Some? {
        return Err(UserAlreadyExists(user.username));
      }
      var toSave := user.(password := encoder.encode(user.password), role := "STUDENT");
      var saved := store.InsertUser(toSave);
      r := Ok(UserDtoOf(saved));
    }

    method ChangeUserRole(userId: Id, role: string) returns (r: Result<User>)
      requires store.Valid()
      modifies store
      ensures store.Valid()
      ensures Transition(r, store.Snapshot()) == ChangeUserRoleOn(old(store.Snapshot()), userId, role)
    {
      var found := UserById(store.users, userId);
      if found.None? {
        return Err(UserNotFound(userId, "id"));
      }
      var user := found.value.(role := role);
      store.UpdateUser(user);
      r := Ok(user);
    }
  }
}
