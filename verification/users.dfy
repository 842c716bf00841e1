/**
 * The user-account handlers: create and register (one rule set), the profile
 * update with its email-conflict and password-rehash rules, delete with the
 * ON DELETE rules of the rows that reference a user, and login.
 *
 * Every handler answers with a `UserView`, which has no password column, so
 * no response can carry the stored digest.
 */
module Users {
  import opened Wrappers
  import opened Js
  import opened Schema

  const MissingUserFields := "Missing required fields: email, password, name"
  const EmailExists := "User with this email already exists"
  const MissingProfileFields := "Missing required fields: name, email"
  const UserNotFound := "User not found"
  const EmailInUse := "Email already in use by another account"
  const MissingLoginFields := "Missing required fields: email, password"
  const BadCredentials := "Invalid email or password"

  /** A user row as the handlers return it: every column but the password. */
  datatype UserView = UserView(id: Id, email: string, name: string, phone: Option<string>)

  function View(id: Id, u: User): UserView {
    UserView(id, u.email, u.name, u.phone)
  }

  /** Some user other than `except` has this email (`... WHERE email = ? AND id != ?`). */
  predicate EmailTaken(users: map<Id, User>, email: string, except: Option<Id>) {
    exists u :: u in users && users[u].email == email && Some(u) != except
  }

  // ---------------------------------------------------------------------------
  // createUser / register

  datatype UserBody = UserBody(
    email: Field<string>, password: Field<string>, name: Field<string>, phone: Field<string>)

  predicate UserComplete(b: UserBody) {
    TruthyText(b.email) && TruthyText(b.password) && TruthyText(b.name)
  }

  datatype Account = Account(store: Store, user: UserView)

  /**
   * `newId` is the auto-increment id the insert would receive and `salt`
   * the salt bcrypt would draw; `register` follows the same rules and only
   * wraps the same view in `{success: true, user}`.
   */
  function CreateUser(s: Store, b: UserBody, newId: Id, salt: nat): (r: Result<Account, Error>)
    ensures !UserComplete(b) ==> r == Err(Http(400, MissingUserFields))
    ensures UserComplete(b) && EmailTaken(s.users, b.email.value, None) ==> r == Err(Http(400, EmailExists))
    ensures r.Ok? <==> UserComplete(b) && !EmailTaken(s.users, b.email.value, None) && newId !in s.users
    ensures r.Ok? ==>
      && r.value.store.users == s.users[newId := User(b.email.value, Hash(b.password.value, salt), b.name.value, TextOrNull(b.phone))]
      && r.value.store.(users := s.users) == s
      && r.value.user == UserView(newId, b.email.value, b.name.value, TextOrNull(b.phone))
  {
    if !UserComplete(b) then Err(Http(400, MissingUserFields))
    else if EmailTaken(s.users, b.email.value, None) then Err(Http(400, EmailExists))
    else if newId in s.users then Err(Db(DuplicateKey))
    else
      var u := User(b.email.value, Hash(b.password.value, salt), b.name.value, TextOrNull(b.phone));
      Ok(Account(s.(users := s.users[newId := u]), View(newId, u)))
  }

  lemma CreateUserValid(s: Store, b: UserBody, newId: Id, salt: nat)
    requires Valid(s)
    ensures CreateUser(s, b, newId, salt).Ok? ==> Valid(CreateUser(s, b, newId, salt).value.store)
  {
    if CreateUser(s, b, newId, salt).Ok? {
      var s1 := CreateUser(s, b, newId, salt).value.store;
      forall a, c | a in s1.users && c in s1.users && s1.users[a].email == s1.users[c].email
        ensures a == c
      {
      }
    }
  }

  // ---------------------------------------------------------------------------
  // login

  /** The one user with this email, when there is one (emails are UNIQUE). */
  function FindByEmail(users: map<Id, User>, email: string): (r: Option<Id>)
    requires forall a, c :: a in users && c in users && users[a].email == users[c].email ==> a == c
    ensures r.Some? <==> EmailTaken(users, email, None)
    ensures r.Some? ==> r.value in users && users[r.value].email == email
  {
    if EmailTaken(users, email, None) then
      var u :| u in users && users[u].email == email;
      Some(u)
    else None
  }

  function Login(s: Store, email: Field<string>, password: Field<string>): (r: Result<UserView, Error>)
    requires EmailsUnique(s)
    ensures !TruthyText(email) || !TruthyText(password) ==> r == Err(Http(400, MissingLoginFields))
    ensures r.Ok? <==>
      && TruthyText(email) && TruthyText(password)
      && exists u :: u in s.users && s.users[u].email == email.value && Verify(password.value, s.users[u].password)
    ensures r.Ok? ==> r.value.id in s.users && r.value == View(r.value.id, s.users[r.value.id]) && r.value.email == email.value
    ensures r.Err? && TruthyText(email) && TruthyText(password) ==> r == Err(Http(401, BadCredentials))
  {
    if !TruthyText(email) || !TruthyText(password) then Err(Http(400, MissingLoginFields))
    else match FindByEmail(s.users, email.value)
      case None => Err(Http(401, BadCredentials))
      case Some(u) =>
        if Verify(password.value, s.users[u].password) then Ok(View(u, s.users[u]))
        else Err(Http(401, BadCredentials))
  }

  /** An unknown email and a wrong password are answered identically. */
  lemma LoginFailuresIndistinguishable(s: Store, known: string, unknown: string, wrong: string)
    requires EmailsUnique(s)
    requires known != "" && unknown != "" && wrong != ""
    requires !EmailTaken(s.users, unknown, None)
    requires forall u :: u in s.users && s.users[u].email == known ==> !Verify(wrong, s.users[u].password)
    ensures Login(s, Val(unknown), Val(wrong)) == Login(s, Val(known), Val(wrong))
  {
  }

  /** A freshly created account can log in with the password it was created with. */
  lemma LoginAfterCreate(s: Store, b: UserBody, newId: Id, salt: nat)
    requires Valid(s)
    requires CreateUser(s, b, newId, salt).Ok?
    ensures var s1 := CreateUser(s, b, newId, salt).value.store;
      EmailsUnique(s1) && Login(s1, b.email, b.password) == Ok(CreateUser(s, b, newId, salt).value.user)
  {
    CreateUserValid(s, b, newId, salt);
    var s1 := CreateUser(s, b, newId, salt).value.store;
    assert s1.users[newId].email == b.email.value;
    assert Verify(b.password.value, s1.users[newId].password);
    assert FindByEmail(s1.users, b.email.value) == Some(newId);
  }

  // ---------------------------------------------------------------------------
  // updateUser (and the PUT /api/users/:id handler of the standalone server)

  datatype ProfilePatch = ProfilePatch(
    name: Field<string>, email: Field<string>, phone: Field<string>, password: Field<string>)

  /** `password && password.trim() !== ''`: the only case in which the digest is replaced. */
  predicate Rehashes(password: Field<string>) {
    TruthyText(password) && Trim(password.value) != ""
  }

  function UpdateUser(s: Store, id: Id, p: ProfilePatch, salt: nat): (r: Result<Account, Error>)
    ensures !TruthyText(p.name) || !TruthyText(p.email) ==> r == Err(Http(400, MissingProfileFields))
    ensures TruthyText(p.name) && TruthyText(p.email) && id !in s.users ==> r == Err(Http(404, UserNotFound))
    ensures TruthyText(p.name) && TruthyText(p.email) && id in s.users && EmailTaken(s.users, p.email.value, Some(id)) ==>
      r == Err(Http(400, EmailInUse))
    ensures r.Ok? <==>
      TruthyText(p.name) && TruthyText(p.email) && id in s.users && !EmailTaken(s.users, p.email.value, Some(id))
    ensures r.Ok? ==>
      && r.value.store.users.Keys == s.users.Keys
      && (forall u :: u in s.users && u != id ==> r.value.store.users[u] == s.users[u])
      && r.value.store.(users := s.users) == s
    ensures r.Ok? ==>
      var was, now := s.users[id], r.value.store.users[id];
      && now.name == p.name.value && now.email == p.email.value
      && now.phone == (if p.phone.Supplied() then TextOrNull(p.phone) else was.phone)
      && now.password == (if Rehashes(p.password) then Hash(p.password.value, salt) else was.password)
      && r.value.user == View(id, now)
  {
    if !TruthyText(p.name) || !TruthyText(p.email) then Err(Http(400, MissingProfileFields))
    else if id !in s.users then Err(Http(404, UserNotFound))
    else if EmailTaken(s.users, p.email.value, Some(id)) then Err(Http(400, EmailInUse))
    else
      var was := s.users[id];
      var now := User(
        p.email.value,
        if Rehashes(p.password) then Hash(p.password.value, salt) else was.password,
        p.name.value,
        if p.phone.Supplied() then TextOrNull(p.phone) else was.phone);
      Ok(Account(s.(users := s.users[id := now]), View(id, now)))
  }

  /** Re-submitting one's own email is never a conflict when emails are unique. */
  lemma KeepingOwnEmail(s: Store, id: Id, p: ProfilePatch, salt: nat)
    requires EmailsUnique(s) && id in s.users
    requires TruthyText(p.name) && p.email == Val(s.users[id].email) && s.users[id].email != ""
    ensures UpdateUser(s, id, p, salt).Ok?
  {
  }

  /** A blank or all-white-space password leaves the stored digest as it was. */
  lemma BlankPasswordKeepsDigest(s: Store, id: Id, p: ProfilePatch, salt: nat)
    requires UpdateUser(s, id, p, salt).Ok?
    requires p.password.Val? && forall i :: 0 <= i < |p.password.value| ==> IsWhite(p.password.value[i])
    ensures UpdateUser(s, id, p, salt).value.store.users[id].password == s.users[id].password
  {
    TrimEmptyIffAllWhite(p.password.value);
  }

  /** After a rehash the new password logs in and the old one no longer does (unless equal). */
  lemma RehashedPasswordLogsIn(s: Store, id: Id, p: ProfilePatch, salt: nat, previous: string)
    requires Valid(s) && UpdateUser(s, id, p, salt).Ok? && Rehashes(p.password)
    requires previous != p.password.value && previous != ""
    ensures var s1 := UpdateUser(s, id, p, salt).value.store;
      && EmailsUnique(s1)
      && Login(s1, p.email, p.password).Ok?
      && Login(s1, p.email, Val(previous)).Err?
  {
    UpdateUserValid(s, id, p, salt);
    var s1 := UpdateUser(s, id, p, salt).value.store;
    assert s1.users[id].email == p.email.value;
    assert Verify(p.password.value, s1.users[id].password);
    forall u | u in s1.users && s1.users[u].email == p.email.value
      ensures u == id
    {
    }
  }

  lemma UpdateUserValid(s: Store, id: Id, p: ProfilePatch, salt: nat)
    requires Valid(s)
    ensures UpdateUser(s, id, p, salt).Ok? ==> Valid(UpdateUser(s, id, p, salt).value.store)
  {
    if UpdateUser(s, id, p, salt).Ok? {
      var s1 := UpdateUser(s, id, p, salt).value.store;
      forall a, c | a in s1.users && c in s1.users && s1.users[a].email == s1.users[c].email
        ensures a == c
      {
      }
      assert EmailsUnique(s1);
    }
  }

  // ---------------------------------------------------------------------------
  // deleteUser

  function DeleteUser(s: Store, id: Id): (r: Result<Store, Error>)
    ensures id !in s.users ==> r == Err(Http(404, UserNotFound))
    ensures r.Ok? <==> id in s.users
    ensures r.Ok? ==>
      && r.value.users.Keys == s.users.Keys - {id}
      && id !in r.value.settings
      && (forall v :: v in r.value.vehicles <==> v in s.vehicles && s.vehicles[v].userId != id)
      && (forall k :: k in r.value.cart <==> k in s.cart && k.userId != id)
    ensures r.Ok? ==>
      && r.value.users == s.users - {id}
      && r.value.quotations.Keys == s.quotations.Keys
      && (forall t :: t in r.value.quotations ==> r.value.quotations[t].userId != Some(id))
      && r.value == DeleteUserRow(s, id)
  {
    if id !in s.users then Err(Http(404, UserNotFound))
    else Ok(DeleteUserRow(s, id))
  }

  lemma DeleteUserValid(s: Store, id: Id)
    requires Valid(s)
    ensures DeleteUser(s, id).Ok? ==> Valid(DeleteUser(s, id).value)
  {
    if id in s.users {
      DeleteUserRowValid(s, id);
    }
  }
}
