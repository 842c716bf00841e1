/**
 * The administrator handlers: login (with its deactivation check placed
 * before the password check), create, update and delete. Responses use
 * `AdminView`, which has no password column.
 */
module Admins {
  import opened Wrappers
  import opened Js
  import opened Schema

  const MissingLoginFields := "Missing required fields: email, password"
  const BadCredentials := "Invalid email or password"
  const Deactivated := "Admin account is deactivated"
  const MissingAdminFields := "Missing required fields: email, password, name"
  const AdminExists := "Admin with this email already exists"
  const MissingProfileFields := "Missing required fields: name, email"
  const AdminNotFound := "Admin not found"
  const EmailInUse := "Email already in use by another admin"

  datatype AdminView = AdminView(
    id: Id, email: string, name: string, role: string, isActive: bool, lastLogin: Option<Instant>)

  function View(id: Id, a: Admin): AdminView {
    AdminView(id, a.email, a.name, a.role, a.isActive, a.lastLogin)
  }

  predicate EmailTaken(admins: map<Id, Admin>, email: string, except: Option<Id>) {
    exists a :: a in admins && admins[a].email == email && Some(a) != except
  }

  datatype Session = Session(store: Store, admin: AdminView)

  // ---------------------------------------------------------------------------
  // adminLogin

  function FindByEmail(admins: map<Id, Admin>, email: string): (r: Option<Id>)
    requires forall a, c :: a in admins && c in admins && admins[a].email == admins[c].email ==> a == c
    ensures r.Some? <==> EmailTaken(admins, email, None)
    ensures r.Some? ==> r.value in admins && admins[r.value].email == email
  {
    if EmailTaken(admins, email, None) then
      var a :| a in admins && admins[a].email == email;
      Some(a)
    else None
  }

  /** `now` is the database clock that `NOW()` reads. */
  function AdminLogin(s: Store, email: Field<string>, password: Field<string>, now: Instant): (r: Result<Session, Error>)
    requires EmailsUnique(s)
    ensures !TruthyText(email) || !TruthyText(password) ==> r == Err(Http(400, MissingLoginFields))
    ensures TruthyText(email) && TruthyText(password) && !EmailTaken(s.admins, email.value, None) ==>
      r == Err(Http(401, BadCredentials))
    ensures TruthyText(email) && TruthyText(password) ==>
      forall a :: a in s.admins && s.admins[a].email == email.value ==>
        && (!s.admins[a].isActive ==> r == Err(Http(403, Deactivated)))
        && (s.admins[a].isActive && !Verify(password.value, s.admins[a].password) ==> r == Err(Http(401, BadCredentials)))
        && (s.admins[a].isActive && Verify(password.value, s.admins[a].password) ==>
              r.Ok? && r.value.store == s.(admins := s.admins[a := s.admins[a].(lastLogin := Some(now))])
              && r.value.admin == View(a, s.admins[a]))
  {
    if !TruthyText(email) || !TruthyText(password) then Err(Http(400, MissingLoginFields))
    else match FindByEmail(s.admins, email.value)
      case None => Err(Http(401, BadCredentials))
      case Some(a) =>
        var admin := s.admins[a];
        if !admin.isActive then Err(Http(403, Deactivated))
        else if !Verify(password.value, admin.password) then Err(Http(401, BadCredentials))
        else
          var admin' := admin.(lastLogin := Some(now));
          Ok(Session(s.(admins := s.admins[a := admin']), View(a, admin)))
  }

  /** Only a successful login writes, and it writes `last_login` of that admin alone. */
  lemma LoginTouchesOnlyLastLogin(s: Store, email: Field<string>, password: Field<string>, now: Instant)
    requires EmailsUnique(s)
    requires AdminLogin(s, email, password, now).Ok?
    ensures var s1 := AdminLogin(s, email, password, now).value.store;
      && s1.admins.Keys == s.admins.Keys
      && s1.(admins := s.admins) == s
      && (forall a :: a in s.admins ==> s1.admins[a].(lastLogin := s.admins[a].lastLogin) == s.admins[a])
  {
  }

  /** A deactivated account learns nothing about its password: right or wrong, the answer is 403. */
  lemma DeactivatedHidesPassword(s: Store, a: Id, right: string, wrong: string, now: Instant)
    requires EmailsUnique(s) && a in s.admins && !s.admins[a].isActive && s.admins[a].email != ""
    requires right != "" && wrong != ""
    ensures AdminLogin(s, Val(s.admins[a].email), Val(right), now)
         == AdminLogin(s, Val(s.admins[a].email), Val(wrong), now)
         == Err(Http(403, Deactivated))
  {
  }

  lemma AdminLoginValid(s: Store, email: Field<string>, password: Field<string>, now: Instant)
    requires Valid(s)
    ensures AdminLogin(s, email, password, now).Ok? ==> Valid(AdminLogin(s, email, password, now).value.store)
  {
  }

  // ---------------------------------------------------------------------------
  // createAdmin

  datatype AdminBody = AdminBody(
    email: Field<string>, password: Field<string>, name: Field<string>, role: Field<string>)

  predicate AdminComplete(b: AdminBody) {
    TruthyText(b.email) && TruthyText(b.password) && TruthyText(b.name)
  }

  /** A new account is active and has never logged in (the column defaults). */
  function CreateAdmin(s: Store, b: AdminBody, newId: Id, salt: nat): (r: Result<Session, Error>)
    ensures !AdminComplete(b) ==> r == Err(Http(400, MissingAdminFields))
    ensures AdminComplete(b) && EmailTaken(s.admins, b.email.value, None) ==> r == Err(Http(400, AdminExists))
    ensures r.Ok? <==> AdminComplete(b) && !EmailTaken(s.admins, b.email.value, None) && newId !in s.admins
    ensures r.Ok? ==>
      && r.value.store.admins == s.admins[newId := Admin(
           b.email.value, Hash(b.password.value, salt), b.name.value, TextOr(b.role, "admin"), true, None)]
      && r.value.store.(admins := s.admins) == s
      && r.value.admin == View(newId, r.value.store.admins[newId])
  {
    if !AdminComplete(b) then Err(Http(400, MissingAdminFields))
    else if EmailTaken(s.admins, b.email.value, None) then Err(Http(400, AdminExists))
    else if newId in s.admins then Err(Db(DuplicateKey))
    else
      var a := Admin(b.email.value, Hash(b.password.value, salt), b.name.value, TextOr(b.role, "admin"), true, None);
      Ok(Session(s.(admins := s.admins[newId := a]), View(newId, a)))
  }

  /** A missing, null or empty role becomes "admin"; any other role is kept. */
  lemma DefaultRole(s: Store, b: AdminBody, newId: Id, salt: nat)
    requires CreateAdmin(s, b, newId, salt).Ok?
    ensures CreateAdmin(s, b, newId, salt).value.admin.role == if TruthyText(b.role) then b.role.value else "admin"
  {
  }

  lemma CreateAdminValid(s: Store, b: AdminBody, newId: Id, salt: nat)
    requires Valid(s)
    ensures CreateAdmin(s, b, newId, salt).Ok? ==> Valid(CreateAdmin(s, b, newId, salt).value.store)
  {
    if CreateAdmin(s, b, newId, salt).Ok? {
      var s1 := CreateAdmin(s, b, newId, salt).value.store;
      forall a, c | a in s1.admins && c in s1.admins && s1.admins[a].email == s1.admins[c].email
        ensures a == c
      {
      }
    }
  }

  /** The new account can log in at once with its password. */
  lemma LoginAfterCreate(s: Store, b: AdminBody, newId: Id, salt: nat, now: Instant)
    requires Valid(s) && CreateAdmin(s, b, newId, salt).Ok?
    ensures var s1 := CreateAdmin(s, b, newId, salt).value.store;
      EmailsUnique(s1) && AdminLogin(s1, b.email, b.password, now).Ok?
  {
    CreateAdminValid(s, b, newId, salt);
    var s1 := CreateAdmin(s, b, newId, salt).value.store;
    assert s1.admins[newId].email == b.email.value;
    assert Verify(b.password.value, s1.admins[newId].password);
  }

  // ---------------------------------------------------------------------------
  // updateAdmin

  datatype AdminPatch = AdminPatch(
    name: Field<string>, email: Field<string>, role: Field<string>,
    isActive: Field<bool>, password: Field<string>)

  predicate Rehashes(password: Field<string>) {
    TruthyText(password) && Trim(password.value) != ""
  }

  /** `role` and `is_active` are NOT NULL columns: a null sent for them is refused by the database. */
  predicate AdminPatchAcceptable(p: AdminPatch) {
    !p.role.Null? && !p.isActive.Null?
  }

  function UpdateAdmin(s: Store, id: Id, p: AdminPatch, salt: nat): (r: Result<Session, Error>)
    ensures !TruthyText(p.name) || !TruthyText(p.email) ==> r == Err(Http(400, MissingProfileFields))
    ensures TruthyText(p.name) && TruthyText(p.email) && id !in s.admins ==> r == Err(Http(404, AdminNotFound))
    ensures TruthyText(p.name) && TruthyText(p.email) && id in s.admins && EmailTaken(s.admins, p.email.value, Some(id)) ==>
      r == Err(Http(400, EmailInUse))
    ensures r.Ok? <==>
      && TruthyText(p.name) && TruthyText(p.email) && id in s.admins
      && !EmailTaken(s.admins, p.email.value, Some(id)) && AdminPatchAcceptable(p)
    ensures r.Ok? ==>
      && r.value.store.admins.Keys == s.admins.Keys
      && (forall a :: a in s.admins && a != id ==> r.value.store.admins[a] == s.admins[a])
      && r.value.store.(admins := s.admins) == s
    ensures r.Ok? ==>
      var was, now := s.admins[id], r.value.store.admins[id];
      && now.name == p.name.value && now.email == p.email.value
      && now.role == (if p.role.Supplied() then p.role.value else was.role)
      && now.isActive == (if p.isActive.Supplied() then p.isActive.value else was.isActive)
      && now.password == (if Rehashes(p.password) then Hash(p.password.value, salt) else was.password)
      && now.lastLogin == was.lastLogin
      && r.value.admin == View(id, now)
  {
    if !TruthyText(p.name) || !TruthyText(p.email) then Err(Http(400, MissingProfileFields))
    else if id !in s.admins then Err(Http(404, AdminNotFound))
    else if EmailTaken(s.admins, p.email.value, Some(id)) then Err(Http(400, EmailInUse))
    else if !AdminPatchAcceptable(p) then Err(Db(NotNull))
    else
      var was := s.admins[id];
      var now := Admin(
        p.email.value,
        if Rehashes(p.password) then Hash(p.password.value, salt) else was.password,
        p.name.value,
        if p.role.Val? then p.role.value else was.role,
        if p.isActive.Val? then p.isActive.value else was.isActive,
        was.lastLogin);
      Ok(Session(s.(admins := s.admins[id := now]), View(id, now)))
  }

  /** Deactivating an admin locks that account out of login, whatever password it tries. */
  lemma DeactivationLocksOut(s: Store, id: Id, p: AdminPatch, salt: nat, password: string, now: Instant)
    requires Valid(s) && UpdateAdmin(s, id, p, salt).Ok? && p.isActive == Val(false)
    requires password != ""
    ensures var s1 := UpdateAdmin(s, id, p, salt).value.store;
      EmailsUnique(s1) && AdminLogin(s1, p.email, Val(password), now) == Err(Http(403, Deactivated))
  {
    UpdateAdminValid(s, id, p, salt);
    var s1 := UpdateAdmin(s, id, p, salt).value.store;
    assert s1.admins[id].email == p.email.value;
  }

  lemma UpdateAdminValid(s: Store, id: Id, p: AdminPatch, salt: nat)
    requires Valid(s)
    ensures UpdateAdmin(s, id, p, salt).Ok? ==> Valid(UpdateAdmin(s, id, p, salt).value.store)
  {
    if UpdateAdmin(s, id, p, salt).Ok? {
      var s1 := UpdateAdmin(s, id, p, salt).value.store;
      forall a, c | a in s1.admins && c in s1.admins && s1.admins[a].email == s1.admins[c].email
        ensures a == c
      {
      }
    }
  }

  // ---------------------------------------------------------------------------
  // deleteAdmin

  function DeleteAdmin(s: Store, id: Id): (r: Result<Store, Error>)
    ensures id !in s.admins ==> r == Err(Http(404, AdminNotFound))
    ensures r.Ok? <==> id in s.admins
    ensures r.Ok? ==> r.value.admins.Keys == s.admins.Keys - {id} && r.value.(admins := s.admins) == s
    ensures r.Ok? ==> r.value.admins == s.admins - {id}
  {
    if id !in s.admins then Err(Http(404, AdminNotFound))
    else Ok(s.(admins := s.admins - {id}))
  }

  lemma DeleteAdminValid(s: Store, id: Id)
    requires Valid(s)
    ensures DeleteAdmin(s, id).Ok? ==> Valid(DeleteAdmin(s, id).value)
  {
  }
}
