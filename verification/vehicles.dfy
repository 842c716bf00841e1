/**
 * The vehicle handlers. Every lookup, update and delete matches on the pair
 * (vehicle id, user id), so a vehicle of another user is reported exactly
 * like one that does not exist.
 */
module Vehicles {
  import opened Wrappers
  import opened Js
  import opened Schema

  const MissingVehicleFields := "Missing required fields: model, year, chassis, engine"
  const VehicleNotFound := "Vehicle not found"

  /** `... WHERE id = ? AND user_id = ?` finds a row. */
  predicate Owned(s: Store, user: Id, v: Id) {
    v in s.vehicles && s.vehicles[v].userId == user
  }

  datatype VehicleView = VehicleView(
    id: Id, model: string, year: string, chassis: string, engine: string,
    plateNumber: Option<string>, createdAt: Instant)

  function View(id: Id, v: Vehicle): VehicleView {
    VehicleView(id, v.model, v.year, v.chassis, v.engine, v.plateNumber, v.createdAt)
  }

  // ---------------------------------------------------------------------------
  // getVehicleById

  function GetVehicle(s: Store, user: Id, v: Id): (r: Result<VehicleView, Error>)
    ensures r.Ok? <==> Owned(s, user, v)
    ensures r.Err? ==> r.error == Http(404, VehicleNotFound)
    ensures r.Ok? ==> r.value.id == v && r.value.model == s.vehicles[v].model && r.value.plateNumber == s.vehicles[v].plateNumber
    ensures r.Ok? ==>
      && r.value.year == s.vehicles[v].year && r.value.chassis == s.vehicles[v].chassis
      && r.value.engine == s.vehicles[v].engine && r.value.createdAt == s.vehicles[v].createdAt
      && r.value == View(v, s.vehicles[v])
  {
    if Owned(s, user, v) then Ok(View(v, s.vehicles[v])) else Err(Http(404, VehicleNotFound))
  }

  /** Another user's vehicle is answered exactly like an id that does not exist. */
  lemma ForeignVehicleHidden(s: Store, owner: Id, other: Id, v: Id, missing: Id)
    requires Owned(s, owner, v) && other != owner && missing !in s.vehicles
    ensures GetVehicle(s, other, v) == GetVehicle(s, other, missing) == Err(Http(404, VehicleNotFound))
  {
  }

  // ---------------------------------------------------------------------------
  // createVehicle / updateVehicle

  datatype VehicleBody = VehicleBody(
    model: Field<string>, year: Field<string>, chassis: Field<string>,
    engine: Field<string>, plateNumber: Field<string>)

  predicate VehicleComplete(b: VehicleBody) {
    TruthyText(b.model) && TruthyText(b.year) && TruthyText(b.chassis) && TruthyText(b.engine)
  }

  /** `newId` is the auto-increment id and `now` the insert time. */
  function CreateVehicle(s: Store, user: Id, b: VehicleBody, newId: Id, now: Instant): (r: Result<Store, Error>)
    ensures !VehicleComplete(b) ==> r == Err(Http(400, MissingVehicleFields))
    ensures VehicleComplete(b) && user !in s.users ==> r == Err(Db(ForeignKey))
    ensures r.Ok? <==> VehicleComplete(b) && user in s.users && newId !in s.vehicles
    ensures r.Ok? ==>
      && r.value.vehicles == s.vehicles[newId := Vehicle(
           user, b.model.value, b.year.value, b.chassis.value, b.engine.value, TextOrNull(b.plateNumber), now)]
      && r.value.(vehicles := s.vehicles) == s
  {
    if !VehicleComplete(b) then Err(Http(400, MissingVehicleFields))
    else if user !in s.users then Err(Db(ForeignKey))
    else if newId in s.vehicles then Err(Db(DuplicateKey))
    else Ok(s.(vehicles := s.vehicles[newId := Vehicle(
      user, b.model.value, b.year.value, b.chassis.value, b.engine.value, TextOrNull(b.plateNumber), now)]))
  }

  lemma CreateVehicleValid(s: Store, user: Id, b: VehicleBody, newId: Id, now: Instant)
    requires Valid(s)
    ensures CreateVehicle(s, user, b, newId, now).Ok? ==> Valid(CreateVehicle(s, user, b, newId, now).value)
  {
  }

  /** The update replaces all five columns; an omitted plate number is cleared, not kept. */
  function UpdateVehicle(s: Store, user: Id, v: Id, b: VehicleBody): (r: Result<Store, Error>)
    ensures !VehicleComplete(b) ==> r == Err(Http(400, MissingVehicleFields))
    ensures VehicleComplete(b) && !Owned(s, user, v) ==> r == Err(Http(404, VehicleNotFound))
    ensures r.Ok? <==> VehicleComplete(b) && Owned(s, user, v)
    ensures r.Ok? ==>
      && r.value.vehicles.Keys == s.vehicles.Keys
      && (forall w :: w in s.vehicles && w != v ==> r.value.vehicles[w] == s.vehicles[w])
      && r.value.(vehicles := s.vehicles) == s
    ensures r.Ok? ==>
      var now := r.value.vehicles[v];
      && now.userId == user && now.createdAt == s.vehicles[v].createdAt
      && now.model == b.model.value && now.year == b.year.value
      && now.chassis == b.chassis.value && now.engine == b.engine.value
      && now.plateNumber == TextOrNull(b.plateNumber)
  {
    if !VehicleComplete(b) then Err(Http(400, MissingVehicleFields))
    else if !Owned(s, user, v) then Err(Http(404, VehicleNotFound))
    else
      var was := s.vehicles[v];
      Ok(s.(vehicles := s.vehicles[v := Vehicle(
        user, b.model.value, b.year.value, b.chassis.value, b.engine.value, TextOrNull(b.plateNumber), was.createdAt)]))
  }

  /** The stored row after an update depends only on the body, never on what it replaced. */
  lemma UpdateReplacesAll(s: Store, t: Store, user: Id, v: Id, b: VehicleBody)
    requires UpdateVehicle(s, user, v, b).Ok? && UpdateVehicle(t, user, v, b).Ok?
    requires s.vehicles[v].createdAt == t.vehicles[v].createdAt
    ensures UpdateVehicle(s, user, v, b).value.vehicles[v] == UpdateVehicle(t, user, v, b).value.vehicles[v]
  {
  }

  lemma UpdateVehicleValid(s: Store, user: Id, v: Id, b: VehicleBody)
    requires Valid(s)
    ensures UpdateVehicle(s, user, v, b).Ok? ==> Valid(UpdateVehicle(s, user, v, b).value)
  {
  }

  // ---------------------------------------------------------------------------
  // deleteVehicle

  function DeleteVehicle(s: Store, user: Id, v: Id): (r: Result<Store, Error>)
    ensures r.Ok? <==> Owned(s, user, v)
    ensures r.Err? ==> r.error == Http(404, VehicleNotFound)
    ensures r.Ok? ==>
      && r.value.vehicles.Keys == s.vehicles.Keys - {v}
      && (forall w :: w in r.value.vehicles ==> r.value.vehicles[w] == s.vehicles[w])
      && r.value.(vehicles := s.vehicles) == s
  {
    if !Owned(s, user, v) then Err(Http(404, VehicleNotFound))
    else Ok(s.(vehicles := s.vehicles - {v}))
  }

  lemma DeleteVehicleValid(s: Store, user: Id, v: Id)
    requires Valid(s)
    ensures DeleteVehicle(s, user, v).Ok? ==> Valid(DeleteVehicle(s, user, v).value)
  {
  }

  // ---------------------------------------------------------------------------
  // getUserVehicles

  predicate NewestFirst(vs: seq<VehicleView>) {
    forall i, j :: 0 <= i < j < |vs| ==> vs[i].createdAt >= vs[j].createdAt
  }

  /** Inserts a row into a newest-first list ahead of everything older than it. */
  function {:induction false} InsertNewest(vs: seq<VehicleView>, v: VehicleView): (r: seq<VehicleView>)
    requires NewestFirst(vs)
    ensures NewestFirst(r)
    ensures multiset(r) == multiset(vs) + multiset{v}
  {
    if vs == [] then [v]
    else if v.createdAt >= vs[0].createdAt then [v] + vs
    else
      var rest := InsertNewest(vs[1..], v);
      assert vs == [vs[0]] + vs[1..];
      HeadNewest(vs, v, rest);
      [vs[0]] + rest
  }

  lemma HeadNewest(vs: seq<VehicleView>, v: VehicleView, rest: seq<VehicleView>)
    requires vs != [] && NewestFirst(vs) && NewestFirst(rest)
    requires v.createdAt < vs[0].createdAt
    requires multiset(rest) == multiset(vs[1..]) + multiset{v}
    ensures NewestFirst([vs[0]] + rest)
  {
    forall x | x in rest
      ensures vs[0].createdAt >= x.createdAt
    {
      assert x in multiset(rest);
      if x != v {
        assert x in multiset(vs[1..]);
        var j :| 0 <= j < |vs[1..]| && vs[1..][j] == x;
        assert vs[j + 1] == x;
      }
    }
    var r := [vs[0]] + rest;
    forall i, j | 0 <= i < j < |r|
      ensures r[i].createdAt >= r[j].createdAt
    {
      if i == 0 {
        assert r[j] == rest[j - 1];
        assert r[j] in rest;
      } else {
        assert r[i] == rest[i - 1] && r[j] == rest[j - 1];
      }
    }
  }

  /** A row of the listing: the view of an owned vehicle under its own id. */
  predicate Listed(s: Store, user: Id, e: VehicleView) {
    Owned(s, user, e.id) && e == View(e.id, s.vehicles[e.id])
  }

  lemma HasElement(t: set<Id>)
    requires |t| > 0
    ensures exists k :: k in t
  {
    if forall k :: k !in t {
      assert false;
    }
  }

  /** Exactly the user's vehicles, each once, newest first. */
  method GetUserVehicles(s: Store, user: Id) returns (r: seq<VehicleView>)
    ensures NewestFirst(r)
    ensures forall e :: multiset(r)[e] == if Listed(s, user, e) then 1 else 0
  {
    r := [];
    var todo := s.vehicles.Keys;
    while |todo| > 0
      invariant todo <= s.vehicles.Keys
      invariant NewestFirst(r)
      invariant forall e :: multiset(r)[e] == if e.id !in todo && Listed(s, user, e) then 1 else 0
      decreases |todo|
    {
      HasElement(todo);
      var k :| k in todo;
      if s.vehicles[k].userId == user {
        r := InsertNewest(r, View(k, s.vehicles[k]));
      }
      todo := todo - {k};
    }
  }
}
