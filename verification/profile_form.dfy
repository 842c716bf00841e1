/**
 * The profile screen: the notification switches, the vehicle list and its
 * form, and the profile payload sent to the user handler.
 */
module ProfileForm {
  import opened Wrappers
  import opened Js
  import opened Seqs
  import opened Schema
  import Notifications
  import Vehicles
  import Users

  // ---------------------------------------------------------------------------
  // Notification switches

  datatype Switch = PushSwitch | EmailSwitch | SmsSwitch | OrderUpdatesSwitch | ServiceRemindersSwitch | PromotionsSwitch

  function Get(s: Settings, k: Switch): bool {
    match k
    case PushSwitch => s.push
    case EmailSwitch => s.email
    case SmsSwitch => s.sms
    case OrderUpdatesSwitch => s.orderUpdates
    case ServiceRemindersSwitch => s.serviceReminders
    case PromotionsSwitch => s.promotions
  }

  /** The switches as the screen mounts, before the stored row arrives. */
  const InitialSwitches := Settings(true, true, false, true, true, false)

  /** What a toggle leaves on screen and, when there is a user, the update it sends for that user. */
  datatype Toggled = Toggled(shown: Settings, sent: Option<(Id, Settings)>)

  /** `{ ...notifications, [key]: value }`, sent whole; without a user nothing happens. */
  function Toggle(user: Option<Id>, s: Settings, k: Switch, v: bool): (r: Toggled)
    ensures user.None? ==> r == Toggled(s, None)
    ensures user.Some? ==> r.sent == Some((user.value, r.shown))
    ensures user.Some? ==> Get(r.shown, k) == v && forall j :: j != k ==> Get(r.shown, j) == Get(s, j)
  {
    if user.None? then Toggled(s, None)
    else
      var t := match k
        case PushSwitch => s.(push := v)
        case EmailSwitch => s.(email := v)
        case SmsSwitch => s.(sms := v)
        case OrderUpdatesSwitch => s.(orderUpdates := v)
        case ServiceRemindersSwitch => s.(serviceReminders := v)
        case PromotionsSwitch => s.(promotions := v);
      Toggled(t, Some((user.value, t)))
  }

  /** The body of the update: all six switches, none omitted. */
  function Body(s: Settings): Notifications.SettingsBody {
    Notifications.SettingsBody(
      Val(s.push), Val(s.email), Val(s.sms), Val(s.orderUpdates), Val(s.serviceReminders), Val(s.promotions))
  }

  /** The screen starts from the values the server reports for a user with no stored row. */
  lemma InitialMatchesServerDefaults(store: Store, user: Id)
    requires user !in store.settings
    ensures Notifications.GetSettings(store, user) == InitialSwitches
  {
  }

  /**
   * Since every switch is sent, a successful update stores exactly what the
   * screen shows: nothing falls back to a default.
   */
  lemma ToggleSyncsServer(store: Store, user: Id, s: Settings, k: Switch, v: bool)
    requires Notifications.UpdateSettings(store, user, Body(Toggle(Some(user), s, k, v).shown)).Ok?
    ensures var shown := Toggle(Some(user), s, k, v).shown;
      Notifications.GetSettings(Notifications.UpdateSettings(store, user, Body(shown)).value, user) == shown
  {
    Notifications.GetAfterUpdate(store, user, Body(Toggle(Some(user), s, k, v).shown));
  }

  // ---------------------------------------------------------------------------
  // Vehicles

  datatype CarInfo = CarInfo(id: Id, model: string, year: string, chassis: string, engine: string, plateNumber: Option<string>)

  datatype VehicleForm = VehicleForm(model: string, year: string, chassis: string, engine: string, plateNumber: string)

  const EmptyVehicleForm := VehicleForm("", "", "", "", "")

  const NotLoggedIn := "User not logged in"
  const MissingVehicleFields := "Please fill in all required fields"

  predicate FormFilled(f: VehicleForm) {
    f.model != "" && f.year != "" && f.chassis != "" && f.engine != ""
  }

  /** Why the save button sends nothing, if it does not. */
  function SaveRefusal(user: Option<Id>, f: VehicleForm): (r: Option<string>)
    ensures user.None? ==> r == Some(NotLoggedIn)
    ensures user.Some? && !FormFilled(f) ==> r == Some(MissingVehicleFields)
    ensures r.None? <==> user.Some? && FormFilled(f)
  {
    if user.None? then Some(NotLoggedIn)
    else if !FormFilled(f) then Some(MissingVehicleFields)
    else None
  }

  /** The body the vehicle handlers parse from the form. */
  function VehicleBody(f: VehicleForm): Vehicles.VehicleBody {
    Vehicles.VehicleBody(Val(f.model), Val(f.year), Val(f.chassis), Val(f.engine), Val(f.plateNumber))
  }

  /** A form the screen lets through meets the backend's required-field rule, and an empty plate is stored as null. */
  lemma FilledFormAccepted(f: VehicleForm)
    requires FormFilled(f)
    ensures Vehicles.VehicleComplete(VehicleBody(f))
    ensures f.plateNumber == "" ==> TextOrNull(VehicleBody(f).plateNumber) == None
  {
  }

  /** `vehicles.map(v => v.id === editing.id ? saved : v)`. */
  function {:induction false} ReplaceById(vehicles: seq<CarInfo>, id: Id, saved: CarInfo): (r: seq<CarInfo>)
    ensures |r| == |vehicles|
    ensures forall i :: 0 <= i < |r| ==> r[i] == if vehicles[i].id == id then saved else vehicles[i]
  {
    if vehicles == [] then [] else [if vehicles[0].id == id then saved else vehicles[0]] + ReplaceById(vehicles[1..], id, saved)
  }

  /** The list after the server answered a save: the edited vehicle replaced in place, or the new one appended. */
  function ApplySaved(vehicles: seq<CarInfo>, editing: Option<Id>, saved: CarInfo): (r: seq<CarInfo>)
    ensures editing.Some? ==> |r| == |vehicles|
    ensures editing.Some? ==> forall i :: 0 <= i < |r| ==>
      r[i] == if vehicles[i].id == editing.value then saved else vehicles[i]
    ensures editing.None? ==> |r| == |vehicles| + 1 && r[..|vehicles|] == vehicles && r[|vehicles|] == saved
  {
    if editing.Some? then ReplaceById(vehicles, editing.value, saved) else vehicles + [saved]
  }

  /** `vehicles.filter(v => v.id !== vehicleId)`. */
  function DeleteById(vehicles: seq<CarInfo>, id: Id): (r: seq<CarInfo>)
    ensures forall i :: 0 <= i < |r| ==> r[i].id != id && r[i] in vehicles
    ensures forall i :: 0 <= i < |vehicles| && vehicles[i].id != id ==> vehicles[i] in r
  {
    Filter(vehicles, (v: CarInfo) => v.id != id)
  }

  /** Deleting keeps the remaining vehicles in order: it distributes over concatenation. */
  lemma DeleteKeepsOrder(a: seq<CarInfo>, b: seq<CarInfo>, id: Id)
    ensures DeleteById(a + b, id) == DeleteById(a, id) + DeleteById(b, id)
  {
    FilterConcat(a, b, (v: CarInfo) => v.id != id);
  }

  /** Deleting a vehicle just added, under an id no other vehicle has, gives back the list. */
  lemma DeleteUndoesAdd(vehicles: seq<CarInfo>, saved: CarInfo)
    requires forall i :: 0 <= i < |vehicles| ==> vehicles[i].id != saved.id
    ensures DeleteById(ApplySaved(vehicles, None, saved), saved.id) == vehicles
  {
    var keep := (v: CarInfo) => v.id != saved.id;
    FilterConcat(vehicles, [saved], keep);
    FilterAll(vehicles, keep);
    assert Filter([saved], keep) == [];
  }

  /** An edit that keeps the id leaves the list of ids as it was. */
  lemma EditKeepsIds(vehicles: seq<CarInfo>, id: Id, saved: CarInfo)
    requires saved.id == id
    ensures var r := ApplySaved(vehicles, Some(id), saved);
      |r| == |vehicles| && forall i :: 0 <= i < |r| ==> r[i].id == vehicles[i].id
  {
  }

  /** The form a vehicle opens for editing: its fields, with a missing plate shown empty. */
  function EditForm(v: CarInfo): (f: VehicleForm)
    ensures f.model == v.model && f.year == v.year && f.chassis == v.chassis && f.engine == v.engine
    ensures f.plateNumber == if v.plateNumber.Some? then v.plateNumber.value else ""
  {
    VehicleForm(v.model, v.year, v.chassis, v.engine, if v.plateNumber.Some? then v.plateNumber.value else "")
  }

  /** Re-saving an unchanged vehicle sends back its own fields; the plate read back through null is the same. */
  lemma EditFormRoundTrip(v: CarInfo)
    requires v.plateNumber != Some("")
    ensures TextOrNull(VehicleBody(EditForm(v)).plateNumber) == v.plateNumber
  {
  }

  datatype VehicleScreen = VehicleScreen(
    vehicles: seq<CarInfo>, editing: Option<Id>, form: VehicleForm, showForm: bool)

  /** The save button with the server's answer: `saved` is the stored vehicle, `None` a failed call. */
  function SaveVehicle(st: VehicleScreen, user: Option<Id>, saved: Option<CarInfo>): (r: VehicleScreen)
    ensures SaveRefusal(user, st.form).Some? || saved.None? ==> r == st
    ensures SaveRefusal(user, st.form).None? && saved.Some? ==>
      && r.vehicles == ApplySaved(st.vehicles, st.editing, saved.value)
      && r.form == EmptyVehicleForm && r.editing.None? && !r.showForm
  {
    if SaveRefusal(user, st.form).Some? || saved.None? then st
    else VehicleScreen(ApplySaved(st.vehicles, st.editing, saved.value), None, EmptyVehicleForm, false)
  }

  // ---------------------------------------------------------------------------
  // Profile payload

  datatype ProfileInputs = ProfileInputs(name: string, email: string, phone: string, password: string)

  /** Name and email always; phone only when non-empty; password only when not blank after trim. */
  function Payload(p: ProfileInputs): (r: Users.ProfilePatch)
    ensures r.name == Val(p.name) && r.email == Val(p.email)
    ensures r.phone == if p.phone != "" then Val(p.phone) else Undefined
    ensures r.password.Val? <==> p.password != "" && Trim(p.password) != ""
    ensures r.password.Val? ==> r.password.value == p.password
  {
    Users.ProfilePatch(
      Val(p.name), Val(p.email),
      if p.phone != "" then Val(p.phone) else Undefined,
      if p.password != "" && Trim(p.password) != "" then Val(p.password) else Undefined)
  }

  /** The screen sends a password exactly when the user handler would rehash one. */
  lemma PasswordSentIffRehashed(p: ProfileInputs)
    ensures Payload(p).password.Val? <==> Users.Rehashes(Val(p.password))
  {
  }

  /**
   * Clearing the phone field cannot clear the stored phone: the payload
   * omits it and the user handler then keeps the stored value.
   */
  lemma ClearedPhoneKept(s: Store, id: Id, p: ProfileInputs, salt: nat)
    requires p.phone == "" && Users.UpdateUser(s, id, Payload(p), salt).Ok?
    ensures Users.UpdateUser(s, id, Payload(p), salt).value.store.users[id].phone == s.users[id].phone
  {
  }

  /** The inputs as the effect on the user fills them: a missing phone shows empty, the password stays as typed. */
  function FromUser(u: Users.UserView, password: string): (r: ProfileInputs)
    ensures r.name == u.name && r.email == u.email && r.password == password
    ensures r.phone == if u.phone.Some? then u.phone.value else ""
  {
    ProfileInputs(u.name, u.email, if u.phone.Some? then u.phone.value else "", password)
  }

  /**
   * Saving the profile unchanged, with no new password, leaves the stored
   * user as it was, when its email is non-empty and its name and phone are
   * not the empty string.
   */
  lemma UnchangedSaveIsNoop(s: Store, id: Id, salt: nat)
    requires EmailsUnique(s) && id in s.users
    requires s.users[id].email != "" && s.users[id].name != "" && s.users[id].phone != Some("")
    ensures var p := Payload(FromUser(Users.View(id, s.users[id]), ""));
      && Users.UpdateUser(s, id, p, salt).Ok?
      && Users.UpdateUser(s, id, p, salt).value.store.users[id] == s.users[id]
  {
    var p := Payload(FromUser(Users.View(id, s.users[id]), ""));
    Users.KeepingOwnEmail(s, id, p, salt);
  }
}
