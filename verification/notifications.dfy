/**
 * Notification settings: one row per user, read with defaults when the
 * user has none, and written by an upsert in which every omitted or null
 * field takes its default.
 */
module Notifications {
  import opened Wrappers
  import opened Js
  import opened Schema

  /** The column defaults: push, email, order updates and reminders on; SMS and promotions off. */
  const Defaults := Settings(true, true, false, true, true, false)

  datatype SettingsBody = SettingsBody(
    push: Field<bool>, email: Field<bool>, sms: Field<bool>,
    orderUpdates: Field<bool>, serviceReminders: Field<bool>, promotions: Field<bool>)

  function GetSettings(s: Store, user: Id): (r: Settings)
    ensures user in s.settings ==> r == s.settings[user]
    ensures user !in s.settings ==>
      && r.push && r.email && !r.sms && r.orderUpdates && r.serviceReminders && !r.promotions
  {
    if user in s.settings then s.settings[user] else Defaults
  }

  /** Each field with `??` against its default: the row written does not depend on the old row. */
  function Written(b: SettingsBody): (r: Settings)
    ensures r.push == (if b.push.Val? then b.push.value else Defaults.push)
    ensures r.email == (if b.email.Val? then b.email.value else Defaults.email)
    ensures r.sms == (if b.sms.Val? then b.sms.value else Defaults.sms)
    ensures r.orderUpdates == (if b.orderUpdates.Val? then b.orderUpdates.value else Defaults.orderUpdates)
    ensures r.serviceReminders == (if b.serviceReminders.Val? then b.serviceReminders.value else Defaults.serviceReminders)
    ensures r.promotions == (if b.promotions.Val? then b.promotions.value else Defaults.promotions)
  {
    Settings(
      b.push.Coalesce(Defaults.push), b.email.Coalesce(Defaults.email), b.sms.Coalesce(Defaults.sms),
      b.orderUpdates.Coalesce(Defaults.orderUpdates), b.serviceReminders.Coalesce(Defaults.serviceReminders),
      b.promotions.Coalesce(Defaults.promotions))
  }

  /**
   * Insert when the user has no row, update otherwise. The insert of a row
   * for an unknown user is refused by the foreign key; the update of an
   * existing row cannot be.
   */
  function UpdateSettings(s: Store, user: Id, b: SettingsBody): (r: Result<Store, Error>)
    ensures r.Ok? <==> user in s.settings || user in s.users
    ensures r.Err? ==> r.error == Db(ForeignKey)
    ensures r.Ok? ==> r.value == s.(settings := s.settings[user := Written(b)])
  {
    if user in s.settings || user in s.users then Ok(s.(settings := s.settings[user := Written(b)]))
    else Err(Db(ForeignKey))
  }

  /** The upsert keeps one row per user, touches no other user's row and no other table. */
  lemma UpsertKeepsOthers(s: Store, user: Id, b: SettingsBody)
    requires UpdateSettings(s, user, b).Ok?
    ensures var t := UpdateSettings(s, user, b).value;
      && t.settings.Keys == s.settings.Keys + {user}
      && (forall u :: u in s.settings && u != user ==> t.settings[u] == s.settings[u])
      && t.(settings := s.settings) == s
  {
  }

  /** After an update, a read returns exactly the values written. */
  lemma GetAfterUpdate(s: Store, user: Id, b: SettingsBody)
    requires UpdateSettings(s, user, b).Ok?
    ensures GetSettings(UpdateSettings(s, user, b).value, user) == Written(b)
  {
  }

  /** An omitted or null field is reset to its default, not kept from the old row. */
  lemma OmittedResets(s: Store, user: Id, b: SettingsBody)
    requires UpdateSettings(s, user, b).Ok? && !b.sms.Val? && !b.push.Val?
    ensures !GetSettings(UpdateSettings(s, user, b).value, user).sms
    ensures GetSettings(UpdateSettings(s, user, b).value, user).push
  {
  }

  /** Sending the same body twice leaves the same state as sending it once. */
  lemma UpdateIdempotent(s: Store, user: Id, b: SettingsBody)
    requires UpdateSettings(s, user, b).Ok?
    ensures UpdateSettings(UpdateSettings(s, user, b).value, user, b) == UpdateSettings(s, user, b)
  {
    var s1 := UpdateSettings(s, user, b).value;
    assert s1.settings[user := Written(b)] == s1.settings;
  }

  /** An empty body applied to a user without a row stores what a read already showed. */
  lemma EmptyBodyStoresDefaults(s: Store, user: Id)
    requires user !in s.settings && user in s.users
    ensures var e := SettingsBody(Undefined, Undefined, Undefined, Undefined, Undefined, Undefined);
      GetSettings(UpdateSettings(s, user, e).value, user) == GetSettings(s, user)
  {
  }

  lemma UpdateSettingsValid(s: Store, user: Id, b: SettingsBody)
    requires Valid(s)
    ensures UpdateSettings(s, user, b).Ok? ==> Valid(UpdateSettings(s, user, b).value)
  {
  }
}
