/**
 * The towing screen: the fixed-rate estimate, the request button and the
 * destination that follows the selected workshop.
 */
module TowingForm {
  import opened Wrappers
  import opened Js
  import opened Schema
  import Shop
  import Ledger

  /** The one towing rate, 500, in cents. */
  const FixedRate: Cents := 50000

  datatype State = State(pickup: string, destination: string)

  /** The screen as it mounts: the destination is the selected workshop's name, or empty. */
  function Initial(workshop: Option<Shop.WorkshopChoice>): (r: State)
    ensures r.pickup == ""
    ensures r.destination == if workshop.Some? then workshop.value.name else ""
  {
    State("", if workshop.Some? then workshop.value.name else "")
  }

  /** The effect on a change of selected workshop: the destination becomes its name. */
  function SelectWorkshop(st: State, workshop: Option<Shop.WorkshopChoice>): (r: State)
    ensures r.pickup == st.pickup
    ensures workshop.Some? ==> r.destination == workshop.value.name
    ensures workshop.None? ==> r == st
  {
    if workshop.Some? then st.(destination := workshop.value.name) else st
  }

  /** Nothing to estimate while both places are empty; any place gives the fixed rate. */
  function Estimate(st: State): (c: Cents)
    ensures c == 0 <==> st.pickup == "" && st.destination == ""
    ensures c != 0 ==> c == FixedRate
  {
    if st.pickup == "" && st.destination == "" then 0 else FixedRate
  }

  const NoWorkshop := "Please select a workshop first"
  const NoPickup := "Please enter pickup location"

  datatype TowingRequest = TowingRequest(
    workshopId: int, workshopName: string, amount: Cents,
    pickup: string, destination: string, userId: Option<int>)

  datatype Submission = Refused(message: string) | Sent(request: TowingRequest)

  function Request(st: State, workshop: Option<Shop.WorkshopChoice>, session: Option<Shop.Session>): (r: Submission)
    ensures workshop.None? ==> r == Refused(NoWorkshop)
    ensures workshop.Some? && st.pickup == "" ==> r == Refused(NoPickup)
    ensures r.Sent? <==> workshop.Some? && st.pickup != ""
    ensures r.Sent? ==>
      && r.request.workshopId == workshop.value.id && r.request.workshopName == workshop.value.name
      && r.request.amount == Estimate(st) && r.request.pickup == st.pickup
      && r.request.destination == (if st.destination != "" then st.destination else workshop.value.name)
      && (session.None? ==> r.request.userId.None?)
      && r.request.userId == Shop.SessionUserId(session)
  {
    if workshop.None? then Refused(NoWorkshop)
    else if st.pickup == "" then Refused(NoPickup)
    else
      var w := workshop.value;
      Sent(TowingRequest(
        w.id, w.name, Estimate(st), st.pickup,
        if st.destination != "" then st.destination else w.name,
        Shop.SessionUserId(session)))
  }

  /** Because a request needs a pickup, every request sent is priced at the fixed rate. */
  lemma SentAtFixedRate(st: State, workshop: Option<Shop.WorkshopChoice>, session: Option<Shop.Session>)
    requires Request(st, workshop, session).Sent?
    ensures Request(st, workshop, session).request.amount == FixedRate
  {
  }

  /** After an accepted request the pickup is cleared and the destination is the workshop again. */
  function AfterRequest(st: State, r: Submission, accepted: bool): (s: State)
    ensures r.Sent? && accepted ==> s == Initial(Some(Shop.WorkshopChoice(r.request.workshopId, r.request.workshopName)))
    ensures !(r.Sent? && accepted) ==> s == st
  {
    if r.Sent? && accepted then State("", r.request.workshopName) else st
  }

  /** The JSON body the backend's towing handler parses. */
  function Body(q: TowingRequest): Ledger.TowingBody {
    Ledger.TowingBody(
      Val(q.workshopId), Val(q.workshopName), Val(q.amount), Val(q.pickup), Val(q.destination),
      if q.userId.Some? then Val(q.userId.value) else Field.Null)
  }

  /**
   * A request the screen sends passes the backend's field checks exactly
   * when the workshop has a non-zero id and a non-empty name; the name also
   * covers a destination that fell back to it.
   */
  lemma SentPassesServerChecks(st: State, workshop: Option<Shop.WorkshopChoice>, session: Option<Shop.Session>)
    requires Request(st, workshop, session).Sent?
    ensures var b := Body(Request(st, workshop, session).request);
      Ledger.TowingComplete(b) <==> workshop.value.id != 0 && workshop.value.name != ""
  {
  }
}
