/**
 * The quotation screen: the quote tier's limits on the description and the
 * photos, the photo picker, the submit button and the read marks set by
 * opening the history index.
 */
module QuotationForm {
  import opened Wrappers
  import opened Js
  import opened Seqs
  import opened Schema
  import App
  import Shop
  import Ledger

  // ---------------------------------------------------------------------------
  // Tier limits and prices

  /** The longest description the tier accepts. */
  function MaxLength(t: QuoteType): (n: nat)
    ensures t == Brief ==> n == 100
    ensures t == Detailed ==> n == 300
  {
    if t == Brief then 100 else 300
  }

  /** The most photos the tier accepts. */
  function MaxPhotos(t: QuoteType): (n: nat)
    ensures t == Brief ==> n == 3
    ensures t == Detailed ==> n == 6
  {
    if t == Brief then 3 else 6
  }

  /** The price sent with a request: 5 for a brief report, 15 for a detailed one, in cents. */
  function Price(t: QuoteType): (c: Cents)
    ensures t == Brief ==> c == 500
    ensures t == Detailed ==> c == 1500
  {
    if t == Brief then 500 else 1500
  }

  /** The `type` sent with a request, which the backend puts in the title. */
  function Label(t: QuoteType): (r: string)
    ensures r != [] && 'A' <= r[0] <= 'Z'
    ensures Lower(r) == t.Name()
  {
    if t == Brief then "Brief" else "Detailed"
  }

  // ---------------------------------------------------------------------------
  // Screen state

  datatype Form = Form(model: string, year: string, chassis: string, engine: string, description: string)

  const EmptyForm := Form("", "", "", "", "")

  datatype State = State(form: Form, tier: QuoteType, images: seq<string>)

  /** The description and the photos fit the selected tier. */
  predicate WithinLimits(st: State) {
    |st.form.description| <= MaxLength(st.tier) && |st.images| <= MaxPhotos(st.tier)
  }

  function Min(a: nat, b: nat): nat {
    if a <= b then a else b
  }

  /**
   * Selecting a tier, followed by the effect that runs on the change: the
   * description is cut to the tier's length and the photos to its count.
   */
  function SelectTier(st: State, t: QuoteType): (r: State)
    ensures r.tier == t && WithinLimits(r)
    ensures r.form.description <= st.form.description
    ensures |r.form.description| == Min(|st.form.description|, MaxLength(t))
    ensures r.images <= st.images && |r.images| == Min(|st.images|, MaxPhotos(t))
    ensures r.form.(description := st.form.description) == st.form
  {
    var d := st.form.description;
    var description := if |d| > MaxLength(t) then d[..MaxLength(t)] else d;
    var images := if |st.images| > MaxPhotos(t) then st.images[..MaxPhotos(t)] else st.images;
    State(st.form.(description := description), t, images)
  }

  /** Nothing is cut when the state already fits the new tier, in particular when widening from brief. */
  lemma SelectTierKeepsWhatFits(st: State, t: QuoteType)
    requires |st.form.description| <= MaxLength(t) && |st.images| <= MaxPhotos(t)
    ensures SelectTier(st, t) == st.(tier := t)
  {
  }

  /** Brief to detailed and back cuts exactly as going to brief directly. */
  lemma RoundTripThroughDetailed(st: State)
    ensures SelectTier(SelectTier(st, Detailed), Brief) == SelectTier(st, Brief)
  {
    var d := st.form.description;
    if |d| > 300 {
      assert d[..300][..100] == d[..100];
    }
    if |st.images| > 6 {
      assert st.images[..6][..3] == st.images[..3];
    }
  }

  // ---------------------------------------------------------------------------
  // Photos

  const JpegDataPrefix := "data:image/jpeg;base64,"

  /** Each picked asset becomes a JPEG data URL of its base64 payload. */
  function {:induction false} DataUrls(payloads: seq<string>): (r: seq<string>)
    ensures |r| == |payloads|
    ensures forall i :: 0 <= i < |r| ==> r[i] == JpegDataPrefix + payloads[i]
  {
    if payloads == [] then [] else [JpegDataPrefix + payloads[0]] + DataUrls(payloads[1..])
  }

  datatype Pick = LimitReached(message: string) | Picked(images: seq<string>)

  /** `Maximum ${maxPhotos} photos allowed for ${quoteType} report.` */
  function LimitMessage(t: QuoteType): string {
    "Maximum " + DecimalString(MaxPhotos(t)) + " photos allowed for " + t.Name() + " report."
  }

  /**
   * The picker opens only while there is a free slot. A cancelled or empty
   * selection changes nothing; otherwise the new photos are appended and the
   * list is cut to the tier's count.
   */
  function PickImage(st: State, picked: Option<seq<string>>): (r: Pick)
    ensures r.LimitReached? <==> |st.images| >= MaxPhotos(st.tier)
    ensures r.LimitReached? ==> r.message == LimitMessage(st.tier)
    ensures r.Picked? && (picked.None? || picked.value == []) ==> r.images == st.images
    ensures r.Picked? && picked.Some? ==>
      && st.images <= r.images
      && r.images <= st.images + DataUrls(picked.value)
      && |r.images| == Min(|st.images| + |picked.value|, MaxPhotos(st.tier))
  {
    var max := MaxPhotos(st.tier);
    if max - |st.images| <= 0 then LimitReached(LimitMessage(st.tier))
    else if picked.None? || picked.value == [] then Picked(st.images)
    else
      var all := st.images + DataUrls(picked.value);
      Picked(if |all| > max then all[..max] else all)
  }

  /** `images.filter((_, i) => i !== index)`. */
  function RemoveImage(images: seq<string>, index: int): (r: seq<string>)
    ensures 0 <= index < |images| ==> |r| == |images| - 1
    ensures 0 <= index < |images| ==> forall i :: 0 <= i < |r| ==> r[i] == if i < index then images[i] else images[i + 1]
    ensures !(0 <= index < |images|) ==> r == images
  {
    if 0 <= index < |images| then images[..index] + images[index + 1..] else images
  }

  /** A state within its limits stays within them after every photo or text action. */
  lemma ActionsKeepLimits(st: State, picked: Option<seq<string>>, index: int, text: string)
    requires WithinLimits(st)
    ensures PickImage(st, picked).Picked? ==> WithinLimits(st.(images := PickImage(st, picked).images))
    ensures WithinLimits(st.(images := RemoveImage(st.images, index)))
    ensures WithinLimits(EditDescription(st, text))
  {
  }

  /** Typing keeps the description only when it fits the tier; a longer text is ignored. */
  function EditDescription(st: State, text: string): (r: State)
    ensures |text| <= MaxLength(st.tier) ==> r.form.description == text
    ensures |text| > MaxLength(st.tier) ==> r == st
    ensures r.form.(description := st.form.description) == st.form && r.tier == st.tier && r.images == st.images
  {
    if |text| <= MaxLength(st.tier) then st.(form := st.form.(description := text)) else st
  }

  // ---------------------------------------------------------------------------
  // Submit

  const NoWorkshop := "Please select a workshop first"
  const MissingVehicle := "Please fill in all required fields (Model, Year, Engine, Chassis)"

  datatype QuotationRequest = QuotationRequest(
    kind: string, model: string, year: string, engine: string, chassis: string,
    description: string, quoteType: QuoteType, images: seq<string>,
    workshopId: int, amount: Cents, userId: Option<int>)

  datatype Submission = Refused(message: string) | Sent(request: QuotationRequest)

  predicate VehicleFilled(f: Form) {
    f.model != "" && f.year != "" && f.engine != "" && f.chassis != ""
  }

  function Submit(st: State, workshop: Option<Shop.WorkshopChoice>, session: Option<Shop.Session>): (r: Submission)
    ensures workshop.None? ==> r == Refused(NoWorkshop)
    ensures workshop.Some? && !VehicleFilled(st.form) ==> r == Refused(MissingVehicle)
    ensures r.Sent? <==> workshop.Some? && VehicleFilled(st.form)
    ensures r.Sent? ==>
      && r.request.kind == Label(st.tier) && r.request.amount == Price(st.tier)
      && r.request.quoteType == st.tier && r.request.workshopId == workshop.value.id
      && r.request.model == st.form.model && r.request.images == st.images
      && r.request.year == st.form.year && r.request.engine == st.form.engine
      && r.request.chassis == st.form.chassis && r.request.description == st.form.description
      && (session.None? ==> r.request.userId.None?)
      && r.request.userId == Shop.SessionUserId(session)
  {
    if workshop.None? then Refused(NoWorkshop)
    else if !VehicleFilled(st.form) then Refused(MissingVehicle)
    else
      var f := st.form;
      Sent(QuotationRequest(
        Label(st.tier), f.model, f.year, f.engine, f.chassis, f.description, st.tier, st.images,
        workshop.value.id, Price(st.tier), Shop.SessionUserId(session)))
  }

  /** After an accepted request the form and the photos are cleared; the tier stays. */
  function AfterSubmit(st: State, r: Submission, accepted: bool): (s: State)
    ensures r.Sent? && accepted ==> s.form == EmptyForm && s.images == [] && s.tier == st.tier
    ensures !(r.Sent? && accepted) ==> s == st
  {
    if r.Sent? && accepted then State(EmptyForm, st.tier, []) else st
  }

  /** The JSON body the backend's quotation handler parses. */
  function Body(q: QuotationRequest): Ledger.QuotationBody {
    Ledger.QuotationBody(
      Val(q.kind), Val(q.model), Val(q.year), Val(q.engine), Val(q.chassis),
      Val(q.description), Val(q.quoteType.Name()), Val(q.images), Val(q.workshopId),
      Val(q.amount), if q.userId.Some? then Val(q.userId.value) else Field.Null)
  }

  /**
   * A request the screen sends meets none of the backend's 400 answers when
   * the workshop id is non-zero; the ledger title reads "<Brief|Detailed>
   * Quote: <model>" and the stored quote type is the tier.
   */
  lemma SentPassesServerChecks(st: State, workshop: Option<Shop.WorkshopChoice>, session: Option<Shop.Session>)
    requires Submit(st, workshop, session).Sent? && workshop.value.id != 0
    ensures var b := Body(Submit(st, workshop, session).request);
      && Ledger.VehicleComplete(b) && TruthyInt(b.workshopId)
      && Ledger.QuotationTitle(b.txType.value, b.model.value) == Label(st.tier) + " Quote: " + st.form.model
      && ParseQuoteType(TextOr(b.quoteType, "brief")) == Some(st.tier)
  {
  }

  // ---------------------------------------------------------------------------
  // Read marks

  /**
   * Opening the index adds the id of every quotation row it lists to the
   * read set; `map(t => t.id || '').filter(id => id)` drops empty ids.
   */
  function MarkRead(read: set<string>, txs: seq<App.Tx>): (r: set<string>)
    ensures read <= r
    ensures forall i :: 0 <= i < |txs| && App.IsQuotation(txs[i]) && txs[i].id != "" ==> txs[i].id in r
    ensures forall id :: id in r && id !in read ==>
      exists i :: 0 <= i < |txs| && App.IsQuotation(txs[i]) && txs[i].id == id && id != ""
  {
    read + set i | 0 <= i < |txs| && App.IsQuotation(txs[i]) && txs[i].id != "" :: txs[i].id
  }

  /** After the index is opened the badge counts zero, as long as no listed id is empty. */
  lemma OpeningIndexClearsBadge(read: set<string>, txs: seq<App.Tx>)
    requires forall i :: 0 <= i < |txs| && App.IsQuotation(txs[i]) ==> txs[i].id != ""
    ensures App.UnreadCount(txs, MarkRead(read, txs)) == 0
  {
    App.AllReadNoBadge(txs, MarkRead(read, txs));
  }

  /** A quotation row with an empty id is never marked, so it keeps counting as unread. */
  lemma EmptyIdStaysUnread(read: set<string>, txs: seq<App.Tx>, i: nat)
    requires i < |txs| && App.IsQuotation(txs[i]) && txs[i].id == "" && "" !in read
    ensures App.UnreadCount(txs, MarkRead(read, txs)) > 0
  {
    var r := MarkRead(read, txs);
    assert "" !in r;
    assert txs[i] in App.Unread(txs, r);
  }
}
