/**
 * The product catalogue handlers: the workshop-reference normaliser shared by
 * create and update, the create rules, the field-by-field update patch, and
 * delete.
 */
module Products {
  import opened Wrappers
  import opened Js
  import opened Schema

  const MissingProductFields := "Missing required fields: name, price, category, image, stock"
  const ProductNotFound := "Product not found"
  const NoFieldsToUpdate := "No fields to update"

  function WorkshopMissing(n: nat): string {
    "Workshop with ID " + DecimalString(n) + " does not exist"
  }

  /** A `workshop_id` that is missing, null or "" means "no workshop". */
  predicate Cleared(raw: Raw) {
    raw.Absent? || raw.Null? || raw == Str("")
  }

  /** The number the handler reads out of a `workshop_id` that is not cleared. */
  function ParsedId(raw: Raw): Number {
    match raw
    case Str(s) => ParseInt(s, false)
    case Num(n) => n
    case _ => NaN
  }

  /**
   * The stored `workshop_id`: null when cleared or not a positive integer,
   * the id itself when that workshop exists, and a 400 when it does not.
   */
  function NormalizeWorkshopId(raw: Raw, workshops: set<Id>): (r: Result<Option<Id>, Error>)
    ensures Cleared(raw) ==> r == Ok(None)
    ensures r.Err? <==> !Cleared(raw) && IsPositiveInteger(ParsedId(raw)) && ParsedId(raw).value !in workshops
    ensures r.Err? ==> r.error == Http(400, WorkshopMissing(ParsedId(raw).value))
    ensures r.Ok? && r.value.Some? <==> !Cleared(raw) && IsPositiveInteger(ParsedId(raw)) && ParsedId(raw).value in workshops
    ensures r.Ok? && r.value.Some? ==> r.value.value == ParsedId(raw).value
  {
    if Cleared(raw) then Ok(None)
    else
      var n := ParsedId(raw);
      if !IsPositiveInteger(n) then Ok(None)
      else if n.value in workshops then Ok(Some(n.value))
      else Err(Http(400, WorkshopMissing(n.value)))
  }

  /**
   * An existing workshop id, sent as a number or as its decimal string, is
   * stored unchanged; a string past the double range parses to an infinity,
   * which is not an integer, so null is stored instead.
   */
  lemma NormalizeExisting(n: nat, workshops: set<Id>)
    requires n > 0 && n in workshops
    ensures NormalizeWorkshopId(Num(Int(n)), workshops) == Ok(Some(n))
    ensures NormalizeWorkshopId(Str(DecimalString(n)), workshops) == if n < InfinityThreshold then Ok(Some(n)) else Ok(None)
  {
    ParseDecimal(n, false);
    NormalizeParsed(DecimalString(n), n, workshops);
  }

  /** A non-empty string that `parseInt` reads as an existing workshop's id is stored as that id. */
  lemma NormalizeParsed(s: string, v: nat, workshops: set<Id>)
    requires v > 0 && v in workshops
    ensures s != "" && ParseInt(s, false) == Int(v) ==> NormalizeWorkshopId(Str(s), workshops) == Ok(Some(v))
  {
  }

  /** Normalising the value just stored gives it back: the normaliser is idempotent. */
  lemma NormalizeIdempotent(raw: Raw, workshops: set<Id>)
    requires NormalizeWorkshopId(raw, workshops).Ok?
    ensures var v := NormalizeWorkshopId(raw, workshops).value;
      NormalizeWorkshopId(if v.Some? then Num(Int(v.value)) else Raw.Null, workshops) == Ok(v)
  {
  }

  /** Booleans, objects, zero, negatives and non-integers are dropped to null without a lookup. */
  lemma NormalizeDropsInvalid(raw: Raw, workshops: set<Id>)
    requires raw.Bool? || raw.Other? || (raw.Num? && !IsPositiveInteger(raw.n))
    ensures NormalizeWorkshopId(raw, workshops) == Ok(None)
  {
  }

  /** `parseInt(s, 10)` reads a leading run of digits, so "7abc" names workshop 7. */
  lemma NormalizeReadsPrefix(n: nat, tail: string, workshops: set<Id>)
    requires n > 0 && n in workshops
    requires tail == [] || !IsDigit(tail[0])
    ensures NormalizeWorkshopId(Str(DecimalString(n) + tail), workshops) == if n < InfinityThreshold then Ok(Some(n)) else Ok(None)
  {
    DecimalRoundTrip(n);
    ParseDigitsThenTail(DecimalString(n), tail, n);
    NormalizeParsed(DecimalString(n) + tail, n, workshops);
  }

  /**
   * A decimal id past the double range parses to an infinity, which
   * `Number.isInteger` refuses: null is stored, whatever workshops exist.
   */
  lemma NormalizeOverflowIsNull(n: nat, workshops: set<Id>)
    requires n >= InfinityThreshold
    ensures NormalizeWorkshopId(Str(DecimalString(n)), workshops) == Ok(None)
  {
    ParseDecimal(n, false);
  }

  /** `parseInt(d + tail, 10)` for digits d followed by a non-digit reads the value of d. */
  lemma ParseDigitsThenTail(d: string, tail: string, v: nat)
    requires d != [] && AllDigits(d) && DigitsValue(d, 10) == v
    requires tail == [] || !IsDigit(tail[0])
    ensures ParseInt(d + tail, false) == if v < InfinityThreshold then Int(v) else NonInteger
  {
    var s := d + tail;
    DecimalDigitValue(d[0]);
    DigitNotWhite(s[0]);
    assert s[0] == d[0];
    TrimStartKeeps(s);
    assert StripSign(s) == s;
    assert !HexPrefixed(s, false);
    assert forall i :: 0 <= i < |d| ==> s[i] == d[i];
    DigitRunAll(d, 10);
    PrefixRun(d, tail);
    assert s[..|d|] == d;
  }

  lemma {:induction false} PrefixRun(d: string, tail: string)
    requires AllDigits(d)
    requires tail == [] || !IsDigit(tail[0])
    ensures DigitRun(d + tail, 10) == |d|
  {
    if d == [] {
      assert d + tail == tail;
    } else {
      DecimalDigitValue(d[0]);
      PrefixRun(d[1..], tail);
      assert (d + tail)[1..] == d[1..] + tail;
    }
  }

  // ---------------------------------------------------------------------------
  // createProduct

  datatype ProductBody = ProductBody(
    name: Field<string>, price: Field<Cents>, category: Field<string>,
    image: Field<string>, stock: Field<int>, workshopId: Raw)

  predicate ProductComplete(b: ProductBody) {
    TruthyText(b.name) && b.price.Supplied() && TruthyText(b.category)
    && TruthyText(b.image) && b.stock.Supplied()
  }

  /** `newId` is the auto-increment id the insert would receive. */
  function CreateProduct(s: Store, b: ProductBody, newId: Id): (r: Result<Store, Error>)
    ensures !ProductComplete(b) ==> r == Err(Http(400, MissingProductFields))
    ensures ProductComplete(b) && NormalizeWorkshopId(b.workshopId, s.workshops.Keys).Err? ==>
      r == Err(NormalizeWorkshopId(b.workshopId, s.workshops.Keys).error)
    ensures r.Ok? <==>
      && ProductComplete(b) && NormalizeWorkshopId(b.workshopId, s.workshops.Keys).Ok?
      && b.price.Val? && FitsDecimal(b.price.value) && b.stock.Val? && newId !in s.products
    ensures r.Ok? ==>
      && r.value.products == s.products[newId := Product(
           b.name.value, b.price.value, b.category.value, b.image.value, b.stock.value,
           NormalizeWorkshopId(b.workshopId, s.workshops.Keys).value)]
      && r.value.(products := s.products) == s
  {
    if !ProductComplete(b) then Err(Http(400, MissingProductFields))
    else
      match NormalizeWorkshopId(b.workshopId, s.workshops.Keys)
      case Err(e) => Err(e)
      case Ok(w) =>
        match MoneyColumn(b.price)
        case Err(f) => Err(Db(f))
        case Ok(price) =>
          if !b.stock.Val? then Err(Db(NotNull))
          else if newId in s.products then Err(Db(DuplicateKey))
          else Ok(s.(products := s.products[newId := Product(b.name.value, price, b.category.value, b.image.value, b.stock.value, w)]))
  }

  lemma CreateProductValid(s: Store, b: ProductBody, newId: Id)
    requires Valid(s)
    ensures CreateProduct(s, b, newId).Ok? ==> Valid(CreateProduct(s, b, newId).value)
  {
  }

  // ---------------------------------------------------------------------------
  // updateProduct

  /** A product patch; `workshopId` is `Absent` when the key is not in the body. */
  datatype ProductPatch = ProductPatch(
    name: Field<string>, price: Field<Cents>, category: Field<string>,
    image: Field<string>, stock: Field<int>, workshopId: Raw)

  /** Some SET clause would be built. */
  predicate AnyProductField(p: ProductPatch) {
    p.name.Supplied() || p.price.Supplied() || p.category.Supplied()
    || p.image.Supplied() || p.stock.Supplied() || !p.workshopId.Absent?
  }

  /** Every supplied column value is one its NOT NULL column accepts. */
  predicate ProductPatchAcceptable(p: ProductPatch) {
    && (p.name.Supplied() ==> p.name.Val?)
    && (p.price.Supplied() ==> p.price.Val? && FitsDecimal(p.price.value))
    && (p.category.Supplied() ==> p.category.Val?)
    && (p.image.Supplied() ==> p.image.Val?)
    && (p.stock.Supplied() ==> p.stock.Val?)
  }

  /** A supplied field's new value, or the old one. */
  function Pick<T>(current: T, f: Field<T>): T {
    if f.Val? then f.value else current
  }

  function UpdateProduct(s: Store, id: Id, p: ProductPatch): (r: Result<Store, Error>)
    ensures id !in s.products ==> r == Err(Http(404, ProductNotFound))
    ensures id in s.products && !p.workshopId.Absent? && NormalizeWorkshopId(p.workshopId, s.workshops.Keys).Err? ==>
      r == Err(NormalizeWorkshopId(p.workshopId, s.workshops.Keys).error)
    ensures id in s.products && !AnyProductField(p) ==> r == Err(Http(400, NoFieldsToUpdate))
    ensures r.Ok? <==>
      && id in s.products && AnyProductField(p) && ProductPatchAcceptable(p)
      && (!p.workshopId.Absent? ==> NormalizeWorkshopId(p.workshopId, s.workshops.Keys).Ok?)
    ensures r.Ok? ==>
      && r.value.products.Keys == s.products.Keys
      && (forall q :: q in s.products && q != id ==> r.value.products[q] == s.products[q])
      && r.value.(products := s.products) == s
    ensures r.Ok? ==>
      var was, now := s.products[id], r.value.products[id];
      && now.name == (if p.name.Supplied() then p.name.value else was.name)
      && now.price == (if p.price.Supplied() then p.price.value else was.price)
      && now.category == (if p.category.Supplied() then p.category.value else was.category)
      && now.image == (if p.image.Supplied() then p.image.value else was.image)
      && now.stock == (if p.stock.Supplied() then p.stock.value else was.stock)
      && now.workshopId == (if p.workshopId.Absent? then was.workshopId
                            else NormalizeWorkshopId(p.workshopId, s.workshops.Keys).value)
  {
    if id !in s.products then Err(Http(404, ProductNotFound))
    else
      var norm := if p.workshopId.Absent? then Ok(None) else NormalizeWorkshopId(p.workshopId, s.workshops.Keys);
      if norm.Err? then Err(norm.error)
      else if !AnyProductField(p) then Err(Http(400, NoFieldsToUpdate))
      else if !ProductPatchAcceptable(p) then
        Err(Db(if p.price.Val? && !FitsDecimal(p.price.value) then BadValue else NotNull))
      else
        var cur := s.products[id];
        var next := Product(
          Pick(cur.name, p.name), Pick(cur.price, p.price), Pick(cur.category, p.category),
          Pick(cur.image, p.image), Pick(cur.stock, p.stock),
          if p.workshopId.Absent? then cur.workshopId else norm.value);
        Ok(s.(products := s.products[id := next]))
  }

  /** Sending only `workshop_id: null` (or "") clears the product's workshop. */
  lemma ClearingWorkshop(s: Store, id: Id, raw: Raw)
    requires id in s.products && (raw.Null? || raw == Str(""))
    ensures UpdateProduct(s, id, ProductPatch(Undefined, Undefined, Undefined, Undefined, Undefined, raw)).Ok?
    ensures UpdateProduct(s, id, ProductPatch(Undefined, Undefined, Undefined, Undefined, Undefined, raw)).value.products[id].workshopId == None
  {
  }

  lemma UpdateProductValid(s: Store, id: Id, p: ProductPatch)
    requires Valid(s)
    ensures UpdateProduct(s, id, p).Ok? ==> Valid(UpdateProduct(s, id, p).value)
  {
  }

  // ---------------------------------------------------------------------------
  // deleteProduct

  function DeleteProduct(s: Store, id: Id): (r: Result<Store, Error>)
    ensures id !in s.products ==> r == Err(Http(404, ProductNotFound))
    ensures id in s.products && ProductOrdered(s, id) ==> r == Err(Db(ForeignKey))
    ensures r.Ok? <==> id in s.products && !ProductOrdered(s, id)
    ensures r.Ok? ==>
      && r.value.products.Keys == s.products.Keys - {id}
      && (forall k :: k in r.value.cart <==> k in s.cart && k.productId != id)
    ensures r.Ok? ==>
      && r.value.products == s.products - {id}
      && r.value.(products := s.products, cart := s.cart) == s
      && DeleteProductRow(s, id) == Ok(r.value)
  {
    if id !in s.products then Err(Http(404, ProductNotFound))
    else match DeleteProductRow(s, id)
      case Err(f) => Err(Db(f))
      case Ok(s1) => Ok(s1)
  }

  lemma DeleteProductValid(s: Store, id: Id)
    requires Valid(s)
    ensures DeleteProduct(s, id).Ok? ==> Valid(DeleteProduct(s, id).value)
  {
    DeleteProductRowValid(s, id);
  }
}
