/**
 * The service-request ledger: creating plain, towing, quotation and shop
 * transactions, patching and deleting them, and listing them. Each request
 * is one atomic transition of the store; a failure leaves the store as it was.
 */
module Ledger {
  import opened Wrappers
  import opened Js
  import opened TxIds
  import opened Schema

  /**
   * What a request takes from its environment: the number drawn for the id
   * (`Math.floor(Math.random() * 10000)`), today's date, the row's creation
   * instant, and the `insertId` the database hands out for a new shop order.
   */
  datatype Env = Env(draw: nat, today: Day, now: Instant, orderId: Id)

  /** A ledger row a create path has just written, and the store after it. */
  datatype Created = Created(store: Store, id: TxId, row: Tx)

  const MissingTxFields := "Missing required fields: type, title, amount"
  const MissingTowingFields := "Missing required fields: workshopId, workshopName, amount, pickup, destination"
  const MissingQuotationFields := "Missing required fields: type, model, year, engine, chassis, amount"
  const WorkshopIdRequired := "Workshop ID is required"
  const MissingCheckoutFields := "Missing required fields: cart, total"
  const WorkshopRequired := "Workshop is required"
  const TxNotFound := "Transaction not found"
  const NoFieldsToUpdate := "No fields to update"

  /**
   * What every create path promises of its new ledger row: the generated id,
   * not yet taken, status pending, today's date, stamped now.
   */
  predicate Fresh(s: Store, env: Env, c: Created)
    requires env.draw < IdRange
  {
    && c.id == TransactionId(env.draw)
    && c.id !in s.transactions
    && c.row.status == Pending
    && c.row.date == env.today
    && c.row.createdAt == env.now
    && c.id in c.store.transactions && c.store.transactions[c.id] == c.row
  }

  /** Writing one ledger row: the primary key must be free. */
  function InsertLedger(s: Store, id: TxId, row: Tx): (r: Result<Store, Fault>)
    ensures r.Err? <==> id in s.transactions
    ensures r.Err? ==> r.error == DuplicateKey
    ensures r.Ok? ==> r.value.transactions.Keys == s.transactions.Keys + {id}
    ensures r.Ok? ==> r.value.transactions[id] == row
    ensures r.Ok? ==> r.value.(transactions := s.transactions) == s
  {
    if id in s.transactions then Err(DuplicateKey)
    else Ok(s.(transactions := s.transactions[id := row]))
  }

  /** A user reference the detail tables accept: none, or an existing user. */
  predicate UserRefOk(s: Store, u: Option<Id>) {
    u.None? || u.value in s.users
  }

  // ---------------------------------------------------------------------------
  // createTransaction

  datatype TxBody = TxBody(txType: Field<string>, title: Field<string>, amount: Field<Cents>, userId: Field<int>)

  function CreateTransaction(s: Store, b: TxBody, env: Env): (r: Result<Created, Error>)
    requires env.draw < IdRange
    ensures r.Err? && r.error.Http? <==> !TruthyText(b.txType) || !TruthyText(b.title) || !b.amount.Supplied()
    ensures r.Err? && r.error.Http? ==> r.error == Http(400, MissingTxFields)
    ensures r.Ok? <==>
      && TruthyText(b.txType) && TruthyText(b.title)
      && ParseTxType(b.txType.value).Some? && b.amount.Val? && FitsDecimal(b.amount.value)
      && TransactionId(env.draw) !in s.transactions
    ensures r.Ok? ==> Fresh(s, env, r.value)
    ensures r.Ok? ==> r.value.row.txType.Name() == b.txType.value && r.value.row.title == b.title.value
    ensures r.Ok? ==> r.value.row.amount == b.amount.value && r.value.row.userId == IntOrNull(b.userId)
    ensures r.Ok? ==> r.value.store == s.(transactions := s.transactions[r.value.id := r.value.row])
  {
    if !TruthyText(b.txType) || !TruthyText(b.title) || !b.amount.Supplied() then
      Err(Http(400, MissingTxFields))
    else
      var id := TransactionId(env.draw);
      match ParseTxType(b.txType.value)
      case None => Err(Db(BadValue))
      case Some(t) =>
        match MoneyColumn(b.amount)
        case Err(f) => Err(Db(f))
        case Ok(amount) =>
          var row := Tx(t, b.title.value, env.today, amount, Pending, IntOrNull(b.userId), env.now);
          match InsertLedger(s, id, row)
          case Err(f) => Err(Db(f))
          case Ok(s1) => Ok(Created(s1, id, row))
  }

  /** The generic `POST /api/transactions` of server.ts, which writes no user. */
  function ServerCreateTransaction(s: Store, b: TxBody, env: Env): (r: Result<Created, Error>)
    requires env.draw < IdRange
    ensures r.Err? && r.error.Http? <==> !TruthyText(b.txType) || !TruthyText(b.title) || !b.amount.Supplied()
    ensures r.Ok? ==> Fresh(s, env, r.value) && r.value.row.userId == None
    ensures r.Ok? <==> CreateTransaction(s, b, env).Ok?
  {
    CreateTransaction(s, b.(userId := Undefined), env)
  }

  lemma CreateTransactionValid(s: Store, b: TxBody, env: Env)
    requires env.draw < IdRange
    requires Valid(s)
    ensures CreateTransaction(s, b, env).Ok? ==> Valid(CreateTransaction(s, b, env).value.store)
  {
  }

  // ---------------------------------------------------------------------------
  // createTowingRequest

  datatype TowingBody = TowingBody(
    workshopId: Field<int>, workshopName: Field<string>, amount: Field<Cents>,
    pickup: Field<string>, destination: Field<string>, userId: Field<int>)

  function TowingTitle(workshopName: string, pickup: string, destination: string): string {
    "Towing to " + workshopName + " from " + pickup + " to " + destination
  }

  predicate TowingComplete(b: TowingBody) {
    TruthyInt(b.workshopId) && TruthyText(b.workshopName) && b.amount.Supplied()
    && TruthyText(b.pickup) && TruthyText(b.destination)
  }

  function CreateTowingRequest(s: Store, b: TowingBody, env: Env): (r: Result<Created, Error>)
    requires env.draw < IdRange
    ensures r.Err? && r.error.Http? <==> !TowingComplete(b)
    ensures r.Err? && r.error.Http? ==> r.error == Http(400, MissingTowingFields)
    ensures r.Ok? <==>
      && TowingComplete(b) && b.amount.Val? && FitsDecimal(b.amount.value)
      && TransactionId(env.draw) !in s.transactions
      && UserRefOk(s, IntOrNull(b.userId)) && b.workshopId.value in s.workshops
    ensures r.Ok? ==> Fresh(s, env, r.value)
    ensures r.Ok? ==>
      && r.value.row.txType == Towing
      && r.value.row.title == TowingTitle(b.workshopName.value, b.pickup.value, b.destination.value)
      && r.value.row.amount == b.amount.value
    ensures r.Ok? ==>
      && r.value.store.towing == s.towing[r.value.id := TowingRow(
           IntOrNull(b.userId), b.workshopId.value, b.pickup.value, b.destination.value,
           b.amount.value, Pending, env.today)]
      && r.value.store.transactions == s.transactions[r.value.id := r.value.row]
      && r.value.store.(transactions := s.transactions, towing := s.towing) == s
  {
    if !TowingComplete(b) then Err(Http(400, MissingTowingFields))
    else
      var id := TransactionId(env.draw);
      var user := IntOrNull(b.userId);
      var title := TowingTitle(b.workshopName.value, b.pickup.value, b.destination.value);
      match MoneyColumn(b.amount)
      case Err(f) => Err(Db(f))
      case Ok(amount) =>
        var row := Tx(Towing, title, env.today, amount, Pending, user, env.now);
        match InsertLedger(s, id, row)
        case Err(f) => Err(Db(f))
        case Ok(s1) =>
          if !UserRefOk(s, user) || b.workshopId.value !in s.workshops then Err(Db(ForeignKey))
          else
            var towing := TowingRow(user, b.workshopId.value, b.pickup.value, b.destination.value, amount, Pending, env.today);
            Ok(Created(s1.(towing := s.towing[id := towing]), id, row))
  }

  lemma CreateTowingRequestValid(s: Store, b: TowingBody, env: Env)
    requires env.draw < IdRange
    requires Valid(s)
    ensures CreateTowingRequest(s, b, env).Ok? ==> Valid(CreateTowingRequest(s, b, env).value.store)
  {
    var r := CreateTowingRequest(s, b, env);
    if r.Ok? {
      var id := r.value.id;
      var w := r.value.store.towing[id];
      AddTowingValid(s, id, r.value.row, w);
      assert r.value.store == s.(transactions := s.transactions[id := r.value.row], towing := s.towing[id := w]);
    }
  }

  // ---------------------------------------------------------------------------
  // createQuotation

  datatype QuotationBody = QuotationBody(
    txType: Field<string>, model: Field<string>, year: Field<string>,
    engine: Field<string>, chassis: Field<string>, description: Field<string>,
    quoteType: Field<string>, images: Field<seq<string>>, workshopId: Field<int>,
    amount: Field<Cents>, userId: Field<int>)

  predicate VehicleComplete(b: QuotationBody) {
    TruthyText(b.txType) && TruthyText(b.model) && TruthyText(b.year)
    && TruthyText(b.engine) && TruthyText(b.chassis) && b.amount.Supplied()
  }

  function QuotationTitle(kind: string, model: string): string {
    kind + " Quote: " + model
  }

  /** `images && images.length > 0 ? JSON.stringify(images) : null`. */
  function ImagesColumn(images: Field<seq<string>>): (r: Option<seq<string>>)
    ensures r.Some? <==> images.Val? && images.value != []
    ensures r.Some? ==> r.value == images.value
  {
    if images.Val? && images.value != [] then Some(images.value) else None
  }

  function CreateQuotation(s: Store, b: QuotationBody, env: Env): (r: Result<Created, Error>)
    requires env.draw < IdRange
    ensures !VehicleComplete(b) ==> r == Err(Http(400, MissingQuotationFields))
    ensures VehicleComplete(b) && !TruthyInt(b.workshopId) ==> r == Err(Http(400, WorkshopIdRequired))
    ensures r.Err? && r.error.Http? <==> !VehicleComplete(b) || !TruthyInt(b.workshopId)
    ensures r.Ok? <==>
      && VehicleComplete(b) && TruthyInt(b.workshopId)
      && b.amount.Val? && FitsDecimal(b.amount.value)
      && TransactionId(env.draw) !in s.transactions
      && UserRefOk(s, IntOrNull(b.userId)) && b.workshopId.value in s.workshops
      && ParseQuoteType(TextOr(b.quoteType, "brief")).Some?
    ensures r.Ok? ==> Fresh(s, env, r.value)
    ensures r.Ok? ==>
      && r.value.row.txType == Quotation
      && r.value.row.title == QuotationTitle(b.txType.value, b.model.value)
      && r.value.row.amount == b.amount.value
    ensures r.Ok? ==> r.value.id in r.value.store.quotations
    ensures r.Ok? ==>
      var q := r.value.store.quotations[r.value.id];
      && q.quoteType.Name() == TextOr(b.quoteType, "brief")
      && (!TruthyText(b.quoteType) ==> q.quoteType == Brief)
      && q.description == TextOrNull(b.description)
      && q.images == ImagesColumn(b.images)
      && q.workshopId == b.workshopId.value && q.userId == IntOrNull(b.userId)
      && q.adminMessage == None
    ensures r.Ok? ==>
      && r.value.store.quotations == s.quotations[r.value.id := r.value.store.quotations[r.value.id]]
      && r.value.store.transactions == s.transactions[r.value.id := r.value.row]
      && r.value.store.(transactions := s.transactions, quotations := s.quotations) == s
  {
    if !VehicleComplete(b) then Err(Http(400, MissingQuotationFields))
    else if !TruthyInt(b.workshopId) then Err(Http(400, WorkshopIdRequired))
    else
      var id := TransactionId(env.draw);
      var user := IntOrNull(b.userId);
      match MoneyColumn(b.amount)
      case Err(f) => Err(Db(f))
      case Ok(amount) =>
        var row := Tx(Quotation, QuotationTitle(b.txType.value, b.model.value), env.today, amount, Pending, user, env.now);
        match InsertLedger(s, id, row)
        case Err(f) => Err(Db(f))
        case Ok(s1) =>
          match ParseQuoteType(TextOr(b.quoteType, "brief"))
          case None => Err(Db(BadValue))
          case Some(qt) =>
            if !UserRefOk(s, user) || b.workshopId.value !in s.workshops then Err(Db(ForeignKey))
            else
              var q := QuotationRow(
                user, b.workshopId.value, b.model.value, b.year.value, b.engine.value,
                b.chassis.value, TextOrNull(b.description), qt, ImagesColumn(b.images),
                amount, Pending, env.today, None);
              Ok(Created(s1.(quotations := s.quotations[id := q]), id, row))
  }

  lemma CreateQuotationValid(s: Store, b: QuotationBody, env: Env)
    requires env.draw < IdRange
    requires Valid(s)
    ensures CreateQuotation(s, b, env).Ok? ==> Valid(CreateQuotation(s, b, env).value.store)
  {
    var r := CreateQuotation(s, b, env);
    if r.Ok? {
      var id := r.value.id;
      var q := r.value.store.quotations[id];
      AddQuotationValid(s, id, r.value.row, q);
      assert r.value.store == s.(transactions := s.transactions[id := r.value.row], quotations := s.quotations[id := q]);
    }
  }

  // ---------------------------------------------------------------------------
  // checkout

  /** One line of the submitted cart: the product and the price the client shows. */
  datatype CartLine = CartLine(productId: Id, name: string, price: Cents, quantity: int)

  /** The submitted workshop object; only `id` and `name` are read. */
  datatype WorkshopRef = WorkshopRef(id: Field<int>, name: Field<string>)

  /**
   * `cart` is `None` when it is missing, falsy or not an array; those three
   * share one error.
   */
  datatype CheckoutBody = CheckoutBody(
    cart: Option<seq<CartLine>>, workshop: Option<WorkshopRef>, total: Field<Cents>, userId: Field<int>)

  /** `${x}` of a field that may be missing or null. */
  function Interpolate(f: Field<string>): (r: string)
    ensures f.Val? ==> r == f.value
  {
    match f
    case Undefined => "undefined"
    case Null => "null"
    case Val(v) => v
  }

  /** `${n} Item${n > 1 ? 's' : ''} Order at ${name}`. */
  function CheckoutTitle(n: nat, name: string): string {
    DecimalString(n) + " Item" + (if n > 1 then "s" else "") + " Order at " + name
  }

  /** The singular and plural forms of the order title. */
  lemma CheckoutTitleForms(n: nat, name: string)
    requires n >= 1
    ensures n == 1 ==> CheckoutTitle(n, name) == "1 Item Order at " + name
    ensures n > 1 ==> CheckoutTitle(n, name) == DecimalString(n) + " Items Order at " + name
  {
    if n == 1 {
      assert DecimalString(1) == "1";
    }
  }

  /** The order-item row a cart line is snapshotted into. */
  function Snapshot(l: CartLine): (r: OrderItem)
    ensures r.productId == l.productId && r.name == l.name
    ensures r.price == l.price && r.quantity == l.quantity
    ensures r.subtotal == l.price * l.quantity
  {
    OrderItem(l.productId, l.name, l.price, l.quantity, l.price * l.quantity)
  }

  /** The `for (const item of cart)` loop: one row per line, in cart order. */
  function {:induction false} Snapshots(cart: seq<CartLine>): (r: seq<OrderItem>)
    ensures |r| == |cart|
    ensures forall i :: 0 <= i < |cart| ==> r[i] == Snapshot(cart[i])
  {
    if cart == [] then [] else [Snapshot(cart[0])] + Snapshots(cart[1..])
  }

  /** An order-item row the database accepts. */
  predicate ItemInsertable(s: Store, it: OrderItem) {
    FitsDecimal(it.price) && FitsDecimal(it.subtotal) && it.productId in s.products
  }

  /** The fault of the first order-item insert that fails, if one does. */
  function {:induction false} FirstItemFault(s: Store, items: seq<OrderItem>): (r: Option<Fault>)
    ensures r.None? <==> forall i :: 0 <= i < |items| ==> ItemInsertable(s, items[i])
  {
    if items == [] then None
    else if !FitsDecimal(items[0].price) || !FitsDecimal(items[0].subtotal) then Some(BadValue)
    else if items[0].productId !in s.products then Some(ForeignKey)
    else
      var rest := FirstItemFault(s, items[1..]);
      assert forall i :: 1 <= i < |items| ==> items[i] == items[1..][i - 1];
      rest
  }

  /** `DELETE FROM cart_items WHERE user_id = ?`. */
  function ClearCart(cart: map<CartKey, int>, u: Id): (r: map<CartKey, int>)
    ensures forall k :: k in r <==> k in cart && k.userId != u
    ensures forall k :: k in r ==> r[k] == cart[k]
  {
    map k | k in cart && k.userId != u :: cart[k]
  }

  predicate CheckoutComplete(b: CheckoutBody) {
    b.cart.Some? && b.cart.value != [] && b.total.Supplied()
  }

  predicate WorkshopGiven(b: CheckoutBody) {
    b.workshop.Some? && TruthyInt(b.workshop.value.id)
  }

  function Checkout(s: Store, b: CheckoutBody, env: Env): (r: Result<Created, Error>)
    requires env.draw < IdRange
    ensures !CheckoutComplete(b) ==> r == Err(Http(400, MissingCheckoutFields))
    ensures CheckoutComplete(b) && !WorkshopGiven(b) ==> r == Err(Http(400, WorkshopRequired))
    ensures r.Err? && r.error.Http? <==> !CheckoutComplete(b) || !WorkshopGiven(b)
    ensures r.Ok? <==>
      && CheckoutComplete(b) && WorkshopGiven(b)
      && b.total.Val? && FitsDecimal(b.total.value)
      && TransactionId(env.draw) !in s.transactions
      && UserRefOk(s, IntOrNull(b.userId)) && b.workshop.value.id.value in s.workshops
      && forall i :: 0 <= i < |b.cart.value| ==> ItemInsertable(s, Snapshot(b.cart.value[i]))
    ensures r.Ok? ==> Fresh(s, env, r.value)
    ensures r.Ok? ==>
      && r.value.row.txType == Shop
      && r.value.row.title == CheckoutTitle(|b.cart.value|, Interpolate(b.workshop.value.name))
      && r.value.row.amount == b.total.value
    ensures r.Ok? ==>
      && r.value.store.shopOrders == s.shopOrders[r.value.id := ShopOrder(
           env.orderId, IntOrNull(b.userId), b.workshop.value.id.value, b.total.value, Pending, env.today)]
      && r.value.store.orderItems == s.orderItems[env.orderId := Snapshots(b.cart.value)]
    ensures r.Ok? ==> r.value.store.cart == (if TruthyInt(b.userId) then ClearCart(s.cart, b.userId.value) else s.cart)
    ensures r.Ok? ==>
      && r.value.store.transactions == s.transactions[r.value.id := r.value.row]
      && r.value.store.(transactions := s.transactions, shopOrders := s.shopOrders,
                        orderItems := s.orderItems, cart := s.cart) == s
  {
    if !CheckoutComplete(b) then Err(Http(400, MissingCheckoutFields))
    else if !WorkshopGiven(b) then Err(Http(400, WorkshopRequired))
    else
      var cart, w := b.cart.value, b.workshop.value;
      var id := TransactionId(env.draw);
      var user := IntOrNull(b.userId);
      var title := CheckoutTitle(|cart|, Interpolate(w.name));
      match MoneyColumn(b.total)
      case Err(f) => Err(Db(f))
      case Ok(total) =>
        var row := Tx(Shop, title, env.today, total, Pending, user, env.now);
        match InsertLedger(s, id, row)
        case Err(f) => Err(Db(f))
        case Ok(s1) =>
          if !UserRefOk(s, user) || w.id.value !in s.workshops then Err(Db(ForeignKey))
          else
            var items := Snapshots(cart);
            match FirstItemFault(s, items)
            case Some(f) => Err(Db(f))
            case None =>
              var order := ShopOrder(env.orderId, user, w.id.value, total, Pending, env.today);
              var s2 := s1.(shopOrders := s.shopOrders[id := order],
                            orderItems := s.orderItems[env.orderId := items],
                            cart := if TruthyInt(b.userId) then ClearCart(s.cart, b.userId.value) else s.cart);
              Ok(Created(s2, id, row))
  }

  /** The order id the database hands out is not in use yet. */
  predicate FreshOrderId(s: Store, o: Id) {
    o !in OrderIds(s) && o !in s.orderItems
  }

  lemma CheckoutValid(s: Store, b: CheckoutBody, env: Env)
    requires env.draw < IdRange
    requires Valid(s) && FreshOrderId(s, env.orderId)
    ensures Checkout(s, b, env).Ok? ==> Valid(Checkout(s, b, env).value.store)
  {
    var r := Checkout(s, b, env);
    if r.Ok? {
      var s2 := r.value.store;
      var order := s2.shopOrders[r.value.id];
      var items := s2.orderItems[env.orderId];
      assert forall i :: 0 <= i < |items| ==> ItemInsertable(s, items[i]);
      assert s2.cart.Keys <= s.cart.Keys;
      AddOrderKeepsRefs(s, r.value.id, r.value.row, order, s2);
      AddOrderKeepsKeys(s, r.value.id, order, items, s2);
      AddOrderKeepsProducts(s, env.orderId, items, s2);
    }
  }

  lemma AddOrderKeepsRefs(s: Store, id: TxId, row: Tx, order: ShopOrder, s2: Store)
    requires DetailsOwned(s) && WorkshopsExist(s) && UsersExist(s) && EmailsUnique(s)
    requires order.workshopId in s.workshops && UserRefOk(s, order.userId)
    requires s2.transactions == s.transactions[id := row] && s2.shopOrders == s.shopOrders[id := order]
    requires s2.quotations == s.quotations && s2.towing == s.towing && s2.workshops == s.workshops
    requires s2.users == s.users && s2.admins == s.admins && s2.vehicles == s.vehicles && s2.settings == s.settings
    requires s2.cart.Keys <= s.cart.Keys
    ensures DetailsOwned(s2) && WorkshopsExist(s2) && UsersExist(s2) && EmailsUnique(s2)
  {
  }

  lemma AddOrderKeepsKeys(s: Store, id: TxId, order: ShopOrder, items: seq<OrderItem>, s2: Store)
    requires OrdersKeyed(s) && FreshOrderId(s, order.orderId) && id !in s.shopOrders
    requires s2.shopOrders == s.shopOrders[id := order]
    requires s2.orderItems == s.orderItems[order.orderId := items]
    ensures OrdersKeyed(s2)
  {
    assert OrderIds(s2) == OrderIds(s) + {order.orderId} by {
      forall o | o in OrderIds(s2) ensures o in OrderIds(s) + {order.orderId} {
        var t :| t in s2.shopOrders && s2.shopOrders[t].orderId == o;
        if t != id {
          assert t in s.shopOrders;
        }
      }
      forall o | o in OrderIds(s) ensures o in OrderIds(s2) {
        var t :| t in s.shopOrders && s.shopOrders[t].orderId == o;
        assert s2.shopOrders[t].orderId == o;
      }
      assert s2.shopOrders[id].orderId == order.orderId;
    }
  }

  lemma AddOrderKeepsProducts(s: Store, o: Id, items: seq<OrderItem>, s2: Store)
    requires ProductsExist(s)
    requires forall i :: 0 <= i < |items| ==> ItemInsertable(s, items[i])
    requires s2.orderItems == s.orderItems[o := items] && s2.products == s.products
    requires s2.cart.Keys <= s.cart.Keys
    ensures ProductsExist(s2)
  {
  }

  // ---------------------------------------------------------------------------
  // updateTransaction and deleteTransaction

  /** The patchable fields of a ledger row; a missing key leaves the field alone. */
  datatype TxPatch = TxPatch(
    txType: Field<string>, title: Field<string>, amount: Field<Cents>,
    status: Field<string>, date: Field<Day>)

  predicate AnySupplied(p: TxPatch) {
    p.txType.Supplied() || p.title.Supplied() || p.amount.Supplied()
    || p.status.Supplied() || p.date.Supplied()
  }

  /** Every supplied field is a value its NOT NULL column accepts. */
  predicate PatchAcceptable(p: TxPatch) {
    && (p.txType.Supplied() ==> p.txType.Val? && ParseTxType(p.txType.value).Some?)
    && (p.title.Supplied() ==> p.title.Val?)
    && (p.amount.Supplied() ==> p.amount.Val? && FitsDecimal(p.amount.value))
    && (p.status.Supplied() ==> p.status.Val? && ParseStatus(p.status.value).Some?)
    && (p.date.Supplied() ==> p.date.Val?)
  }

  /** `SET col = ?` for one field: kept when missing, refused when null. */
  function SetColumn<T>(current: T, f: Field<T>): (r: Result<T, Fault>)
    ensures r.Ok? <==> !f.Null?
    ensures r.Ok? ==> r.value == (if f.Val? then f.value else current)
  {
    match f
    case Undefined => Ok(current)
    case Null => Err(NotNull)
    case Val(v) => Ok(v)
  }

  /** `SET col = ?` on an enumeration column. */
  function SetEnum<T>(current: T, f: Field<string>, parse: string -> Option<T>): (r: Result<T, Fault>)
    ensures r.Ok? <==> f.Undefined? || (f.Val? && parse(f.value).Some?)
    ensures r.Ok? ==> r.value == (if f.Val? then parse(f.value).value else current)
  {
    match f
    case Undefined => Ok(current)
    case Null => Err(NotNull)
    case Val(v) => match parse(v) case None => Err(BadValue) case Some(e) => Ok(e)
  }

  function PatchTx(t: Tx, p: TxPatch): (r: Result<Tx, Fault>)
    ensures r.Ok? <==> PatchAcceptable(p)
    ensures r.Ok? ==> (if p.txType.Supplied() then r.value.txType.Name() == p.txType.value else r.value.txType == t.txType)
    ensures r.Ok? ==> r.value.title == (if p.title.Supplied() then p.title.value else t.title)
    ensures r.Ok? ==> r.value.amount == (if p.amount.Supplied() then p.amount.value else t.amount)
    ensures r.Ok? ==> (if p.status.Supplied() then r.value.status.Name() == p.status.value else r.value.status == t.status)
    ensures r.Ok? ==> r.value.date == (if p.date.Supplied() then p.date.value else t.date)
    ensures r.Ok? ==> r.value.userId == t.userId && r.value.createdAt == t.createdAt
  {
    var txType :- SetEnum(t.txType, p.txType, ParseTxType);
    var title :- SetColumn(t.title, p.title);
    var amount :- if p.amount.Val? && !FitsDecimal(p.amount.value) then Err(BadValue) else SetColumn(t.amount, p.amount);
    var status :- SetEnum(t.status, p.status, ParseStatus);
    var date :- SetColumn(t.date, p.date);
    Ok(t.(txType := txType, title := title, amount := amount, status := status, date := date))
  }

  /** A patch that supplies nothing leaves the row as it is. */
  lemma EmptyPatchIsIdentity(t: Tx, p: TxPatch)
    requires !AnySupplied(p) && FitsDecimal(t.amount)
    ensures PatchTx(t, p) == Ok(t)
  {
  }

  /** Applying an accepted patch a second time changes nothing more. */
  lemma PatchIdempotent(t: Tx, p: TxPatch)
    requires PatchTx(t, p).Ok?
    ensures PatchTx(PatchTx(t, p).value, p) == PatchTx(t, p)
  {
    var t1 := PatchTx(t, p).value;
    if p.txType.Supplied() {
      EnumNamesRoundTrip(t1.txType, t1.status, Brief);
    }
    if p.status.Supplied() {
      EnumNamesRoundTrip(t1.txType, t1.status, Brief);
    }
  }

  function UpdateTransaction(s: Store, id: TxId, p: TxPatch): (r: Result<Store, Error>)
    ensures id !in s.transactions ==> r == Err(Http(404, TxNotFound))
    ensures id in s.transactions && !AnySupplied(p) ==> r == Err(Http(400, NoFieldsToUpdate))
    ensures r.Ok? <==> id in s.transactions && AnySupplied(p) && PatchAcceptable(p)
    ensures r.Ok? ==>
      && r.value.transactions.Keys == s.transactions.Keys
      && Ok(r.value.transactions[id]) == PatchTx(s.transactions[id], p)
      && forall t :: t in s.transactions && t != id ==> r.value.transactions[t] == s.transactions[t]
    ensures r.Ok? ==> r.value.(transactions := s.transactions) == s
  {
    if id !in s.transactions then Err(Http(404, TxNotFound))
    else if !AnySupplied(p) then Err(Http(400, NoFieldsToUpdate))
    else
      match PatchTx(s.transactions[id], p)
      case Err(f) => Err(Db(f))
      case Ok(t) => Ok(s.(transactions := s.transactions[id := t]))
  }

  lemma UpdateTransactionValid(s: Store, id: TxId, p: TxPatch)
    requires Valid(s)
    ensures UpdateTransaction(s, id, p).Ok? ==> Valid(UpdateTransaction(s, id, p).value)
  {
  }

  function DeleteTransaction(s: Store, id: TxId): (r: Result<Store, Error>)
    ensures r.Err? <==> id !in s.transactions
    ensures r.Err? ==> r.error == Http(404, TxNotFound)
    ensures r.Ok? ==>
      && r.value.transactions.Keys == s.transactions.Keys - {id}
      && id !in r.value.quotations && id !in r.value.towing && id !in r.value.shopOrders
      && (id in s.shopOrders ==> s.shopOrders[id].orderId !in r.value.orderItems)
    ensures r.Ok? ==> r.value == DeleteTxRows(s, id)
  {
    if id !in s.transactions then Err(Http(404, TxNotFound)) else Ok(DeleteTxRows(s, id))
  }

  lemma DeleteTransactionValid(s: Store, id: TxId)
    requires Valid(s)
    ensures DeleteTransaction(s, id).Ok? ==> Valid(DeleteTransaction(s, id).value)
  {
    if id in s.transactions {
      DeleteTxRowsValid(s, id);
    }
  }

  // ---------------------------------------------------------------------------
  // getTransactionById

  /** A ledger row joined with the quotation columns the detail screen reads. */
  datatype TxView = TxView(
    id: TxId, row: Tx, quoteType: Option<string>, adminMessage: Option<string>, workshopId: Option<Id>)

  function GetTransactionById(s: Store, id: TxId): (r: Result<TxView, Error>)
    ensures r.Err? <==> id !in s.transactions
    ensures r.Err? ==> r.error == Http(404, TxNotFound)
    ensures r.Ok? ==> r.value.id == id && r.value.row == s.transactions[id]
    ensures r.Ok? ==> (r.value.quoteType.Some? <==> id in s.quotations)
    ensures r.Ok? && id in s.quotations ==>
      && ParseQuoteType(r.value.quoteType.value) == Some(s.quotations[id].quoteType)
      && r.value.quoteType.value == Lower(r.value.quoteType.value)
      && r.value.adminMessage == s.quotations[id].adminMessage
      && r.value.workshopId == Some(s.quotations[id].workshopId)
    ensures r.Ok? && id !in s.quotations ==> r.value.adminMessage.None? && r.value.workshopId.None?
  {
    if id !in s.transactions then Err(Http(404, TxNotFound))
    else if id !in s.quotations then Ok(TxView(id, s.transactions[id], None, None, None))
    else
      var q := s.quotations[id];
      var name := q.quoteType.Name();
      LowercaseFixed(name);
      EnumNamesRoundTrip(Quotation, Pending, q.quoteType);
      Ok(TxView(id, s.transactions[id], Some(Lower(name)), q.adminMessage, Some(q.workshopId)))
  }

  // ---------------------------------------------------------------------------
  // getAllTransactions

  /** Query-string filters; a missing or empty one is not applied. */
  datatype TxFilter = TxFilter(txType: Option<string>, status: Option<string>, userId: Option<string>)

  predicate Given(q: Option<string>) {
    q.Some? && q.value != ""
  }

  /** `user_id = parseInt(userId)`, or no user condition; NaN or an infinity makes the query fail. */
  function UserCondition(f: TxFilter): (r: Result<Option<int>, Error>)
    ensures r.Err? <==> Given(f.userId) && !ParseInt(f.userId.value, true).Int?
    ensures r.Ok? ==> (r.value.Some? <==> Given(f.userId))
    ensures r.Ok? && r.value.Some? ==> ParseInt(f.userId.value, true) == Int(r.value.value)
  {
    if !Given(f.userId) then Ok(None)
    else match ParseInt(f.userId.value, true)
      case Int(v) => Ok(Some(v))
      case _ => Err(Db(BadValue))
  }

  predicate Matches(t: Tx, f: TxFilter, user: Option<int>) {
    && (Given(f.txType) ==> t.txType.Name() == f.txType.value)
    && (Given(f.status) ==> t.status.Name() == f.status.value)
    && (user.Some? ==> t.userId == Some(user.value))
  }

  datatype Entry = Entry(id: TxId, row: Tx)

  /** An entry of the store that the query selects. */
  predicate Selected(s: Store, f: TxFilter, user: Option<int>, e: Entry) {
    e.id in s.transactions && s.transactions[e.id] == e.row && Matches(e.row, f, user)
  }

  /** `ORDER BY date DESC, created_at DESC`: a may come before b. */
  predicate NoOlder(a: Tx, b: Tx) {
    a.date > b.date || (a.date == b.date && a.createdAt >= b.createdAt)
  }

  predicate NewestFirst(es: seq<Entry>) {
    forall i, j :: 0 <= i < j < |es| ==> NoOlder(es[i].row, es[j].row)
  }

  /** Inserts an entry into a newest-first list ahead of everything older than it. */
  function {:induction false} InsertNewest(es: seq<Entry>, e: Entry): (r: seq<Entry>)
    requires NewestFirst(es)
    ensures NewestFirst(r)
    ensures multiset(r) == multiset(es) + multiset{e}
  {
    if es == [] then [e]
    else if NoOlder(e.row, es[0].row) then [e] + es
    else
      var rest := InsertNewest(es[1..], e);
      assert es == [es[0]] + es[1..];
      HeadNoOlder(es, e, rest);
      [es[0]] + rest
  }

  /** The head of a sorted list comes before everything inserted behind it. */
  lemma HeadNoOlder(es: seq<Entry>, e: Entry, rest: seq<Entry>)
    requires es != [] && NewestFirst(es) && NewestFirst(rest)
    requires !NoOlder(e.row, es[0].row)
    requires multiset(rest) == multiset(es[1..]) + multiset{e}
    ensures NewestFirst([es[0]] + rest)
  {
    forall x | x in rest
      ensures NoOlder(es[0].row, x.row)
    {
      assert x in multiset(rest);
      if x != e {
        assert x in multiset(es[1..]);
        var j :| 0 <= j < |es[1..]| && es[1..][j] == x;
        assert es[j + 1] == x;
      }
    }
    var r := [es[0]] + rest;
    forall i, j | 0 <= i < j < |r|
      ensures NoOlder(r[i].row, r[j].row)
    {
      if i == 0 {
        assert r[j] == rest[j - 1];
        assert r[j] in rest;
      } else {
        assert r[i] == rest[i - 1] && r[j] == rest[j - 1];
      }
    }
  }

  method GetAllTransactions(s: Store, f: TxFilter) returns (r: Result<seq<Entry>, Error>)
    ensures r.Err? <==> UserCondition(f).Err?
    ensures r.Ok? ==> NewestFirst(r.value)
    ensures r.Ok? ==> forall e :: multiset(r.value)[e] == if Selected(s, f, UserCondition(f).value, e) then 1 else 0
  {
    var cond := UserCondition(f);
    if cond.Err? {
      return Err(cond.error);
    }
    var user := cond.value;
    var out: seq<Entry> := [];
    var todo := s.transactions.Keys;
    while todo != {}
      invariant todo <= s.transactions.Keys
      invariant NewestFirst(out)
      invariant forall e :: multiset(out)[e] == if e.id !in todo && Selected(s, f, user, e) then 1 else 0
      decreases |todo|
    {
      var k :| k in todo;
      var e := Entry(k, s.transactions[k]);
      if Matches(e.row, f, user) {
        out := InsertNewest(out, e);
      }
      todo := todo - {k};
    }
    return Ok(out);
  }

  /** With no filters every row is listed, as `GET /api/transactions` of server.ts does. */
  lemma UnfilteredSelectsAll(s: Store, e: Entry)
    requires e.id in s.transactions && s.transactions[e.id] == e.row
    ensures UserCondition(TxFilter(None, None, None)) == Ok(None)
    ensures Selected(s, TxFilter(None, None, None), None, e)
  {
  }
}
