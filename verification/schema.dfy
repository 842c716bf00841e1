/**
 * The relational store behind the service-request ledger: one map per table,
 * the column enumerations, and the referential rules the table definitions
 * declare (UNIQUE keys and ON DELETE CASCADE / RESTRICT / SET NULL).
 *
 * Auto-increment ids are plain integers. Transaction ids are the generated
 * strings of module TxIds. Money is in integer cents, dates are day numbers
 * and creation timestamps are instants; all of these arrive as parameters.
 */
module Schema {
  import opened Wrappers
  import opened Js

  type Id = int
  type TxId = string
  type Cents = int
  type Day = int
  type Instant = int

  // ---------------------------------------------------------------------------
  // Column enumerations

  /** `transactions.type`. */
  datatype TxType = Quotation | Towing | Shop {
    function Name(): string {
      match this
      case Quotation => "Quotation"
      case Towing => "Towing"
      case Shop => "Shop"
    }
  }

  /** `status` of the ledger and of every detail table, default `pending`. */
  datatype Status = Pending | Completed | Ongoing | Cancelled {
    function Name(): string {
      match this
      case Pending => "pending"
      case Completed => "completed"
      case Ongoing => "ongoing"
      case Cancelled => "cancelled"
    }
  }

  /** `quotations.quote_type`, default `brief`. */
  datatype QuoteType = Brief | Detailed {
    function Name(): string {
      match this
      case Brief => "brief"
      case Detailed => "detailed"
    }
  }

  /** The value a string stores as in the `transactions.type` column, if any. */
  function ParseTxType(s: string): (r: Option<TxType>)
    ensures r.Some? ==> r.value.Name() == s
    ensures r.None? ==> forall t: TxType :: t.Name() != s
  {
    if s == "Quotation" then Some(Quotation)
    else if s == "Towing" then Some(Towing)
    else if s == "Shop" then Some(Shop)
    else None
  }

  /** The value a string stores as in a `status` column, if any. */
  function ParseStatus(s: string): (r: Option<Status>)
    ensures r.Some? ==> r.value.Name() == s
    ensures r.None? ==> forall t: Status :: t.Name() != s
  {
    if s == "pending" then Some(Pending)
    else if s == "completed" then Some(Completed)
    else if s == "ongoing" then Some(Ongoing)
    else if s == "cancelled" then Some(Cancelled)
    else None
  }

  /** The value a string stores as in `quotations.quote_type`, if any. */
  function ParseQuoteType(s: string): (r: Option<QuoteType>)
    ensures r.Some? ==> r.value.Name() == s
    ensures r.None? ==> forall t: QuoteType :: t.Name() != s
  {
    if s == "brief" then Some(Brief)
    else if s == "detailed" then Some(Detailed)
    else None
  }

  /** Every enumeration value is stored under its own name and read back as itself. */
  lemma EnumNamesRoundTrip(t: TxType, st: Status, q: QuoteType)
    ensures ParseTxType(t.Name()) == Some(t)
    ensures ParseStatus(st.Name()) == Some(st)
    ensures ParseQuoteType(q.Name()) == Some(q)
  {
  }

  // ---------------------------------------------------------------------------
  // Rows

  /** A ledger row. `userId` is the column the controllers write. */
  datatype Tx = Tx(
    txType: TxType, title: string, date: Day, amount: Cents,
    status: Status, userId: Option<Id>, createdAt: Instant)

  datatype QuotationRow = QuotationRow(
    userId: Option<Id>, workshopId: Id, model: string, year: string,
    engine: string, chassis: string, description: Option<string>,
    quoteType: QuoteType, images: Option<seq<string>>, amount: Cents,
    status: Status, date: Day, adminMessage: Option<string>)

  datatype TowingRow = TowingRow(
    userId: Option<Id>, workshopId: Id, pickup: string, destination: string,
    amount: Cents, status: Status, date: Day)

  /** A `shop_orders` row; `orderId` is its own auto-increment key. */
  datatype ShopOrder = ShopOrder(
    orderId: Id, userId: Option<Id>, workshopId: Id, total: Cents,
    status: Status, date: Day)

  /** A `shop_order_items` row: a snapshot of one cart line. */
  datatype OrderItem = OrderItem(
    productId: Id, name: string, price: Cents, quantity: int, subtotal: Cents)

  /** `rating` is DECIMAL(3,1), held here in tenths. */
  datatype Workshop = Workshop(
    name: string, rating: int, location: string, icon: string, image: Option<string>)

  datatype Product = Product(
    name: string, price: Cents, category: string, image: string, stock: int,
    workshopId: Option<Id>)

  /** A salted one-way password digest; only `Verify` looks inside. */
  datatype Digest = Digest(secret: string, salt: nat)

  datatype User = User(email: string, password: Digest, name: string, phone: Option<string>)

  datatype Admin = Admin(
    email: string, password: Digest, name: string, role: string,
    isActive: bool, lastLogin: Option<Instant>)

  datatype Vehicle = Vehicle(
    userId: Id, model: string, year: string, chassis: string, engine: string,
    plateNumber: Option<string>, createdAt: Instant)

  datatype Settings = Settings(
    push: bool, email: bool, sms: bool, orderUpdates: bool,
    serviceReminders: bool, promotions: bool)

  /** `cart_items` is keyed by its UNIQUE (user_id, product_id) pair. */
  datatype CartKey = CartKey(userId: Id, productId: Id)

  datatype Store = Store(
    transactions: map<TxId, Tx>,
    quotations: map<TxId, QuotationRow>,
    towing: map<TxId, TowingRow>,
    shopOrders: map<TxId, ShopOrder>,
    orderItems: map<Id, seq<OrderItem>>,
    workshops: map<Id, Workshop>,
    products: map<Id, Product>,
    users: map<Id, User>,
    vehicles: map<Id, Vehicle>,
    settings: map<Id, Settings>,
    cart: map<CartKey, int>,
    admins: map<Id, Admin>)

  // ---------------------------------------------------------------------------
  // Errors

  /** Why the database refuses a write. */
  datatype Fault =
    | DuplicateKey   // a PRIMARY or UNIQUE key already present
    | ForeignKey     // a reference to a missing row, or a RESTRICT delete
    | NotNull        // NULL into a NOT NULL column
    | BadValue       // a value outside the column's type or enumeration

  /** A request's failure: a status and message chosen by the handler, or a store fault. */
  datatype Error = Http(code: nat, message: string) | Db(fault: Fault)

  /** The largest magnitude DECIMAL(10,2) holds, in cents. */
  const MaxDecimal: Cents := 9_999_999_999

  predicate FitsDecimal(c: Cents) {
    -MaxDecimal <= c <= MaxDecimal
  }

  /** Writing a JSON money field to a NOT NULL DECIMAL(10,2) column. */
  function MoneyColumn(f: Field<Cents>): (r: Result<Cents, Fault>)
    ensures r.Ok? <==> f.Val? && FitsDecimal(f.value)
    ensures r.Ok? ==> r.value == f.value
    ensures f.Null? ==> r == Err(NotNull)
  {
    match f
    case Val(c) => if FitsDecimal(c) then Ok(c) else Err(BadValue)
    case _ => Err(NotNull)
  }

  // ---------------------------------------------------------------------------
  // Passwords

  /** `bcrypt.hash(password, salt)`. */
  function Hash(password: string, salt: nat): (d: Digest)
    ensures Verify(password, d)
  {
    Digest(password, salt)
  }

  /** `bcrypt.compare(candidate, digest)`. */
  predicate Verify(candidate: string, d: Digest) {
    d.secret == candidate
  }

  /** A digest accepts the password it was made from and no other. */
  lemma VerifyExactly(password: string, candidate: string, salt: nat)
    ensures Verify(candidate, Hash(password, salt)) <==> candidate == password
  {
  }

  // ---------------------------------------------------------------------------
  // Invariants

  /** Every detail row belongs to a ledger row (the transaction_id foreign keys). */
  predicate DetailsOwned(s: Store) {
    && s.quotations.Keys <= s.transactions.Keys
    && s.towing.Keys <= s.transactions.Keys
    && s.shopOrders.Keys <= s.transactions.Keys
  }

  /** Every detail row names an existing workshop (the workshop_id foreign keys). */
  predicate WorkshopsExist(s: Store) {
    && (forall t :: t in s.quotations ==> s.quotations[t].workshopId in s.workshops)
    && (forall t :: t in s.towing ==> s.towing[t].workshopId in s.workshops)
    && (forall t :: t in s.shopOrders ==> s.shopOrders[t].workshopId in s.workshops)
  }

  /** Every user reference names an existing user (the user_id foreign keys). */
  predicate UsersExist(s: Store) {
    && (forall t :: t in s.quotations && s.quotations[t].userId.Some? ==> s.quotations[t].userId.value in s.users)
    && (forall t :: t in s.towing && s.towing[t].userId.Some? ==> s.towing[t].userId.value in s.users)
    && (forall t :: t in s.shopOrders && s.shopOrders[t].userId.Some? ==> s.shopOrders[t].userId.value in s.users)
    && (forall v :: v in s.vehicles ==> s.vehicles[v].userId in s.users)
    && s.settings.Keys <= s.users.Keys
    && (forall k :: k in s.cart ==> k.userId in s.users)
  }

  /** Every product reference names an existing product (the product_id foreign keys). */
  predicate ProductsExist(s: Store) {
    && (forall k :: k in s.cart ==> k.productId in s.products)
    && (forall o, i :: o in s.orderItems && 0 <= i < |s.orderItems[o]| ==> s.orderItems[o][i].productId in s.products)
  }

  /** The order ids in use. */
  function OrderIds(s: Store): set<Id> {
    set t | t in s.shopOrders :: s.shopOrders[t].orderId
  }

  /** Order ids are keys of `shop_orders`, and every item list belongs to an order. */
  predicate OrdersKeyed(s: Store) {
    && (forall t1, t2 :: t1 in s.shopOrders && t2 in s.shopOrders && s.shopOrders[t1].orderId == s.shopOrders[t2].orderId ==> t1 == t2)
    && s.orderItems.Keys <= OrderIds(s)
  }

  /** `users.email` is UNIQUE; the admin handlers keep admin emails unique too. */
  predicate EmailsUnique(s: Store) {
    && (forall a, b :: a in s.users && b in s.users && s.users[a].email == s.users[b].email ==> a == b)
    && (forall a, b :: a in s.admins && b in s.admins && s.admins[a].email == s.admins[b].email ==> a == b)
  }

  predicate Valid(s: Store) {
    DetailsOwned(s) && WorkshopsExist(s) && UsersExist(s) && ProductsExist(s)
    && OrdersKeyed(s) && EmailsUnique(s)
  }

  // ---------------------------------------------------------------------------
  // Insertion rules

  lemma SameDetails(s: Store, t: Store)
    requires DetailsOwned(s) && t.transactions == s.transactions
    requires t.quotations == s.quotations && t.towing == s.towing && t.shopOrders == s.shopOrders
    ensures DetailsOwned(t)
  {
  }

  lemma SameWorkshopRefs(s: Store, t: Store)
    requires WorkshopsExist(s) && t.workshops == s.workshops
    requires t.quotations == s.quotations && t.towing == s.towing && t.shopOrders == s.shopOrders
    ensures WorkshopsExist(t)
  {
  }

  lemma SameProducts(s: Store, t: Store)
    requires ProductsExist(s) && t.cart == s.cart && t.orderItems == s.orderItems && t.products == s.products
    ensures ProductsExist(t)
  {
  }

  lemma SameOrders(s: Store, t: Store)
    requires OrdersKeyed(s) && t.shopOrders == s.shopOrders && t.orderItems == s.orderItems
    ensures OrdersKeyed(t)
  {
    assert OrderIds(t) == OrderIds(s);
  }

  lemma SameEmails(s: Store, t: Store)
    requires EmailsUnique(s) && t.users == s.users && t.admins == s.admins
    ensures EmailsUnique(t)
  {
  }

  /** A ledger row with its quotation row under the same id keeps every invariant. */
  lemma AddQuotationValid(s: Store, id: TxId, row: Tx, q: QuotationRow)
    requires Valid(s) && q.workshopId in s.workshops && (q.userId.Some? ==> q.userId.value in s.users)
    ensures Valid(s.(transactions := s.transactions[id := row], quotations := s.quotations[id := q]))
  {
    var t := s.(transactions := s.transactions[id := row], quotations := s.quotations[id := q]);
    assert DetailsOwned(t) && WorkshopsExist(t) && UsersExist(t);
    SameProducts(s, t);
    SameOrders(s, t);
    SameEmails(s, t);
  }

  /** A ledger row with its towing row under the same id keeps every invariant. */
  lemma AddTowingValid(s: Store, id: TxId, row: Tx, w: TowingRow)
    requires Valid(s) && w.workshopId in s.workshops && (w.userId.Some? ==> w.userId.value in s.users)
    ensures Valid(s.(transactions := s.transactions[id := row], towing := s.towing[id := w]))
  {
    var t := s.(transactions := s.transactions[id := row], towing := s.towing[id := w]);
    assert DetailsOwned(t) && WorkshopsExist(t) && UsersExist(t);
    SameProducts(s, t);
    SameOrders(s, t);
    SameEmails(s, t);
  }

  // ---------------------------------------------------------------------------
  // Deletion rules

  /** The order items left once ledger row `id` goes: its shop order's items cascade with it. */
  function ItemsAfterTxDelete(s: Store, id: TxId): (r: map<Id, seq<OrderItem>>)
    ensures id in s.shopOrders ==> r == s.orderItems - {s.shopOrders[id].orderId}
    ensures id !in s.shopOrders ==> r == s.orderItems
  {
    if id in s.shopOrders then s.orderItems - {s.shopOrders[id].orderId} else s.orderItems
  }

  /**
   * Deleting a ledger row cascades to its quotation, towing and shop-order
   * rows, and from the shop order to its items; no other table changes.
   */
  function DeleteTxRows(s: Store, id: TxId): (r: Store)
    ensures id !in r.transactions && id !in r.quotations && id !in r.towing && id !in r.shopOrders
    ensures r.transactions.Keys == s.transactions.Keys - {id}
    ensures forall t :: t in s.transactions && t != id ==> t in r.transactions && r.transactions[t] == s.transactions[t]
    ensures id in s.shopOrders ==> s.shopOrders[id].orderId !in r.orderItems
    ensures r.workshops == s.workshops && r.products == s.products && r.users == s.users
    ensures r.transactions == s.transactions - {id}
    ensures r.quotations == s.quotations - {id} && r.towing == s.towing - {id} && r.shopOrders == s.shopOrders - {id}
    ensures id in s.shopOrders ==> r.orderItems == s.orderItems - {s.shopOrders[id].orderId}
    ensures id !in s.shopOrders ==> r.orderItems == s.orderItems
    ensures r.(transactions := s.transactions, quotations := s.quotations, towing := s.towing,
               shopOrders := s.shopOrders, orderItems := s.orderItems) == s
  {
    s.(transactions := s.transactions - {id},
       quotations := s.quotations - {id},
       towing := s.towing - {id},
       shopOrders := s.shopOrders - {id},
       orderItems := ItemsAfterTxDelete(s, id))
  }

  lemma DeleteTxRowsValid(s: Store, id: TxId)
    requires Valid(s)
    ensures Valid(DeleteTxRows(s, id))
  {
    DeleteTxKeepsRefs(s, id);
    DeleteTxKeepsProducts(s, id);
    DeleteTxKeepsOrders(s, id);
  }

  lemma DeleteTxKeepsRefs(s: Store, id: TxId)
    requires DetailsOwned(s) && WorkshopsExist(s) && UsersExist(s) && EmailsUnique(s)
    ensures var r := DeleteTxRows(s, id);
      DetailsOwned(r) && WorkshopsExist(r) && UsersExist(r) && EmailsUnique(r)
  {
  }

  lemma DeleteTxKeepsProducts(s: Store, id: TxId)
    requires ProductsExist(s)
    ensures ProductsExist(DeleteTxRows(s, id))
  {
  }

  lemma DeleteTxKeepsOrders(s: Store, id: TxId)
    requires OrdersKeyed(s)
    ensures OrdersKeyed(DeleteTxRows(s, id))
  {
    var r := DeleteTxRows(s, id);
    forall o | o in r.orderItems
      ensures o in OrderIds(r)
    {
      assert o in OrderIds(s);
      var t :| t in s.shopOrders && s.shopOrders[t].orderId == o;
      assert t != id;
      assert t in r.shopOrders;
    }
  }

  /** A workshop some quotation, towing request or shop order points at. */
  predicate WorkshopInUse(s: Store, w: Id) {
    || (exists t :: t in s.quotations && s.quotations[t].workshopId == w)
    || (exists t :: t in s.towing && s.towing[t].workshopId == w)
    || (exists t :: t in s.shopOrders && s.shopOrders[t].workshopId == w)
  }

  /** Deleting a workshop is RESTRICTed by the detail tables. */
  function DeleteWorkshopRow(s: Store, w: Id): (r: Result<Store, Fault>)
    ensures r.Err? <==> WorkshopInUse(s, w)
    ensures r.Ok? ==> w !in r.value.workshops && r.value.workshops.Keys == s.workshops.Keys - {w}
    ensures r.Ok? ==> r.value.(workshops := s.workshops) == s
    ensures r.Ok? ==> r.value.workshops == s.workshops - {w}
  {
    if WorkshopInUse(s, w) then Err(ForeignKey) else Ok(s.(workshops := s.workshops - {w}))
  }

  lemma DeleteWorkshopRowValid(s: Store, w: Id)
    requires Valid(s)
    ensures DeleteWorkshopRow(s, w).Ok? ==> Valid(DeleteWorkshopRow(s, w).value)
  {
  }

  /** An order item that snapshots the product. */
  predicate ProductOrdered(s: Store, p: Id) {
    exists o, i :: o in s.orderItems && 0 <= i < |s.orderItems[o]| && s.orderItems[o][i].productId == p
  }

  /**
   * Deleting a product is RESTRICTed by order items and CASCADEs to the cart
   * rows that hold it.
   */
  function DeleteProductRow(s: Store, p: Id): (r: Result<Store, Fault>)
    ensures r.Err? <==> ProductOrdered(s, p)
    ensures r.Ok? ==> p !in r.value.products && r.value.products.Keys == s.products.Keys - {p}
    ensures r.Ok? ==> forall k :: k in r.value.cart <==> k in s.cart && k.productId != p
    ensures r.Ok? ==> r.value.transactions == s.transactions && r.value.orderItems == s.orderItems
    ensures r.Ok? ==> r.value.products == s.products - {p}
    ensures r.Ok? ==> forall k :: k in r.value.cart ==> r.value.cart[k] == s.cart[k]
    ensures r.Ok? ==> r.value.(products := s.products, cart := s.cart) == s
  {
    if ProductOrdered(s, p) then Err(ForeignKey)
    else
      Ok(s.(products := s.products - {p},
            cart := map k | k in s.cart && k.productId != p :: s.cart[k]))
  }

  lemma DeleteProductRowValid(s: Store, p: Id)
    requires Valid(s)
    ensures DeleteProductRow(s, p).Ok? ==> Valid(DeleteProductRow(s, p).value)
  {
    if DeleteProductRow(s, p).Ok? {
      var r := DeleteProductRow(s, p).value;
      SameDetails(s, r);
      SameWorkshopRefs(s, r);
      SameOrders(s, r);
      SameEmails(s, r);
      assert UsersExist(r) by {
        assert forall k :: k in r.cart ==> k in s.cart;
      }
      forall o, i | o in r.orderItems && 0 <= i < |r.orderItems[o]|
        ensures r.orderItems[o][i].productId in r.products
      {
        assert r.orderItems[o][i].productId != p;
      }
    }
  }

  function ClearQuotationUser(q: QuotationRow, u: Id): QuotationRow {
    if q.userId == Some(u) then q.(userId := None) else q
  }

  function ClearTowingUser(t: TowingRow, u: Id): TowingRow {
    if t.userId == Some(u) then t.(userId := None) else t
  }

  function ClearOrderUser(o: ShopOrder, u: Id): ShopOrder {
    if o.userId == Some(u) then o.(userId := None) else o
  }

  /**
   * Deleting a user SETs NULL the user of its quotations, towing requests and
   * shop orders, and CASCADEs to its vehicles, notification settings and cart.
   */
  function DeleteUserRow(s: Store, u: Id): (r: Store)
    ensures u !in r.users && r.users.Keys == s.users.Keys - {u}
    ensures u !in r.settings
    ensures forall v :: v in r.vehicles <==> v in s.vehicles && s.vehicles[v].userId != u
    ensures forall k :: k in r.cart <==> k in s.cart && k.userId != u
    ensures r.quotations.Keys == s.quotations.Keys && r.towing.Keys == s.towing.Keys && r.shopOrders.Keys == s.shopOrders.Keys
    ensures forall t :: t in r.quotations ==> r.quotations[t].userId != Some(u)
    ensures forall t :: t in r.towing ==> r.towing[t].userId != Some(u)
    ensures forall t :: t in r.shopOrders ==> r.shopOrders[t].userId != Some(u)
    ensures r.transactions == s.transactions
    ensures r.users == s.users - {u} && r.settings == s.settings - {u}
    ensures forall v :: v in r.vehicles ==> r.vehicles[v] == s.vehicles[v]
    ensures forall k :: k in r.cart ==> r.cart[k] == s.cart[k]
    ensures forall t :: t in s.quotations ==>
      && r.quotations[t].(userId := s.quotations[t].userId) == s.quotations[t]
      && r.quotations[t].userId == (if s.quotations[t].userId == Some(u) then None else s.quotations[t].userId)
    ensures forall t :: t in s.towing ==>
      && r.towing[t].(userId := s.towing[t].userId) == s.towing[t]
      && r.towing[t].userId == (if s.towing[t].userId == Some(u) then None else s.towing[t].userId)
    ensures forall t :: t in s.shopOrders ==>
      && r.shopOrders[t].(userId := s.shopOrders[t].userId) == s.shopOrders[t]
      && r.shopOrders[t].userId == (if s.shopOrders[t].userId == Some(u) then None else s.shopOrders[t].userId)
    ensures r.(users := s.users, settings := s.settings, vehicles := s.vehicles, cart := s.cart,
               quotations := s.quotations, towing := s.towing, shopOrders := s.shopOrders) == s
  {
    s.(users := s.users - {u},
       settings := s.settings - {u},
       vehicles := map v | v in s.vehicles && s.vehicles[v].userId != u :: s.vehicles[v],
       cart := map k | k in s.cart && k.userId != u :: s.cart[k],
       quotations := map t | t in s.quotations :: ClearQuotationUser(s.quotations[t], u),
       towing := map t | t in s.towing :: ClearTowingUser(s.towing[t], u),
       shopOrders := map t | t in s.shopOrders :: ClearOrderUser(s.shopOrders[t], u))
  }

  lemma DeleteUserRowValid(s: Store, u: Id)
    requires Valid(s)
    ensures Valid(DeleteUserRow(s, u))
  {
    DeleteUserKeepsOrders(s, u);
    DeleteUserKeepsWorkshops(s, u);
    DeleteUserKeepsUsers(s, u);
    DeleteUserKeepsProducts(s, u);
  }

  lemma DeleteUserKeepsWorkshops(s: Store, u: Id)
    requires WorkshopsExist(s)
    ensures WorkshopsExist(DeleteUserRow(s, u))
  {
    var r := DeleteUserRow(s, u);
    assert forall t :: t in r.quotations ==> r.quotations[t].workshopId == s.quotations[t].workshopId;
    assert forall t :: t in r.towing ==> r.towing[t].workshopId == s.towing[t].workshopId;
    assert forall t :: t in r.shopOrders ==> r.shopOrders[t].workshopId == s.shopOrders[t].workshopId;
  }

  lemma DeleteUserKeepsUsers(s: Store, u: Id)
    requires UsersExist(s)
    ensures UsersExist(DeleteUserRow(s, u))
  {
  }

  lemma DeleteUserKeepsProducts(s: Store, u: Id)
    requires ProductsExist(s)
    ensures ProductsExist(DeleteUserRow(s, u))
  {
  }

  lemma DeleteUserKeepsOrders(s: Store, u: Id)
    requires OrdersKeyed(s)
    ensures OrdersKeyed(DeleteUserRow(s, u))
  {
    var r := DeleteUserRow(s, u);
    assert forall t :: t in r.shopOrders ==> r.shopOrders[t].orderId == s.shopOrders[t].orderId;
    forall o | o in OrderIds(s) ensures o in OrderIds(r) {
      var t :| t in s.shopOrders && s.shopOrders[t].orderId == o;
      assert r.shopOrders[t].orderId == o;
    }
  }
}
