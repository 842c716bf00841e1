/**
 * The shop screen: the product search, the cart total and the checkout
 * button, whose request the backend's checkout handler receives.
 */
module Shop {
  import opened Wrappers
  import opened Js
  import opened Seqs
  import opened App
  import Schema
  import Ledger

  // ---------------------------------------------------------------------------
  // Search

  /** `p.name.toLowerCase().includes(search.toLowerCase())`. */
  predicate Matches(p: Product, search: string) {
    Contains(Lower(p.name), Lower(search))
  }

  function FilteredProducts(products: seq<Product>, search: string): (r: seq<Product>)
    ensures forall i :: 0 <= i < |r| ==> r[i] in products && Matches(r[i], search)
    ensures forall i :: 0 <= i < |products| && Matches(products[i], search) ==> products[i] in r
  {
    Filter(products, (p: Product) => Matches(p, search))
  }

  /** An empty search shows every product, in the order loaded. */
  lemma EmptySearchKeepsAll(products: seq<Product>)
    ensures FilteredProducts(products, "") == products
  {
    forall i | 0 <= i < |products|
      ensures Matches(products[i], "")
    {
      EmptyContained(Lower(products[i].name));
    }
    FilterAll(products, (p: Product) => Matches(p, ""));
  }

  /** The search ignores ASCII case: a search and its lower-cased form show the same list. */
  lemma SearchIgnoresCase(products: seq<Product>, search: string)
    ensures FilteredProducts(products, Lower(search)) == FilteredProducts(products, search)
  {
    LowerIdempotent(search);
    FilterAgree(products, (p: Product) => Matches(p, Lower(search)), (p: Product) => Matches(p, search));
  }

  lemma LowerIdempotent(s: string)
    ensures Lower(Lower(s)) == Lower(s)
  {
  }

  /** The list shown for a longer search is the list for a shorter one filtered again. */
  lemma NarrowingSearch(products: seq<Product>, search: string)
    ensures FilteredProducts(FilteredProducts(products, search), search) == FilteredProducts(products, search)
  {
    FilterIdempotent(products, (p: Product) => Matches(p, search));
  }

  // ---------------------------------------------------------------------------
  // Total

  /** `cart.reduce((acc, item) => acc + price * item.quantity, 0)`, in cents. */
  function CartTotal(cart: seq<CartItem>): int {
    if cart == [] then 0 else cart[0].product.price * cart[0].quantity + CartTotal(cart[1..])
  }

  lemma {:induction false} TotalAppend(cart: seq<CartItem>, line: CartItem)
    ensures CartTotal(cart + [line]) == CartTotal(cart) + line.product.price * line.quantity
    decreases |cart|
  {
    if cart != [] {
      assert (cart + [line])[1..] == cart[1..] + [line];
      TotalAppend(cart[1..], line);
    }
  }

  /** The price of the line a product occupies, or the product's own price when it has none. */
  function LinePrice(cart: seq<CartItem>, p: Product): int {
    if cart == [] then p.price
    else if cart[0].product.id == p.id then cart[0].product.price
    else LinePrice(cart[1..], p)
  }

  /**
   * One more of a product raises the total by one unit price: the price of
   * the line already in the cart (its snapshot, not the product passed in),
   * or the product's price when the line is new.
   */
  lemma {:induction false} AddRaisesTotal(cart: seq<CartItem>, p: Product)
    requires UniqueIds(cart)
    ensures CartTotal(AddToCart(cart, p)) == CartTotal(cart) + LinePrice(cart, p)
    decreases |cart|
  {
    if !InCart(cart, p.id) {
      TotalAppend(cart, CartItem(p, 1));
      NotInCartPrice(cart, p);
    } else {
      var r := Bump(cart, p.id);
      assert r[1..] == Bump(cart[1..], p.id);
      if cart[0].product.id == p.id {
        forall j | 0 <= j < |cart[1..]|
          ensures cart[1..][j].product.id != p.id
        {
          assert cart[1..][j] == cart[j + 1];
        }
        NoBumpWithout(cart[1..], p.id);
      } else {
        var j :| 0 <= j < |cart| && cart[j].product.id == p.id;
        assert cart[1..][j - 1].product.id == p.id;
        assert UniqueIds(cart[1..]) by {
          forall i, k | 0 <= i < k < |cart[1..]|
            ensures cart[1..][i].product.id != cart[1..][k].product.id
          {
            assert cart[1..][i] == cart[i + 1] && cart[1..][k] == cart[k + 1];
          }
        }
        AddRaisesTotal(cart[1..], p);
      }
    }
  }

  lemma {:induction false} NotInCartPrice(cart: seq<CartItem>, p: Product)
    requires !InCart(cart, p.id)
    ensures LinePrice(cart, p) == p.price
    decreases |cart|
  {
    if cart != [] {
      assert !InCart(cart[1..], p.id) by {
        forall j | 0 <= j < |cart[1..]|
          ensures cart[1..][j].product.id != p.id
        {
          assert cart[1..][j] == cart[j + 1];
        }
      }
      NotInCartPrice(cart[1..], p);
    }
  }

  // ---------------------------------------------------------------------------
  // Checkout

  /** The session user, reduced to the id the request sends. */
  datatype Session = Session(userId: int)

  /** The workshop selected on the screen. */
  datatype WorkshopChoice = WorkshopChoice(id: int, name: string)

  /** What `api.checkout(cart, selectedWorkshop, total, user?.id || null)` sends. */
  datatype CheckoutRequest = CheckoutRequest(
    cart: seq<CartItem>, workshop: WorkshopChoice, total: int, userId: Option<int>)

  datatype Outcome = Refused(message: string) | Sent(request: CheckoutRequest)

  const NoWorkshop := "Please select a workshop first"
  const EmptyCart := "Your cart is empty"

  /** `user?.id || null`: no session, and the falsy id 0, both send null. */
  function SessionUserId(session: Option<Session>): (r: Option<int>)
    ensures r.Some? <==> session.Some? && session.value.userId != 0
    ensures r.Some? ==> r.value == session.value.userId
  {
    if session.Some? && session.value.userId != 0 then Some(session.value.userId) else None
  }

  /** The checkout button: a workshop must be selected, then the cart must be non-empty. */
  function Checkout(cart: seq<CartItem>, workshop: Option<WorkshopChoice>, session: Option<Session>): (r: Outcome)
    ensures workshop.None? ==> r == Refused(NoWorkshop)
    ensures workshop.Some? && cart == [] ==> r == Refused(EmptyCart)
    ensures r.Sent? <==> workshop.Some? && cart != []
    ensures r.Sent? ==>
      && r.request.cart == cart && r.request.workshop == workshop.value
      && r.request.total == CartTotal(cart)
      && (session.None? ==> r.request.userId.None?)
      && r.request.userId == SessionUserId(session)
  {
    if workshop.None? then Refused(NoWorkshop)
    else if cart == [] then Refused(EmptyCart)
    else Sent(CheckoutRequest(cart, workshop.value, CartTotal(cart), SessionUserId(session)))
  }

  /** The cart after the button: emptied only when a request was sent and the server accepted it. */
  function CartAfterCheckout(cart: seq<CartItem>, outcome: Outcome, accepted: bool): (r: seq<CartItem>)
    ensures r == [] <==> (outcome.Sent? && accepted) || cart == []
    ensures r != [] ==> r == cart
  {
    if outcome.Sent? && accepted then [] else cart
  }

  /** The cart line as the backend reads it. */
  function AsLine(item: CartItem): Ledger.CartLine {
    Ledger.CartLine(item.product.id, item.product.name, item.product.price, item.quantity)
  }

  function {:induction false} AsLines(cart: seq<CartItem>): (r: seq<Ledger.CartLine>)
    ensures |r| == |cart|
    ensures forall i :: 0 <= i < |cart| ==> r[i] == AsLine(cart[i])
  {
    if cart == [] then [] else [AsLine(cart[0])] + AsLines(cart[1..])
  }

  function {:induction false} SubtotalSum(items: seq<Schema.OrderItem>): int {
    if items == [] then 0 else items[0].subtotal + SubtotalSum(items[1..])
  }

  /**
   * The total the screen sends equals the sum of the subtotals the backend
   * stores for the order-item rows it snapshots from the same cart.
   */
  lemma {:induction false} TotalMatchesOrderItems(cart: seq<CartItem>)
    ensures CartTotal(cart) == SubtotalSum(Ledger.Snapshots(AsLines(cart)))
    decreases |cart|
  {
    if cart != [] {
      var items := Ledger.Snapshots(AsLines(cart));
      assert AsLines(cart)[1..] == AsLines(cart[1..]);
      assert items[1..] == Ledger.Snapshots(AsLines(cart[1..]));
      TotalMatchesOrderItems(cart[1..]);
    }
  }

  /** The JSON body the backend's checkout handler parses from a sent request. */
  function Body(q: CheckoutRequest): Ledger.CheckoutBody {
    Ledger.CheckoutBody(
      Some(AsLines(q.cart)),
      Some(Ledger.WorkshopRef(Val(q.workshop.id), Val(q.workshop.name))),
      Val(q.total),
      if q.userId.Some? then Val(q.userId.value) else Field.Null)
  }

  /**
   * A request the button lets through never meets the backend's 400
   * answers, as long as the selected workshop has a non-zero id; the order
   * it records carries the same total and titles the same number of lines.
   */
  lemma SentPassesServerChecks(cart: seq<CartItem>, workshop: Option<WorkshopChoice>, session: Option<Session>)
    requires Checkout(cart, workshop, session).Sent? && workshop.value.id != 0
    ensures var b := Body(Checkout(cart, workshop, session).request);
      && Ledger.CheckoutComplete(b) && Ledger.WorkshopGiven(b)
      && b.total == Val(CartTotal(cart)) && |b.cart.value| == |cart|
  {
  }

  // ---------------------------------------------------------------------------
  // Order history

  predicate IsShop(t: Tx) {
    t.txType == "Shop"
  }

  function ShopHistory(txs: seq<Tx>): (r: seq<Tx>)
    ensures forall i :: 0 <= i < |r| ==> IsShop(r[i]) && r[i] in txs
    ensures forall i :: 0 <= i < |txs| && IsShop(txs[i]) ==> txs[i] in r
  {
    Filter(txs, IsShop)
  }
}
