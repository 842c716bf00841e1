/**
 * The state the mobile app's root component owns and hands to its screens:
 * the cart, the unread-quotation badge and the tab navigation.
 */
module App {
  import opened Wrappers
  import opened Js
  import opened Seqs

  /** A product as the client lists it; the price is in cents. */
  datatype Product = Product(id: int, name: string, price: int, category: string, image: string, stock: int)

  /** `CartItem extends Product` with a quantity. */
  datatype CartItem = CartItem(product: Product, quantity: int)

  /** A ledger row as the client receives it. */
  datatype Tx = Tx(id: string, txType: string, title: string, date: string, amount: int, status: string)

  // ---------------------------------------------------------------------------
  // Cart

  predicate InCart(cart: seq<CartItem>, id: int) {
    exists i :: 0 <= i < |cart| && cart[i].product.id == id
  }

  /** No two lines of the cart are for the same product. */
  predicate UniqueIds(cart: seq<CartItem>) {
    forall i, j :: 0 <= i < j < |cart| ==> cart[i].product.id != cart[j].product.id
  }

  /** `prev.map(item => item.id === id ? { ...item, quantity: item.quantity + 1 } : item)`. */
  function Bump(cart: seq<CartItem>, id: int): (r: seq<CartItem>)
    ensures |r| == |cart|
    ensures forall i :: 0 <= i < |cart| ==>
      r[i] == if cart[i].product.id == id then cart[i].(quantity := cart[i].quantity + 1) else cart[i]
  {
    if cart == [] then []
    else
      var head := if cart[0].product.id == id then cart[0].(quantity := cart[0].quantity + 1) else cart[0];
      [head] + Bump(cart[1..], id)
  }

  /**
   * A product already in the cart gets one more of that line, in place and
   * with the line's own snapshot of the product; a new product is appended
   * with quantity 1.
   */
  function AddToCart(cart: seq<CartItem>, p: Product): (r: seq<CartItem>)
    ensures InCart(cart, p.id) ==>
      && |r| == |cart|
      && forall i :: 0 <= i < |cart| ==>
           && r[i].product == cart[i].product
           && r[i].quantity == cart[i].quantity + (if cart[i].product.id == p.id then 1 else 0)
    ensures !InCart(cart, p.id) ==> r == cart + [CartItem(p, 1)]
    ensures UniqueIds(cart) ==> UniqueIds(r)
  {
    if InCart(cart, p.id) then Bump(cart, p.id) else cart + [CartItem(p, 1)]
  }

  /** `prev.filter(item => item.id !== productId)`. */
  function RemoveFromCart(cart: seq<CartItem>, id: int): (r: seq<CartItem>)
    ensures !InCart(r, id)
    ensures forall i :: 0 <= i < |r| ==> r[i] in cart
    ensures forall i :: 0 <= i < |cart| && cart[i].product.id != id ==> cart[i] in r
    ensures UniqueIds(cart) ==> UniqueIds(r)
  {
    var r := Filter(cart, (item: CartItem) => item.product.id != id);
    FilterKeepsUnique(cart, id);
    r
  }

  lemma {:induction false} FilterKeepsUnique(cart: seq<CartItem>, id: int)
    ensures UniqueIds(cart) ==> UniqueIds(Filter(cart, (item: CartItem) => item.product.id != id))
    decreases |cart|
  {
    var keep := (item: CartItem) => item.product.id != id;
    if cart != [] && UniqueIds(cart) {
      var tail := Filter(cart[1..], keep);
      FilterKeepsUnique(cart[1..], id);
      assert UniqueIds(cart[1..]) by {
        forall i, j | 0 <= i < j < |cart[1..]|
          ensures cart[1..][i].product.id != cart[1..][j].product.id
        {
          assert cart[1..][i] == cart[i + 1] && cart[1..][j] == cart[j + 1];
        }
      }
      forall k | 0 <= k < |tail|
        ensures tail[k].product.id != cart[0].product.id
      {
        assert tail[k] in cart[1..];
        var j :| 0 <= j < |cart[1..]| && cart[1..][j] == tail[k];
        assert cart[j + 1] == tail[k];
      }
    }
  }

  /** Removing one product keeps the other lines in their order: it distributes over concatenation. */
  lemma RemoveKeepsOrder(a: seq<CartItem>, b: seq<CartItem>, id: int)
    ensures RemoveFromCart(a + b, id) == RemoveFromCart(a, id) + RemoveFromCart(b, id)
  {
    FilterConcat(a, b, (item: CartItem) => item.product.id != id);
  }

  /** Adding a new product and removing it again gives back the cart. */
  lemma RemoveUndoesAdd(cart: seq<CartItem>, p: Product)
    requires !InCart(cart, p.id)
    ensures RemoveFromCart(AddToCart(cart, p), p.id) == cart
  {
    var keep := (item: CartItem) => item.product.id != p.id;
    FilterConcat(cart, [CartItem(p, 1)], keep);
    FilterAll(cart, keep);
    assert Filter([CartItem(p, 1)], keep) == [];
  }

  /** `cart.reduce((acc, item) => acc + item.quantity, 0)`. */
  function CartCount(cart: seq<CartItem>): int {
    if cart == [] then 0 else cart[0].quantity + CartCount(cart[1..])
  }

  lemma {:induction false} CountAppend(cart: seq<CartItem>, line: CartItem)
    ensures CartCount(cart + [line]) == CartCount(cart) + line.quantity
    decreases |cart|
  {
    if cart != [] {
      assert (cart + [line])[1..] == cart[1..] + [line];
      CountAppend(cart[1..], line);
    }
  }

  lemma NoBumpWithout(cart: seq<CartItem>, id: int)
    requires !InCart(cart, id)
    ensures Bump(cart, id) == cart
  {
  }

  /** Every add grows the badge count by exactly one, whether it adds a line or bumps one. */
  lemma {:induction false} AddCountsOne(cart: seq<CartItem>, p: Product)
    requires UniqueIds(cart)
    ensures CartCount(AddToCart(cart, p)) == CartCount(cart) + 1
    decreases |cart|
  {
    if !InCart(cart, p.id) {
      CountAppend(cart, CartItem(p, 1));
    } else {
      var r := Bump(cart, p.id);
      assert r[1..] == Bump(cart[1..], p.id);
      if cart[0].product.id == p.id {
        forall j | 0 <= j < |cart[1..]|
          ensures cart[1..][j].product.id != p.id
        {
          assert cart[1..][j] == cart[j + 1];
        }
        NoBumpWithout(cart[1..], p.id);
      } else {
        var j :| 0 <= j < |cart| && cart[j].product.id == p.id;
        assert cart[1..][j - 1].product.id == p.id;
        assert UniqueIds(cart[1..]) by {
          forall i, k | 0 <= i < k < |cart[1..]|
            ensures cart[1..][i].product.id != cart[1..][k].product.id
          {
            assert cart[1..][i] == cart[i + 1] && cart[1..][k] == cart[k + 1];
          }
        }
        AddCountsOne(cart[1..], p);
      }
    }
  }

  // ---------------------------------------------------------------------------
  // Unread quotation badge

  predicate IsQuotation(t: Tx) {
    t.txType == "Quotation"
  }

  /**
   * The quotation rows whose id is not in the read set. An id that is
   * missing reads as "", which matches only a stored "".
   */
  function Unread(txs: seq<Tx>, read: set<string>): (r: seq<Tx>)
    ensures forall i :: 0 <= i < |r| ==> IsQuotation(r[i]) && r[i].id !in read && r[i] in txs
    ensures forall i :: 0 <= i < |txs| && IsQuotation(txs[i]) && txs[i].id !in read ==> txs[i] in r
  {
    Filter(Filter(txs, IsQuotation), (t: Tx) => t.id !in read)
  }

  function UnreadCount(txs: seq<Tx>, read: set<string>): nat {
    |Unread(txs, read)|
  }

  /** A new row raises the badge by one exactly when it is an unread quotation. */
  lemma UnreadCountStep(txs: seq<Tx>, t: Tx, read: set<string>)
    ensures UnreadCount(txs + [t], read) ==
      UnreadCount(txs, read) + (if IsQuotation(t) && t.id !in read then 1 else 0)
  {
    var unseen := (x: Tx) => x.id !in read;
    FilterConcat(txs, [t], IsQuotation);
    FilterConcat(Filter(txs, IsQuotation), Filter([t], IsQuotation), unseen);
  }

  /** The badge never counts more than the quotation rows there are. */
  lemma UnreadAtMostQuotations(txs: seq<Tx>, read: set<string>)
    ensures UnreadCount(txs, read) <= |Filter(txs, IsQuotation)|
  {
  }

  /** Once every quotation id is in the read set the badge shows zero. */
  lemma AllReadNoBadge(txs: seq<Tx>, read: set<string>)
    requires forall i :: 0 <= i < |txs| && IsQuotation(txs[i]) ==> txs[i].id in read
    ensures UnreadCount(txs, read) == 0
  {
    var q := Filter(txs, IsQuotation);
    FilterNone(q, (t: Tx) => t.id !in read);
  }

  // ---------------------------------------------------------------------------
  // Tab navigation

  datatype AppTab = HomeTab | QuotationTab | TowingTab | ShopTab | ProfileTab

  /** The tab's key as the app names it. */
  function TabKey(t: AppTab): string {
    match t
    case HomeTab => "home"
    case QuotationTab => "quotation"
    case TowingTab => "towing"
    case ShopTab => "shop"
    case ProfileTab => "profile"
  }

  /** The navigator's screen for a tab: its key with the first letter capitalised. */
  function ScreenName(t: AppTab): (r: string)
    ensures r != [] && 'A' <= r[0] <= 'Z'
    ensures TabKey(t) == [AsciiLower(r[0])] + r[1..]
  {
    match t
    case HomeTab => "Home"
    case QuotationTab => "Quotation"
    case TowingTab => "Towing"
    case ShopTab => "Shop"
    case ProfileTab => "Profile"
  }

  /** Different tabs lead to different screens. */
  lemma ScreenNamesDistinct(a: AppTab, b: AppTab)
    requires a != b
    ensures ScreenName(a) != ScreenName(b)
  {
  }

  /** What `navigateToTab` does: the screen navigated to, if any, and the active tab after. */
  datatype Navigation = Navigation(screen: Option<string>, active: AppTab)

  /** Without a mounted navigator nothing happens; otherwise the tab's screen opens and the tab becomes active. */
  function NavigateToTab(active: AppTab, tab: AppTab, mounted: bool): (r: Navigation)
    ensures mounted ==> r.active == tab && r.screen == Some(ScreenName(tab))
    ensures !mounted ==> r == Navigation(None, active)
  {
    if mounted then
      Navigation(Some(ScreenName(tab)), tab)
    else Navigation(None, active)
  }
}
