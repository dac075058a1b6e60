/** The cart rules: a cart holds at most one line per (product id, size);
    adding an existing pair raises that line's quantity. */
module Carts {
  import opened Collections
  import opened Records
  import opened Queries

  /** The key that identifies a cart line. */
  function LineKey(item: CartItem): (string, Option<string>) {
    (item.productId, item.size)
  }

  /** No two lines of the cart share a (product id, size) pair. */
  ghost predicate DistinctLines(cart: seq<CartItem>) {
    DistinctBy(LineKey, cart)
  }

  /** Every cart in the store has distinct lines. */
  ghost predicate AllCartsDistinct(carts: map<string, seq<CartItem>>) {
    forall userId :: userId in carts ==> DistinctLines(carts[userId])
  }

  /** The lines of the cart for one (product id, size) pair. */
  function LinesFor(cart: seq<CartItem>, productId: string, size: Option<string>): (r: seq<CartItem>)
    ensures forall c :: c in r <==> c in cart && c.productId == productId && c.size == size
    ensures forall c :: multiset(r)[c] == if c.productId == productId && c.size == size then multiset(cart)[c] else 0
    ensures Subsequence(r, cart)
  {
    Filter((c: CartItem) => c.productId == productId && c.size == size, cart)
  }

  /** The position of the first line of the cart for the pair, if any. */
  function LineIndex(cart: seq<CartItem>, productId: string, size: Option<string>): (r: Option<nat>)
    ensures r.Some? ==> r.value < |cart| && LineKey(cart[r.value]) == (productId, size)
    ensures r.Some? ==> forall j :: 0 <= j < r.value ==> LineKey(cart[j]) != (productId, size)
    ensures r.None? ==> forall j :: 0 <= j < |cart| ==> LineKey(cart[j]) != (productId, size)
  {
    FindIndex((c: CartItem) => c.productId == productId && c.size == size, cart)
  }

  /** The cart after `addToCart(productId, quantity, size)` found `product`:
      the existing line for the pair gets `quantity` more, or else a new line
      `{ id: 'cart-' + stamp, productId, product, quantity, size, addedAt: now }`
      is appended. */
  function AddLine(cart: seq<CartItem>, product: Product, productId: string, quantity: int,
                   size: Option<string>, stamp: string, now: string): (r: seq<CartItem>)
    ensures LineIndex(cart, productId, size).Some? ==> |r| == |cart|
    ensures LineIndex(cart, productId, size).None? ==> |r| == |cart| + 1 && r[..|cart|] == cart
    ensures forall j :: 0 <= j < |cart| ==> LineKey(r[j]) == LineKey(cart[j])
    ensures exists j :: 0 <= j < |r| && LineKey(r[j]) == (productId, size)
  {
    match LineIndex(cart, productId, size)
    case Some(i) =>
      var merged := cart[i := cart[i].(quantity := cart[i].quantity + quantity)];
      assert LineKey(merged[i]) == (productId, size);
      merged
    case None =>
      var appended := cart + [CartItem("cart-" + stamp, productId, product, quantity, size, now)];
      assert LineKey(appended[|cart|]) == (productId, size);
      appended
  }

  /** When the pair is already in the cart, only its first line changes, and
      only in its quantity; the cart keeps its length. */
  lemma AddLineMerges(cart: seq<CartItem>, product: Product, productId: string, quantity: int,
                      size: Option<string>, stamp: string, now: string, i: nat)
    requires i < |cart| && LineKey(cart[i]) == (productId, size)
    requires forall j :: 0 <= j < i ==> LineKey(cart[j]) != (productId, size)
    ensures var r := AddLine(cart, product, productId, quantity, size, stamp, now);
      && |r| == |cart|
      && r[i].quantity == cart[i].quantity + quantity
      && r[i].(quantity := cart[i].quantity) == cart[i]
      && forall j :: 0 <= j < |cart| && j != i ==> r[j] == cart[j]
  {
  }

  /** When the pair is not in the cart, exactly one line, holding the product
      snapshot, is appended. */
  lemma AddLineAppends(cart: seq<CartItem>, product: Product, productId: string, quantity: int,
                       size: Option<string>, stamp: string, now: string)
    requires forall j :: 0 <= j < |cart| ==> LineKey(cart[j]) != (productId, size)
    ensures var r := AddLine(cart, product, productId, quantity, size, stamp, now);
      && |r| == |cart| + 1
      && r[..|cart|] == cart
      && r[|cart|].product == product && r[|cart|].quantity == quantity
      && LineKey(r[|cart|]) == (productId, size)
  {
  }

  /** Adding to a cart with distinct lines keeps its lines distinct. */
  lemma AddLineKeepsDistinct(cart: seq<CartItem>, product: Product, productId: string, quantity: int,
                             size: Option<string>, stamp: string, now: string)
    requires DistinctLines(cart)
    ensures DistinctLines(AddLine(cart, product, productId, quantity, size, stamp, now))
  {
    var r := AddLine(cart, product, productId, quantity, size, stamp, now);
    match LineIndex(cart, productId, size)
    case Some(i) =>
      assert forall j :: 0 <= j < |cart| ==> LineKey(r[j]) == LineKey(cart[j]);
    case None =>
      forall i, j | 0 <= i < j < |r| ensures LineKey(r[i]) != LineKey(r[j]) {
        if j == |cart| {
          assert r[i] == cart[i];
        } else {
          assert r[i] == cart[i] && r[j] == cart[j];
        }
      }
  }

  /** Setting the quantity of one line (`updateCartItem`) keeps the lines
      distinct. */
  lemma SetQuantityKeepsDistinct(cart: seq<CartItem>, i: nat, quantity: int)
    requires i < |cart| && DistinctLines(cart)
    ensures DistinctLines(cart[i := cart[i].(quantity := quantity)])
  {
    var r := cart[i := cart[i].(quantity := quantity)];
    assert forall j :: 0 <= j < |cart| ==> LineKey(r[j]) == LineKey(cart[j]);
  }

  /** Removing lines by id keeps the lines distinct. */
  lemma RemoveKeepsDistinct(cart: seq<CartItem>, cartItemId: string)
    requires DistinctLines(cart)
    ensures DistinctLines(WithoutCartItem(cart, cartItemId))
  {
    FilterKeepsDistinct((c: CartItem) => c.id != cartItemId, LineKey, cart);
  }

  /** Adding the same (product, size) twice to a cart without that pair, with
      quantities q1 and q2, leaves exactly one line for the pair, holding
      q1 + q2, and one line more than before. */
  lemma {:induction false} AddTwiceMerges(cart: seq<CartItem>, product: Product, productId: string,
                                          q1: int, q2: int, size: Option<string>,
                                          stamp1: string, stamp2: string, now1: string, now2: string)
    requires forall j :: 0 <= j < |cart| ==> LineKey(cart[j]) != (productId, size)
    ensures var once := AddLine(cart, product, productId, q1, size, stamp1, now1);
      var twice := AddLine(once, product, productId, q2, size, stamp2, now2);
      && |twice| == |cart| + 1
      && |LinesFor(twice, productId, size)| == 1
      && LinesFor(twice, productId, size)[0].quantity == q1 + q2
  {
    var once := AddLine(cart, product, productId, q1, size, stamp1, now1);
    AddLineAppends(cart, product, productId, q1, size, stamp1, now1);
    var n := |cart|;
    forall j | 0 <= j < n ensures LineKey(once[j]) != (productId, size) {
      assert once[j] == once[..n][j] == cart[j];
    }
    AddLineMerges(once, product, productId, q2, size, stamp2, now2, n);
    var twice := AddLine(once, product, productId, q2, size, stamp2, now2);
    var test := (c: CartItem) => c.productId == productId && c.size == size;
    assert forall j :: 0 <= j < n ==> twice[j] == cart[j] && !test(twice[j]);
    assert test(twice[n]);
    FilterOnlyLast(test, twice);
  }
}
