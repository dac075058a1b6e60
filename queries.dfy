/** The read-only operations of the service (`isAdmin`, `getProducts`,
    `getProduct`, `getCart`, `getOrders`, `getOrder`, `getUsers`,
    `getContent`) and the lookups and filters its mutators are built from, as
    functions of the session and the stored collections. */
module Queries {
  import opened Collections
  import opened Text
  import opened Records

  /** `isAdmin()`: a session exists and its role is "admin". */
  predicate IsAdmin(session: Option<User>) {
    session.Some? && session.value.role == AdminRole
  }

  /** JavaScript truthiness of an optional string argument: it is present
      and not empty. */
  predicate Given(s: Option<string>) {
    s.Some? && s.value != ""
  }

  /** The cart stored under a user id; a missing key reads as `[]`. */
  function CartOf(carts: map<string, seq<CartItem>>, userId: string): seq<CartItem> {
    if userId in carts then carts[userId] else []
  }

  /** One content collection; a missing key reads as `[]`. */
  function ContentOf(content: map<ContentType, seq<ContentItem>>, t: ContentType): seq<ContentItem> {
    if t in content then content[t] else []
  }

  // ---------------------------------------------------------------- users

  /** The first stored user whose email and password both equal the given
      ones exactly (the lookup `login` performs). */
  function FindCredentials(users: seq<User>, email: string, password: string): (r: Option<User>)
    ensures r.Some? <==> exists u :: u in users && u.email == email && u.password == Some(password)
    ensures r.Some? ==> r.value in users && r.value.email == email && r.value.password == Some(password)
    ensures r.Some? ==> exists i :: 0 <= i < |users| && users[i] == r.value &&
                          forall j :: 0 <= j < i ==> !(users[j].email == email && users[j].password == Some(password))
  {
    Find((u: User) => u.email == email && u.password == Some(password), users)
  }

  /** Some stored user already has this email (the check `register` makes). */
  predicate EmailInUse(users: seq<User>, email: string)
    ensures EmailInUse(users, email) <==> exists u :: u in users && u.email == email
  {
    Find((u: User) => u.email == email, users).Some?
  }

  /** `users.findIndex(u => u.id === userId)` (in `updateUser`). */
  function UserIndex(users: seq<User>, id: string): (r: Option<nat>)
    ensures r.Some? ==> r.value < |users| && users[r.value].id == id
    ensures r.Some? ==> forall j :: 0 <= j < r.value ==> users[j].id != id
    ensures r.None? <==> forall u :: u in users ==> u.id != id
  {
    FindIndex((u: User) => u.id == id, users)
  }

  /** `getUsers()`: admin only; every user, in order, without the password. */
  function GetUsers(session: Option<User>, users: seq<User>): (r: Result<seq<User>>)
    ensures !IsAdmin(session) ==> r == Err(Unauthorized)
    ensures IsAdmin(session) ==> r.Ok? && |r.value| == |users|
    ensures r.Ok? ==> forall i :: 0 <= i < |users| ==> r.value[i].password.None? && r.value[i].(password := users[i].password) == users[i]
  {
    if !IsAdmin(session) then Err(Unauthorized)
    else Ok(seq(|users|, i requires 0 <= i < |users| => Sanitize(users[i])))
  }

  /** `users.filter(u => u.id !== userId)` (the body of `deleteUser`). */
  function WithoutUser(users: seq<User>, userId: string): (r: seq<User>)
    ensures Subsequence(r, users)
    ensures forall u :: u in r <==> u in users && u.id != userId
    ensures forall u :: multiset(r)[u] == if u.id != userId then multiset(users)[u] else 0
    ensures (forall u :: u in users ==> u.id != userId) ==> r == users
  {
    Filter((u: User) => u.id != userId, users)
  }

  // ------------------------------------------------------------- products

  /** The optional filters of `getProducts`; `featured` stands for the
      truthiness of `filters.featured`. */
  datatype ProductFilters = ProductFilters(category: Option<string>, featured: bool, search: Option<string>)

  /** `getProducts()` called without filters. */
  const NoFilters := ProductFilters(None, false, None)

  /** The lowercased search string occurs in the lowercased name or the
      lowercased description. */
  predicate MatchesSearch(p: Product, search: string) {
    Includes(Lower(p.name), Lower(search)) || Includes(Lower(p.description), Lower(search))
  }

  /** A product satisfies every filter that is given. */
  predicate MatchesFilters(f: ProductFilters, p: Product) {
    && (Given(f.category) ==> p.category == f.category.value)
    && (f.featured ==> p.featured)
    && (Given(f.search) ==> MatchesSearch(p, f.search.value))
  }

  /** `getProducts(filters)`: the category filter, then the featured filter,
      then the search filter, each applied only when its filter is given.
      The result is exactly the stored products that satisfy every given
      filter, in stored order. */
  function GetProducts(products: seq<Product>, filters: ProductFilters): (r: seq<Product>)
    ensures Subsequence(r, products)
    ensures forall p :: p in r <==> p in products && MatchesFilters(filters, p)
    ensures forall p :: multiset(r)[p] == if MatchesFilters(filters, p) then multiset(products)[p] else 0
    ensures !Given(filters.category) && !filters.featured && !Given(filters.search) ==> r == products
  {
    var category, search := filters.category.GetOr(""), filters.search.GetOr("");
    var byCategory := FilterIf(Given(filters.category), (p: Product) => p.category == category, products);
    var byFeatured := FilterIf(filters.featured, (p: Product) => p.featured, byCategory);
    var bySearch := FilterIf(Given(filters.search), (p: Product) => MatchesSearch(p, search), byFeatured);
    SubsequenceTransitive(bySearch, byFeatured, byCategory);
    SubsequenceTransitive(bySearch, byCategory, products);
    bySearch
  }

  /** `getProduct(id)`: the first stored product with this id, if any. */
  function GetProduct(products: seq<Product>, id: string): (r: Option<Product>)
    ensures r.Some? <==> exists p :: p in products && p.id == id
    ensures r.Some? ==> exists i :: 0 <= i < |products| && products[i] == r.value && r.value.id == id &&
                          forall j :: 0 <= j < i ==> products[j].id != id
  {
    match FindIndex((p: Product) => p.id == id, products)
    case None => None
    case Some(i) => Some(products[i])
  }

  /** `products.findIndex(p => p.id === id)` (in `updateProduct`). */
  function ProductIndex(products: seq<Product>, id: string): (r: Option<nat>)
    ensures r.Some? ==> r.value < |products| && products[r.value].id == id
    ensures r.Some? ==> forall j :: 0 <= j < r.value ==> products[j].id != id
    ensures r.None? <==> forall p :: p in products ==> p.id != id
  {
    FindIndex((p: Product) => p.id == id, products)
  }

  /** `products.filter(p => p.id !== id)` (the body of `deleteProduct`). */
  function WithoutProduct(products: seq<Product>, id: string): (r: seq<Product>)
    ensures Subsequence(r, products)
    ensures forall p :: p in r <==> p in products && p.id != id
    ensures forall p :: multiset(r)[p] == if p.id != id then multiset(products)[p] else 0
    ensures (forall p :: p in products ==> p.id != id) ==> r == products
  {
    Filter((p: Product) => p.id != id, products)
  }

  // ----------------------------------------------------------------- cart

  /** `getCart()`: the session user's cart, or `[]` without a session. */
  function GetCart(session: Option<User>, carts: map<string, seq<CartItem>>): (r: seq<CartItem>)
    ensures session.None? ==> r == []
    ensures session.Some? && session.value.id !in carts ==> r == []
    ensures session.Some? && session.value.id in carts ==> r == carts[session.value.id]
  {
    if session.None? then [] else CartOf(carts, session.value.id)
  }

  /** The position of `cart.find(i => i.id === cartItemId)` (in `updateCartItem`). */
  function CartItemIndex(cart: seq<CartItem>, id: string): (r: Option<nat>)
    ensures r.Some? ==> r.value < |cart| && cart[r.value].id == id
    ensures r.Some? ==> forall j :: 0 <= j < r.value ==> cart[j].id != id
    ensures r.None? <==> forall c :: c in cart ==> c.id != id
  {
    FindIndex((c: CartItem) => c.id == id, cart)
  }

  /** `cart.filter(item => item.id !== cartItemId)` (the body of
      `removeFromCart`). */
  function WithoutCartItem(cart: seq<CartItem>, cartItemId: string): (r: seq<CartItem>)
    ensures Subsequence(r, cart)
    ensures forall c :: c in r <==> c in cart && c.id != cartItemId
    ensures forall c :: multiset(r)[c] == if c.id != cartItemId then multiset(cart)[c] else 0
    ensures (forall c :: c in cart ==> c.id != cartItemId) ==> r == cart
  {
    Filter((c: CartItem) => c.id != cartItemId, cart)
  }

  // --------------------------------------------------------------- orders

  /** `orders.filter(o => o.userId === userId)`. */
  function OrdersOf(orders: seq<Order>, userId: string): (r: seq<Order>)
    ensures Subsequence(r, orders)
    ensures forall o :: o in r <==> o in orders && o.userId == userId
    ensures forall o :: multiset(r)[o] == if o.userId == userId then multiset(orders)[o] else 0
  {
    Filter((o: Order) => o.userId == userId, orders)
  }

  /** The position of `orders.find(o => o.id === orderId)` (in `updateOrderStatus`). */
  function OrderIndex(orders: seq<Order>, id: string): (r: Option<nat>)
    ensures r.Some? ==> r.value < |orders| && orders[r.value].id == id
    ensures r.Some? ==> forall j :: 0 <= j < r.value ==> orders[j].id != id
    ensures r.None? <==> forall o :: o in orders ==> o.id != id
  {
    FindIndex((o: Order) => o.id == id, orders)
  }

  /** `getOrders(userId)`: the orders of `userId` when one is given (for any
      caller); otherwise every order for an admin, the session user's own
      orders for any other session, and none without a session. */
  function GetOrders(session: Option<User>, orders: seq<Order>, userId: Option<string>): (r: seq<Order>)
    ensures Subsequence(r, orders)
    ensures Given(userId) ==> forall o :: o in r <==> o in orders && o.userId == userId.value
    ensures Given(userId) ==> r == OrdersOf(orders, userId.value)
    ensures !Given(userId) && IsAdmin(session) ==> r == orders
    ensures !Given(userId) && session.Some? && !IsAdmin(session) ==>
              forall o :: o in r <==> o in orders && o.userId == session.value.id
    ensures !Given(userId) && session.Some? && !IsAdmin(session) ==> r == OrdersOf(orders, session.value.id)
    ensures !Given(userId) && session.None? ==> r == []
  {
    SubsequenceReflexive(orders);
    if Given(userId) then OrdersOf(orders, userId.value)
    else if IsAdmin(session) then orders
    else if session.Some? then OrdersOf(orders, session.value.id)
    else []
  }

  /** `getOrder(orderId)`: the first order with this id, returned only to an
      admin or to the user who owns it. */
  function GetOrder(session: Option<User>, orders: seq<Order>, orderId: string): (r: Option<Order>)
    ensures r.Some? ==> r.value in orders && r.value.id == orderId
    ensures r.Some? ==> r == Some(orders[OrderIndex(orders, orderId).value])
    ensures r.Some? ==> IsAdmin(session) || (session.Some? && r.value.userId == session.value.id)
    ensures IsAdmin(session) ==> (r.Some? <==> exists o :: o in orders && o.id == orderId)
    ensures var k := OrderIndex(orders, orderId);
      k.Some? && session.Some? && orders[k.value].userId == session.value.id ==> r == Some(orders[k.value])
    ensures session.None? ==> r.None?
  {
    match OrderIndex(orders, orderId)
    case None => None
    case Some(k) =>
      var o := orders[k];
      if IsAdmin(session) || (session.Some? && o.userId == session.value.id) then Some(o) else None
  }

  // -------------------------------------------------------------- content

  /** `getContent(type)`: the whole collection, for any caller. */
  function GetContent(content: map<ContentType, seq<ContentItem>>, t: ContentType): (r: seq<ContentItem>)
    ensures t !in content ==> r == []
    ensures t in content ==> r == content[t]
  {
    ContentOf(content, t)
  }

  /** `content.findIndex(item => item.id === id)` (in `updateContent`). */
  function ContentIndex(items: seq<ContentItem>, id: string): (r: Option<nat>)
    ensures r.Some? ==> r.value < |items| && items[r.value].id == id
    ensures r.Some? ==> forall j :: 0 <= j < r.value ==> items[j].id != id
    ensures r.None? <==> forall c :: c in items ==> c.id != id
  {
    FindIndex((c: ContentItem) => c.id == id, items)
  }

  /** `content.filter(item => item.id !== id)` (the body of
      `deleteContent`). */
  function WithoutContent(items: seq<ContentItem>, id: string): (r: seq<ContentItem>)
    ensures Subsequence(r, items)
    ensures forall c :: c in r <==> c in items && c.id != id
    ensures forall c :: multiset(r)[c] == if c.id != id then multiset(items)[c] else 0
    ensures (forall c :: c in items ==> c.id != id) ==> r == items
  {
    Filter((c: ContentItem) => c.id != id, items)
  }
}
