/** The mock backend: one object holding the session and, standing in for
    the browser's storage, the stored collections. Every mutator reads a
    collection, changes it and writes it back whole; the postconditions say
    what the new collection is and that nothing else changed. */
module Service {
  import opened Collections
  import opened Records
  import opened Queries
  import opened Carts
  import Seed

  /** What the browser's storage holds when the service starts. `users` and
      `products` are `None` when their key was never written; the other
      collections read as empty when absent. */
  datatype Saved = Saved(
    users: Option<seq<User>>,
    products: Option<seq<Product>>,
    orders: seq<Order>,
    carts: map<string, seq<CartItem>>,
    content: map<ContentType, seq<ContentItem>>,
    session: Option<User>)

  /** Everything the service stores, apart from the session. */
  datatype Store = Store(
    users: seq<User>,
    products: seq<Product>,
    orders: seq<Order>,
    carts: map<string, seq<CartItem>>,
    content: map<ContentType, seq<ContentItem>>)

  class FirebaseService {
    var users: seq<User>
    var products: seq<Product>
    var orders: seq<Order>
    /** One cart per user id. */
    var carts: map<string, seq<CartItem>>
    /** The news, matches and players collections. */
    var content: map<ContentType, seq<ContentItem>>
    /** The logged-in user, without password, or `None`. */
    var currentUser: Option<User>

    ghost function Stored(): Store
      reads this
    {
      Store(users, products, orders, carts, content)
    }

    /** Starts over saved storage: seeds the six sample products and the
        admin account when their keys were never written, and restores the
        saved session. */
    constructor (saved: Saved, now: string)
      ensures products == if saved.products.None? then Seed.Products(now) else saved.products.value
      ensures users == if saved.users.None? then [Seed.Admin(now)] else saved.users.value
      ensures orders == saved.orders && carts == saved.carts && content == saved.content
      ensures currentUser == saved.session
    {
      products := if saved.products.None? then Seed.Products(now) else saved.products.value;
      users := if saved.users.None? then [Seed.Admin(now)] else saved.users.value;
      orders, carts, content := saved.orders, saved.carts, saved.content;
      currentUser := saved.session;
    }

    // ------------------------------------------------------ authentication

    /** Succeeds iff a stored user has exactly this email and password; the
        session becomes that user without the password. On failure nothing
        changes. */
    method Login(email: string, password: string) returns (r: Result<User>)
      modifies this
      ensures Stored() == old(Stored())
      ensures r.Ok? <==> exists u :: u in users && u.email == email && u.password == Some(password)
      ensures r.Ok? ==> r.value == Sanitize(FindCredentials(users, email, password).value)
      ensures r.Ok? ==> currentUser == Some(r.value) && r.value.password.None?
      ensures r.Err? ==> r.error == InvalidCredentials && currentUser == old(currentUser)
    {
      match FindCredentials(users, email, password) {
        case Some(u) =>
          var clean := Sanitize(u);
          currentUser := Some(clean);
          r := Ok(clean);
        case None =>
          r := Err(InvalidCredentials);
      }
    }

    /** Fails with EmailTaken, changing nothing, when the email is already
        stored; otherwise appends exactly one customer account and logs it in
        without the password. */
    method Register(data: Registration, stamp: string, now: string) returns (r: Result<User>)
      modifies this
      ensures EmailInUse(old(users), data.email) ==>
                r == Err(EmailTaken) && Stored() == old(Stored()) && currentUser == old(currentUser)
      ensures !EmailInUse(old(users), data.email) ==>
                && users == old(users) + [NewUser(data, stamp, now)]
                && Stored() == old(Stored()).(users := users)
                && r == Ok(Sanitize(NewUser(data, stamp, now)))
                && currentUser == Some(r.value)
                && r.value.role == CustomerRole && r.value.password.None?
    {
      if EmailInUse(users, data.email) {
        r := Err(EmailTaken);
        return;
      }
      var account := NewUser(data, stamp, now);
      users := users + [account];
      var clean := Sanitize(account);
      currentUser := Some(clean);
      r := Ok(clean);
    }

    /** Ends the session; the store is untouched. */
    method Logout()
      modifies this
      ensures Stored() == old(Stored())
      ensures currentUser == None && !IsAdmin(currentUser)
    {
      currentUser := None;
    }

    // ------------------------------------------------------------ products

    /** Admin only: appends `{ id: 'prod-' + stamp, ...draft, createdAt: now }`. */
    method AddProduct(draft: ProductDraft, stamp: string, now: string) returns (r: Result<Product>)
      modifies this
      ensures currentUser == old(currentUser)
      ensures !IsAdmin(currentUser) ==> r == Err(Unauthorized) && Stored() == old(Stored())
      ensures IsAdmin(currentUser) ==>
                && r == Ok(NewProduct(draft, stamp, now))
                && products == old(products) + [r.value]
                && Stored() == old(Stored()).(products := products)
    {
      if !IsAdmin(currentUser) {
        r := Err(Unauthorized);
        return;
      }
      var product := NewProduct(draft, stamp, now);
      products := products + [product];
      r := Ok(product);
    }

    /** Admin only: merges the patch into the first product with this id;
        NotFound, changing nothing, when there is none. Every other product
        is left as it was. */
    method UpdateProduct(id: string, patch: ProductPatch, now: string) returns (r: Result<Product>)
      modifies this
      ensures currentUser == old(currentUser)
      ensures !IsAdmin(currentUser) ==> r == Err(Unauthorized) && Stored() == old(Stored())
      ensures IsAdmin(currentUser) && ProductIndex(old(products), id).None? ==>
                r == Err(NotFound) && Stored() == old(Stored())
      ensures IsAdmin(currentUser) && ProductIndex(old(products), id).Some? ==>
                var i := ProductIndex(old(products), id).value;
                && products == old(products)[i := PatchProduct(old(products)[i], patch, now)]
                && r == Ok(products[i])
                && Stored() == old(Stored()).(products := products)
    {
      if !IsAdmin(currentUser) {
        r := Err(Unauthorized);
        return;
      }
      match ProductIndex(products, id) {
        case None =>
          r := Err(NotFound);
        case Some(i) =>
          products := products[i := PatchProduct(products[i], patch, now)];
          r := Ok(products[i]);
      }
    }

    /** Admin only: keeps exactly the products whose id differs, in order;
        an absent id is a successful no-op. */
    method DeleteProduct(id: string) returns (r: Result<()>)
      modifies this
      ensures currentUser == old(currentUser)
      ensures !IsAdmin(currentUser) ==> r == Err(Unauthorized) && Stored() == old(Stored())
      ensures IsAdmin(currentUser) ==>
                && r == Ok(())
                && products == WithoutProduct(old(products), id)
                && Stored() == old(Stored()).(products := products)
    {
      if !IsAdmin(currentUser) {
        r := Err(Unauthorized);
        return;
      }
      products := WithoutProduct(products, id);
      r := Ok(());
    }

    // ---------------------------------------------------------------- cart

    /** Needs a session and a stored product with this id (the snapshot put
        in a new line); merges into the line for (productId, size) or appends
        one. Only the session user's cart changes, and its lines stay
        distinct. */
    method AddToCart(productId: string, quantity: int, size: Option<string>, stamp: string, now: string)
      returns (r: Result<seq<CartItem>>)
      modifies this
      ensures currentUser == old(currentUser)
      ensures currentUser.None? ==> r == Err(Unauthenticated) && Stored() == old(Stored())
      ensures currentUser.Some? && GetProduct(products, productId).None? ==>
                r == Err(NotFound) && Stored() == old(Stored())
      ensures currentUser.Some? && GetProduct(products, productId).Some? ==>
                var userId := currentUser.value.id;
                var product := GetProduct(products, productId).value;
                && carts == old(carts)[userId := AddLine(CartOf(old(carts), userId), product, productId, quantity, size, stamp, now)]
                && r == Ok(carts[userId])
                && Stored() == old(Stored()).(carts := carts)
      ensures AllCartsDistinct(old(carts)) ==> AllCartsDistinct(carts)
    {
      if currentUser.None? {
        r := Err(Unauthenticated);
        return;
      }
      var found := GetProduct(products, productId);
      if found.None? {
        r := Err(NotFound);
        return;
      }
      var userId := currentUser.value.id;
      var cart := CartOf(carts, userId);
      AddLineKeepsDistinctIn(carts, userId, found.value, productId, quantity, size, stamp, now);
      carts := carts[userId := AddLine(cart, found.value, productId, quantity, size, stamp, now)];
      r := Ok(carts[userId]);
    }

    /** Needs a session; sets the quantity of the first line with this id to
        `quantity`, whatever its value. NotFound, changing nothing, when the
        cart has no such line. */
    method UpdateCartItem(cartItemId: string, quantity: int) returns (r: Result<seq<CartItem>>)
      modifies this
      ensures currentUser == old(currentUser)
      ensures currentUser.None? ==> r == Err(Unauthenticated) && Stored() == old(Stored())
      ensures currentUser.Some? ==>
                var userId := currentUser.value.id;
                var cart := CartOf(old(carts), userId);
                match CartItemIndex(cart, cartItemId)
                case None => r == Err(NotFound) && Stored() == old(Stored())
                case Some(i) =>
                  && carts == old(carts)[userId := cart[i := cart[i].(quantity := quantity)]]
                  && r == Ok(carts[userId])
                  && Stored() == old(Stored()).(carts := carts)
      ensures AllCartsDistinct(old(carts)) ==> AllCartsDistinct(carts)
    {
      if currentUser.None? {
        r := Err(Unauthenticated);
        return;
      }
      var userId := currentUser.value.id;
      var cart := CartOf(carts, userId);
      match CartItemIndex(cart, cartItemId) {
        case None =>
          r := Err(NotFound);
        case Some(i) =>
          if AllCartsDistinct(carts) {
            assert DistinctLines(cart);
            SetQuantityKeepsDistinct(cart, i, quantity);
          }
          carts := carts[userId := cart[i := cart[i].(quantity := quantity)]];
          r := Ok(carts[userId]);
      }
    }

    /** Needs a session; keeps exactly the lines whose id differs, in order
        (an absent id leaves the lines as they were). */
    method RemoveFromCart(cartItemId: string) returns (r: Result<seq<CartItem>>)
      modifies this
      ensures currentUser == old(currentUser)
      ensures currentUser.None? ==> r == Err(Unauthenticated) && Stored() == old(Stored())
      ensures currentUser.Some? ==>
                var userId := currentUser.value.id;
                && carts == old(carts)[userId := WithoutCartItem(CartOf(old(carts), userId), cartItemId)]
                && r == Ok(carts[userId])
                && Stored() == old(Stored()).(carts := carts)
      ensures AllCartsDistinct(old(carts)) ==> AllCartsDistinct(carts)
    {
      if currentUser.None? {
        r := Err(Unauthenticated);
        return;
      }
      var userId := currentUser.value.id;
      var cart := CartOf(carts, userId);
      if AllCartsDistinct(carts) {
        assert DistinctLines(cart);
        RemoveKeepsDistinct(cart, cartItemId);
      }
      carts := carts[userId := WithoutCartItem(cart, cartItemId)];
      r := Ok(carts[userId]);
    }

    /** Needs a session; empties the session user's cart. */
    method ClearCart() returns (r: Result<()>)
      modifies this
      ensures currentUser == old(currentUser)
      ensures currentUser.None? ==> r == Err(Unauthenticated) && Stored() == old(Stored())
      ensures currentUser.Some? ==>
                && r == Ok(())
                && carts == old(carts)[currentUser.value.id := []]
                && Stored() == old(Stored()).(carts := carts)
      ensures AllCartsDistinct(old(carts)) ==> AllCartsDistinct(carts)
    {
      if currentUser.None? {
        r := Err(Unauthenticated);
        return;
      }
      carts := carts[currentUser.value.id := []];
      r := Ok(());
    }

    // -------------------------------------------------------------- orders

    /** Needs a session; appends one pending order whose items are the cart
        as it was before the call (unless the data supplies items), then
        empties the session user's cart. */
    method CreateOrder(data: OrderData, stamp: string, now: string) returns (r: Result<Order>)
      modifies this
      ensures currentUser == old(currentUser)
      ensures currentUser.None? ==> r == Err(Unauthenticated) && Stored() == old(Stored())
      ensures currentUser.Some? ==>
                var userId := currentUser.value.id;
                var order := NewOrder(data, userId, CartOf(old(carts), userId), stamp, now);
                && r == Ok(order)
                && orders == old(orders) + [order]
                && carts == old(carts)[userId := []]
                && Stored() == old(Stored()).(orders := orders, carts := carts)
      ensures r.Ok? ==> r.value.status == PendingStatus && GetCart(currentUser, carts) == []
      ensures r.Ok? && data.items.None? ==> r.value.items == GetCart(old(currentUser), old(carts))
    {
      if currentUser.None? {
        r := Err(Unauthenticated);
        return;
      }
      var cart := GetCart(currentUser, carts);
      var order := NewOrder(data, currentUser.value.id, cart, stamp, now);
      orders := orders + [order];
      var cleared := ClearCart();
      r := Ok(order);
    }

    /** Admin only: sets the status of the first order with this id to any
        value, whatever its current status. NotFound, changing nothing, when
        there is no such order. */
    method UpdateOrderStatus(orderId: string, status: string, now: string) returns (r: Result<Order>)
      modifies this
      ensures currentUser == old(currentUser)
      ensures !IsAdmin(currentUser) ==> r == Err(Unauthorized) && Stored() == old(Stored())
      ensures IsAdmin(currentUser) && OrderIndex(old(orders), orderId).None? ==>
                r == Err(NotFound) && Stored() == old(Stored())
      ensures IsAdmin(currentUser) && OrderIndex(old(orders), orderId).Some? ==>
                var i := OrderIndex(old(orders), orderId).value;
                && orders == old(orders)[i := old(orders)[i].(status := status, updatedAt := Some(now))]
                && r == Ok(orders[i]) && r.value.status == status
                && Stored() == old(Stored()).(orders := orders)
    {
      if !IsAdmin(currentUser) {
        r := Err(Unauthorized);
        return;
      }
      match OrderIndex(orders, orderId) {
        case None =>
          r := Err(NotFound);
        case Some(i) =>
          orders := orders[i := orders[i].(status := status, updatedAt := Some(now))];
          r := Ok(orders[i]);
      }
    }

    // --------------------------------------------------------------- users

    /** An admin may update any user, anyone else only their own account;
        the patch is merged into the first user with this id (NotFound,
        changing nothing, when there is none) and the result is returned
        without the password. The session is not refreshed. */
    method UpdateUser(userId: string, patch: UserPatch, now: string) returns (r: Result<User>)
      requires currentUser.Some?
      modifies this
      ensures currentUser == old(currentUser)
      ensures !IsAdmin(currentUser) && currentUser.value.id != userId ==>
                r == Err(Unauthorized) && Stored() == old(Stored())
      ensures (IsAdmin(currentUser) || currentUser.value.id == userId) && UserIndex(old(users), userId).None? ==>
                r == Err(NotFound) && Stored() == old(Stored())
      ensures (IsAdmin(currentUser) || currentUser.value.id == userId) && UserIndex(old(users), userId).Some? ==>
                var i := UserIndex(old(users), userId).value;
                && users == old(users)[i := PatchUser(old(users)[i], patch, now)]
                && r == Ok(Sanitize(users[i]))
                && Stored() == old(Stored()).(users := users)
    {
      if !IsAdmin(currentUser) && currentUser.value.id != userId {
        r := Err(Unauthorized);
        return;
      }
      match UserIndex(users, userId) {
        case None =>
          r := Err(NotFound);
        case Some(i) =>
          users := users[i := PatchUser(users[i], patch, now)];
          r := Ok(Sanitize(users[i]));
      }
    }

    /** Admin only: keeps exactly the users whose id differs, in order. */
    method DeleteUser(userId: string) returns (r: Result<()>)
      modifies this
      ensures currentUser == old(currentUser)
      ensures !IsAdmin(currentUser) ==> r == Err(Unauthorized) && Stored() == old(Stored())
      ensures IsAdmin(currentUser) ==>
                && r == Ok(())
                && users == WithoutUser(old(users), userId)
                && Stored() == old(Stored()).(users := users)
    {
      if !IsAdmin(currentUser) {
        r := Err(Unauthorized);
        return;
      }
      users := WithoutUser(users, userId);
      r := Ok(());
    }

    // ------------------------------------------------------------- content

    /** Admin only: appends `{ id: type + '-' + stamp, ...data, createdAt: now }`
        to the collection of that type. */
    method AddContent(t: ContentType, data: ContentData, stamp: string, now: string) returns (r: Result<ContentItem>)
      modifies this
      ensures currentUser == old(currentUser)
      ensures !IsAdmin(currentUser) ==> r == Err(Unauthorized) && Stored() == old(Stored())
      ensures IsAdmin(currentUser) ==>
                && r == Ok(NewContent(t, data, stamp, now))
                && content == old(content)[t := ContentOf(old(content), t) + [r.value]]
                && Stored() == old(Stored()).(content := content)
    {
      if !IsAdmin(currentUser) {
        r := Err(Unauthorized);
        return;
      }
      var item := NewContent(t, data, stamp, now);
      content := content[t := ContentOf(content, t) + [item]];
      r := Ok(item);
    }

    /** Admin only: merges the data into the first item of that type with
        this id; NotFound, changing nothing, when there is none. */
    method UpdateContent(t: ContentType, id: string, data: ContentData, now: string) returns (r: Result<ContentItem>)
      modifies this
      ensures currentUser == old(currentUser)
      ensures !IsAdmin(currentUser) ==> r == Err(Unauthorized) && Stored() == old(Stored())
      ensures IsAdmin(currentUser) ==>
                var items := ContentOf(old(content), t);
                match ContentIndex(items, id)
                case None => r == Err(NotFound) && Stored() == old(Stored())
                case Some(i) =>
                  && content == old(content)[t := items[i := PatchContent(items[i], data, now)]]
                  && r == Ok(content[t][i])
                  && Stored() == old(Stored()).(content := content)
    {
      if !IsAdmin(currentUser) {
        r := Err(Unauthorized);
        return;
      }
      var items := ContentOf(content, t);
      match ContentIndex(items, id) {
        case None =>
          r := Err(NotFound);
        case Some(i) =>
          content := content[t := items[i := PatchContent(items[i], data, now)]];
          r := Ok(content[t][i]);
      }
    }

    /** Admin only: keeps exactly the items of that type whose id differs, in
        order. */
    method DeleteContent(t: ContentType, id: string) returns (r: Result<()>)
      modifies this
      ensures currentUser == old(currentUser)
      ensures !IsAdmin(currentUser) ==> r == Err(Unauthorized) && Stored() == old(Stored())
      ensures IsAdmin(currentUser) ==>
                && r == Ok(())
                && content == old(content)[t := WithoutContent(ContentOf(old(content), t), id)]
                && Stored() == old(Stored()).(content := content)
    {
      if !IsAdmin(currentUser) {
        r := Err(Unauthorized);
        return;
      }
      content := content[t := WithoutContent(ContentOf(content, t), id)];
      r := Ok(());
    }
  }

  /** Replacing one user's cart by AddLine of it keeps every cart distinct. */
  lemma AddLineKeepsDistinctIn(carts: map<string, seq<CartItem>>, userId: string, product: Product,
                               productId: string, quantity: int, size: Option<string>, stamp: string, now: string)
    ensures AllCartsDistinct(carts) ==>
              AllCartsDistinct(carts[userId := AddLine(CartOf(carts, userId), product, productId, quantity, size, stamp, now)])
  {
    if AllCartsDistinct(carts) {
      var cart := CartOf(carts, userId);
      assert DistinctLines(cart);
      AddLineKeepsDistinct(cart, product, productId, quantity, size, stamp, now);
    }
  }
}
