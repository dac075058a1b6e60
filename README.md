# ZPL shop backend: a Dafny model of `FirebaseService`

The Zambian Premier League web shop keeps all of its data in one mock
backend object, `FirebaseService` (`src/services/firebaseApi.js`). It holds a
session (`currentUser`) and, standing in for a database, the users, the
products, the orders, one cart per user and the news, matches and players
content. Every mutation reads a collection, changes it in memory and writes it
back whole. On top of that sit the rules this project models and proves:

- only an admin may change products, orders, users and content;
- login is an exact email/password match, and registration refuses a taken
  email and always creates a customer;
- adding a (product, size) pair that is already in the cart raises that
  line's quantity instead of adding a second line, so a cart never holds two
  lines for one pair;
- checkout turns a snapshot of the cart into a pending order and then empties
  the cart;
- deletes keep every other entry in order, and deleting a missing id changes
  nothing;
- admins see every order, customers only their own.

Layout, one Dafny module per file:

- `collections.dfy` (`Collections`): `Option`, the array operations the
  service is built from (`filter`, `find`, `findIndex`) with their contracts,
  and lemmas about filtering.
- `text.dfy` (`Text`): `toLowerCase` and `includes`, used by the product
  search.
- `records.dfy` (`Records`): the stored records, the partial records callers
  pass in, the error kinds, and the object spreads that build new records.
- `queries.dfy` (`Queries`): the read-only operations (`isAdmin`,
  `getProducts`, `getProduct`, `getCart`, `getOrders`, `getOrder`,
  `getUsers`, `getContent`) and the lookups and filters the mutators use, as
  functions of the session and the collections.
- `carts.dfy` (`Carts`): the cart-merging rule and its invariant.
- `seed.dfy` (`Seed`): the six sample products and the admin account written
  on first start.
- `service.dfy` (`Service`): the class `FirebaseService` with one field per
  collection plus `currentUser`, and one method per mutator. Each method's
  postcondition gives the whole new state as a function of the old one
  (`Stored() == old(Stored()).(products := ...)`), so "nothing else changed"
  is part of every contract.
- `properties.dfy` (`Properties`): properties that span several operations.

Wall-clock values are parameters: `stamp` stands for `Date.now()` in generated
ids (`'user-' + stamp`, `'prod-' + stamp`, `'cart-' + stamp`,
`'order-' + stamp`, `type + '-' + stamp`) and `now` for
`new Date().toISOString()`. A key the caller leaves out of a spread object is
`None`; a key the source writes after the spread (`role` in `register`,
`status` in `createOrder`, `createdAt` in the add operations, `updatedAt` in
the updates) is fixed and cannot be overridden.

## Model

| member | source | states |
|---|---|---|
| Collections.Filter | src/services/firebaseApi.js:247 | `filter` keeps, in order, exactly the entries that pass, each as often as it occurs; when every entry passes the list is unchanged |
| Collections.FilterIf | src/services/firebaseApi.js:181-195 | a filter step that is skipped when its filter is not given leaves the list unchanged, otherwise it is `filter` |
| Collections.FindIndex | src/services/firebaseApi.js:229 | `findIndex` returns the first passing position, and none exactly when no entry passes |
| Collections.Find | src/services/firebaseApi.js:123 | `find` returns a passing entry exactly when one exists, and it is the first passing entry |
| Collections.SubsequenceTransitive | src/services/firebaseApi.js:179-197 | chained filters still give a subsequence of the original list |
| Collections.FilterKeepsDistinct | src/services/firebaseApi.js:314 | filtering never introduces two entries with the same key |
| Collections.FilterDropsOne | src/services/firebaseApi.js:247 | when exactly one entry fails, the filter is one shorter |
| Collections.FilterOnlyLast | src/services/firebaseApi.js:261-291 | when only the last entry passes, the filter is exactly that entry (used to count the cart lines for a pair after two adds) |
| Collections.FilterNone | src/services/firebaseApi.js:176-198 | when no entry passes, the filter is empty (used for the products outside the requested category) |
| Collections.FilterKeepsPrefix | src/services/firebaseApi.js:176-198 | filtering passing entries followed by failing ones gives exactly the passing ones (used for the category filter on a grouped catalogue) |
| Collections.DistinctCons | src/services/firebaseApi.js:309-318 | a list has distinct keys exactly when its rest does and no later entry shares the first entry's key (used to show that removing cart lines keeps them distinct) |
| Text.Lower | src/services/firebaseApi.js:190-193 | lowercasing keeps the length, maps each character, and leaves no upper-case ASCII letter |
| Text.Includes | src/services/firebaseApi.js:192-193 | `includes` never holds for a search string longer than the text, and always holds for a prefix of it |
| Text.IncludesIffOccurs | src/services/firebaseApi.js:192-193 | `includes` holds exactly when the search string occurs at some position |
| Records.Sanitize | src/services/firebaseApi.js:126-127 | the copy handed out has no password and differs from the stored user only there |
| Records.NewUser | src/services/firebaseApi.js:144-149 | a registered user is always a customer created at `now`; email, password, name and phone come from the data; the id is the caller's if given, else `user-` + stamp |
| Records.PatchUser | src/services/firebaseApi.js:430 | an update stamps `updatedAt`; every key the patch supplies (id, email, password, name, phone, role, createdAt) wins and every other key stays, so a user updating their own account can change their own role |
| Records.NewProduct | src/services/firebaseApi.js:211-215 | a new product carries every field of the draft, gets `createdAt`, and the generated id unless the draft supplies one |
| Records.PatchProduct | src/services/firebaseApi.js:235 | an update stamps `updatedAt`; every field the patch supplies wins and every other field stays |
| Records.NewOrder | src/services/firebaseApi.js:337-344 | a new order is always pending and created at `now`; it belongs to the session user and holds the cart and the generated id unless the order data supplies owner, items or id; the details are the caller's |
| Records.NewContent | src/services/firebaseApi.js:463-467 | a new item keeps the given fields, gets `createdAt`, and takes the given id or else `type-stamp` |
| Records.PatchContent | src/services/firebaseApi.js:488 | an update stamps `updatedAt`; a supplied id or createdAt wins, the data's fields win, and every other field of the item stays |
| Queries.FindCredentials | src/services/firebaseApi.js:123 | a user is found exactly when some stored user has that email and that password, and it is the first such user |
| Queries.EmailInUse | src/services/firebaseApi.js:140 | holds exactly when some stored user has that email |
| Queries.UserIndex | src/services/firebaseApi.js:424 | the first position with the user id; none exactly when no user has it |
| Queries.GetUsers | src/services/firebaseApi.js:406-416 | Unauthorized unless admin; otherwise every user in order, each without its password and otherwise unchanged |
| Queries.WithoutUser | src/services/firebaseApi.js:443 | exactly the users with another id, in order; an absent id changes nothing |
| Queries.GetProducts | src/services/firebaseApi.js:176-198 | a subsequence of the stored products holding exactly those that satisfy every given filter (category, featured, case-insensitive search in name or description); no filters give every product |
| Queries.GetProduct | src/services/firebaseApi.js:200-203 | a product is returned exactly when one has the id, and it is the first such |
| Queries.ProductIndex | src/services/firebaseApi.js:229 | the first position with the product id; none exactly when no product has it |
| Queries.WithoutProduct | src/services/firebaseApi.js:247 | exactly the products with another id, in order; an absent id changes nothing |
| Queries.GetCart | src/services/firebaseApi.js:254-259 | the session user's saved cart; no session, or no saved cart, reads as the empty cart |
| Queries.CartItemIndex | src/services/firebaseApi.js:299 | the first line with the line id; none exactly when no line has it |
| Queries.WithoutCartItem | src/services/firebaseApi.js:314 | exactly the lines with another id, in order; an absent id changes nothing |
| Queries.OrdersOf | src/services/firebaseApi.js:359 | exactly the orders of that user, in order |
| Queries.OrderIndex | src/services/firebaseApi.js:393 | the first position with the order id; none exactly when no order has it |
| Queries.GetOrders | src/services/firebaseApi.js:355-371 | a given user id selects exactly that user's orders, with repeats; otherwise an admin sees all orders, a customer exactly their own, and no session none |
| Queries.GetOrder | src/services/firebaseApi.js:373-385 | the first order with the id, returned exactly to an admin or to its owner; no session gets none |
| Queries.GetContent | src/services/firebaseApi.js:450-453 | a collection never written reads as empty |
| Queries.ContentIndex | src/services/firebaseApi.js:482 | the first position with the item id; none exactly when no item has it |
| Queries.WithoutContent | src/services/firebaseApi.js:501 | exactly the items with another id, in order; an absent id changes nothing |
| Carts.LinesFor | src/services/firebaseApi.js:274 | exactly the cart lines for a (product id, size) pair, in order, each as often as it occurs |
| Carts.LineIndex | src/services/firebaseApi.js:274 | the first line for the pair; none exactly when no line has it |
| Carts.AddLine | src/services/firebaseApi.js:274-287 | a pair already in the cart keeps the length, a new pair adds one line after the old ones; no line changes its pair and the pair is then in the cart |
| Carts.AddLineMerges | src/services/firebaseApi.js:274-277 | when the pair is in the cart only that line changes, only in its quantity, which grows by the added amount |
| Carts.AddLineAppends | src/services/firebaseApi.js:278-286 | when the pair is not in the cart exactly one line is appended, holding the product snapshot and the quantity |
| Carts.AddLineKeepsDistinct | src/services/firebaseApi.js:274-287 | adding keeps every (product id, size) pair on at most one line |
| Carts.SetQuantityKeepsDistinct | src/services/firebaseApi.js:299-301 | setting a quantity keeps the pairs distinct |
| Carts.RemoveKeepsDistinct | src/services/firebaseApi.js:314 | removing lines keeps the pairs distinct |
| Carts.AddTwiceMerges | src/services/firebaseApi.js:261-291 | adding a new pair twice gives one line more, exactly one line for the pair, holding the sum of both quantities |
| Service.AddLineKeepsDistinctIn | src/services/firebaseApi.js:271-289 | replacing one user's cart by the added-to cart keeps every cart distinct |
| Service.FirebaseService.constructor | src/services/firebaseApi.js:21-117 | the sample products and the admin account are written only when their collections were never saved; the saved session is restored |
| Service.FirebaseService.Login | src/services/firebaseApi.js:121-134 | succeeds exactly when a stored user matches email and password; the session becomes that user without password; on failure nothing changes |
| Service.FirebaseService.Register | src/services/firebaseApi.js:136-160 | a taken email fails and changes nothing; otherwise exactly one customer is appended and becomes the session without password |
| Service.FirebaseService.Logout | src/services/firebaseApi.js:162-165 | the session ends and the store is untouched |
| Service.FirebaseService.AddProduct | src/services/firebaseApi.js:205-221 | Unauthorized and no change unless admin; otherwise exactly one product is appended |
| Service.FirebaseService.UpdateProduct | src/services/firebaseApi.js:223-239 | Unauthorized unless admin; NotFound and no change for an absent id; otherwise only the first matching product changes |
| Service.FirebaseService.DeleteProduct | src/services/firebaseApi.js:241-251 | Unauthorized and no change unless admin; otherwise exactly the products with another id remain, in order |
| Service.FirebaseService.AddToCart | src/services/firebaseApi.js:261-291 | no session or unknown product fails and changes nothing; otherwise only the session user's cart changes, by the merge-or-append rule, and every cart stays distinct |
| Service.FirebaseService.UpdateCartItem | src/services/firebaseApi.js:293-307 | no session or unknown line fails and changes nothing; otherwise only that line's quantity changes, to any value |
| Service.FirebaseService.RemoveFromCart | src/services/firebaseApi.js:309-318 | no session fails; otherwise exactly the other lines remain, in order |
| Service.FirebaseService.ClearCart | src/services/firebaseApi.js:320-326 | no session fails; otherwise only the session user's cart becomes empty |
| Service.FirebaseService.CreateOrder | src/services/firebaseApi.js:329-353 | no session fails; otherwise one pending order holding the pre-call cart is appended and that cart is emptied, nothing else changes |
| Service.FirebaseService.UpdateOrderStatus | src/services/firebaseApi.js:387-403 | Unauthorized unless admin; NotFound for an absent id; otherwise only that order changes, to any status whatever its current one |
| Service.FirebaseService.UpdateUser | src/services/firebaseApi.js:418-435 | an admin may update anyone, others only themselves; NotFound for an absent id; otherwise only that user changes and is returned without password |
| Service.FirebaseService.DeleteUser | src/services/firebaseApi.js:437-447 | Unauthorized and no change unless admin; otherwise exactly the users with another id remain |
| Service.FirebaseService.AddContent | src/services/firebaseApi.js:455-473 | Unauthorized and no change unless admin; otherwise exactly one item is appended to that type's collection |
| Service.FirebaseService.UpdateContent | src/services/firebaseApi.js:475-492 | Unauthorized unless admin; NotFound for an absent id; otherwise only the first matching item changes |
| Service.FirebaseService.DeleteContent | src/services/firebaseApi.js:494-505 | Unauthorized and no change unless admin; otherwise exactly the items of that type with another id remain |
| Properties.RegisterThenLogin | src/services/firebaseApi.js:121-160 | after registering a free email with a password, logging in with them finds exactly the new account |
| Properties.DeleteProductRemovesOne | src/services/firebaseApi.js:241-251 | with unique ids, deleting a stored product's id removes that one product and nothing more |
| Properties.CategoryFilterPrefix | src/services/firebaseApi.js:181-183 | on a catalogue whose first k products are exactly those of one category, filtering by that category returns those k, in order |
| Properties.SeededJerseys | src/services/firebaseApi.js:23-96 | on the sample catalogue the category "jerseys" returns exactly the two jerseys, in order |
| Properties.CheckoutVisibleToBuyer | src/services/firebaseApi.js:329-371 | the order a user places is among the orders `getOrders()` then shows that user |
| Properties.EmptySearchIgnored | src/services/firebaseApi.js:189 | an empty search string is falsy, so searching "" gives the same products as no search |

## Left out

- `localStorage` and JSON: the stored collections are fields of the class;
  the mirrored session key `zpl_current_user` is the field `currentUser`.
- `Date.now()` and `new Date().toISOString()` are the parameters `stamp` and
  `now`; nothing is claimed about the uniqueness of generated ids, since two
  calls in the same millisecond get the same one.
- `async`/`await`: every call completes against local state, so there is no
  interleaving to model.
- `getCurrentUser` is the field `currentUser` itself and `isAdmin` is the
  predicate `Queries.IsAdmin`; neither has a contract of its own.
- `updateUser` with no session dereferences a null session when the caller
  is not an admin; `Service.FirebaseService.UpdateUser` requires a session
  instead of modelling the crash.
- `Text.Lower` maps only the ASCII letters A-Z; full Unicode case mapping of
  `toLowerCase` is not modelled.
- The content operations take a `type` restricted to the three content
  collections (news, matches, players). In the source, `type` indexes the
  whole table of storage keys, so `users`, `products`, `orders` and `cart`
  also resolve: `getContent('users')` hands every stored user, password
  included, to any caller, and an admin's content add, update or delete on
  those names rewrites those collections. An unknown type reads and writes
  the literal key `undefined`. None of this aliasing is modelled.
- Keys a caller passes beyond the fields of each record type are not
  modelled; order details are an opaque map of strings.
- Prices are exact reals; the floating-point cart totals and `toFixed`
  formatting of the shop pages are not modelled, nor are the React view
  components and the carousel timers.
- The search scenario on the sample catalogue ("scarf" returns only the
  scarf) is not proved: evaluating `includes` over the literal sample texts is
  beyond what the verifier unfolds. The search filter itself is modelled and
  specified in `Queries.GetProducts`.
- Order statuses are plain strings: the source accepts any status value, not
  only pending, processing, shipped, delivered and cancelled, and the model
  follows the source.
- `clearCart` without a session returns a failure without an error message;
  it is modelled as `Unauthenticated`.
- Quantities are unbounded integers; `updateCartItem` stores any value,
  including zero or negative ones, as the source does.
