/** The records the service stores, the partial records callers pass in, and
    the object spreads (`{ ...old, ...data, field: value }`) that build new
    records from them. A key a caller does not supply is `None`; a key written
    after the spread cannot be overridden by the caller. */
module Records {
  import opened Collections

  const AdminRole := "admin"
  const CustomerRole := "customer"
  const PendingStatus := "pending"

  /** A user account. `password` is `None` in every copy handed out to
      callers (the session, login and registration results, `getUsers`). */
  datatype User = User(
    id: string,
    email: string,
    password: Option<string>,
    name: string,
    phone: Option<string>,
    role: string,
    createdAt: string,
    updatedAt: Option<string>)

  datatype Product = Product(
    id: string,
    name: string,
    price: real,
    category: string,
    description: string,
    image: string,
    stock: int,
    sizes: seq<string>,
    featured: bool,
    createdAt: string,
    updatedAt: Option<string>)

  /** A cart line; `product` is the snapshot taken when the line was added. */
  datatype CartItem = CartItem(
    id: string,
    productId: string,
    product: Product,
    quantity: int,
    size: Option<string>,
    addedAt: string)

  /** An order. `details` holds the caller's shipping and payment fields
      (full name, address, payment method, subtotal, shipping fee, total, ...)
      verbatim, keyed by field name. */
  datatype Order = Order(
    id: string,
    userId: string,
    items: seq<CartItem>,
    details: map<string, string>,
    status: string,
    createdAt: string,
    updatedAt: Option<string>)

  /** The three kinds of generic content, with the prefix of their generated
      ids. */
  datatype ContentType = News | Matches | Players {
    function Name(): string {
      match this
      case News => "news"
      case Matches => "matches"
      case Players => "players"
    }
  }

  /** A news item, match or player: an id plus type-specific fields. */
  datatype ContentItem = ContentItem(
    id: string,
    fields: map<string, string>,
    createdAt: string,
    updatedAt: Option<string>)

  /** The failures the service reports (`{ success: false, error }`). */
  datatype Error =
    | Unauthorized        // "Unauthorized": the session is not an admin
    | Unauthenticated     // "Not authenticated" / "Please login ...": no session
    | NotFound            // "... not found": no entry has the given id
    | InvalidCredentials  // "Invalid email or password"
    | EmailTaken          // "Email already registered"

  datatype Result<T> = Ok(value: T) | Err(error: Error)

  /** What the registration form passes to `register`. */
  datatype Registration = Registration(
    id: Option<string>,
    email: string,
    password: Option<string>,
    name: string,
    phone: Option<string>,
    role: Option<string>)

  /** A partial user passed to `updateUser`. */
  datatype UserPatch = UserPatch(
    id: Option<string>,
    email: Option<string>,
    password: Option<string>,
    name: Option<string>,
    phone: Option<string>,
    role: Option<string>,
    createdAt: Option<string>)

  /** What the admin form passes to `addProduct`. */
  datatype ProductDraft = ProductDraft(
    id: Option<string>,
    name: string,
    price: real,
    category: string,
    description: string,
    image: string,
    stock: int,
    sizes: seq<string>,
    featured: bool)

  /** A partial product passed to `updateProduct`. */
  datatype ProductPatch = ProductPatch(
    id: Option<string>,
    name: Option<string>,
    price: Option<real>,
    category: Option<string>,
    description: Option<string>,
    image: Option<string>,
    stock: Option<int>,
    sizes: Option<seq<string>>,
    featured: Option<bool>,
    createdAt: Option<string>)

  /** What checkout passes to `createOrder`. A `status` supplied here is
      overwritten. */
  datatype OrderData = OrderData(
    id: Option<string>,
    userId: Option<string>,
    items: Option<seq<CartItem>>,
    status: Option<string>,
    details: map<string, string>)

  /** A partial content item passed to `addContent` and `updateContent`. */
  datatype ContentData = ContentData(
    id: Option<string>,
    fields: map<string, string>,
    createdAt: Option<string>)

  /** A copy of a user without the password key. */
  function Sanitize(u: User): (r: User)
    ensures r.password.None?
    ensures r.(password := u.password) == u
  {
    u.(password := None)
  }

  /** `{ id: 'user-' + stamp, ...data, role: 'customer', createdAt: now }`. */
  function NewUser(data: Registration, stamp: string, now: string): (u: User)
    ensures u.role == CustomerRole
    ensures u.email == data.email && u.password == data.password
    ensures u.name == data.name && u.phone == data.phone
    ensures data.id.Some? ==> u.id == data.id.value
    ensures data.id.None? ==> u.id == "user-" + stamp
    ensures u.createdAt == now && u.updatedAt.None?
  {
    User(data.id.GetOr("user-" + stamp), data.email, data.password, data.name,
         data.phone, CustomerRole, now, None)
  }

  /** `{ ...user, ...patch, updatedAt: now }`: every key the patch supplies
      wins, including `role`, and an empty patch only refreshes `updatedAt`. */
  function PatchUser(u: User, p: UserPatch, now: string): (r: User)
    ensures r.updatedAt == Some(now)
    ensures p.id.Some? ==> r.id == p.id.value
    ensures p.id.None? ==> r.id == u.id
    ensures p.email.Some? ==> r.email == p.email.value
    ensures p.email.None? ==> r.email == u.email
    ensures p.password.Some? ==> r.password == p.password
    ensures p.password.None? ==> r.password == u.password
    ensures p.name.Some? ==> r.name == p.name.value
    ensures p.name.None? ==> r.name == u.name
    ensures p.phone.Some? ==> r.phone == p.phone
    ensures p.phone.None? ==> r.phone == u.phone
    ensures p.role.Some? ==> r.role == p.role.value
    ensures p.role.None? ==> r.role == u.role
    ensures p.createdAt.Some? ==> r.createdAt == p.createdAt.value
    ensures p.createdAt.None? ==> r.createdAt == u.createdAt
    ensures p == UserPatch(None, None, None, None, None, None, None) ==> r == u.(updatedAt := Some(now))
  {
    User(p.id.GetOr(u.id), p.email.GetOr(u.email),
         if p.password.Some? then p.password else u.password,
         p.name.GetOr(u.name),
         if p.phone.Some? then p.phone else u.phone,
         p.role.GetOr(u.role), p.createdAt.GetOr(u.createdAt), Some(now))
  }

  /** `{ id: 'prod-' + stamp, ...draft, createdAt: now }`. */
  function NewProduct(d: ProductDraft, stamp: string, now: string): (r: Product)
    ensures r.createdAt == now && r.updatedAt.None?
    ensures d.id.Some? ==> r.id == d.id.value
    ensures d.id.None? ==> r.id == "prod-" + stamp
    ensures r.name == d.name && r.price == d.price && r.category == d.category
    ensures r.description == d.description && r.image == d.image
    ensures r.stock == d.stock && r.sizes == d.sizes && r.featured == d.featured
  {
    Product(d.id.GetOr("prod-" + stamp), d.name, d.price, d.category, d.description,
            d.image, d.stock, d.sizes, d.featured, now, None)
  }

  /** `{ ...product, ...patch, updatedAt: now }`: an empty patch only
      refreshes `updatedAt`. */
  function PatchProduct(p: Product, d: ProductPatch, now: string): (r: Product)
    ensures r.updatedAt == Some(now)
    ensures d.id.Some? ==> r.id == d.id.value
    ensures d.id.None? ==> r.id == p.id
    ensures d.name.Some? ==> r.name == d.name.value
    ensures d.name.None? ==> r.name == p.name
    ensures d.price.Some? ==> r.price == d.price.value
    ensures d.price.None? ==> r.price == p.price
    ensures d.category.Some? ==> r.category == d.category.value
    ensures d.category.None? ==> r.category == p.category
    ensures d.description.Some? ==> r.description == d.description.value
    ensures d.description.None? ==> r.description == p.description
    ensures d.image.Some? ==> r.image == d.image.value
    ensures d.image.None? ==> r.image == p.image
    ensures d.stock.Some? ==> r.stock == d.stock.value
    ensures d.stock.None? ==> r.stock == p.stock
    ensures d.sizes.Some? ==> r.sizes == d.sizes.value
    ensures d.sizes.None? ==> r.sizes == p.sizes
    ensures d.featured.Some? ==> r.featured == d.featured.value
    ensures d.featured.None? ==> r.featured == p.featured
    ensures d.createdAt.Some? ==> r.createdAt == d.createdAt.value
    ensures d.createdAt.None? ==> r.createdAt == p.createdAt
    ensures d == ProductPatch(None, None, None, None, None, None, None, None, None, None) ==> r == p.(updatedAt := Some(now))
  {
    Product(d.id.GetOr(p.id), d.name.GetOr(p.name), d.price.GetOr(p.price),
            d.category.GetOr(p.category), d.description.GetOr(p.description),
            d.image.GetOr(p.image), d.stock.GetOr(p.stock), d.sizes.GetOr(p.sizes),
            d.featured.GetOr(p.featured), d.createdAt.GetOr(p.createdAt), Some(now))
  }

  /** `{ id: 'order-' + stamp, userId, items: cart, ...data, status: 'pending',
      createdAt: now }`. */
  function NewOrder(data: OrderData, userId: string, cart: seq<CartItem>, stamp: string, now: string): (o: Order)
    ensures o.status == PendingStatus
    ensures o.items == data.items.GetOr(cart)
    ensures data.userId.None? ==> o.userId == userId
    ensures data.userId.Some? ==> o.userId == data.userId.value
    ensures data.id.None? ==> o.id == "order-" + stamp
    ensures data.id.Some? ==> o.id == data.id.value
    ensures o.details == data.details && o.createdAt == now && o.updatedAt.None?
  {
    Order(data.id.GetOr("order-" + stamp), data.userId.GetOr(userId),
          data.items.GetOr(cart), data.details, PendingStatus, now, None)
  }

  /** `{ id: type + '-' + stamp, ...data, createdAt: now }`. */
  function NewContent(t: ContentType, d: ContentData, stamp: string, now: string): (r: ContentItem)
    ensures r.createdAt == now && r.fields == d.fields
    ensures d.id.None? ==> r.id == t.Name() + "-" + stamp
    ensures d.id.Some? ==> r.id == d.id.value
    ensures r.updatedAt.None?
  {
    ContentItem(d.id.GetOr(t.Name() + "-" + stamp), d.fields, now, None)
  }

  /** `{ ...item, ...data, updatedAt: now }`: the data's fields win, the
      item's other fields stay. */
  function PatchContent(c: ContentItem, d: ContentData, now: string): (r: ContentItem)
    ensures r.updatedAt == Some(now)
    ensures d.id.Some? ==> r.id == d.id.value
    ensures d.id.None? ==> r.id == c.id
    ensures d.createdAt.Some? ==> r.createdAt == d.createdAt.value
    ensures d.createdAt.None? ==> r.createdAt == c.createdAt
    ensures forall k :: k in r.fields <==> k in c.fields || k in d.fields
    ensures forall k :: k in d.fields ==> r.fields[k] == d.fields[k]
    ensures forall k :: k in c.fields && k !in d.fields ==> r.fields[k] == c.fields[k]
  {
    ContentItem(d.id.GetOr(c.id), c.fields + d.fields, d.createdAt.GetOr(c.createdAt), Some(now))
  }
}
