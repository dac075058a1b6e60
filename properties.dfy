/** Properties that relate several operations of the service: the
    registration/login round trip, deleting by a unique id, and the sample
    catalogue queries. */
module Properties {
  import opened Collections
  import opened Records
  import opened Queries
  import Seed

  /** After registering an email that was not in use, with a password, login
      with the same email and password finds exactly the new account. */
  lemma RegisterThenLogin(users: seq<User>, data: Registration, password: string, stamp: string, now: string)
    requires !EmailInUse(users, data.email) && data.password == Some(password)
    ensures FindCredentials(users + [NewUser(data, stamp, now)], data.email, password) == Some(NewUser(data, stamp, now))
  {
    var account := NewUser(data, stamp, now);
    assert account in users + [account];
  }

  /** When ids are unique, deleting the id of a stored product removes
      exactly that one product. */
  lemma DeleteProductRemovesOne(products: seq<Product>, i: nat)
    requires i < |products|
    requires forall j :: 0 <= j < |products| && j != i ==> products[j].id != products[i].id
    ensures |WithoutProduct(products, products[i].id)| == |products| - 1
    ensures products[i] !in WithoutProduct(products, products[i].id)
  {
    FilterDropsOne((p: Product) => p.id != products[i].id, products, i);
  }

  /** On a catalogue whose first `k` products are exactly those of one
      category, filtering by that category returns that prefix. */
  lemma CategoryFilterPrefix(products: seq<Product>, category: string, k: nat)
    requires category != "" && k <= |products|
    requires forall j :: 0 <= j < k ==> products[j].category == category
    requires forall j :: k <= j < |products| ==> products[j].category != category
    ensures GetProducts(products, ProductFilters(Some(category), false, None)) == products[..k]
  {
    var keep := (p: Product) => p.category == category;
    assert products == products[..k] + products[k..];
    FilterKeepsPrefix(keep, products[..k], products[k..]);
  }

  /** On the sample catalogue, the category filter "jerseys" returns exactly
      the two jerseys, in catalogue order. */
  lemma SeededJerseys(now: string)
    ensures GetProducts(Seed.Products(now), ProductFilters(Some("jerseys"), false, None)) == Seed.Products(now)[..2]
  {
    CategoryFilterPrefix(Seed.Products(now), "jerseys", 2);
  }

  /** The order a signed-in user places at checkout is among the orders
      `getOrders()` shows that user afterwards, whether customer or admin,
      unless the order data reassigns it to another user. */
  lemma CheckoutVisibleToBuyer(user: User, orders: seq<Order>, data: OrderData, cart: seq<CartItem>,
                               stamp: string, now: string)
    requires data.userId.None? || data.userId == Some(user.id)
    ensures NewOrder(data, user.id, cart, stamp, now) in GetOrders(Some(user), orders + [NewOrder(data, user.id, cart, stamp, now)], None)
  {
    var order := NewOrder(data, user.id, cart, stamp, now);
    assert order in orders + [order];
  }

  /** An empty search string is falsy, so `getProducts` skips the search
      step: searching "" gives what giving no search at all gives. */
  lemma EmptySearchIgnored(products: seq<Product>, filters: ProductFilters)
    ensures GetProducts(products, filters.(search := Some(""))) == GetProducts(products, filters.(search := None))
  {
  }
}
