/** The server's store and the controllers that change it. The five
    collections are fields of one object; each controller that writes is a
    method that answers with a status and either a value or a message, and
    leaves the store unchanged whenever it answers with an error. Routes
    behind `protect` take the signed-in user's id, routes behind `protect,
    isSeller` the id of the Seller, as preconditions. */
module Shop {
  import opened Common
  import opened Models
  import opened Collections
  import opened Carts
  import opened Checkout
  import Catalog
  import Accounts
  import Categories
  import opened Orders

  const CartEmpty := "Your cart is empty."
  const MissingProduct := "Server error while creating order: A product in your cart was not found."
  const AddFailed := "Server error while adding to cart."
  const CartNotFound := "Cart not found."
  const ProductRemoved := "Product removed successfully."
  const DeleteProductFailed := "Server error while deleting product."
  const UpdateCategoryFailed := "Server error while updating category."
  const DeleteCategoryFailed := "Server error while deleting category."
  const CategoryRemoved := "Category removed."

  /** Each product is stored under its own id and passes the schema. */
  ghost predicate ProductsValid(products: Collection<Product>) {
    && Collections.Valid(products)
    && forall id :: id in products.docs ==> products.docs[id].id == id && ProductSchemaValid(products.docs[id])
  }

  /** Each category is stored under its own id and passes the schema, and
      the unique index on `name` holds. */
  ghost predicate CategoriesValid(categories: Collection<Category>) {
    && Collections.Valid(categories)
    && (forall id :: id in categories.docs ==>
          categories.docs[id].id == id && CategorySchemaValid(categories.docs[id]))
    && Categories.UniqueNames(categories)
  }

  /** Each user is stored under its own id and passes the schema; the
      unique index on `email` holds, and there is at most one Seller. */
  ghost predicate UsersValid(users: Collection<User>) {
    && Collections.Valid(users)
    && (forall id :: id in users.docs ==> users.docs[id].id == id && UserSchemaValid(users.docs[id]))
    && Accounts.AtMostOneSeller(users) && Accounts.UniqueEmails(users)
  }

  /** One cart per user, stored under that user; lines that pass the cart
      schema, one per product. */
  predicate CartsValid(carts: map<Id, Cart>) {
    forall u :: u in carts ==>
      carts[u].user == u && CartItemsValid(carts[u].items) && UniqueProducts(carts[u].items)
  }

  /** Orders in creation order, each stamped before the clock's current
      value, each total the sum over its own lines. */
  predicate OrdersValid(orders: seq<Order>, clock: nat) {
    && CreatedInOrder(orders)
    && (forall k :: 0 <= k < |orders| ==> orders[k].createdAt < clock)
    && (forall k :: 0 <= k < |orders| ==> orders[k].totalAmount == Total(orders[k].items))
  }

  /** A user's cart lines; no cart reads as no lines. */
  function CartLines(carts: map<Id, Cart>, user: Id): (items: seq<CartItem>)
    ensures user !in carts ==> items == []
    ensures user in carts ==> items == carts[user].items
  {
    if user in carts then carts[user].items else []
  }

  /** The write methods keep the fields they leave alone in a ghost `rest`
      and assert at the end that it is unchanged: the parts of `Valid()`
      over those fields then carry over without being proved again. */
  class Store {
    var products: Collection<Product>
    var categories: Collection<Category>
    var users: Collection<User>
    var carts: map<Id, Cart>
    var orders: seq<Order>
    /** The time source of `createdAt`: greater than every stamp given out. */
    var clock: nat

    ghost predicate Valid()
      reads this
    {
      && ProductsValid(products) && CategoriesValid(categories) && UsersValid(users)
      && CartsValid(carts) && OrdersValid(orders, clock)
    }

    /** The store the server starts from: nothing in any collection. */
    constructor ()
      ensures Valid()
      ensures products.docs == map[] && categories.docs == map[] && users.docs == map[]
      ensures carts == map[] && orders == []
    {
      products := Collection([], map[]);
      categories := Collection([], map[]);
      users := Collection([], map[]);
      carts := map[];
      orders := [];
      clock := 0;
    }

    /** `protect` admitted `user`. */
    predicate SignedIn(user: Id)
      reads this
    {
      user in users.docs
    }

    /** `protect, isSeller` admitted `user`. */
    predicate SignedInSeller(user: Id)
      reads this
    {
      user in users.docs && users.docs[user].role == Seller
    }

    // -------------------------------------------------------------------
    // Orders
    // -------------------------------------------------------------------

    /** `createOrder`: an absent or empty cart is refused with 400 and a
        line whose product is gone with 500, both before anything is
        written. Otherwise the order of the snapshot lines and their total
        is saved, every line's product loses the line's quantity of stock
        and gains it in purchase count, and the cart is deleted. */
    method CreateOrder(user: Id, shipping: Option<ShippingAddress>, newId: Id) returns (r: Reply<Order>)
      requires Valid() && SignedIn(user)
      modifies this
      ensures Valid()
      ensures var items := CartLines(old(carts), user);
        && (items == [] ==> r == Err(400, CartEmpty))
        && (items != [] && !AllPresent(items, old(products).docs) ==> r == Err(500, MissingProduct))
        && (r.Err? ==> unchanged(this))
        && (r.Ok? <==> items != [] && AllPresent(items, old(products).docs))
        && (r.Ok? ==>
              && r.status == 201
              && (var lines := Snapshot(items, old(products).docs).value;
                  r.value == NewOrder(newId, user, lines, Total(lines),
                                      if shipping.Some? then shipping.value else NoAddress, old(clock)))
              && orders == old(orders) + [r.value]
              && products == Collection(old(products).ids, Purchase(old(products).docs, items))
              && carts == old(carts) - {user}
              && categories == old(categories) && users == old(users))
    {
      if user !in carts || |carts[user].items| == 0 {
        return Err(400, CartEmpty);
      }
      var prepared := PrepareOrder(carts[user].items, products.docs);
      if prepared.None? {
        return Err(500, MissingProduct);
      }
      var order := PlaceOrder(user, prepared.value.0, prepared.value.1,
                              if shipping.Some? then shipping.value else NoAddress, newId);
      r := Ok(201, order);
    }

    /** The writes of `createOrder` once the snapshot is taken: the order is
        saved with the next stamp of the clock, the purchase is applied to
        the products and the cart is deleted. */
    method PlaceOrder(user: Id, lines: seq<OrderItem>, totalAmount: real, shipping: ShippingAddress, newId: Id)
      returns (order: Order)
      requires Valid() && user in carts
      requires Snapshot(carts[user].items, products.docs) == Some(lines) && totalAmount == Total(lines)
      modifies this
      ensures Valid()
      ensures order == NewOrder(newId, user, lines, totalAmount, shipping, old(clock))
      ensures orders == old(orders) + [order]
      ensures products == Collection(old(products).ids, Purchase(old(products).docs, old(carts)[user].items))
      ensures carts == old(carts) - {user}
      ensures categories == old(categories) && users == old(users)
    {
      ghost var rest := (categories, users);
      var items := carts[user].items;
      order := NewOrder(newId, user, lines, totalAmount, shipping, clock);
      AppendOrderKeepsValid(orders, clock, order);
      orders := orders + [order];
      clock := clock + 1;
      ApplyPurchase(items);
      RemoveCartKeepsValid(carts, user);
      carts := carts - {user};
      assert rest == (categories, users);
    }

    /** The `updateOne` of every cart line, one after the other. */
    method ApplyPurchase(items: seq<CartItem>)
      requires ProductsValid(products)
      modifies this`products
      ensures products == Collection(old(products).ids, Purchase(old(products).docs, items))
      ensures ProductsValid(products)
    {
      var i := 0;
      while i < |items|
        invariant 0 <= i <= |items|
        invariant products == Collection(old(products).ids, Purchase(old(products).docs, items[..i]))
      {
        assert items[..i + 1][..i] == items[..i];
        products := Collection(products.ids, Bump(products.docs, items[i]));
        i := i + 1;
      }
      assert items[..i] == items;
      PurchaseKeepsProductsValid(old(products), items);
    }

    // -------------------------------------------------------------------
    // Cart
    // -------------------------------------------------------------------

    /** `addItemToCart`: the user's cart (a new empty one if there is none)
        with the product's line set to the quantity, or a new line for it at
        the end. The save refuses a missing or non-positive quantity on an
        existing line, a quantity below 1, and an id that is not an
        ObjectId (500); the stored cart is then left as it was. */
    method AddItemToCart(user: Id, rawProduct: string, quantity: Option<int>) returns (r: Reply<seq<CartItem>>)
      requires Valid() && SignedIn(user)
      modifies this`carts
      ensures Valid()
      ensures var items := CartLines(old(carts), user);
        var present := CastId(rawProduct) in ProductsOf(items);
        var q := if quantity.Some? then quantity.value else 1;
        && (r.Err? <==> (present && (quantity.None? || quantity.value < 1))
                        || (!present && (!IsValidObjectId(rawProduct) || q < 1)))
        && (r.Err? ==> r == Err(500, AddFailed) && carts == old(carts))
        && (r.Ok? ==> && r.status == 200
                      && r.value == Add(items, rawProduct, q)
                      && carts == old(carts)[user := Cart(user, r.value)])
    {
      ghost var rest := (products, categories, users, orders, clock);
      var items := CartLines(carts, user);
      var product := CastId(rawProduct);
      var q := if quantity.Some? then quantity.value else 1;
      var itemIndex := FindIndex(items, product);
      FoundIffPresent(items, product);
      if itemIndex > -1 {
        if quantity.None? || quantity.value < 1 {
          return Err(500, AddFailed);
        }
        items := items[itemIndex := items[itemIndex].(quantity := quantity.value)];
      } else {
        if !IsValidObjectId(rawProduct) || q < 1 {
          return Err(500, AddFailed);
        }
        items := items + [CartItem(product, q)];
      }
      assert items == Add(CartLines(carts, user), rawProduct, q);
      AddKeepsItemsValid(CartLines(carts, user), rawProduct, q);
      PutCartKeepsValid(carts, user, items);
      carts := carts[user := Cart(user, items)];
      r := Ok(200, items);
      assert rest == (products, categories, users, orders, clock);
    }

    /** `removeItemFromCart`: 404 without a cart; otherwise the lines of
        the product are dropped, the others kept in order, and a product not
        in the cart is a successful no-op. */
    method RemoveItemFromCart(user: Id, rawProduct: string) returns (r: Reply<seq<CartItem>>)
      requires Valid() && SignedIn(user)
      modifies this`carts
      ensures Valid()
      ensures user !in old(carts) ==> r == Err(404, CartNotFound) && carts == old(carts)
      ensures user in old(carts) ==>
        && r == Ok(200, Carts.Remove(old(carts)[user].items, rawProduct))
        && carts == old(carts)[user := Cart(user, r.value)]
    {
      ghost var rest := (products, categories, users, orders, clock);
      if user !in carts {
        return Err(404, CartNotFound);
      }
      var items := Carts.Remove(carts[user].items, rawProduct);
      RemoveKeepsUnique(carts[user].items, CastId(rawProduct));
      carts := carts[user := Cart(user, items)];
      r := Ok(200, items);
      assert rest == (products, categories, users, orders, clock);
    }

    // -------------------------------------------------------------------
    // Products
    // -------------------------------------------------------------------

    /** `createProduct`: the product `Catalog.CreateProduct` builds is
        saved; nothing else changes, and nothing at all on an error. */
    method CreateProduct(seller: Id, in_: Catalog.ProductInput, file: Option<string>, newId: Id)
      returns (r: Reply<Product>)
      requires Valid() && SignedInSeller(seller)
      requires newId !in products.docs
      modifies this`products
      ensures Valid()
      ensures r == Catalog.CreateProduct(in_, file, categories, newId)
      ensures r.Ok? ==> products == Insert(old(products), newId, r.value)
      ensures r.Err? ==> products == old(products)
    {
      r := Catalog.CreateProduct(in_, file, categories, newId);
      if r.Ok? {
        SaveNewProduct(r.value);
      }
    }

    /** `Product.create` of a product under a fresh id that passes the
        schema. */
    method SaveNewProduct(p: Product)
      requires Valid() && p.id !in products.docs && ProductSchemaValid(p)
      modifies this`products
      ensures Valid()
      ensures products == Insert(old(products), p.id, p)
    {
      ghost var rest := (categories, users, carts, orders, clock);
      InsertProductKeepsValid(products, p.id, p);
      products := Insert(products, p.id, p);
      assert rest == (categories, users, carts, orders, clock);
    }

    /** `updateProduct`: a malformed id makes the lookup throw (500), an
        absent product is 404; otherwise the fields are assigned as
        `Catalog.Patch` describes and the product saved, unless the schema
        refuses it (500). Orders
        keep the names and prices they captured. */
    method UpdateProduct(seller: Id, rawId: string, in_: Catalog.ProductInput, file: Option<string>)
      returns (r: Reply<Product>)
      requires Valid() && SignedInSeller(seller)
      modifies this`products
      ensures Valid()
      ensures !IsValidObjectId(rawId) ==> r == Err(500, Catalog.UpdateFailed)
      ensures IsValidObjectId(rawId) && CastId(rawId) !in old(products).docs ==> r == Err(404, Catalog.ProductNotFound)
      ensures r.Err? ==> products == old(products)
      ensures r.Ok? <==> IsValidObjectId(rawId) && CastId(rawId) in old(products).docs
                         && ProductSchemaValid(Catalog.Patch(old(products).docs[CastId(rawId)], in_, file))
      ensures r.Ok? ==> var id := CastId(rawId);
        && r.status == 200
        && r.value == Catalog.Patch(old(products).docs[id], in_, file)
        && products == Put(old(products), id, r.value)
    {
      ghost var rest := (categories, users, carts, orders, clock);
      if !IsValidObjectId(rawId) {
        return Err(500, Catalog.UpdateFailed);
      }
      var id := CastId(rawId);
      if id !in products.docs {
        return Err(404, Catalog.ProductNotFound);
      }
      var product := Catalog.Patch(products.docs[id], in_, file);
      if !ProductSchemaValid(product) {
        return Err(500, Catalog.UpdateFailed);
      }
      PutProductKeepsValid(products, id, product);
      products := Put(products, id, product);
      r := Ok(200, product);
      assert rest == (categories, users, carts, orders, clock);
    }

    /** `deleteProduct`: the found product, and only it, leaves the
        catalog; carts and orders that refer to it are not touched. */
    method DeleteProduct(seller: Id, rawId: string) returns (r: Reply<string>)
      requires Valid() && SignedInSeller(seller)
      modifies this`products
      ensures Valid()
      ensures !IsValidObjectId(rawId) ==> r == Err(500, DeleteProductFailed) && products == old(products)
      ensures IsValidObjectId(rawId) && CastId(rawId) !in old(products).docs ==>
        r == Err(404, Catalog.ProductNotFound) && products == old(products)
      ensures IsValidObjectId(rawId) && CastId(rawId) in old(products).docs ==>
        r == Ok(200, ProductRemoved) && products == Collections.Remove(old(products), CastId(rawId))
    {
      ghost var rest := (categories, users, carts, orders, clock);
      if !IsValidObjectId(rawId) {
        return Err(500, DeleteProductFailed);
      }
      var id := CastId(rawId);
      if id !in products.docs {
        return Err(404, Catalog.ProductNotFound);
      }
      RemoveProductKeepsValid(products, id);
      products := Collections.Remove(products, id);
      r := Ok(200, ProductRemoved);
      assert rest == (categories, users, carts, orders, clock);
    }

    // -------------------------------------------------------------------
    // Users
    // -------------------------------------------------------------------

    /** `registerUser`: the user `Accounts.Register` admits is created and
        answered with a token for its id; nothing is stored on a refusal. */
    method RegisterUser(in_: Accounts.RegisterInput, newId: Id, hash: string -> string, sign: Id -> string)
      returns (r: Reply<Accounts.Session>)
      requires Valid()
      requires newId !in users.docs
      modifies this`users
      ensures Valid()
      ensures var decided := Accounts.Register(old(users), in_, newId, hash);
        && (decided.Err? ==> r == Err(decided.status, decided.message) && users == old(users))
        && (decided.Ok? ==> r == Ok(201, Accounts.SessionOf(decided.value, sign))
                            && users == Insert(old(users), newId, decided.value))
    {
      var decided := Accounts.Register(users, in_, newId, hash);
      if decided.Err? {
        return Err(decided.status, decided.message);
      }
      SaveUser(decided.value);
      r := Ok(201, Accounts.SessionOf(decided.value, sign));
    }

    /** `User.create`: a user under a fresh id, with an email nobody holds,
        and a Seller only when there is none, joins the users. */
    method SaveUser(u: User)
      requires Valid() && u.id !in users.docs && UserSchemaValid(u)
      requires forall id :: id in users.docs ==> users.docs[id].email != u.email
      requires u.role == Seller ==> !Accounts.SellerExists(users)
      modifies this`users
      ensures Valid()
      ensures users == Insert(old(users), u.id, u)
    {
      ghost var rest := (products, categories, carts, orders, clock);
      InsertUserKeepsValid(users, u.id, u);
      users := Insert(users, u.id, u);
      assert rest == (products, categories, carts, orders, clock);
    }

    // -------------------------------------------------------------------
    // Categories
    // -------------------------------------------------------------------

    /** `createCategory`: the category `Categories.Create` admits is saved. */
    method CreateCategory(seller: Id, name: Option<string>, subs: Option<seq<string>>, newId: Id)
      returns (r: Reply<Category>)
      requires Valid() && SignedInSeller(seller)
      requires newId !in categories.docs
      modifies this`categories
      ensures Valid()
      ensures r == Categories.Create(old(categories), name, subs, newId)
      ensures r.Ok? ==> categories == Insert(old(categories), newId, r.value)
      ensures r.Err? ==> categories == old(categories)
      ensures (Truthy(name) && !Categories.TakenIgnoringCase(old(categories), Trim(name.value))
               && CategorySchemaValid(NewCategory(newId, name.value, if subs.Some? then subs.value else [])))
              ==> r.Ok? && r.status == 201 && newId in categories.docs
    {
      r := Categories.Create(categories, name, subs, newId);
      if r.Ok? {
        SaveNewCategory(r.value);
      }
    }

    /** `Category.create` of a category under a fresh id whose name no
        stored category holds, ignoring case. */
    method SaveNewCategory(c: Category)
      requires Valid() && c.id !in categories.docs && CategorySchemaValid(c)
      requires !Categories.TakenIgnoringCase(categories, c.name)
      modifies this`categories
      ensures Valid()
      ensures categories == Insert(old(categories), c.id, c)
    {
      ghost var rest := (products, users, carts, orders, clock);
      InsertCategoryKeepsValid(categories, c.id, c);
      categories := Insert(categories, c.id, c);
      assert rest == (products, users, carts, orders, clock);
    }

    /** `updateCategory`: a malformed id makes the lookup throw (500), an
        absent category is 404; otherwise the name (when a non-empty one is
        sent) and the whole sub-category list (when one is sent) are
        replaced, and the save fails (500) on an empty name or sub-category
        name or on another category's exact name. Products are untouched. */
    method UpdateCategory(seller: Id, rawId: string, name: Option<string>, subs: Option<seq<string>>)
      returns (r: Reply<Category>)
      requires Valid() && SignedInSeller(seller)
      modifies this`categories
      ensures Valid()
      ensures !IsValidObjectId(rawId) ==> r == Err(500, UpdateCategoryFailed)
      ensures IsValidObjectId(rawId) && CastId(rawId) !in old(categories).docs ==> r == Err(404, Categories.CategoryNotFound)
      ensures r.Err? ==> categories == old(categories)
      ensures r.Ok? <==> && IsValidObjectId(rawId) && CastId(rawId) in old(categories).docs
                         && var d := Categories.Renamed(old(categories).docs[CastId(rawId)], name, subs);
                            CategorySchemaValid(d) && !Categories.TakenExactly(old(categories), d.name, CastId(rawId))
      ensures r.Ok? ==> var id := CastId(rawId);
        && r.status == 200
        && r.value == Categories.Renamed(old(categories).docs[id], name, subs)
        && categories == Put(old(categories), id, r.value)
    {
      if !IsValidObjectId(rawId) {
        return Err(500, UpdateCategoryFailed);
      }
      var id := CastId(rawId);
      if id !in categories.docs {
        return Err(404, Categories.CategoryNotFound);
      }
      var category := categories.docs[id];
      category := category.(name := if Truthy(name) then Trim(name.value) else category.name);
      if subs.Some? {
        category := category.(subCategories := SubCategoriesOf(subs.value));
      }
      if !CategorySchemaValid(category) || Categories.TakenExactly(categories, category.name, id) {
        return Err(500, UpdateCategoryFailed);
      }
      assert category == Categories.Renamed(old(categories).docs[id], name, subs);
      SaveCategory(id, category);
      r := Ok(200, category);
    }

    /** `category.save()` of a category already stored, which the schema and
        the unique index accept. */
    method SaveCategory(id: Id, c: Category)
      requires Valid() && id in categories.docs
      requires c.id == id && CategorySchemaValid(c) && !Categories.TakenExactly(categories, c.name, id)
      modifies this`categories
      ensures Valid()
      ensures categories == Put(old(categories), id, c)
    {
      ghost var rest := (products, users, carts, orders, clock);
      PutCategoryKeepsValid(categories, id, c);
      categories := Put(categories, id, c);
      assert rest == (products, users, carts, orders, clock);
    }

    /** `deleteCategory`: the category, and only it, is removed; products
        that name it keep the now dangling reference. */
    method DeleteCategory(seller: Id, rawId: string) returns (r: Reply<string>)
      requires Valid() && SignedInSeller(seller)
      modifies this`categories
      ensures Valid()
      ensures !IsValidObjectId(rawId) ==> r == Err(500, DeleteCategoryFailed) && categories == old(categories)
      ensures IsValidObjectId(rawId) && CastId(rawId) !in old(categories).docs ==>
        r == Err(404, Categories.CategoryNotFound) && categories == old(categories)
      ensures IsValidObjectId(rawId) && CastId(rawId) in old(categories).docs ==>
        r == Ok(200, CategoryRemoved) && categories == Collections.Remove(old(categories), CastId(rawId))
    {
      ghost var rest := (products, users, carts, orders, clock);
      if !IsValidObjectId(rawId) {
        return Err(500, DeleteCategoryFailed);
      }
      var id := CastId(rawId);
      if id !in categories.docs {
        return Err(404, Categories.CategoryNotFound);
      }
      RemoveCategoryKeepsValid(categories, id);
      categories := Collections.Remove(categories, id);
      r := Ok(200, CategoryRemoved);
      assert rest == (products, users, carts, orders, clock);
    }
  }

  /** Stock and purchase-count updates keep every product a valid document
      under its own id. */
  lemma PurchaseKeepsProductsValid(products: Collection<Product>, items: seq<CartItem>)
    requires ProductsValid(products)
    ensures ProductsValid(Collection(products.ids, Purchase(products.docs, items)))
  {
    PurchaseEffect(products.docs, items);
  }

  /** An order stamped with the clock, whose total is the sum over its
      lines, joins the orders in creation order. */
  lemma AppendOrderKeepsValid(orders: seq<Order>, clock: nat, o: Order)
    requires OrdersValid(orders, clock)
    requires o.createdAt == clock && o.totalAmount == Total(o.items)
    ensures OrdersValid(orders + [o], clock + 1)
  {
  }

  /** A user's cart replaced by valid lines, one per product, keeps every
      cart valid. */
  lemma PutCartKeepsValid(carts: map<Id, Cart>, user: Id, items: seq<CartItem>)
    requires CartsValid(carts) && CartItemsValid(items) && UniqueProducts(items)
    ensures CartsValid(carts[user := Cart(user, items)])
  {
  }

  lemma RemoveCartKeepsValid(carts: map<Id, Cart>, user: Id)
    requires CartsValid(carts)
    ensures CartsValid(carts - {user})
  {
  }

  lemma InsertProductKeepsValid(products: Collection<Product>, id: Id, p: Product)
    requires ProductsValid(products) && id !in products.docs
    requires p.id == id && ProductSchemaValid(p)
    ensures ProductsValid(Insert(products, id, p))
  {
  }

  lemma PutProductKeepsValid(products: Collection<Product>, id: Id, p: Product)
    requires ProductsValid(products) && id in products.docs
    requires p.id == id && ProductSchemaValid(p)
    ensures ProductsValid(Put(products, id, p))
  {
  }

  lemma RemoveProductKeepsValid(products: Collection<Product>, id: Id)
    requires ProductsValid(products)
    ensures ProductsValid(Collections.Remove(products, id))
  {
  }

  /** A user with a new email, who is a Seller only when there was none,
      joins the users without breaking their invariant. */
  lemma InsertUserKeepsValid(users: Collection<User>, newId: Id, u: User)
    requires UsersValid(users) && newId !in users.docs
    requires u.id == newId && UserSchemaValid(u)
    requires forall id :: id in users.docs ==> users.docs[id].email != u.email
    requires u.role == Seller ==> !Accounts.SellerExists(users)
    ensures UsersValid(Insert(users, newId, u))
  {
    Accounts.InsertKeepsInvariants(users, newId, u);
  }

  /** A category whose name is free ignoring case joins without two equal
      names. */
  lemma InsertCategoryKeepsValid(categories: Collection<Category>, id: Id, c: Category)
    requires CategoriesValid(categories) && id !in categories.docs
    requires c.id == id && CategorySchemaValid(c)
    requires !Categories.TakenIgnoringCase(categories, c.name)
    ensures CategoriesValid(Insert(categories, id, c))
  {
  }

  /** A category renamed to a name no other category holds exactly keeps the
      names unique. */
  lemma PutCategoryKeepsValid(categories: Collection<Category>, id: Id, c: Category)
    requires CategoriesValid(categories) && id in categories.docs
    requires c.id == id && CategorySchemaValid(c)
    requires !Categories.TakenExactly(categories, c.name, id)
    ensures CategoriesValid(Put(categories, id, c))
  {
  }

  lemma RemoveCategoryKeepsValid(categories: Collection<Category>, id: Id)
    requires CategoriesValid(categories)
    ensures CategoriesValid(Collections.Remove(categories, id))
  {
  }

  /** An order built from the snapshot of a cart of stored products, for a
      user with an ObjectId, passes the order schema: every line has a
      product id and a non-empty name. */
  lemma SnapshotOrderSchemaValid(items: seq<CartItem>, products: Collection<Product>, id: Id, user: Id,
                                 shipping: ShippingAddress, createdAt: nat)
    requires ProductsValid(products) && AllPresent(items, products.docs)
    requires IsValidObjectId(user)
    requires forall x :: x in products.docs ==> IsValidObjectId(x)
    ensures var lines := Snapshot(items, products.docs).value;
      OrderSchemaValid(NewOrder(id, user, lines, Total(lines), shipping, createdAt))
  {
  }
}
