/** The documents of the five collections, as their schemas define them:
    fields, the setters applied on assignment (trim, lowercase), the defaults
    applied on creation, and the validators a `save()` runs. */
module Models {
  import opened Common

  // ---------------------------------------------------------------------
  // User
  // ---------------------------------------------------------------------

  datatype Role = Client | Seller

  function RoleName(r: Role): string {
    match r
    case Client => "Client"
    case Seller => "Seller"
  }

  /** The `enum: ['Client', 'Seller']` validator: exactly these two strings. */
  function ParseRole(s: string): (r: Option<Role>)
    ensures r.Some? <==> s == "Client" || s == "Seller"
    ensures r.Some? ==> RoleName(r.value) == s
  {
    if s == "Client" then Some(Client)
    else if s == "Seller" then Some(Seller)
    else None
  }

  const MinPasswordLength: nat := 6

  datatype User = User(id: Id, name: string, email: string, password: string, role: Role)

  /** A user as `select('-password')` returns it: the credential is not a field. */
  datatype PublicUser = PublicUser(id: Id, name: string, email: string, role: Role)

  function Public(u: User): (p: PublicUser)
    ensures p.id == u.id && p.name == u.name && p.email == u.email && p.role == u.role
  {
    PublicUser(u.id, u.name, u.email, u.role)
  }

  /** The `trim` and `lowercase` setters on `email`; they also apply to
      equality queries on the field. */
  function NormalizeEmail(e: string): (r: string)
    ensures |r| <= |e|
    ensures forall i :: 0 <= i < |r| ==> !('A' <= r[i] <= 'Z')
    ensures r == [] <==> forall i :: 0 <= i < |e| ==> IsSpace(e[i])
  {
    Lower(Trim(e))
  }

  /** `User.create({...})` before validation: the setters on name and email. */
  function NewUser(id: Id, name: string, email: string, password: string, role: Role): (u: User)
    ensures u.id == id && u.password == password && u.role == role
    ensures u.name == Trim(name) && u.email == NormalizeEmail(email)
  {
    User(id, Trim(name), NormalizeEmail(email), password, role)
  }

  /** The `required` and `minlength` validators of the user schema. */
  predicate UserSchemaValid(u: User) {
    u.name != "" && u.email != "" && |u.password| >= MinPasswordLength
  }

  // ---------------------------------------------------------------------
  // Category
  // ---------------------------------------------------------------------

  datatype SubCategory = SubCategory(name: string)

  datatype Category = Category(id: Id, name: string, subCategories: seq<SubCategory>)

  /** Sub-category entries built from the submitted names, each trimmed; the
      list keeps its order and may repeat a name. */
  function SubCategoriesOf(names: seq<string>): (r: seq<SubCategory>)
    ensures |r| == |names|
    ensures forall k :: 0 <= k < |r| ==> r[k].name == Trim(names[k])
  {
    seq(|names|, k requires 0 <= k < |names| => SubCategory(Trim(names[k])))
  }

  function NewCategory(id: Id, name: string, subNames: seq<string>): (c: Category)
    ensures c.id == id && c.name == Trim(name) && c.subCategories == SubCategoriesOf(subNames)
  {
    Category(id, Trim(name), SubCategoriesOf(subNames))
  }

  /** The `required` validators on the category name and each sub-category name. */
  predicate CategorySchemaValid(c: Category) {
    c.name != "" && forall k :: 0 <= k < |c.subCategories| ==> c.subCategories[k].name != ""
  }

  /** `category.subCategories.some(sub => sub.name === name)`. */
  predicate HasSubCategory(c: Category, name: string) {
    exists k :: 0 <= k < |c.subCategories| && c.subCategories[k].name == name
  }

  // ---------------------------------------------------------------------
  // Product
  // ---------------------------------------------------------------------

  /** `discount` is `None` where the stored document has no value for it. */
  datatype Product = Product(
    id: Id, name: string, description: string, price: real, discount: Option<real>,
    category: Id, subCategory: string, imageUrl: string, stock: int, purchaseCount: int)

  /** `new Product({...})`: the name is trimmed, `discount` defaults to 0,
      `stock` to 1 and `purchaseCount` to 0. */
  function NewProduct(
    id: Id, name: string, description: string, price: real, discount: Option<real>,
    category: Id, subCategory: string, imageUrl: string, stock: Option<int>): (p: Product)
    ensures p.id == id && p.name == Trim(name) && p.description == description && p.price == price
    ensures p.discount.Some? && (discount.Some? ==> p.discount == discount)
    ensures discount.None? ==> p.discount == Some(0.0)
    ensures p.category == category && p.subCategory == subCategory && p.imageUrl == imageUrl
    ensures p.stock == (if stock.Some? then stock.value else 1)
    ensures p.purchaseCount == 0
  {
    Product(id, Trim(name), description, price,
            Some(if discount.Some? then discount.value else 0.0),
            category, subCategory, imageUrl,
            if stock.Some? then stock.value else 1, 0)
  }

  /** The `required` validators of the product schema, and the cast of
      `category` to an ObjectId. */
  predicate ProductSchemaValid(p: Product) {
    && p.name != "" && p.description != ""
    && IsValidObjectId(p.category) && p.subCategory != "" && p.imageUrl != ""
  }

  // ---------------------------------------------------------------------
  // Cart
  // ---------------------------------------------------------------------

  datatype CartItem = CartItem(product: Id, quantity: int)

  /** One cart per user: the unique index on `user`. */
  datatype Cart = Cart(user: Id, items: seq<CartItem>)

  /** A pushed item: `quantity` defaults to 1. */
  function NewCartItem(product: Id, quantity: Option<int>): (it: CartItem)
    ensures it.product == product
    ensures it.quantity == (if quantity.Some? then quantity.value else 1)
  {
    CartItem(product, if quantity.Some? then quantity.value else 1)
  }

  /** An item must reference a product and hold `quantity >= 1`. */
  predicate CartItemValid(it: CartItem) {
    IsValidObjectId(it.product) && it.quantity >= 1
  }

  predicate CartItemsValid(items: seq<CartItem>) {
    forall k :: 0 <= k < |items| ==> CartItemValid(items[k])
  }

  // ---------------------------------------------------------------------
  // Order
  // ---------------------------------------------------------------------

  datatype OrderStatus = Pending | Shipped | Delivered | Cancelled | Returned

  function StatusName(s: OrderStatus): string {
    match s
    case Pending => "Pending"
    case Shipped => "Shipped"
    case Delivered => "Delivered"
    case Cancelled => "Cancelled"
    case Returned => "Returned"
  }

  /** The `enum` validator on `status`: exactly the five names. */
  function ParseStatus(s: string): (r: Option<OrderStatus>)
    ensures r.Some? <==> s in {"Pending", "Shipped", "Delivered", "Cancelled", "Returned"}
    ensures r.Some? ==> StatusName(r.value) == s
  {
    if s == "Pending" then Some(Pending)
    else if s == "Shipped" then Some(Shipped)
    else if s == "Delivered" then Some(Delivered)
    else if s == "Cancelled" then Some(Cancelled)
    else if s == "Returned" then Some(Returned)
    else None
  }

  datatype ShippingAddress = ShippingAddress(
    address: Option<string>, city: Option<string>, postalCode: Option<string>, country: Option<string>)

  /** The empty address `{}`. */
  const NoAddress := ShippingAddress(None, None, None, None)

  datatype PaymentResult = PaymentResult(
    id: Option<string>, status: Option<string>, updateTime: Option<string>, emailAddress: Option<string>)

  /** A line of an order: a copy of the product's name and price at checkout. */
  datatype OrderItem = OrderItem(product: Id, name: string, quantity: int, price: real)

  /** `createdAt` is the store's clock when the order was saved. */
  datatype Order = Order(
    id: Id, user: Id, items: seq<OrderItem>, totalAmount: real, status: OrderStatus,
    shippingAddress: ShippingAddress, paymentResult: Option<PaymentResult>, createdAt: nat)

  /** `new Order({...})`: `status` defaults to Pending; no payment yet. */
  function NewOrder(id: Id, user: Id, items: seq<OrderItem>, totalAmount: real,
                    shipping: ShippingAddress, createdAt: nat): (o: Order)
    ensures o.status == Pending && o.paymentResult.None?
    ensures o.id == id && o.user == user && o.items == items && o.totalAmount == totalAmount
    ensures o.shippingAddress == shipping && o.createdAt == createdAt
  {
    Order(id, user, items, totalAmount, Pending, shipping, None, createdAt)
  }

  /** The `required` validators of an order: a user and, on every line, a
      product and a name. */
  predicate OrderSchemaValid(o: Order) {
    && IsValidObjectId(o.user)
    && forall k :: 0 <= k < |o.items| ==> IsValidObjectId(o.items[k].product) && o.items[k].name != ""
  }

  /** The schema lets a category list the same sub-category twice: two
      submitted names that differ only by leading white space are stored as
      one and the same entry, and nothing refuses the repeat. */
  lemma DuplicateSubCategoriesAllowed(id: Id, name: string, sub: string)
    requires Trim(name) != "" && Trim(sub) != ""
    ensures var c := NewCategory(id, name, [sub, " " + sub]);
      CategorySchemaValid(c) && c.subCategories == [SubCategory(Trim(sub)), SubCategory(Trim(sub))]
  {
    var names := [sub, " " + sub];
    TrimLeadingSpace(sub);
    SameTrimSchemaValid(id, name, names, Trim(sub));
  }

  lemma SameTrimSchemaValid(id: Id, name: string, names: seq<string>, t: string)
    requires Trim(name) != "" && t != "" && |names| == 2
    requires Trim(names[0]) == t && Trim(names[1]) == t
    ensures var c := NewCategory(id, name, names);
      CategorySchemaValid(c) && c.subCategories == [SubCategory(t), SubCategory(t)]
  {
    var c := NewCategory(id, name, names);
    PairOfSubCategories(names, t);
    forall k | 0 <= k < |c.subCategories| ensures c.subCategories[k].name != "" {
      assert k == 0 || k == 1;
    }
  }

  /** Two names with the same trim give two equal sub-categories. */
  lemma PairOfSubCategories(names: seq<string>, t: string)
    requires |names| == 2 && Trim(names[0]) == t && Trim(names[1]) == t
    ensures SubCategoriesOf(names) == [SubCategory(t), SubCategory(t)]
  {
    var subs := SubCategoriesOf(names);
    assert subs[0] == SubCategory(t) && subs[1] == SubCategory(t);
  }
}
