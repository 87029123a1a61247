/** The computations of `createOrder`: the price of each line after its
    discount, the snapshot of each cart line as an order line, the running
    total, and the `$inc` that each line applies to its product. */
module Checkout {
  import opened Common
  import opened Models
  import opened Carts

  /** `product.discount || 0`: a missing discount counts as none. */
  function DiscountOf(p: Product): (d: real)
    ensures p.discount.None? ==> d == 0.0
    ensures p.discount.Some? ==> d == p.discount.value
  {
    if p.discount.Some? then p.discount.value else 0.0
  }

  /** `product.price * (1 - discount / 100)`. */
  function EffectivePrice(p: Product): (r: real)
    ensures DiscountOf(p) == 0.0 ==> r == p.price
    ensures DiscountOf(p) == 100.0 ==> r == 0.0
  {
    p.price * (1.0 - DiscountOf(p) / 100.0)
  }

  /** A discount between 0 and 100 percent never raises a non-negative
      price and never makes it negative; no discount leaves it as it is. */
  lemma EffectivePriceBounds(p: Product)
    requires p.price >= 0.0
    requires 0.0 <= DiscountOf(p) <= 100.0
    ensures 0.0 <= EffectivePrice(p) <= p.price
    ensures DiscountOf(p) == 0.0 ==> EffectivePrice(p) == p.price
  {
    var f := 1.0 - DiscountOf(p) / 100.0;
    assert 0.0 <= f <= 1.0;
    assert p.price * f <= p.price * 1.0;
  }

  /** The order line built from a cart line and the product it refers to:
      copies of the product's id and name and of the price after discount. */
  function Line(it: CartItem, p: Product): (o: OrderItem)
    ensures o.product == p.id && o.name == p.name && o.quantity == it.quantity
    ensures o.price == p.price * (1.0 - DiscountOf(p) / 100.0)
  {
    OrderItem(p.id, p.name, it.quantity, EffectivePrice(p))
  }

  /** Every line's product is in the catalog (what `populate` needs for no
      line to come back as `null`). */
  predicate AllPresent(items: seq<CartItem>, products: map<Id, Product>) {
    forall k :: 0 <= k < |items| ==> items[k].product in products
  }

  /** The order lines `cart.items.map(...)` builds, or `None` when it throws
      because a line's product is missing. */
  function Snapshot(items: seq<CartItem>, products: map<Id, Product>): (r: Option<seq<OrderItem>>)
    ensures r.Some? <==> AllPresent(items, products)
    ensures r.Some? ==> |r.value| == |items|
    ensures r.Some? ==> forall k :: 0 <= k < |items| ==>
      r.value[k] == Line(items[k], products[items[k].product])
  {
    if AllPresent(items, products) then
      Some(seq(|items|, k requires 0 <= k < |items| => Line(items[k], products[items[k].product])))
    else None
  }

  /** The sum of quantity times captured price over the order lines. */
  function Total(lines: seq<OrderItem>): (t: real)
    ensures lines == [] ==> t == 0.0
  {
    if lines == [] then 0.0
    else
      var last := lines[|lines| - 1];
      Total(lines[..|lines| - 1]) + last.quantity as real * last.price
  }

  lemma {:induction false} TotalAppend(a: seq<OrderItem>, b: seq<OrderItem>)
    ensures Total(a + b) == Total(a) + Total(b)
    decreases |b|
  {
    if b == [] {
      assert a + b == a;
    } else {
      var b' := b[..|b| - 1];
      assert (a + b)[..|a + b| - 1] == a + b';
      assert (a + b)[|a + b| - 1] == b[|b| - 1];
      TotalAppend(a, b');
    }
  }

  /** Summing from the front gives the same total: the first line plus the
      rest. */
  lemma TotalFirst(lines: seq<OrderItem>)
    requires lines != []
    ensures Total(lines) == lines[0].quantity as real * lines[0].price + Total(lines[1..])
  {
    assert lines == [lines[0]] + lines[1..];
    TotalAppend([lines[0]], lines[1..]);
    assert [lines[0]][..0] == [];
  }

  /** With positive quantities and non-negative prices the total is
      non-negative. */
  lemma {:induction false} TotalNonNegative(lines: seq<OrderItem>)
    requires forall k :: 0 <= k < |lines| ==> lines[k].quantity >= 1 && lines[k].price >= 0.0
    ensures Total(lines) >= 0.0
    decreases |lines|
  {
    if lines != [] {
      TotalNonNegative(lines[..|lines| - 1]);
      var last := lines[|lines| - 1];
      assert last.quantity as real * last.price >= 0.0;
    }
  }

  /** A line added at the end adds its quantity times its price. */
  lemma TotalSnoc(lines: seq<OrderItem>, o: OrderItem)
    ensures Total(lines + [o]) == Total(lines) + o.quantity as real * o.price
  {
    assert (lines + [o])[..|lines|] == lines;
  }

  /** What the `map` callback of `createOrder` produces, computed as the
      source does: line by line, with `totalAmount` kept as a running sum,
      stopping at the first line whose product is missing. */
  method PrepareOrder(items: seq<CartItem>, products: map<Id, Product>)
    returns (r: Option<(seq<OrderItem>, real)>)
    ensures r.None? <==> !AllPresent(items, products)
    ensures r.Some? ==> Snapshot(items, products) == Some(r.value.0)
    ensures r.Some? ==> r.value.1 == Total(r.value.0)
  {
    var lines: seq<OrderItem> := [];
    var totalAmount := 0.0;
    var i := 0;
    while i < |items|
      invariant 0 <= i <= |items|
      invariant AllPresent(items[..i], products)
      invariant |lines| == i
      invariant forall k :: 0 <= k < i ==> lines[k] == Line(items[k], products[items[k].product])
      invariant totalAmount == Total(lines)
    {
      var item := items[i];
      if item.product !in products {
        return None;
      }
      var product := products[item.product];
      var priceAfterDiscount := EffectivePrice(product);
      var line := OrderItem(product.id, product.name, item.quantity, priceAfterDiscount);
      assert line == Line(item, product);
      TotalSnoc(lines, line);
      totalAmount := totalAmount + item.quantity as real * priceAfterDiscount;
      lines := lines + [line];
      i := i + 1;
    }
    assert items[..i] == items;
    assert Snapshot(items, products).value == lines;
    r := Some((lines, totalAmount));
  }

  // ---------------------------------------------------------------------
  // The stock and purchase-count updates
  // ---------------------------------------------------------------------

  /** `Product.updateOne({ _id }, { $inc: { stock: -q, purchaseCount: q } })`
      for one cart line; an id that matches no product changes nothing. */
  function Bump(products: map<Id, Product>, it: CartItem): (r: map<Id, Product>)
    ensures r.Keys == products.Keys
    ensures forall x :: x in products && x != it.product ==> r[x] == products[x]
  {
    if it.product in products then
      var p := products[it.product];
      products[it.product := p.(stock := p.stock - it.quantity, purchaseCount := p.purchaseCount + it.quantity)]
    else products
  }

  /** The updates of every cart line, applied in the order of the lines. */
  function Purchase(products: map<Id, Product>, items: seq<CartItem>): (r: map<Id, Product>)
    ensures r.Keys == products.Keys
    decreases |items|
  {
    if items == [] then products
    else Bump(Purchase(products, items[..|items| - 1]), items[|items| - 1])
  }

  /** The quantity ordered of product `x`: the sum over its lines. */
  function QuantityOf(items: seq<CartItem>, x: Id): int
    decreases |items|
  {
    if items == [] then 0
    else
      var last := items[|items| - 1];
      QuantityOf(items[..|items| - 1], x) + (if last.product == x then last.quantity else 0)
  }

  /** After the updates every product is the product it was, with its stock
      lowered and its purchase count raised by the quantity ordered of it
      (nothing for a product not ordered). No lower bound on stock is
      checked, so stock can become negative. */
  lemma {:induction false} PurchaseEffect(products: map<Id, Product>, items: seq<CartItem>)
    ensures forall x :: x in products ==>
      (Purchase(products, items)[x] ==
       products[x].(stock := products[x].stock - QuantityOf(items, x),
                    purchaseCount := products[x].purchaseCount + QuantityOf(items, x)))
    decreases |items|
  {
    if items != [] {
      PurchaseEffect(products, items[..|items| - 1]);
    }
  }

  /** With one line per product, the quantity ordered of a product is the
      quantity on its line, and nothing for a product with no line. */
  lemma {:induction false} QuantityOfUnique(items: seq<CartItem>, x: Id)
    requires UniqueProducts(items)
    ensures x !in ProductsOf(items) ==> QuantityOf(items, x) == 0
    ensures forall k :: 0 <= k < |items| && items[k].product == x ==> QuantityOf(items, x) == items[k].quantity
    decreases |items|
  {
    if items != [] {
      var init := items[..|items| - 1];
      assert UniqueProducts(init);
      QuantityOfUnique(init, x);
      if items[|items| - 1].product == x {
        assert x !in ProductsOf(init);
      }
    }
  }

  /** A line's stock goes down by exactly the line's quantity, its purchase
      count up by the same amount, and the two together stay as they were. */
  lemma PurchaseOfLine(products: map<Id, Product>, items: seq<CartItem>, k: nat)
    requires UniqueProducts(items)
    requires k < |items| && items[k].product in products
    ensures var x := items[k].product;
      && Purchase(products, items)[x].stock == products[x].stock - items[k].quantity
      && Purchase(products, items)[x].purchaseCount == products[x].purchaseCount + items[k].quantity
      && Purchase(products, items)[x].stock + Purchase(products, items)[x].purchaseCount
         == products[x].stock + products[x].purchaseCount
  {
    PurchaseEffect(products, items);
    QuantityOfUnique(items, items[k].product);
  }

  /** A product with no line in the cart is left exactly as it was. */
  lemma PurchaseOthersUnchanged(products: map<Id, Product>, items: seq<CartItem>, x: Id)
    requires UniqueProducts(items)
    requires x in products && x !in ProductsOf(items)
    ensures Purchase(products, items)[x] == products[x]
  {
    PurchaseEffect(products, items);
    QuantityOfUnique(items, x);
  }

  /** The order's total is the sum over the cart lines of quantity times the
      product's price after discount, as it stood at checkout. */
  lemma {:induction false} TotalOfSnapshot(items: seq<CartItem>, products: map<Id, Product>)
    requires AllPresent(items, products)
    ensures Total(Snapshot(items, products).value) == CartValue(items, products)
    decreases |items|
  {
    if items != [] {
      var n := |items|;
      var init := items[..n - 1];
      var lines := Snapshot(items, products).value;
      assert Snapshot(init, products).value == lines[..n - 1];
      TotalOfSnapshot(init, products);
      assert Total(lines) == Total(lines[..n - 1]) + lines[n - 1].quantity as real * lines[n - 1].price;
      LineValue(items[n - 1], products[items[n - 1].product]);
    }
  }

  /** One order line is worth its cart line's quantity times the price
      after discount. */
  lemma LineValue(it: CartItem, p: Product)
    ensures Line(it, p).quantity as real * Line(it, p).price
      == it.quantity as real * (p.price * (1.0 - DiscountOf(p) / 100.0))
  {
  }

  /** The value of a cart at current prices:
      sum of `quantity * price * (1 - discount / 100)`. */
  function CartValue(items: seq<CartItem>, products: map<Id, Product>): real
    requires AllPresent(items, products)
    decreases |items|
  {
    if items == [] then 0.0
    else
      var last := items[|items| - 1];
      var p := products[last.product];
      CartValue(items[..|items| - 1], products) + last.quantity as real * (p.price * (1.0 - DiscountOf(p) / 100.0))
  }

  /** Nothing holds stock at zero: ordering two of a product with one in
      stock leaves it at minus one. */
  lemma StockCanGoNegative(p: Product)
    requires p.stock == 1
    ensures Purchase(map[p.id := p], [CartItem(p.id, 2)])[p.id].stock == -1
  {
    assert [CartItem(p.id, 2)][..0] == [];
  }
}
