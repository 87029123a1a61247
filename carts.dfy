/** The list operations of the cart controller: `findIndex` over the lines,
    the insert-or-overwrite of `addItemToCart` and the `filter` of
    `removeItemFromCart`. Lines store the product id as the database prints
    it; the request carries the id as the client typed it. */
module Carts {
  import opened Common
  import opened Models

  /** At most one line per product. */
  predicate UniqueProducts(items: seq<CartItem>) {
    forall i, j :: 0 <= i < j < |items| ==> items[i].product != items[j].product
  }

  /** The products the lines refer to. */
  function ProductsOf(items: seq<CartItem>): (r: set<Id>)
    ensures forall x :: x in r <==> exists k :: 0 <= k < |items| && items[k].product == x
  {
    set k | 0 <= k < |items| :: items[k].product
  }

  // ---------------------------------------------------------------------
  // findIndex
  // ---------------------------------------------------------------------

  /** `items.findIndex(item => item.product.toString() === product)`: the
      first line holding `product`, or -1. */
  function FirstIndex(items: seq<CartItem>, product: string): (i: int)
    ensures -1 <= i < |items|
    ensures i >= 0 ==> items[i].product == product
    ensures i >= 0 ==> forall k :: 0 <= k < i ==> items[k].product != product
    ensures i == -1 <==> forall k :: 0 <= k < |items| ==> items[k].product != product
    decreases |items|
  {
    if items == [] then -1
    else if items[0].product == product then 0
    else
      var j := FirstIndex(items[1..], product);
      if j == -1 then -1 else j + 1
  }

  /** The scan `findIndex` performs, front to back. */
  method FindIndex(items: seq<CartItem>, product: string) returns (i: int)
    ensures i == FirstIndex(items, product)
  {
    i := 0;
    while i < |items| && items[i].product != product
      invariant 0 <= i <= |items|
      invariant forall k :: 0 <= k < i ==> items[k].product != product
    {
      i := i + 1;
    }
    if i == |items| {
      i := -1;
    }
  }

  // ---------------------------------------------------------------------
  // addItemToCart: overwrite the line of the product, or append one
  // ---------------------------------------------------------------------

  /** The lines after `cart.items[i].quantity = quantity` when the product
      has a line, or after `cart.items.push({ product, quantity })`. */
  function Upsert(items: seq<CartItem>, product: Id, quantity: int): (r: seq<CartItem>)
    ensures FirstIndex(items, product) >= 0 ==> |r| == |items|
    ensures FirstIndex(items, product) == -1 ==> |r| == |items| + 1
  {
    var i := FirstIndex(items, product);
    if i >= 0 then items[i := CartItem(product, quantity)]
    else items + [CartItem(product, quantity)]
  }

  /** A product already in the cart keeps its place and takes the new
      quantity; the old quantity does not count. Every other line stays. */
  lemma UpsertOverwrites(items: seq<CartItem>, product: Id, quantity: int, k: nat)
    requires UniqueProducts(items)
    requires k < |items| && items[k].product == product
    ensures Upsert(items, product, quantity) == items[k := CartItem(product, quantity)]
  {
    var i := FirstIndex(items, product);
    assert i >= 0;
    assert i == k;
  }

  /** A product not yet in the cart goes at the end; the earlier lines are
      the old lines, unchanged. */
  lemma UpsertAppends(items: seq<CartItem>, product: Id, quantity: int)
    requires product !in ProductsOf(items)
    ensures var r := Upsert(items, product, quantity);
      |r| == |items| + 1 && r[..|items|] == items && r[|items|] == CartItem(product, quantity)
  {
    assert FirstIndex(items, product) == -1;
  }

  /** After an upsert the cart holds a line for the product, with the new
      quantity, and refers to exactly the products it did before plus this
      one; one line per product is kept. */
  lemma {:induction false} UpsertKeepsUnique(items: seq<CartItem>, product: Id, quantity: int)
    requires UniqueProducts(items)
    ensures var r := Upsert(items, product, quantity);
      && UniqueProducts(r)
      && ProductsOf(r) == ProductsOf(items) + {product}
      && exists k :: 0 <= k < |r| && r[k] == CartItem(product, quantity)
  {
    var r := Upsert(items, product, quantity);
    var i := FirstIndex(items, product);
    if i >= 0 {
      assert r[i] == CartItem(product, quantity);
      forall a, b | 0 <= a < b < |r| ensures r[a].product != r[b].product {
        assert r[a].product == items[a].product;
      }
      assert ProductsOf(r) == ProductsOf(items) + {product} by {
        forall x | x in ProductsOf(items) ensures x in ProductsOf(r) {
          var k :| 0 <= k < |items| && items[k].product == x;
          assert r[k].product == x;
        }
      }
    } else {
      assert r[|items|] == CartItem(product, quantity);
      forall a, b | 0 <= a < b < |r| ensures r[a].product != r[b].product {
        if b == |items| { assert items[a].product != product; }
      }
      assert ProductsOf(r) == ProductsOf(items) + {product} by {
        forall x | x in ProductsOf(items) ensures x in ProductsOf(r) {
          var k :| 0 <= k < |items| && items[k].product == x;
          assert r[k].product == x;
        }
        forall x | x in ProductsOf(r) ensures x in ProductsOf(items) + {product} {
          var k :| 0 <= k < |r| && r[k].product == x;
          if k < |items| { assert items[k].product == x; }
        }
      }
    }
  }

  /** `addItemToCart` as written: the lookup compares the stored id's text
      with the id as the request spelled it, but the pushed line stores the
      cast id. */
  function AddAsWritten(items: seq<CartItem>, rawProduct: string, quantity: int): (r: seq<CartItem>)
    ensures FirstIndex(items, rawProduct) == -1 ==>
              |r| == |items| + 1 && r[|items|] == CartItem(CastId(rawProduct), quantity)
    ensures FirstIndex(items, rawProduct) >= 0 ==> r == Upsert(items, rawProduct, quantity)
  {
    var i := FirstIndex(items, rawProduct);
    if i >= 0 then items[i := CartItem(items[i].product, quantity)]
    else items + [CartItem(CastId(rawProduct), quantity)]
  }

  /** The product of a line, spelled with upper-case hexadecimal digits. */
  const StoredId: Id := "64b7f0c2a1d3e4f5a6b7c8d9"
  const ShoutedId: string := "64B7F0C2A1D3E4F5A6B7C8D9"

  lemma ShoutedIdCasts()
    ensures CastId(ShoutedId) == StoredId
  {
    var r := CastId(ShoutedId);
    forall k | 0 <= k < 24 ensures r[k] == StoredId[k] {
      assert r[k] == LowerChar(ShoutedId[k]);
    }
  }

  /** Adding the same product again, spelled in capitals, leaves the cart
      with two lines for one product. */
  lemma AddAsWrittenDuplicates()
    ensures UniqueProducts([CartItem(StoredId, 1)])
    ensures var r := AddAsWritten([CartItem(StoredId, 1)], ShoutedId, 2);
      |r| == 2 && r[0].product == r[1].product && !UniqueProducts(r)
  {
    var items := [CartItem(StoredId, 1)];
    assert items[0].product != ShoutedId by {
      assert StoredId[2] != ShoutedId[2];
    }
    assert FirstIndex(items, ShoutedId) == -1;
    ShoutedIdCasts();
  }

  /** `addItemToCart` with the id cast before the lookup, as the pushed line
      is: one line per product whatever the spelling. */
  function Add(items: seq<CartItem>, rawProduct: string, quantity: int): (r: seq<CartItem>)
    requires UniqueProducts(items)
    ensures UniqueProducts(r)
    ensures ProductsOf(r) == ProductsOf(items) + {CastId(rawProduct)}
    ensures exists k :: 0 <= k < |r| && r[k] == CartItem(CastId(rawProduct), quantity)
  {
    UpsertKeepsUnique(items, CastId(rawProduct), quantity);
    Upsert(items, CastId(rawProduct), quantity)
  }

  /** `findIndex` finds a line exactly when the cart refers to the product. */
  lemma FoundIffPresent(items: seq<CartItem>, product: Id)
    ensures FirstIndex(items, product) >= 0 <==> product in ProductsOf(items)
  {
    if product in ProductsOf(items) {
      var k :| 0 <= k < |items| && items[k].product == product;
    }
  }

  /** The lines after an add pass the cart schema when the old ones did,
      the quantity is at least 1, and a product new to the cart has an
      ObjectId. */
  lemma AddKeepsItemsValid(items: seq<CartItem>, rawProduct: string, quantity: int)
    requires CartItemsValid(items) && UniqueProducts(items) && quantity >= 1
    requires CastId(rawProduct) in ProductsOf(items) || IsValidObjectId(rawProduct)
    ensures CartItemsValid(Add(items, rawProduct, quantity))
  {
    var product := CastId(rawProduct);
    var r := Add(items, rawProduct, quantity);
    var i := FirstIndex(items, product);
    FoundIffPresent(items, product);
    forall k | 0 <= k < |r| ensures CartItemValid(r[k]) {
      if i >= 0 {
        assert r[k] == if k == i then CartItem(items[i].product, quantity) else items[k];
      } else if k < |items| {
        assert r[k] == items[k];
      } else {
        assert r[k] == CartItem(product, quantity);
      }
    }
  }

  // ---------------------------------------------------------------------
  // removeItemFromCart: filter the product out
  // ---------------------------------------------------------------------

  /** `items.filter(item => item.product.toString() !== product)`. */
  function RemoveProduct(items: seq<CartItem>, product: string): (r: seq<CartItem>)
    ensures |r| <= |items|
    ensures forall k :: 0 <= k < |r| ==> r[k].product != product
    ensures forall it :: it in r <==> it in items && it.product != product
    decreases |items|
  {
    if items == [] then []
    else if items[0].product == product then RemoveProduct(items[1..], product)
    else [items[0]] + RemoveProduct(items[1..], product)
  }

  /** Removing a product the cart does not hold changes nothing. */
  lemma {:induction false} RemoveAbsent(items: seq<CartItem>, product: string)
    requires forall k :: 0 <= k < |items| ==> items[k].product != product
    ensures RemoveProduct(items, product) == items
    decreases |items|
  {
    if items != [] {
      RemoveAbsent(items[1..], product);
    }
  }

  /** Filtering works line by line: the lines kept from `a + b` are those
      kept from `a` followed by those kept from `b`, so the kept lines keep
      their order. */
  lemma {:induction false} RemoveDistributes(a: seq<CartItem>, b: seq<CartItem>, product: string)
    ensures RemoveProduct(a + b, product) == RemoveProduct(a, product) + RemoveProduct(b, product)
    decreases |a|
  {
    if a != [] {
      assert (a + b)[0] == a[0];
      assert (a + b)[1..] == a[1..] + b;
      RemoveDistributes(a[1..], b, product);
    } else {
      assert a + b == b;
    }
  }

  /** Filtering keeps one line per product. */
  lemma {:induction false} RemoveKeepsUnique(items: seq<CartItem>, product: string)
    requires UniqueProducts(items)
    ensures UniqueProducts(RemoveProduct(items, product))
    decreases |items|
  {
    if items != [] {
      var tail := RemoveProduct(items[1..], product);
      assert UniqueProducts(items[1..]) by {
        forall a, b | 0 <= a < b < |items[1..]| ensures items[1..][a].product != items[1..][b].product {
          assert items[1..][a] == items[a + 1] && items[1..][b] == items[b + 1];
        }
      }
      RemoveKeepsUnique(items[1..], product);
      if items[0].product != product {
        var r := [items[0]] + tail;
        forall a, b | 0 <= a < b < |r| ensures r[a].product != r[b].product {
          if a == 0 {
            assert r[b] in items[1..];
            var j :| 0 <= j < |items[1..]| && items[1..][j] == r[b];
            assert items[j + 1] == r[b];
          } else {
            assert r[a] == tail[a - 1] && r[b] == tail[b - 1];
          }
        }
      }
    }
  }

  /** `removeItemFromCart` as written: an id spelled in capitals matches no
      stored line, so the line stays and the reply is a success. */
  lemma RemoveAsWrittenKeepsLine()
    ensures RemoveProduct([CartItem(StoredId, 1)], ShoutedId) == [CartItem(StoredId, 1)]
    ensures CastId(ShoutedId) == StoredId
  {
    assert StoredId[2] != ShoutedId[2];
    RemoveAbsent([CartItem(StoredId, 1)], ShoutedId);
    ShoutedIdCasts();
  }

  /** `removeItemFromCart` comparing with the cast id: the product's line
      goes whatever the spelling of its id. */
  function Remove(items: seq<CartItem>, rawProduct: string): (r: seq<CartItem>)
    ensures forall it :: it in r <==> it in items && it.product != CastId(rawProduct)
    ensures CastId(rawProduct) !in ProductsOf(r)
  {
    RemoveProduct(items, CastId(rawProduct))
  }
}
