/** The two client reducers: the category list with its request flags, and
    the seller dashboard's orders with their count and revenue. Each case
    of a reducer is a method that assigns the fields it names and leaves
    the others alone; the network calls that produce the payloads are not
    part of this model, so each payload is a parameter. */
module Slices {
  import opened Common
  import opened Models
  import opened Orders

  // ---------------------------------------------------------------------
  // Categories
  // ---------------------------------------------------------------------

  /** `categories.filter(cat => cat._id !== id)`. */
  function WithoutCategory(categories: seq<Category>, id: Id): (r: seq<Category>)
    ensures |r| <= |categories|
    ensures forall c :: c in r <==> c in categories && c.id != id
    decreases |categories|
  {
    if categories == [] then []
    else
      var rest := WithoutCategory(categories[..|categories| - 1], id);
      var last := categories[|categories| - 1];
      if last.id != id then rest + [last] else rest
  }

  /** The filter keeps the order of what it keeps: filtering a list made of
      two parts is filtering each part. */
  lemma {:induction false} WithoutCategoryDistributes(a: seq<Category>, b: seq<Category>, id: Id)
    ensures WithoutCategory(a + b, id) == WithoutCategory(a, id) + WithoutCategory(b, id)
    decreases |b|
  {
    if b == [] {
      assert a + b == a;
    } else {
      var b' := b[..|b| - 1];
      assert (a + b)[..|a + b| - 1] == a + b';
      assert (a + b)[|a + b| - 1] == b[|b| - 1];
      WithoutCategoryDistributes(a, b', id);
    }
  }

  /** Deleting an id that is not in the list leaves the list as it is. */
  lemma {:induction false} WithoutAbsentCategory(categories: seq<Category>, id: Id)
    requires forall k :: 0 <= k < |categories| ==> categories[k].id != id
    ensures WithoutCategory(categories, id) == categories
    decreases |categories|
  {
    if categories != [] {
      WithoutAbsentCategory(categories[..|categories| - 1], id);
      assert categories[..|categories| - 1] + [categories[|categories| - 1]] == categories;
    }
  }

  /** Deleting the same id twice is deleting it once. */
  lemma WithoutCategoryIdempotent(categories: seq<Category>, id: Id)
    ensures WithoutCategory(WithoutCategory(categories, id), id) == WithoutCategory(categories, id)
  {
    var r := WithoutCategory(categories, id);
    forall k | 0 <= k < |r| ensures r[k].id != id {
      assert r[k] in r;
    }
    WithoutAbsentCategory(r, id);
  }

  /** A category just created and then deleted by its id leaves the list as
      it was, when no other entry had that id. */
  lemma CreateThenDeleteCategory(categories: seq<Category>, c: Category)
    requires forall k :: 0 <= k < |categories| ==> categories[k].id != c.id
    ensures WithoutCategory(categories + [c], c.id) == categories
  {
    WithoutCategoryDistributes(categories, [c], c.id);
    WithoutAbsentCategory(categories, c.id);
    assert WithoutCategory([c], c.id) == [] by {
      assert [c][..0] == [];
    }
  }

  /** The state of the category slice. */
  class CategoryState {
    var categories: seq<Category>
    var isLoading: bool
    var isError: bool
    var isSuccess: bool
    var message: string

    /** `initialState`: no categories, every flag false, no message. */
    predicate IsInitial()
      reads this
    {
      categories == [] && !isLoading && !isError && !isSuccess && message == ""
    }

    constructor ()
      ensures IsInitial()
    {
      categories := [];
      isLoading := false;
      isError := false;
      isSuccess := false;
      message := "";
    }

    /** `resetCategories`: back to the initial state. */
    method Reset()
      modifies this
      ensures IsInitial()
    {
      categories := [];
      isLoading := false;
      isError := false;
      isSuccess := false;
      message := "";
    }

    /** The pending case of each request: loading, nothing else changes. */
    method Pending()
      modifies this`isLoading
      ensures isLoading
    {
      isLoading := true;
    }

    /** `getCategories.fulfilled`: the list becomes the payload. */
    method FetchFulfilled(payload: seq<Category>)
      modifies this`isLoading, this`categories
      ensures !isLoading && categories == payload
    {
      isLoading := false;
      categories := payload;
    }

    /** `createCategory.fulfilled`: the new category at the end, the earlier
        ones kept. */
    method CreateFulfilled(payload: Category)
      modifies this`isLoading, this`isSuccess, this`categories
      ensures !isLoading && isSuccess
      ensures categories == old(categories) + [payload]
    {
      isLoading := false;
      isSuccess := true;
      categories := categories + [payload];
    }

    /** `deleteCategory.fulfilled`: every entry with that id removed, the
        others kept in order. */
    method DeleteFulfilled(id: Id)
      modifies this`isLoading, this`isSuccess, this`categories
      ensures !isLoading && isSuccess
      ensures categories == WithoutCategory(old(categories), id)
    {
      isLoading := false;
      isSuccess := true;
      categories := WithoutCategory(categories, id);
    }

    /** The rejected case of each request: not loading, in error, with the
        rejection's message; the list is not touched. */
    method Rejected(payload: string)
      modifies this`isLoading, this`isError, this`message
      ensures !isLoading && isError && message == payload
    {
      isLoading := false;
      isError := true;
      message := payload;
    }
  }

  // ---------------------------------------------------------------------
  // Dashboard
  // ---------------------------------------------------------------------

  /** `orders.reduce((acc, order) => acc + order.totalAmount, 0)`. */
  function Revenue(orders: seq<Order>): (r: real)
    ensures orders == [] ==> r == 0.0
    ensures |orders| == 1 ==> r == orders[0].totalAmount
    decreases |orders|
  {
    if orders == [] then 0.0
    else Revenue(orders[..|orders| - 1]) + orders[|orders| - 1].totalAmount
  }

  lemma {:induction false} RevenueAppend(a: seq<Order>, b: seq<Order>)
    ensures Revenue(a + b) == Revenue(a) + Revenue(b)
    decreases |b|
  {
    if b == [] {
      assert a + b == a;
    } else {
      var b' := b[..|b| - 1];
      assert (a + b)[..|a + b| - 1] == a + b';
      assert (a + b)[|a + b| - 1] == b[|b| - 1];
      RevenueAppend(a, b');
    }
  }

  /** The newest-first listing the dashboard receives has the same revenue
      as the orders in creation order. */
  lemma {:induction false} RevenueNewestFirst(orders: seq<Order>)
    ensures Revenue(NewestFirst(orders)) == Revenue(orders)
    decreases |orders|
  {
    if orders != [] {
      var init := orders[..|orders| - 1];
      var last := orders[|orders| - 1];
      assert NewestFirst(orders) == [last] + NewestFirst(init);
      RevenueAppend([last], NewestFirst(init));
      assert [last][..0] == [];
      RevenueNewestFirst(init);
    }
  }

  /** The dashboard of every order: `getAllOrders` feeds it, so its revenue
      is the sum of every order's total. */
  lemma RevenueOfAllOrders(orders: seq<Order>)
    requires CreatedInOrder(orders)
    ensures Revenue(AllOrders(orders)) == Revenue(orders)
  {
    RevenueNewestFirst(orders);
  }

  /** Orders with non-negative totals give a non-negative revenue. */
  lemma {:induction false} RevenueNonNegative(orders: seq<Order>)
    requires forall k :: 0 <= k < |orders| ==> orders[k].totalAmount >= 0.0
    ensures Revenue(orders) >= 0.0
    decreases |orders|
  {
    if orders != [] {
      RevenueNonNegative(orders[..|orders| - 1]);
    }
  }

  /** The state of the dashboard slice. */
  class DashboardState {
    var orders: seq<Order>
    var totalSales: nat
    var totalRevenue: real
    var isError: bool
    var isLoading: bool
    var message: string

    /** `initialState`: no orders, zero totals, every flag false. */
    predicate IsInitial()
      reads this
    {
      orders == [] && totalSales == 0 && totalRevenue == 0.0 && !isError && !isLoading && message == ""
    }

    /** The totals describe the orders held. */
    predicate TotalsAgree()
      reads this
    {
      totalSales == |orders| && totalRevenue == Revenue(orders)
    }

    constructor ()
      ensures IsInitial() && TotalsAgree()
    {
      orders := [];
      totalSales := 0;
      totalRevenue := 0.0;
      isError := false;
      isLoading := false;
      message := "";
    }

    /** `resetDashboard`: back to the initial state. */
    method Reset()
      modifies this
      ensures IsInitial() && TotalsAgree()
    {
      orders := [];
      totalSales := 0;
      totalRevenue := 0.0;
      isError := false;
      isLoading := false;
      message := "";
    }

    /** `getSellerOrders.pending`: loading, nothing else changes. */
    method Pending()
      modifies this`isLoading
      ensures isLoading
    {
      isLoading := true;
    }

    /** `getSellerOrders.fulfilled`: the orders become the payload, the
        number of sales its length and the revenue the sum of its totals. */
    method Fulfilled(payload: seq<Order>)
      modifies this`isLoading, this`orders, this`totalSales, this`totalRevenue
      ensures !isLoading && orders == payload
      ensures totalSales == |payload| && totalRevenue == Revenue(payload)
      ensures TotalsAgree()
    {
      isLoading := false;
      orders := payload;
      totalSales := |payload|;
      totalRevenue := Revenue(payload);
    }

    /** `getSellerOrders.rejected`: not loading, in error, with the
        rejection's message; the orders and totals are not touched. */
    method Rejected(payload: string)
      modifies this`isLoading, this`isError, this`message
      ensures !isLoading && isError && message == payload
      ensures TotalsAgree() <==> old(TotalsAgree())
    {
      isLoading := false;
      isError := true;
      message := payload;
    }
  }
}
