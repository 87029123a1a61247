/** The two order listings: `getMyOrders` (the caller's orders) and
    `getAllOrders` (every order), both sorted by `createdAt` newest first.
    The store keeps orders in creation order, each stamped by the store's
    clock, so sorting newest first is reading them back to front. */
module Orders {
  import opened Common
  import opened Models

  /** Each order was created after the ones before it. */
  predicate CreatedInOrder(orders: seq<Order>) {
    forall i, j :: 0 <= i < j < |orders| ==> orders[i].createdAt < orders[j].createdAt
  }

  /** `.sort({ createdAt: -1 })` over orders kept in creation order. */
  function NewestFirst(orders: seq<Order>): (r: seq<Order>)
    ensures |r| == |orders|
    ensures forall k :: 0 <= k < |r| ==> r[k] == orders[|orders| - 1 - k]
  {
    seq(|orders|, k requires 0 <= k < |orders| => orders[|orders| - 1 - k])
  }

  /** Newest first really is sorted by `createdAt`, descending, and holds
      every order once. */
  lemma NewestFirstSorted(orders: seq<Order>)
    requires CreatedInOrder(orders)
    ensures var r := NewestFirst(orders);
      (forall i, j :: 0 <= i < j < |r| ==> r[i].createdAt > r[j].createdAt)
      && multiset(r) == multiset(orders)
  {
    var r := NewestFirst(orders);
    forall i, j | 0 <= i < j < |r| ensures r[i].createdAt > r[j].createdAt {
      assert r[i] == orders[|orders| - 1 - i] && r[j] == orders[|orders| - 1 - j];
    }
    ReverseMultiset(orders);
  }

  lemma {:induction false} ReverseMultiset(orders: seq<Order>)
    ensures multiset(NewestFirst(orders)) == multiset(orders)
    decreases |orders|
  {
    if orders != [] {
      var init := orders[..|orders| - 1];
      ReverseMultiset(init);
      assert NewestFirst(orders) == [orders[|orders| - 1]] + NewestFirst(init);
      assert orders == init + [orders[|orders| - 1]];
    }
  }

  /** `Order.find({ user })`: the user's orders, in creation order. */
  function OrdersOf(orders: seq<Order>, user: Id): (r: seq<Order>)
    ensures |r| <= |orders|
    ensures forall o :: o in r <==> o in orders && o.user == user
    ensures CreatedInOrder(orders) ==> CreatedInOrder(r)
    decreases |orders|
  {
    if orders == [] then []
    else
      var rest := OrdersOf(orders[..|orders| - 1], user);
      var last := orders[|orders| - 1];
      if last.user == user then
        assert CreatedInOrder(orders) ==> CreatedInOrder(rest + [last]) by {
          if CreatedInOrder(orders) {
            AppendNewest(orders, rest);
          }
        }
        rest + [last]
      else
        assert CreatedInOrder(orders) ==> CreatedInOrder(rest) by {
          if CreatedInOrder(orders) {
            assert CreatedInOrder(orders[..|orders| - 1]);
          }
        }
        rest
  }

  /** A selection from the earlier orders, kept in creation order, stays in
      creation order when the newest order is put after it. */
  lemma AppendNewest(orders: seq<Order>, rest: seq<Order>)
    requires CreatedInOrder(orders) && orders != []
    requires forall o :: o in rest ==> o in orders[..|orders| - 1]
    requires CreatedInOrder(orders[..|orders| - 1]) ==> CreatedInOrder(rest)
    ensures CreatedInOrder(rest + [orders[|orders| - 1]])
  {
    var init := orders[..|orders| - 1];
    var last := orders[|orders| - 1];
    assert CreatedInOrder(init);
    forall k | 0 <= k < |rest| ensures rest[k].createdAt < last.createdAt {
      assert rest[k] in rest;
      var m :| 0 <= m < |init| && init[m] == rest[k];
      assert init[m] == orders[m];
    }
    var r := rest + [last];
    forall i, j | 0 <= i < j < |r| ensures r[i].createdAt < r[j].createdAt {
      if j == |rest| {
        assert r[i] == rest[i];
      } else {
        assert r[i] == rest[i] && r[j] == rest[j];
      }
    }
  }

  /** `getMyOrders`: the caller's orders and nobody else's, newest first. */
  function MyOrders(orders: seq<Order>, user: Id): (r: seq<Order>)
    requires CreatedInOrder(orders)
    ensures forall o :: o in r <==> o in orders && o.user == user
    ensures forall i, j :: 0 <= i < j < |r| ==> r[i].createdAt > r[j].createdAt
  {
    var mine := OrdersOf(orders, user);
    NewestFirstSorted(mine);
    assert forall o :: o in NewestFirst(mine) <==> o in mine by {
      forall o ensures o in NewestFirst(mine) <==> o in mine {
        assert o in multiset(NewestFirst(mine)) <==> o in multiset(mine);
      }
    }
    NewestFirst(mine)
  }

  /** `getAllOrders`: every order, newest first. */
  function AllOrders(orders: seq<Order>): (r: seq<Order>)
    requires CreatedInOrder(orders)
    ensures multiset(r) == multiset(orders)
    ensures forall i, j :: 0 <= i < j < |r| ==> r[i].createdAt > r[j].createdAt
  {
    NewestFirstSorted(orders);
    NewestFirst(orders)
  }
}
