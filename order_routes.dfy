/** The request handlers of server/routes/order.js over the in-memory store. */
module OrderRoutes {
  import opened Values
  import opened Lists
  import opened Catalog
  import opened Sales
  import opened Store

  function OrderNotFound(id: Id): Failure {
    HttpError(404, "Order not found with this id: " + id)
  }

  const AlreadyDelivered: Failure := HttpError(400, "You have already deliver this order")

  /** `GET /order/:id`. */
  function GetOrder(db: Db, id: Id): (r: Outcome<Order>)
    reads db
    ensures r == Fail(OrderNotFound(id)) <==> forall k :: 0 <= k < |db.orders| ==> db.orders[k].id != id
    ensures r.Ok? ==> r.value in db.orders && r.value.id == id
  {
    match IndexOf(db.orders, id)
    case None => Fail(OrderNotFound(id))
    case Some(k) => Ok(db.orders[k])
  }

  /** `GET /orders/me`: exactly the orders of the requesting user. */
  function MyOrders(db: Db, user: Id): (r: seq<Order>)
    reads db
    ensures forall o :: o in r <==> o in db.orders && o.user == user
  {
    OrdersOfMembers(db.orders, user);
    OrdersOf(db.orders, user)
  }

  /** `GET /admin/orders`: every order, unchanged, and the sum of their
      `totalPrice`, accumulated in store order. */
  method AdminOrders(db: Db) returns (totalAmount: real, orders: seq<Order>)
    ensures orders == db.orders
    ensures totalAmount == TotalPrice(db.orders)
  {
    orders := db.orders;
    totalAmount := 0.0;
    var i := 0;
    while i < |orders|
      invariant 0 <= i <= |orders|
      invariant totalAmount == TotalPrice(orders[..i])
    {
      assert orders[..i + 1][..i] == orders[..i];
      totalAmount := totalAmount + orders[i].totalPrice;
      i := i + 1;
    }
    assert orders[..i] == orders;
  }

  /** `updateStock(id, quantity)`: `product.stock = product.stock - quantity`,
      with no lower bound. A missing product throws inside a callback that no
      one awaits, which the handler never sees; the store is left as it is. */
  method UpdateStock(db: Db, id: Id, quantity: int)
    requires db.Valid()
    modifies db
    ensures db.Valid()
    ensures db.products == StockDecremented(old(db.products), id, quantity)
    ensures db.orders == old(db.orders) && db.hostLog == old(db.hostLog)
  {
    if id in db.products {
      var product := db.products[id];
      db.products := db.products[id := product.(stock := product.stock - quantity)];
    }
  }

  /** `PUT /admin/order/:id`. The handler does not check that the order exists:
      a missing one fails on `order.orderStatus`. A delivered order is refused
      with 400 and nothing changes. Otherwise every line item's stock update
      runs (here one after the other), the status becomes the requested one,
      whatever it is, and `deliveredAt` is stamped with `now`. */
  method UpdateOrder(db: Db, id: Id, status: string, now: int) returns (r: Outcome<()>)
    requires db.Valid()
    modifies db
    ensures db.Valid()
    ensures IndexOf(old(db.orders), id).None? ==> r == Fail(TypeError) && unchanged(db)
    ensures IndexOf(old(db.orders), id).Some? ==>
      var k := IndexOf(old(db.orders), id).value;
      var order := old(db.orders)[k];
      if order.orderStatus == Delivered then
        r == Fail(AlreadyDelivered) && unchanged(db)
      else
        r == Ok(()) &&
        db.products == ApplyItems(old(db.products), order.orderItems) &&
        db.orders == old(db.orders)[k := order.(orderStatus := status, deliveredAt := Some(now))] &&
        db.hostLog == old(db.hostLog)
  {
    var found := IndexOf(db.orders, id);
    if found.None? {
      return Fail(TypeError);
    }
    var k := found.value;
    var order := db.orders[k];
    if order.orderStatus == Delivered {
      return Fail(AlreadyDelivered);
    }

    var items := order.orderItems;
    var i := 0;
    while i < |items|
      invariant 0 <= i <= |items|
      invariant db.Valid()
      invariant db.products == ApplyItems(old(db.products), items[..i])
      invariant db.orders == old(db.orders) && db.hostLog == old(db.hostLog)
    {
      assert items[..i + 1][..i] == items[..i];
      UpdateStock(db, items[i].product, items[i].quantity);
      i := i + 1;
    }
    assert items[..i] == items;

    var updated := order.(orderStatus := status, deliveredAt := Some(now));
    db.orders := db.orders[k := updated];
    assert forall j :: 0 <= j < |db.orders| ==> db.orders[j].id == old(db.orders)[j].id;
    r := Ok(());
  }

  /** `DELETE /admin/order/:id`: a missing order is a 404; otherwise exactly
      that order leaves the store and the others keep their order. */
  method DeleteOrder(db: Db, id: Id) returns (r: Outcome<()>)
    requires db.Valid()
    modifies db
    ensures db.Valid()
    ensures IndexOf(old(db.orders), id).None? ==> r == Fail(OrderNotFound(id)) && unchanged(db)
    ensures IndexOf(old(db.orders), id).Some? ==>
      var k := IndexOf(old(db.orders), id).value;
      r == Ok(()) &&
      db.orders == old(db.orders)[..k] + old(db.orders)[k + 1..] &&
      db.products == old(db.products) && db.hostLog == old(db.hostLog)
  {
    var found := IndexOf(db.orders, id);
    if found.None? {
      return Fail(OrderNotFound(id));
    }
    RemovingAnOrder(db.orders, found.value);
    db.orders := Without(db.orders, OrderId, id);
    r := Ok(());
  }
}
