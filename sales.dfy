/** Orders and the list and inventory logic that the order routes
    (server/routes/order.js) apply to them. */
module Sales {
  import opened Values
  import opened Lists
  import opened Catalog

  /** A line item: the product it refers to, how many, and the price snapshot. */
  datatype OrderItem = OrderItem(product: Id, name: string, quantity: int, price: real)

  /** An order. `orderStatus` is the string the admin last sent; `deliveredAt`
      is the time stamp of the last accepted status update. */
  datatype Order = Order(
    id: Id,
    user: Id,
    orderItems: seq<OrderItem>,
    totalPrice: real,
    orderStatus: string,
    deliveredAt: Option<int>)

  const Delivered: string := "Delivered"

  function OrderId(o: Order): Id { o.id }
  function PriceOf(o: Order): real { o.totalPrice }

  predicate UniqueOrderIds(orders: seq<Order>) {
    UniqueKeys(orders, OrderId)
  }

  // ---------------------------------------------------------------------------
  // Inventory

  /** `updateStock(id, quantity)`: the product's stock drops by `quantity`, with
      no floor. A missing product makes the call throw inside a callback nobody
      awaits, so the store is left as it is. */
  function StockDecremented(products: map<Id, Product>, id: Id, quantity: int): (r: map<Id, Product>)
    ensures r.Keys == products.Keys
    ensures forall other :: other in products && other != id ==> r[other] == products[other]
    ensures id in products ==>
      r[id].stock == products[id].stock - quantity && r[id].(stock := products[id].stock) == products[id]
  {
    if id in products then products[id := products[id].(stock := products[id].stock - quantity)]
    else products
  }

  /** The stock updates of all line items, one after the other in list order. */
  function ApplyItems(products: map<Id, Product>, items: seq<OrderItem>): (r: map<Id, Product>)
    ensures r.Keys == products.Keys
    ensures forall id :: id in products ==> r[id].(stock := products[id].stock) == products[id]
  {
    if items == [] then products
    else
      var last := items[|items| - 1];
      StockDecremented(ApplyItems(products, items[..|items| - 1]), last.product, last.quantity)
  }

  /** The total quantity the line items order of product `id`. */
  function QuantityOf(items: seq<OrderItem>, id: Id): (q: int)
    ensures (forall k :: 0 <= k < |items| ==> items[k].product != id) ==> q == 0
    ensures (forall k :: 0 <= k < |items| ==> 0 <= items[k].quantity) ==> 0 <= q
  {
    if items == [] then 0
    else
      var last := items[|items| - 1];
      QuantityOf(items[..|items| - 1], id) + (if last.product == id then last.quantity else 0)
  }

  /** The stock updates change no product set and no field but the stock, and
      every product's stock drops by the total quantity ordered of it. */
  lemma {:induction false} ApplyItemsStock(products: map<Id, Product>, items: seq<OrderItem>, id: Id)
    ensures ApplyItems(products, items).Keys == products.Keys
    ensures id in products ==>
      ApplyItems(products, items)[id] == products[id].(stock := products[id].stock - QuantityOf(items, id))
    decreases |items|
  {
    if items != [] {
      ApplyItemsStock(products, items[..|items| - 1], id);
    }
  }

  /** Products that no line item refers to keep their record. */
  lemma UnreferencedProductsUnchanged(products: map<Id, Product>, items: seq<OrderItem>, id: Id)
    requires id in products
    requires forall k :: 0 <= k < |items| ==> items[k].product != id
    ensures id in ApplyItems(products, items) && ApplyItems(products, items)[id] == products[id]
  {
    ApplyItemsStock(products, items, id);
  }

  /** The example of two line items, 2 of A and 1 of B: A drops by 2 and B by 1,
      and a stock smaller than the quantity goes negative. */
  lemma TwoItemsExample(a: Product, b: Product)
    requires a.stock == 1 && b.stock == 5
    ensures var items := [OrderItem("A", "a", 2, 1.0), OrderItem("B", "b", 1, 1.0)];
      var after := ApplyItems(map["A" := a, "B" := b], items);
      "A" in after && "B" in after && after["A"].stock == -1 && after["B"].stock == 4
  {
    var items := [OrderItem("A", "a", 2, 1.0), OrderItem("B", "b", 1, 1.0)];
    var before := map["A" := a, "B" := b];
    ApplyItemsStock(before, items, "A");
    ApplyItemsStock(before, items, "B");
    assert items[..1] == [items[0]];
    assert items[..1][..0] == [];
  }

  // ---------------------------------------------------------------------------
  // Queries

  /** `orders.forEach(order => totalAmount += order.totalPrice)`, from 0. */
  function TotalPrice(orders: seq<Order>): (t: real)
    ensures (forall k :: 0 <= k < |orders| ==> 0.0 <= orders[k].totalPrice) ==> 0.0 <= t
  {
    Sum(orders, PriceOf)
  }

  /** `Order.find({ user })`: the orders of one user, in store order. */
  function OrdersOf(orders: seq<Order>, user: Id): (r: seq<Order>)
    ensures |r| <= |orders|
    ensures forall k :: 0 <= k < |r| ==> r[k].user == user
  {
    if orders == [] then []
    else (if orders[0].user == user then [orders[0]] else []) + OrdersOf(orders[1..], user)
  }

  /** Every order of the user is found, and nothing else is. */
  lemma {:induction false} OrdersOfMembers(orders: seq<Order>, user: Id)
    ensures forall o :: o in OrdersOf(orders, user) <==> o in orders && o.user == user
  {
    if orders != [] {
      OrdersOfMembers(orders[1..], user);
      assert orders == [orders[0]] + orders[1..];
    }
  }

  /** `findById`: the index of the order with id `id`, if any. */
  function IndexOf(orders: seq<Order>, id: Id): (r: Option<nat>)
    ensures r.Some? ==> r.value < |orders| && orders[r.value].id == id
    ensures r.None? ==> forall k :: 0 <= k < |orders| ==> orders[k].id != id
  {
    if orders == [] then None
    else if orders[|orders| - 1].id == id then Some(|orders| - 1)
    else IndexOf(orders[..|orders| - 1], id)
  }

  /** `order.remove()` of the order at index k: exactly that order leaves,
      the others keep their order and their unique ids, and the admin total
      drops by its price. */
  lemma RemovingAnOrder(orders: seq<Order>, k: nat)
    requires UniqueOrderIds(orders) && k < |orders|
    ensures var rest := Without(orders, OrderId, orders[k].id);
      rest == orders[..k] + orders[k + 1..] &&
      UniqueOrderIds(rest) && |rest| == |orders| - 1 &&
      TotalPrice(rest) == TotalPrice(orders) - orders[k].totalPrice
  {
    WithoutAt(orders, OrderId, k);
    WithoutKeepsUniqueKeys(orders, OrderId, orders[k].id, OrderId);
    assert orders == orders[..k] + [orders[k]] + orders[k + 1..];
    SumAppend(orders[..k] + [orders[k]], orders[k + 1..], PriceOf);
    SumAppend(orders[..k], [orders[k]], PriceOf);
    SumAppend(orders[..k], orders[k + 1..], PriceOf);
    assert Sum([orders[k]], PriceOf) == orders[k].totalPrice by {
      assert [orders[k]][..0] == [];
    }
  }
}
