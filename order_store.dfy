/** The orders and order_items tables and the store of order/store/store.go
    that reads and writes them. */
module OrderStore {
  import opened Base
  import opened OrderTypes
  import Rows

  const NotFound := "order not found"

  function UpdateFailed(driverError: string): string { "failed to update order: " + driverError }

  function DeleteFailed(driverError: string): string { "failed to delete order: " + driverError }

  /** The invariant kept by the two primary keys, assumed `SERIAL`: order rows sit
      under their own ids, and every id handed out is below the sequence. */
  ghost predicate TablesValid(orders: map<int, Order>, nextOrderId: int, items: seq<OrderItem>, nextItemId: int)
  {
    && nextOrderId >= 1
    && (forall k :: k in orders ==> 1 <= k < nextOrderId && orders[k].id == k)
    && nextItemId >= 1
    && (forall i :: 0 <= i < |items| ==> 1 <= items[i].id < nextItemId)
  }

  /** What `GetOrderById` answers: the row stored under `id`, the sentinel
      error when there is none, or the driver's error. */
  function Get(orders: map<int, Order>, id: int, db: RoundTrip): Result<Order>
  {
    if db.Fails? then Err(db.error)
    else if id in orders then Ok(orders[id])
    else Err(NotFound)
  }

  /** The table after `UPDATE orders SET userId, total, status WHERE id = $4`:
      a full-row replace of the three columns; ID and CreatedAt of `o` are
      ignored. */
  function Replace(orders: map<int, Order>, id: int, o: Order): (r: map<int, Order>)
    ensures r.Keys == orders.Keys
    ensures id in orders ==> r[id] == Order(id, o.userId, o.total, o.status, orders[id].createdAt)
    ensures forall k :: k in orders && k != id ==> r[k] == orders[k]
  {
    if id in orders then orders[id := Order(id, o.userId, o.total, o.status, orders[id].createdAt)]
    else orders
  }

  /** The row `INSERT INTO order_items (orderid, productid, quantity, price)`
      stores: the four given columns, the next id, and the stamp `now`. */
  function Stored(item: OrderItem, id: int, now: int): OrderItem
  {
    OrderItem(id, item.orderId, item.productId, item.quantity, item.price, now)
  }

  class Store {
    var orders: map<int, Order>
    var nextOrderId: int
    var items: seq<OrderItem>
    var nextItemId: int

    ghost predicate Valid()
      reads this
    {
      TablesValid(orders, nextOrderId, items, nextItemId)
    }

    constructor ()
      ensures Valid() && orders == map[] && nextOrderId == 1 && items == [] && nextItemId == 1
    {
      orders, nextOrderId := map[], 1;
      items, nextItemId := [], 1;
    }

    /** `SELECT * FROM orders`, rows in the database's `order`. */
    method ListOrders(db: RoundTrip, order: seq<int>) returns (r: Result<seq<Order>>)
      requires Valid() && Rows.ScanOrder(orders, order)
      ensures db.Fails? ==> r == Err(db.error)
      ensures db.Succeeds? ==> r.Ok? && Rows.ListsRows(orders, Key, r.value)
      ensures db.Succeeds? ==> forall k :: k in orders ==> orders[k] in r.value
    {
      if db.Fails? {
        return Err(db.error);
      }
      var rows := Rows.Query(orders, Key, (o: Order) => true, order);
      return Ok(rows);
    }

    /** `INSERT INTO orders (userId, total, status)`: the database assigns
        the id and stamps the row with `now`. */
    method CreateOrder(o: Order, db: RoundTrip, now: int) returns (err: Option<string>)
      requires Valid()
      modifies this
      ensures Valid() && items == old(items) && nextItemId == old(nextItemId)
      ensures db.Fails? ==> err == Some(db.error) && orders == old(orders) && nextOrderId == old(nextOrderId)
      ensures db.Succeeds? ==> err == None && nextOrderId == old(nextOrderId) + 1
      ensures db.Succeeds? ==>
        orders == old(orders)[old(nextOrderId) := Order(old(nextOrderId), o.userId, o.total, o.status, now)]
      ensures db.Succeeds? ==> old(nextOrderId) !in old(orders) && |orders| == |old(orders)| + 1
    {
      if db.Fails? {
        return Some(db.error);
      }
      orders := orders[nextOrderId := Order(nextOrderId, o.userId, o.total, o.status, now)];
      nextOrderId := nextOrderId + 1;
      return None;
    }

    /** `SELECT * FROM orders WHERE id = $1`, then the loop that keeps the
        last row read, then the `order.ID == 0` test for "not found". */
    method GetOrderById(id: int, db: RoundTrip) returns (r: Result<Order>)
      requires Valid()
      ensures r == Get(orders, id, db)
    {
      if db.Fails? {
        return Err(db.error);
      }
      var found := Rows.Query(orders, Key, (o: Order) => o.id == id, if id in orders then [id] else []);
      assert |found| > 1 ==> Key(found[0]) == id == Key(found[1]);
      var order := Zero;
      for i := 0 to |found|
        invariant i == 0 ==> order == Zero
        invariant 0 < i ==> order == found[i - 1]
      {
        order := found[i];
      }
      if order.id == 0 {
        return Err(NotFound);
      }
      return Ok(order);
    }

    /** `SELECT * FROM orders WHERE userId = $1`. */
    method GetOrdersByUserId(userId: int, db: RoundTrip, order: seq<int>) returns (r: Result<seq<Order>>)
      requires Valid() && Rows.ScanOrder(orders, order)
      ensures db.Fails? ==> r == Err(db.error)
      ensures db.Succeeds? ==> r.Ok? && Rows.ListsRows(orders, Key, r.value)
      ensures db.Succeeds? ==> forall i :: 0 <= i < |r.value| ==> r.value[i].userId == userId
      ensures db.Succeeds? ==> forall k :: k in orders && orders[k].userId == userId ==> orders[k] in r.value
    {
      if db.Fails? {
        return Err(db.error);
      }
      var rows := Rows.Query(orders, Key, (o: Order) => o.userId == userId, order);
      return Ok(rows);
    }

    /** `SELECT * FROM orders WHERE status = $1`. */
    method GetOrdersByStatus(status: string, db: RoundTrip, order: seq<int>) returns (r: Result<seq<Order>>)
      requires Valid() && Rows.ScanOrder(orders, order)
      ensures db.Fails? ==> r == Err(db.error)
      ensures db.Succeeds? ==> r.Ok? && Rows.ListsRows(orders, Key, r.value)
      ensures db.Succeeds? ==> forall i :: 0 <= i < |r.value| ==> r.value[i].status == status
      ensures db.Succeeds? ==> forall k :: k in orders && orders[k].status == status ==> orders[k] in r.value
    {
      if db.Fails? {
        return Err(db.error);
      }
      var rows := Rows.Query(orders, Key, (o: Order) => o.status == status, order);
      return Ok(rows);
    }

    /** `UPDATE orders SET ... WHERE id = $4`. The affected-row count is not
        read, so an id without a row changes nothing and still succeeds. */
    method UpdateOrder(id: int, o: Order, db: RoundTrip) returns (err: Option<string>)
      requires Valid()
      modifies this
      ensures Valid() && nextOrderId == old(nextOrderId)
      ensures items == old(items) && nextItemId == old(nextItemId)
      ensures err == (if db.Fails? then Some(UpdateFailed(db.error)) else None)
      ensures orders == (if db.Fails? then old(orders) else Replace(old(orders), id, o))
      ensures id !in old(orders) ==> orders == old(orders)
    {
      if db.Fails? {
        return Some(UpdateFailed(db.error));
      }
      orders := Replace(orders, id, o);
      return None;
    }

    /** `DELETE FROM orders WHERE id = $1`. Its line items stay behind. */
    method DeleteOrder(id: int, db: RoundTrip) returns (err: Option<string>)
      requires Valid()
      modifies this
      ensures Valid() && nextOrderId == old(nextOrderId)
      ensures items == old(items) && nextItemId == old(nextItemId)
      ensures err == (if db.Fails? then Some(DeleteFailed(db.error)) else None)
      ensures orders == (if db.Fails? then old(orders) else old(orders) - {id})
    {
      if db.Fails? {
        return Some(DeleteFailed(db.error));
      }
      orders := orders - {id};
      return None;
    }

    /** `INSERT INTO order_items`: one row is appended whether or not an
        order with `item.orderId` exists; the item's own id and stamp are
        not sent. */
    method CreateOrderItem(item: OrderItem, db: RoundTrip, now: int) returns (err: Option<string>)
      requires Valid()
      modifies this
      ensures Valid() && orders == old(orders) && nextOrderId == old(nextOrderId)
      ensures db.Fails? ==> err == Some(db.error) && items == old(items) && nextItemId == old(nextItemId)
      ensures db.Succeeds? ==> err == None && nextItemId == old(nextItemId) + 1
      ensures db.Succeeds? ==> items == old(items) + [Stored(item, old(nextItemId), now)]
    {
      if db.Fails? {
        return Some(db.error);
      }
      items := items + [Stored(item, nextItemId, now)];
      nextItemId := nextItemId + 1;
      return None;
    }
  }
}
