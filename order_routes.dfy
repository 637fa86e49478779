/** The HTTP handlers of order/routes/routes.go that carry logic: adding an
    item to an order (the fulfilment workflow across the products, orders
    and order_items tables), the order search, and the order update. */
module OrderRoutes {
  import opened Base
  import opened Strconv
  import Rows
  import ProductTypes
  import OrderTypes
  import ProductStore
  import OrderStore

  type Product = ProductTypes.Product
  type Order = OrderTypes.Order
  type OrderItem = OrderTypes.OrderItem
  type CreateOrderItemPayload = OrderTypes.CreateOrderItemPayload
  type UpdateOrderPayload = OrderTypes.UpdateOrderPayload

  /** What a handler writes back: a success status with its body, 400 with
      an error message, or 500 with an error message. */
  datatype Reply<T> = Success(code: int, value: T) | BadRequest(msg: string) | Internal(msg: string)
  {
    function Status(): int
    {
      match this
      case Success(code, _) => code
      case BadRequest(_) => 400
      case Internal(_) => 500
    }
  }

  /** The outcome of `utils.ReqParseJSON` on the request body. */
  datatype Body<T> = Decoded(value: T) | Malformed(error: string)

  /** What the database answers to each of the workflow's five round trips. */
  datatype Faults = Faults(
    productRead: RoundTrip,
    productWrite: RoundTrip,
    itemInsert: RoundTrip,
    orderRead: RoundTrip,
    orderWrite: RoundTrip)

  const NoFaults := Faults(Succeeds, Succeeds, Succeeds, Succeeds, Succeeds)

  /** The content of the three tables and of their id sequences. */
  datatype Tables = Tables(
    products: map<int, Product>,
    nextProductId: int,
    orders: map<int, Order>,
    nextOrderId: int,
    items: seq<OrderItem>,
    nextItemId: int)

  const IdMissing := "id is not indicated"
  const SearchParamsMissing := "either status or user query parameter is required"
  const CreatedMsg := "Created successfully"
  const UpdatedMsg := "Updated successfully"

  function Join(words: seq<string>): string
  {
    if words == [] then ""
    else if |words| == 1 then words[0]
    else words[0] + ", " + Join(words[1..])
  }

  function InvalidPayload(p: CreateOrderItemPayload): string
  {
    "invalid payload: " + Join(OrderTypes.MissingFields(p))
  }

  function OutOfStock(name: string): string
  {
    "product " + name + " is not available in quantity requested"
  }

  /** The record the workflow hands to `UpdateProduct`: every column of the
      product as read, except the quantity, lowered by the request. */
  function Reserved(product: Product, quantity: int64): Product
  {
    ProductTypes.Product(0, product.name, product.description, product.price,
      Sub64(product.quantity, quantity), product.category, 0)
  }

  /** The record the workflow hands to `CreateOrderItem`: order, product and
      quantity only; its Price is left at zero. */
  function NewItem(orderId: int, p: CreateOrderItemPayload): OrderItem
  {
    OrderTypes.OrderItem(0, orderId, p.productId, p.quantity, 0.0, 0)
  }

  /** The record the workflow hands to `UpdateOrder`: user and status as
      read, the total raised by quantity times the unit price read first. */
  function Totalled(o: Order, quantity: int64, price: real): Order
  {
    OrderTypes.Order(0, o.userId, o.total + Cost(quantity, price), o.status, 0)
  }

  /** `float64(quantity) * price`: what the items add to an order's total. */
  function Cost(quantity: int64, price: real): real
  {
    (quantity as real) * price
  }

  /** `handleCreateOrderItem` on the tables `t`: the new tables and the
      reply, for the path segment `idParam`, the request body, the
      database's answers `f` and the clock reading `now`. */
  function AddOrderItem(t: Tables, idParam: string, body: Body<CreateOrderItemPayload>, f: Faults, now: int)
    : (Tables, Reply<string>)
  {
    if idParam == "" then (t, BadRequest(IdMissing))
    else if body.Malformed? then (t, BadRequest(body.error))
    else
      var orderId := Atoi(idParam);
      var p := body.value;
      if !OrderTypes.ItemPayloadValid(p) then (t, BadRequest(InvalidPayload(p)))
      else
        var read := ProductStore.Get(t.products, p.productId, f.productRead);
        if read.Err? then (t, BadRequest(read.error))
        else
          var product := read.value;
          if product.quantity < p.quantity then (t, BadRequest(OutOfStock(product.name)))
          else if f.productWrite.Fails? then (t, BadRequest(ProductStore.UpdateFailed(f.productWrite.error)))
          else
            var t1 := t.(products := ProductStore.Replace(t.products, p.productId, Reserved(product, p.quantity)));
            if f.itemInsert.Fails? then (t1, Internal(f.itemInsert.error))
            else
              var t2 := t1.(items := t1.items + [OrderStore.Stored(NewItem(orderId, p), t1.nextItemId, now)],
                            nextItemId := t1.nextItemId + 1);
              var total := OrderStore.Get(t2.orders, orderId, f.orderRead);
              if total.Err? then (t2, Internal(total.error))
              else if f.orderWrite.Fails? then (t2, Internal(OrderStore.UpdateFailed(f.orderWrite.error)))
              else
                var updated := Totalled(total.value, p.quantity, product.price);
                (t2.(orders := OrderStore.Replace(t2.orders, orderId, updated)), Success(201, CreatedMsg))
  }

  // Properties of the workflow

  /** A body that fails `required` is answered 400 before any round trip: the
      reply does not depend on the database, and no table changes. */
  lemma InvalidPayloadRejected(t: Tables, idParam: string, p: CreateOrderItemPayload, f: Faults, now: int)
    requires idParam != "" && !OrderTypes.ItemPayloadValid(p)
    ensures AddOrderItem(t, idParam, Decoded(p), f, now) == (t, BadRequest(InvalidPayload(p)))
  {
  }

  /** A product that cannot be read is answered 400, and no table changes. */
  lemma LookupFailureRejected(t: Tables, idParam: string, p: CreateOrderItemPayload, f: Faults, now: int)
    requires idParam != "" && OrderTypes.ItemPayloadValid(p)
    requires f.productRead.Fails? || p.productId !in t.products
    ensures AddOrderItem(t, idParam, Decoded(p), f, now) ==
      (t, BadRequest(if f.productRead.Fails? then f.productRead.error else ProductStore.NotFound))
  {
  }

  /** Too little stock is answered 400 with a message naming the product,
      and no table changes. */
  lemma OutOfStockRejected(t: Tables, idParam: string, p: CreateOrderItemPayload, f: Faults, now: int)
    requires idParam != "" && OrderTypes.ItemPayloadValid(p) && f.productRead.Succeeds?
    requires p.productId in t.products && t.products[p.productId].quantity < p.quantity
    ensures AddOrderItem(t, idParam, Decoded(p), f, now) ==
      (t, BadRequest(OutOfStock(t.products[p.productId].name)))
  {
  }

  /** Once the stock check passes and the product write goes through, that
      product's quantity is lowered by the request and every other column and
      every other product stays as it was, whatever happens afterwards. */
  lemma StockReserved(t: Tables, idParam: string, p: CreateOrderItemPayload, f: Faults, now: int)
    requires ProductStore.RowsValid(t.products, t.nextProductId)
    requires idParam != "" && OrderTypes.ItemPayloadValid(p)
    requires f.productRead.Succeeds? && f.productWrite.Succeeds?
    requires p.productId in t.products && t.products[p.productId].quantity >= p.quantity
    ensures var before, after := t.products[p.productId], AddOrderItem(t, idParam, Decoded(p), f, now).0;
      && after.products == t.products[p.productId := before.(quantity := Sub64(before.quantity, p.quantity))]
      && after.nextProductId == t.nextProductId
      && (p.quantity > 0 ==> after.products[p.productId].quantity == before.quantity - p.quantity)
  {
  }

  /** Once the item insert goes through, exactly one row is appended: the
      order id from the path, the product and quantity of the body, and a
      price of zero rather than the product's price. */
  lemma ItemRecordedWithoutPrice(t: Tables, idParam: string, p: CreateOrderItemPayload, f: Faults, now: int)
    requires idParam != "" && OrderTypes.ItemPayloadValid(p)
    requires f.productRead.Succeeds? && f.productWrite.Succeeds? && f.itemInsert.Succeeds?
    requires p.productId in t.products && t.products[p.productId].quantity >= p.quantity
    ensures var after := AddOrderItem(t, idParam, Decoded(p), f, now).0;
      && after.items == t.items + [OrderTypes.OrderItem(t.nextItemId, Atoi(idParam), p.productId, p.quantity, 0.0, now)]
      && after.nextItemId == t.nextItemId + 1
  {
  }

  /** The reply is 201 exactly when the path has an id, the body decodes and
      passes validation, the product exists with enough stock, the order
      named by the path exists, and none of the five round trips fails. */
  lemma CreatedExactlyWhen(t: Tables, idParam: string, body: Body<CreateOrderItemPayload>, f: Faults, now: int)
    ensures AddOrderItem(t, idParam, body, f, now).1.Success? <==>
      && idParam != "" && body.Decoded? && OrderTypes.ItemPayloadValid(body.value)
      && body.value.productId in t.products
      && t.products[body.value.productId].quantity >= body.value.quantity
      && Atoi(idParam) in t.orders
      && f == NoFaults
  {
  }

  /** Each step's failure has its fixed status: 400 for the product read and
      the product write, 500 for the item insert, the order read and the
      order write. */
  lemma StepStatuses(t: Tables, idParam: string, p: CreateOrderItemPayload, f: Faults, now: int)
    requires idParam != "" && OrderTypes.ItemPayloadValid(p)
    requires p.productId in t.products && t.products[p.productId].quantity >= p.quantity
    ensures var status := AddOrderItem(t, idParam, Decoded(p), f, now).1.Status();
      && (f.productRead.Fails? ==> status == 400)
      && (f.productRead.Succeeds? && f.productWrite.Fails? ==> status == 400)
      && (f.productRead.Succeeds? && f.productWrite.Succeeds? && f.itemInsert.Fails? ==> status == 500)
      && (f.productRead.Succeeds? && f.productWrite.Succeeds? && f.itemInsert.Succeeds? && f.orderRead.Fails?
          ==> status == 500)
      && (f.productRead.Succeeds? && f.productWrite.Succeeds? && f.itemInsert.Succeeds? &&
          f.orderRead.Succeeds? && f.orderWrite.Fails?
          ==> status == 500)
      && (f == NoFaults && Atoi(idParam) in t.orders ==> status == 201)
  {
  }

  /** On 201 the order's total grows by the requested quantity times the unit
      price read in the first step; its user, status, id and stamp stay, and
      no other order changes. */
  lemma SuccessAddsToTotal(t: Tables, idParam: string, p: CreateOrderItemPayload, f: Faults, now: int)
    requires AddOrderItem(t, idParam, Decoded(p), f, now).1.Success?
    ensures Atoi(idParam) in t.orders && p.productId in t.products
    ensures AddOrderItem(t, idParam, Decoded(p), f, now).1 == Success(201, CreatedMsg)
    ensures var id := Atoi(idParam);
      var o := t.orders[id];
      AddOrderItem(t, idParam, Decoded(p), f, now).0.orders ==
        t.orders[id := OrderTypes.Order(id, o.userId, o.total + Cost(p.quantity, t.products[p.productId].price),
                                        o.status, o.createdAt)]
  {
  }

  /** Nothing is undone: a 400 leaves every table as it was, and a 500 leaves
      the stock reserved (and the item appended once its insert went through)
      with the order untouched. */
  lemma FailuresAreNotRolledBack(t: Tables, idParam: string, body: Body<CreateOrderItemPayload>, f: Faults, now: int)
    ensures AddOrderItem(t, idParam, body, f, now).1.BadRequest? ==> AddOrderItem(t, idParam, body, f, now).0 == t
    ensures AddOrderItem(t, idParam, body, f, now).1.Internal? ==>
      body.Decoded? && body.value.productId in t.products
    ensures AddOrderItem(t, idParam, body, f, now).1.Internal? ==>
      var p, after := body.value, AddOrderItem(t, idParam, body, f, now).0;
      && after.products == ProductStore.Replace(t.products, p.productId, Reserved(t.products[p.productId], p.quantity))
      && after.orders == t.orders
      && |after.items| == |t.items| + (if f.itemInsert.Succeeds? then 1 else 0)
  {
  }

  /** The item table only grows, by at most one row per call, and the
      order ids handed out are never touched. */
  lemma ItemsOnlyGrow(t: Tables, idParam: string, body: Body<CreateOrderItemPayload>, f: Faults, now: int)
    ensures var after := AddOrderItem(t, idParam, body, f, now).0;
      && t.items <= after.items
      && |after.items| <= |t.items| + 1
      && after.nextItemId == t.nextItemId + |after.items| - |t.items|
      && after.nextOrderId == t.nextOrderId && after.orders.Keys == t.orders.Keys
      && after.nextProductId == t.nextProductId && after.products.Keys == t.products.Keys
  {
  }

  /** An order id without a row is found out only after the stock has been
      lowered and the item appended; both stay, and the reply is 500. */
  lemma NoRollbackWhenOrderMissing(t: Tables, idParam: string, p: CreateOrderItemPayload, now: int)
    requires idParam != "" && OrderTypes.ItemPayloadValid(p)
    requires p.productId in t.products && t.products[p.productId].quantity >= p.quantity
    requires Atoi(idParam) !in t.orders
    ensures AddOrderItem(t, idParam, Decoded(p), NoFaults, now) ==
      (t.(products := ProductStore.Replace(t.products, p.productId, Reserved(t.products[p.productId], p.quantity)),
          items := t.items + [OrderTypes.OrderItem(t.nextItemId, Atoi(idParam), p.productId, p.quantity, 0.0, now)],
          nextItemId := t.nextItemId + 1),
       Internal(OrderStore.NotFound))
  {
  }

  /** Two identical successful calls append two items and take the stock
      down twice; the total grows twice. */
  lemma NotIdempotent(t: Tables, idParam: string, p: CreateOrderItemPayload, f1: Faults, f2: Faults, now1: int, now2: int)
    requires ProductStore.RowsValid(t.products, t.nextProductId)
    requires AddOrderItem(t, idParam, Decoded(p), f1, now1).1.Success?
    requires AddOrderItem(AddOrderItem(t, idParam, Decoded(p), f1, now1).0, idParam, Decoded(p), f2, now2).1.Success?
    ensures p.productId in t.products && Atoi(idParam) in t.orders
    ensures var id, stock, price := Atoi(idParam), t.products[p.productId].quantity, t.products[p.productId].price;
      var after := AddOrderItem(AddOrderItem(t, idParam, Decoded(p), f1, now1).0, idParam, Decoded(p), f2, now2).0;
      && after.items == t.items + [OrderTypes.OrderItem(t.nextItemId, id, p.productId, p.quantity, 0.0, now1),
                                   OrderTypes.OrderItem(t.nextItemId + 1, id, p.productId, p.quantity, 0.0, now2)]
      && after.products[p.productId].quantity == Sub64(Sub64(stock, p.quantity), p.quantity)
      && (p.quantity > 0 ==> after.products[p.productId].quantity == stock - 2 * p.quantity)
      && after.orders[id].total == t.orders[id].total + Cost(p.quantity, price) + Cost(p.quantity, price)
  {
  }

  /** No product's stock goes below zero: the check admits only what is
      there, and a negative request raises the stock. Only a raise past the
      largest `int`, which wraps around, could make it negative. */
  lemma StockStaysNonNegative(t: Tables, idParam: string, body: Body<CreateOrderItemPayload>, f: Faults, now: int)
    requires forall k :: k in t.products ==> t.products[k].quantity >= 0
    requires body.Decoded? && body.value.productId in t.products ==>
      t.products[body.value.productId].quantity - body.value.quantity <= MaxInt64
    ensures var after := AddOrderItem(t, idParam, body, f, now).0;
      forall k :: k in after.products ==> after.products[k].quantity >= 0
  {
  }

  /** `required` only rules out zero, so a negative quantity passes every
      check: the stock goes up, and the item records a negative quantity. */
  lemma NegativeQuantityRestocks(t: Tables, idParam: string, p: CreateOrderItemPayload, now: int)
    requires ProductStore.RowsValid(t.products, t.nextProductId)
    requires idParam != "" && p.productId != 0 && p.quantity < 0
    requires p.productId in t.products && Atoi(idParam) in t.orders
    requires 0 <= t.products[p.productId].quantity <= MaxInt64 + p.quantity
    ensures var after := AddOrderItem(t, idParam, Decoded(p), NoFaults, now);
      && after.1 == Success(201, CreatedMsg)
      && after.0.products[p.productId].quantity == t.products[p.productId].quantity - p.quantity
      && after.0.products[p.productId].quantity > t.products[p.productId].quantity
  {
  }

  /** A worked case: product 1 with five in stock at 10.0, order 7 empty.
      Adding three leaves two in stock, a total of 30.0 and one item whose
      price is 0.0; asking for ten more afterwards is refused unchanged. */
  lemma WorkedExample(now: int)
    ensures
      var lamp := ProductTypes.Product(1, "lamp", "", 10.0, 5, "home", 0);
      var order := OrderTypes.Order(7, 42, 0.0, OrderTypes.New, 0);
      var t := Tables(map[1 := lamp], 2, map[7 := order], 8, [], 1);
      var first := AddOrderItem(t, "7", Decoded(OrderTypes.CreateOrderItemPayload(1, 3)), NoFaults, now);
      var second := AddOrderItem(first.0, "7", Decoded(OrderTypes.CreateOrderItemPayload(1, 10)), NoFaults, now);
      && first.1 == Success(201, CreatedMsg)
      && first.0.products == map[1 := lamp.(quantity := 2)]
      && first.0.orders == map[7 := order.(total := 30.0)]
      && first.0.items == [OrderTypes.OrderItem(1, 7, 1, 3, 0.0, now)]
      && second == (first.0, BadRequest(OutOfStock("lamp")))
  {
  }

  class Handler {
    const store: OrderStore.Store
    const productStore: ProductStore.Store

    constructor (store: OrderStore.Store, productStore: ProductStore.Store)
      ensures this.store == store && this.productStore == productStore
    {
      this.store := store;
      this.productStore := productStore;
    }

    ghost predicate Valid()
      reads store, productStore
    {
      store.Valid() && productStore.Valid()
    }

    ghost function Snapshot(): Tables
      reads store, productStore
    {
      Tables(productStore.rows, productStore.nextId, store.orders, store.nextOrderId, store.items, store.nextItemId)
    }

    /** `POST /orders/{id}/order`: read the product, check its stock, write
        it back with the stock lowered, append the item, re-read the order
        and write it back with the larger total; stop at the first failure. */
    method HandleCreateOrderItem(idParam: string, body: Body<CreateOrderItemPayload>, f: Faults, now: int)
      returns (reply: Reply<string>)
      requires Valid()
      modifies store, productStore
      ensures Valid()
      ensures (Snapshot(), reply) == AddOrderItem(old(Snapshot()), idParam, body, f, now)
    {
      ghost var t := Snapshot();
      if idParam == "" {
        return BadRequest(IdMissing);
      }
      var orderId := Atoi(idParam);
      if body.Malformed? {
        return BadRequest(body.error);
      }
      var payload := body.value;
      if !OrderTypes.ItemPayloadValid(payload) {
        return BadRequest(InvalidPayload(payload));
      }
      var read := productStore.GetProductByID(payload.productId, f.productRead);
      if read.Err? {
        return BadRequest(read.error);
      }
      var product := read.value;
      if product.quantity < payload.quantity {
        return BadRequest(OutOfStock(product.name));
      }
      var err := productStore.UpdateProduct(payload.productId, Reserved(product, payload.quantity), f.productWrite);
      if err.Some? {
        return BadRequest(err.value);
      }
      ghost var t1 := t.(products := ProductStore.Replace(t.products, payload.productId, Reserved(product, payload.quantity)));
      assert Snapshot() == t1;
      err := store.CreateOrderItem(NewItem(orderId, payload), f.itemInsert, now);
      if err.Some? {
        return Internal(err.value);
      }
      ghost var t2 := t1.(items := t1.items + [OrderStore.Stored(NewItem(orderId, payload), t1.nextItemId, now)],
                          nextItemId := t1.nextItemId + 1);
      assert Snapshot() == t2;
      var total := store.GetOrderById(orderId, f.orderRead);
      if total.Err? {
        return Internal(total.error);
      }
      var o := total.value;
      var updated := Totalled(o, payload.quantity, product.price);
      err := store.UpdateOrder(orderId, updated, f.orderWrite);
      if err.Some? {
        return Internal(err.value);
      }
      assert Snapshot() == t2.(orders := OrderStore.Replace(t2.orders, orderId, updated));
      return Success(201, CreatedMsg);
    }

    /** `GET /orders/search?status=..&user=..`: a non-empty status wins over
        the user; with neither, 400 before any query. */
    method HandleOrderByStatusOrUser(status: string, user: string, db: RoundTrip, order: seq<int>)
      returns (reply: Reply<seq<Order>>)
      requires Valid() && Rows.ScanOrder(store.orders, order)
      ensures status == "" && user == "" ==> reply == BadRequest(SearchParamsMissing)
      ensures (status != "" || user != "") && db.Fails? ==> reply == Internal(db.error)
      ensures (status != "" || user != "") && db.Succeeds? ==>
        reply.Success? && reply.code == 200 && Rows.ListsRows(store.orders, OrderTypes.Key, reply.value)
      ensures status != "" && reply.Success? ==>
        (forall i :: 0 <= i < |reply.value| ==> reply.value[i].status == status) &&
        (forall k :: k in store.orders && store.orders[k].status == status ==> store.orders[k] in reply.value)
      ensures status == "" && reply.Success? ==>
        (forall i :: 0 <= i < |reply.value| ==> reply.value[i].userId == Atoi(user)) &&
        (forall k :: k in store.orders && store.orders[k].userId == Atoi(user) ==> store.orders[k] in reply.value)
    {
      var orders: Result<seq<Order>>;
      if status != "" {
        orders := store.GetOrdersByStatus(status, db, order);
      } else if user != "" {
        var userId := Atoi(user);
        orders := store.GetOrdersByUserId(userId, db, order);
      } else {
        return BadRequest(SearchParamsMissing);
      }
      if orders.Err? {
        return Internal(orders.error);
      }
      return Success(200, orders.value);
    }

    /** `PUT /orders/{id}`: the decoded body replaces user, total and status
        of the row whole, so a field missing from the body is written as its
        zero value; an id without a row still gets 200. */
    method HandleUpdateOrder(idParam: string, body: Body<UpdateOrderPayload>, db: RoundTrip)
      returns (reply: Reply<string>)
      requires Valid()
      modifies store
      ensures Valid()
      ensures store.items == old(store.items) && store.nextItemId == old(store.nextItemId)
      ensures store.nextOrderId == old(store.nextOrderId)
      ensures idParam == "" ==> reply == BadRequest(IdMissing) && store.orders == old(store.orders)
      ensures idParam != "" && body.Malformed? ==> reply == BadRequest(body.error) && store.orders == old(store.orders)
      ensures idParam != "" && body.Decoded? && db.Fails? ==>
        reply == Internal(OrderStore.UpdateFailed(db.error)) && store.orders == old(store.orders)
      ensures idParam != "" && body.Decoded? && db.Succeeds? ==>
        var id, p := Atoi(idParam), body.value;
        && reply == Success(200, UpdatedMsg)
        && store.orders.Keys == old(store.orders).Keys
        && (id in old(store.orders) ==>
              store.orders[id] == OrderTypes.Order(id, p.userId, p.total, p.status, old(store.orders)[id].createdAt))
        && (forall k :: k in old(store.orders) && k != id ==> store.orders[k] == old(store.orders)[k])
    {
      if idParam == "" {
        return BadRequest(IdMissing);
      }
      var orderId := Atoi(idParam);
      if body.Malformed? {
        return BadRequest(body.error);
      }
      var payload := body.value;
      var err := store.UpdateOrder(orderId, OrderTypes.Order(0, payload.userId, payload.total, payload.status, 0), db);
      if err.Some? {
        return Internal(err.value);
      }
      return Success(200, UpdatedMsg);
    }
  }
}
