/** The order records and request payloads of order/types/types.go. */
module OrderTypes {
  import opened Base

  /** The three `OrderStatus` constants. The type is a plain string, so
      any other text is accepted too. */
  const New := "new"
  const InProcess := "in_process"
  const Done := "done"

  /** One row of the `orders` table. */
  datatype Order = Order(id: int, userId: int, total: real, status: string, createdAt: int)

  /** One row of the `order_items` table. */
  datatype OrderItem = OrderItem(
    id: int,
    orderId: int,
    productId: int,
    quantity: int64,
    price: real,
    createdAt: int)

  /** The primary key of an order row. */
  function Key(o: Order): int { o.id }

  /** The value of `new(types.Order)`. */
  const Zero := Order(0, 0, 0.0, "", 0)

  /** The body of `PUT /orders/{id}`; every field is `omitempty`, so any
      decoded body passes validation. */
  datatype UpdateOrderPayload = UpdateOrderPayload(userId: int, total: real, status: string)

  /** The body of `POST /orders/{id}/order`. */
  datatype CreateOrderItemPayload = CreateOrderItemPayload(productId: int, quantity: int64)

  /** `validate:"required"` on an integer field: the field is not zero.
      A negative quantity is not zero and passes. */
  predicate ItemPayloadValid(p: CreateOrderItemPayload)
  {
    p.productId != 0 && p.quantity != 0
  }

  /** The names of the fields that fail `required`, in declaration order. */
  function MissingFields(p: CreateOrderItemPayload): (fields: seq<string>)
    ensures fields == [] <==> ItemPayloadValid(p)
    ensures "ProductID" in fields <==> p.productId == 0
    ensures "Quantity" in fields <==> p.quantity == 0
  {
    (if p.productId == 0 then ["ProductID"] else []) + (if p.quantity == 0 then ["Quantity"] else [])
  }
}
