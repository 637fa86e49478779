/** The product record of product/types/types.go. */
module ProductTypes {
  import opened Base

  /** One row of the `products` table. `createdAt` is the instant the
      database stamped on the row. */
  datatype Product = Product(
    id: int,
    name: string,
    description: string,
    price: real,
    quantity: int64,
    category: string,
    createdAt: int)

  /** The primary key of a product row. */
  function Key(p: Product): int { p.id }

  /** The value of `new(types.Product)`: every field at Go's zero value. */
  const Zero := Product(0, "", "", 0.0, 0, "", 0)
}
