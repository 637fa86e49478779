/** The products table and the store of product/store/store.go that reads
    and writes it. */
module ProductStore {
  import opened Base
  import opened ProductTypes
  import Rows
  import Pattern

  const NotFound := "product not found"

  function UpdateFailed(driverError: string): string { "failed to update product: " + driverError }

  function DeleteFailed(driverError: string): string { "failed to delete product: " + driverError }

  /** The table invariant kept by the primary key, assumed `SERIAL`: every row sits
      under its own id, ids start at 1, and the sequence is past them all. */
  ghost predicate RowsValid(rows: map<int, Product>, nextId: int)
  {
    nextId >= 1 && forall k :: k in rows ==> 1 <= k < nextId && rows[k].id == k
  }

  /** What `GetProductByID` answers: the row stored under `id`, the sentinel
      error when there is none, or the driver's error. */
  function Get(rows: map<int, Product>, id: int, db: RoundTrip): Result<Product>
  {
    if db.Fails? then Err(db.error)
    else if id in rows then Ok(rows[id])
    else Err(NotFound)
  }

  /** The table after `UPDATE products SET name, description, price,
      quantity, category WHERE id = $6`: a full-row replace of the five
      columns; ID and CreatedAt of `p` are ignored. */
  function Replace(rows: map<int, Product>, id: int, p: Product): (r: map<int, Product>)
    ensures r.Keys == rows.Keys
    ensures id in rows ==>
      r[id] == Product(id, p.name, p.description, p.price, p.quantity, p.category, rows[id].createdAt)
    ensures forall k :: k in rows && k != id ==> r[k] == rows[k]
  {
    if id in rows then
      rows[id := Product(id, p.name, p.description, p.price, p.quantity, p.category, rows[id].createdAt)]
    else rows
  }

  /** The `name ILIKE '%' || name || '%'` filter of the name search. */
  predicate NameMatches(p: Product, name: string)
  {
    Pattern.ILike(p.name, "%" + name + "%")
  }

  /** The `category = '%' || category || '%'` filter of the category
      search: an equality, not a pattern match. */
  predicate CategoryMatches(p: Product, category: string)
  {
    p.category == "%" + category + "%"
  }

  class Store {
    var rows: map<int, Product>
    /** The next value of the `products.id` sequence. */
    var nextId: int

    ghost predicate Valid()
      reads this
    {
      RowsValid(rows, nextId)
    }

    constructor ()
      ensures Valid() && rows == map[] && nextId == 1
    {
      rows := map[];
      nextId := 1;
    }

    /** `SELECT * FROM products`, rows in the database's `order`. */
    method GetProducts(db: RoundTrip, order: seq<int>) returns (r: Result<seq<Product>>)
      requires Valid() && Rows.ScanOrder(rows, order)
      ensures db.Fails? ==> r == Err(db.error)
      ensures db.Succeeds? ==> r.Ok? && Rows.ListsRows(rows, Key, r.value)
      ensures db.Succeeds? ==> forall k :: k in rows ==> rows[k] in r.value
    {
      if db.Fails? {
        return Err(db.error);
      }
      var products := Rows.Query(rows, Key, (p: Product) => true, order);
      return Ok(products);
    }

    /** `SELECT * FROM products WHERE id = $1`, then the loop that keeps the
        last row read, then the `product.ID == 0` test for "not found". */
    method GetProductByID(id: int, db: RoundTrip) returns (r: Result<Product>)
      requires Valid()
      ensures r == Get(rows, id, db)
    {
      if db.Fails? {
        return Err(db.error);
      }
      var found := Rows.Query(rows, Key, (p: Product) => p.id == id, if id in rows then [id] else []);
      assert |found| > 1 ==> Key(found[0]) == id == Key(found[1]);
      var product := Zero;
      for i := 0 to |found|
        invariant i == 0 ==> product == Zero
        invariant 0 < i ==> product == found[i - 1]
      {
        product := found[i];
      }
      if product.id == 0 {
        return Err(NotFound);
      }
      return Ok(product);
    }

    /** `INSERT INTO products (name, description, price, quantity, category)`:
        the database assigns the id and stamps the row with `now`. */
    method CreateProduct(p: Product, db: RoundTrip, now: int) returns (err: Option<string>)
      requires Valid()
      modifies this
      ensures Valid()
      ensures db.Fails? ==> err == Some(db.error) && rows == old(rows) && nextId == old(nextId)
      ensures db.Succeeds? ==> err == None && nextId == old(nextId) + 1
      ensures db.Succeeds? ==>
        rows == old(rows)[old(nextId) := Product(old(nextId), p.name, p.description, p.price, p.quantity, p.category, now)]
      ensures db.Succeeds? ==> old(nextId) !in old(rows) && |rows| == |old(rows)| + 1
    {
      if db.Fails? {
        return Some(db.error);
      }
      rows := rows[nextId := Product(nextId, p.name, p.description, p.price, p.quantity, p.category, now)];
      nextId := nextId + 1;
      return None;
    }

    /** `UPDATE products ... WHERE id = $6`. The affected-row count is not
        read, so an id without a row changes nothing and still succeeds. */
    method UpdateProduct(id: int, p: Product, db: RoundTrip) returns (err: Option<string>)
      requires Valid()
      modifies this
      ensures Valid() && nextId == old(nextId)
      ensures err == (if db.Fails? then Some(UpdateFailed(db.error)) else None)
      ensures rows == (if db.Fails? then old(rows) else Replace(old(rows), id, p))
      ensures id !in old(rows) ==> rows == old(rows)
    {
      if db.Fails? {
        return Some(UpdateFailed(db.error));
      }
      rows := Replace(rows, id, p);
      return None;
    }

    /** `DELETE FROM products WHERE id = $1`. */
    method DeleteProduct(id: int, db: RoundTrip) returns (err: Option<string>)
      requires Valid()
      modifies this
      ensures Valid() && nextId == old(nextId)
      ensures err == (if db.Fails? then Some(DeleteFailed(db.error)) else None)
      ensures rows == (if db.Fails? then old(rows) else old(rows) - {id})
    {
      if db.Fails? {
        return Some(DeleteFailed(db.error));
      }
      rows := rows - {id};
      return None;
    }

    /** `SELECT * FROM products WHERE name ILIKE '%' || name || '%'`. */
    method GetProductsByName(name: string, db: RoundTrip, order: seq<int>) returns (r: Result<seq<Product>>)
      requires Valid() && Rows.ScanOrder(rows, order)
      ensures db.Fails? ==> r == Err(db.error)
      ensures db.Succeeds? ==> r.Ok? && Rows.ListsRows(rows, Key, r.value)
      ensures db.Succeeds? ==> forall i :: 0 <= i < |r.value| ==> NameMatches(r.value[i], name)
      ensures db.Succeeds? ==> forall k :: k in rows && NameMatches(rows[k], name) ==> rows[k] in r.value
    {
      if db.Fails? {
        return Err(db.error);
      }
      var products := Rows.Query(rows, Key, (p: Product) => NameMatches(p, name), order);
      return Ok(products);
    }

    /** `SELECT * FROM products WHERE category = '%' || category || '%'`.
        Only a stored category that itself begins with '%' can match, so
        when none does the answer is empty whatever is asked for. */
    method GetProductsByCategory(category: string, db: RoundTrip, order: seq<int>) returns (r: Result<seq<Product>>)
      requires Valid() && Rows.ScanOrder(rows, order)
      ensures db.Fails? ==> r == Err(db.error)
      ensures db.Succeeds? ==> r.Ok? && Rows.ListsRows(rows, Key, r.value)
      ensures db.Succeeds? ==> forall i :: 0 <= i < |r.value| ==> CategoryMatches(r.value[i], category)
      ensures db.Succeeds? ==> forall k :: k in rows && CategoryMatches(rows[k], category) ==> rows[k] in r.value
      ensures db.Succeeds? && (forall k :: k in rows ==> rows[k].category == [] || rows[k].category[0] != '%') ==>
        r == Ok([])
    {
      if db.Fails? {
        return Err(db.error);
      }
      var products := Rows.Query(rows, Key, (p: Product) => CategoryMatches(p, category), order);
      if |products| > 0 {
        assert products[0].category[0] == '%';
      }
      return Ok(products);
    }
  }
}
