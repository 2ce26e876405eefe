/** Rows of the inventory database and the shapes of the HTTP responses the routes return. */
module Inventory {
  import opened Optional
  import opened Relational

  /** A failed database statement; `code` is the SQLSTATE the driver reports ("23505" for a
      unique-constraint violation). */
  datatype DbError = DbError(code: string)

  /** The tag a stock movement carries: IN for an increase, OUT for a decrease. */
  datatype MovementType = IN | OUT

  /** A product row; `price` is in cents. `category_name` is the display column that the product
      list endpoint joins in from the categories table. */
  datatype Product = Product(
    id: int,
    sku: string,
    name: string,
    description: Option<string>,
    category_id: Option<int>,
    supplier_id: Option<int>,
    price: int,
    stock: int,
    min_stock: int,
    category_name: Option<string>)

  datatype Category = Category(id: int, name: string, description: Option<string>)

  datatype Supplier = Supplier(
    id: int,
    name: string,
    email: Option<string>,
    phone: Option<string>,
    address: Option<string>)

  /** One ledger entry; `created_at` is a timestamp in seconds. */
  datatype StockMovement = StockMovement(
    id: int,
    product_id: int,
    quantity: int,
    movement_type: MovementType,
    notes: Option<string>,
    created_at: int)

  /** A JSON response body: either the payload or `{ error: message }`. */
  datatype Body<+T> = Json(value: T) | Error(message: string)

  datatype Response<+T> = Response(status: int, body: Body<T>)

  /** The primary-key constraint on the products table. */
  ghost predicate UniqueProductIds(ps: seq<Product>) {
    forall i, j :: 0 <= i < j < |ps| ==> ps[i].id != ps[j].id
  }

  /** `p.name` of `LEFT JOIN products p ON p.id = id`: the name of the product with that id, or
      null when no product has it. */
  function ProductName(ps: seq<Product>, id: int): (r: Option<string>)
    ensures r == None <==> forall p :: p in ps ==> p.id != id
    ensures r.Some? ==> exists p :: p in ps && p.id == id && p.name == r.value
  {
    if ps == [] then None
    else if ps[0].id == id then Some(ps[0].name)
    else ProductName(ps[1..], id)
  }

  /** Under the primary-key constraint the join finds exactly the product that has the id. */
  lemma {:induction false} ProductNameOfKey(ps: seq<Product>, k: int)
    requires UniqueProductIds(ps)
    requires 0 <= k < |ps|
    ensures ProductName(ps, ps[k].id) == Some(ps[k].name)
  {
    if k > 0 {
      assert ps[0].id != ps[k].id;
      assert ps[1..][k - 1] == ps[k];
      ProductNameOfKey(ps[1..], k - 1);
    }
  }

  function InCategory(id: int): Product -> bool {
    (p: Product) => p.category_id == Some(id)
  }

  /** `COUNT(p.id)` of `categories c LEFT JOIN products p ON c.id = p.category_id` for one
      category: the number of products in that category (0 when it has none). */
  function CategoryProductCount(ps: seq<Product>, id: int): nat {
    Count(ps, InCategory(id))
  }

  function FromSupplier(id: int): Product -> bool {
    (p: Product) => p.supplier_id == Some(id)
  }

  /** `COUNT(p.id)` of `suppliers s LEFT JOIN products p ON s.id = p.supplier_id` for one
      supplier. */
  function SupplierProductCount(ps: seq<Product>, id: int): nat {
    Count(ps, FromSupplier(id))
  }
}
