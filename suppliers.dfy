/** The suppliers endpoint: `GET` lists every supplier with its product count, ordered by name;
    `POST` inserts a supplier, answering 201, and 500 for every failure, a name that is already
    taken included. */
module Suppliers {
  import opened Optional
  import opened Inventory
  import opened Relational
  import opened Sorting

  /** A row of `SELECT s.*, COUNT(p.id) AS product_count`. */
  datatype SupplierListing = SupplierListing(supplier: Supplier, product_count: nat)

  function SupplierName(s: Supplier): string {
    s.name
  }

  /** `SELECT s.*, COUNT(p.id) AS product_count FROM suppliers s LEFT JOIN products p
      ON s.id = p.supplier_id GROUP BY s.id ORDER BY s.name ASC`. */
  function Listing(ss: seq<Supplier>, ps: seq<Product>): (r: seq<SupplierListing>)
    ensures |r| == |ss|
  {
    var sorted := SortAscending(ss, SupplierName);
    assert |multiset(sorted)| == |sorted| && |multiset(ss)| == |ss|;
    seq(|sorted|, i requires 0 <= i < |sorted| =>
      SupplierListing(sorted[i], SupplierProductCount(ps, sorted[i].id)))
  }

  function ListedSuppliers(l: seq<SupplierListing>): (r: seq<Supplier>)
    ensures |r| == |l|
  {
    seq(|l|, i requires 0 <= i < |l| => l[i].supplier)
  }

  /** Every supplier is listed exactly once, in ascending name order, and its product count is
      the number of products whose `supplier_id` is its id (0 when there are none). */
  lemma ListingSpec(ss: seq<Supplier>, ps: seq<Product>)
    ensures multiset(ListedSuppliers(Listing(ss, ps))) == multiset(ss)
    ensures forall i, j :: 0 <= i < j < |Listing(ss, ps)| ==>
              LexLe(Listing(ss, ps)[i].supplier.name, Listing(ss, ps)[j].supplier.name)
    ensures forall i :: 0 <= i < |Listing(ss, ps)| ==>
              var l := Listing(ss, ps)[i];
              && l.product_count == |Where(ps, FromSupplier(l.supplier.id))|
              && (forall p :: p in Where(ps, FromSupplier(l.supplier.id)) <==>
                                p in ps && p.supplier_id == Some(l.supplier.id))
              && (l.product_count == 0 <==> forall p :: p in ps ==> p.supplier_id != Some(l.supplier.id))
  {
    var sorted := SortAscending(ss, SupplierName);
    SortAscendingSorted(ss, SupplierName);
    var l := Listing(ss, ps);
    assert ListedSuppliers(l) == sorted;
    forall i, j | 0 <= i < j < |l|
      ensures LexLe(l[i].supplier.name, l[j].supplier.name)
    {
      assert LexLe(SupplierName(sorted[i]), SupplierName(sorted[j]));
    }
    forall i | 0 <= i < |l| {
      CountIsWhereLength(ps, FromSupplier(l[i].supplier.id));
    }
  }

  /** The suppliers table. The database hands out ids in increasing order; names are unique. */
  class SupplierTable {
    var rows: seq<Supplier>
    var nextId: int

    ghost predicate Valid()
      reads this
    {
      && (forall i :: 0 <= i < |rows| ==> rows[i].id < nextId)
      && (forall i, j :: 0 <= i < j < |rows| ==> rows[i].id != rows[j].id && rows[i].name != rows[j].name)
    }

    constructor ()
      ensures Valid() && rows == []
    {
      rows := [];
      nextId := 1;
    }

    predicate NameTaken(name: string)
      reads this
    {
      exists i :: 0 <= i < |rows| && rows[i].name == name
    }

    /** `GET`: the listing, or 500 when the query fails. */
    method Get(ps: seq<Product>, readFails: bool) returns (resp: Response<seq<SupplierListing>>)
      ensures readFails ==> resp == Response(500, Error("Failed to fetch suppliers"))
      ensures !readFails ==> resp == Response(200, Json(Listing(rows, ps)))
    {
      if readFails {
        resp := Response(500, Error("Failed to fetch suppliers"));
      } else {
        resp := Response(200, Json(Listing(rows, ps)));
      }
    }

    /** `POST`: insert `{ name, email, phone, address }` and return the new row with 201. Every
        failure is answered with 500, whether it is a taken name (a unique violation) or
        `otherFailure` (an unreadable body, the database unreachable); a failure leaves the table
        as it was. */
    method Post(name: string, email: Option<string>, phone: Option<string>, address: Option<string>,
                otherFailure: bool) returns (resp: Response<Supplier>)
      requires Valid()
      modifies this
      ensures Valid()
      ensures otherFailure || old(NameTaken(name)) ==>
                && resp == Response(500, Error("Failed to create supplier"))
                && rows == old(rows) && nextId == old(nextId)
      ensures !otherFailure && !old(NameTaken(name)) ==>
                var added := Supplier(old(nextId), name, email, phone, address);
                && resp == Response(201, Json(added))
                && rows == old(rows) + [added] && nextId == old(nextId) + 1
      ensures resp.status != 400
    {
      if otherFailure || NameTaken(name) {
        resp := Response(500, Error("Failed to create supplier"));
        return;
      }
      var added := Supplier(nextId, name, email, phone, address);
      rows := rows + [added];
      nextId := nextId + 1;
      resp := Response(201, Json(added));
    }
  }
}
