/** The categories endpoint: `GET` lists every category with its product count, ordered by
    name; `POST` inserts a category, answering 201, 400 for a name that is already taken, and 500
    for any other failure. */
module Categories {
  import opened Optional
  import opened Inventory
  import opened Relational
  import opened Sorting

  /** A row of `SELECT c.*, COUNT(p.id) AS product_count`. */
  datatype CategoryListing = CategoryListing(category: Category, product_count: nat)

  function CategoryName(c: Category): string {
    c.name
  }

  /** `SELECT c.*, COUNT(p.id) AS product_count FROM categories c LEFT JOIN products p
      ON c.id = p.category_id GROUP BY c.id ORDER BY c.name ASC`. */
  function Listing(cs: seq<Category>, ps: seq<Product>): (r: seq<CategoryListing>)
    ensures |r| == |cs|
  {
    var sorted := SortAscending(cs, CategoryName);
    assert |multiset(sorted)| == |sorted| && |multiset(cs)| == |cs|;
    seq(|sorted|, i requires 0 <= i < |sorted| =>
      CategoryListing(sorted[i], CategoryProductCount(ps, sorted[i].id)))
  }

  function ListedCategories(l: seq<CategoryListing>): (r: seq<Category>)
    ensures |r| == |l|
  {
    seq(|l|, i requires 0 <= i < |l| => l[i].category)
  }

  /** Every category is listed exactly once, in ascending name order, and its product count is
      the number of products whose `category_id` is its id (0 when there are none). */
  lemma ListingSpec(cs: seq<Category>, ps: seq<Product>)
    ensures multiset(ListedCategories(Listing(cs, ps))) == multiset(cs)
    ensures forall i, j :: 0 <= i < j < |Listing(cs, ps)| ==>
              LexLe(Listing(cs, ps)[i].category.name, Listing(cs, ps)[j].category.name)
    ensures forall i :: 0 <= i < |Listing(cs, ps)| ==>
              var l := Listing(cs, ps)[i];
              && l.product_count == |Where(ps, InCategory(l.category.id))|
              && (forall p :: p in Where(ps, InCategory(l.category.id)) <==>
                                p in ps && p.category_id == Some(l.category.id))
              && (l.product_count == 0 <==> forall p :: p in ps ==> p.category_id != Some(l.category.id))
  {
    var sorted := SortAscending(cs, CategoryName);
    SortAscendingSorted(cs, CategoryName);
    var l := Listing(cs, ps);
    assert ListedCategories(l) == sorted;
    forall i, j | 0 <= i < j < |l|
      ensures LexLe(l[i].category.name, l[j].category.name)
    {
      assert LexLe(CategoryName(sorted[i]), CategoryName(sorted[j]));
    }
    forall i | 0 <= i < |l| {
      CountIsWhereLength(ps, InCategory(l[i].category.id));
    }
  }

  /** The categories table. The database hands out ids in increasing order; names are unique. */
  class CategoryTable {
    var rows: seq<Category>
    var nextId: int

    ghost predicate Valid()
      reads this
    {
      && (forall i :: 0 <= i < |rows| ==> rows[i].id < nextId)
      && (forall i, j :: 0 <= i < j < |rows| ==> rows[i].id != rows[j].id && rows[i].name != rows[j].name)
    }

    constructor ()
      ensures Valid() && rows == []
    {
      rows := [];
      nextId := 1;
    }

    predicate NameTaken(name: string)
      reads this
    {
      exists i :: 0 <= i < |rows| && rows[i].name == name
    }

    /** `GET`: the listing, or 500 when the query fails. */
    method Get(ps: seq<Product>, readFails: bool) returns (resp: Response<seq<CategoryListing>>)
      ensures readFails ==> resp == Response(500, Error("Failed to fetch categories"))
      ensures !readFails ==> resp == Response(200, Json(Listing(rows, ps)))
    {
      if readFails {
        resp := Response(500, Error("Failed to fetch categories"));
      } else {
        resp := Response(200, Json(Listing(rows, ps)));
      }
    }

    /** `POST`: insert `{ name, description }` and return the new row with 201. A taken name is a
        unique violation (SQLSTATE 23505), answered with 400. Any other failure (an unreadable
        body, the database unreachable) is `otherFailure` and is answered with 500. A failure
        leaves the table as it was. */
    method Post(name: string, description: Option<string>, otherFailure: bool) returns (resp: Response<Category>)
      requires Valid()
      modifies this
      ensures Valid()
      ensures otherFailure ==>
                && resp == Response(500, Error("Failed to create category"))
                && rows == old(rows) && nextId == old(nextId)
      ensures !otherFailure && old(NameTaken(name)) ==>
                && resp == Response(400, Error("Category with this name already exists"))
                && rows == old(rows) && nextId == old(nextId)
      ensures !otherFailure && !old(NameTaken(name)) ==>
                var added := Category(old(nextId), name, description);
                && resp == Response(201, Json(added))
                && rows == old(rows) + [added] && nextId == old(nextId) + 1
    {
      if otherFailure {
        resp := Response(500, Error("Failed to create category"));
        return;
      }
      if NameTaken(name) {
        resp := Response(400, Error("Category with this name already exists"));
        return;
      }
      var added := Category(nextId, name, description);
      rows := rows + [added];
      nextId := nextId + 1;
      resp := Response(201, Json(added));
    }
  }
}
