/** The product list page: the search filter over the loaded products, and the page state that
    the data fetch and the search effect update. */
module Products {
  import opened Optional
  import opened Inventory
  import opened Relational
  import opened Text

  /** A product matches an (already lower-cased) query when the query occurs in its lower-cased
      name, SKU, description (when present) or category name (when present). */
  predicate Matches(p: Product, query: string) {
    || Includes(Lower(p.name), query)
    || Includes(Lower(p.sku), query)
    || (p.description.Some? && Includes(Lower(p.description.value), query))
    || (p.category_name.Some? && Includes(Lower(p.category_name.value), query))
  }

  function Matcher(query: string): Product -> bool {
    (p: Product) => Matches(p, query)
  }

  /** The search effect: a blank query shows every product; otherwise the products matching the
      lower-cased (but untrimmed) query, in their original order. */
  function Filter(products: seq<Product>, searchQuery: string): (r: seq<Product>)
    ensures |r| <= |products|
    ensures forall p :: p in r ==> p in products
  {
    if Trim(searchQuery) == "" then products
    else Where(products, Matcher(Lower(searchQuery)))
  }

  /** What the filter keeps: everything for a blank query, otherwise exactly the matching
      products. The query is lower-cased but not trimmed, so its leading and trailing spaces
      take part in the substring test. */
  lemma FilterSelects(products: seq<Product>, searchQuery: string)
    ensures IsBlank(searchQuery) ==> Filter(products, searchQuery) == products
    ensures !IsBlank(searchQuery) ==>
              forall p :: p in Filter(products, searchQuery) <==>
                          p in products && Matches(p, Lower(searchQuery))
  {
    TrimEmptyIffBlank(searchQuery);
  }

  /** The filtered list is the product list with some products deleted, so it is never longer. */
  lemma FilterKeepsOrder(products: seq<Product>, searchQuery: string)
    ensures IsSubsequence(Filter(products, searchQuery), products)
    ensures |Filter(products, searchQuery)| <= |products|
  {
    if Trim(searchQuery) == "" {
      SubsequenceReflexive(products);
    } else {
      WhereIsSubsequence(products, Matcher(Lower(searchQuery)));
    }
  }

  /** Filtering the filtered list again with the same query changes nothing. */
  lemma FilterIdempotent(products: seq<Product>, searchQuery: string)
    ensures Filter(Filter(products, searchQuery), searchQuery) == Filter(products, searchQuery)
  {
    if Trim(searchQuery) != "" {
      WhereIdempotent(products, Matcher(Lower(searchQuery)));
    }
  }

  /** The body of the response to the product list request, as `res.json()` sees it. */
  datatype JsonBody = ProductArray(items: seq<Product>) | NonArray | Unparseable

  /** What the request for the product list produced: the fetch itself failed, or a response
      with a status and a body. */
  datatype FetchOutcome = NetworkError | Received(status: int, body: JsonBody)

  /** `res.ok`. */
  predicate IsOk(status: int) {
    200 <= status <= 299
  }

  /** The products the page holds after a fetch, given those it held before: empty on an error
      status or a non-array body, the loaded array on success, and unchanged when the request or
      the JSON parse throws. */
  function AfterFetch(outcome: FetchOutcome, before: seq<Product>): (r: seq<Product>)
    ensures outcome.Received? && !IsOk(outcome.status) ==> r == []
    ensures outcome.Received? && IsOk(outcome.status) && outcome.body.NonArray? ==> r == []
    ensures outcome.Received? && IsOk(outcome.status) && outcome.body.ProductArray? ==>
              r == outcome.body.items
    ensures outcome.NetworkError? || (IsOk(outcome.status) && outcome.body.Unparseable?) ==>
              r == before
  {
    match outcome
    case NetworkError => before
    case Received(status, body) =>
      if !IsOk(status) then []
      else match body
        case Unparseable => before
        case NonArray => []
        case ProductArray(items) => items
  }

  /** The React state of the product list page. */
  class ProductsPage {
    var products: seq<Product>
    var filteredProducts: seq<Product>
    var searchQuery: string
    var isLoading: bool

    constructor ()
      ensures products == [] && filteredProducts == [] && searchQuery == "" && isLoading
    {
      products := [];
      filteredProducts := [];
      searchQuery := "";
      isLoading := true;
    }

    /** `fetchProducts`: load the list; on an error status or a non-array body both lists become
        empty, on a thrown error they are left as they were; loading always ends. */
    method FetchProducts(outcome: FetchOutcome)
      modifies this
      ensures products == AfterFetch(outcome, old(products))
      ensures filteredProducts == AfterFetch(outcome, old(filteredProducts))
      ensures searchQuery == old(searchQuery) && !isLoading
    {
      match outcome {
        case NetworkError =>
        case Received(status, body) =>
          if !IsOk(status) {
            products := [];
            filteredProducts := [];
          } else {
            match body {
              case Unparseable =>
              case NonArray =>
                products := [];
                filteredProducts := [];
              case ProductArray(items) =>
                products := items;
                filteredProducts := items;
            }
          }
      }
      isLoading := false;
    }

    /** The search box's change handler. */
    method SetSearchQuery(q: string)
      modifies this`searchQuery
      ensures searchQuery == q
    {
      searchQuery := q;
    }

    /** The effect that runs whenever the query or the product list changes. */
    method SearchEffect()
      modifies this`filteredProducts
      ensures filteredProducts == Filter(products, searchQuery)
      ensures |filteredProducts| <= |products|
    {
      filteredProducts := Filter(products, searchQuery);
    }
  }
}
