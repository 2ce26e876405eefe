# Inventory dashboard core, modelled in Dafny

The system is a small inventory-management web application. Products, categories, suppliers
and a stock-movement ledger live in a relational database. This model covers four pieces of it:

- **`GET /api/stats`** builds the dashboard snapshot. It holds three table sizes, the low-stock
  count, the total stock value, the ten newest movements joined to their product names, the
  product count per category, and a seven-day IN/OUT trend grouped by day. Any failed read gives
  an all-zero snapshot, still with status 200.
- **The product list page** holds its state in `products`, `filteredProducts`, `searchQuery`
  and `isLoading`. `fetchProducts` loads the list. A non-OK status or a non-array body empties
  both lists. A thrown error leaves them as they were. The search effect filters the list by a
  case-insensitive substring query.
- **`/api/categories`**: `GET` lists every category with its product count, ordered by name.
  `POST` inserts a category. It answers 201, 400 for a name that is already taken, and 500 for
  any other failure.
- **`/api/suppliers`**: the same listing. Its `POST` answers 201, or 500 for every failure, a
  taken name included.

Each SQL query becomes a total function over in-memory sequences of rows:

- `WHERE` and `Array.filter` are `Relational.Where`.
- `COUNT` is `Relational.Count`.
- `SUM` is `Relational.SqlSum`, which is NULL over no rows.
- `ORDER BY` is a stable insertion sort (module `Sorting`). Its proved contract is the key order
  plus being a permutation of its input.

Prices are integer cents. Timestamps are integer seconds. `DATE(t)` is the day number `t / 86400`.

The page state is a class, `Products.ProductsPage`. Each table that `POST` changes is a class
holding a `seq` of rows and the next id: `Categories.CategoryTable` and
`Suppliers.SupplierTable`. The database calls are inputs:

- a table read is a `Result` that may be an error;
- a write that fails for a reason other than a taken name is the boolean `otherFailure`;
- the database clock is `now`;
- the outcome of the browser's `fetch` is a `FetchOutcome` value.

Files:

- `optional.dfy`: `Option` and `Result`.
- `relational.dfy`: selection, counting and sums, with their algebra.
- `sorting.dfy`: the two `ORDER BY` sorts and the code-point string order.
- `text.dfy`: `trim`, `toLowerCase` and `includes`.
- `inventory.dfy`: the row types, the response shape and the product-name join.
- `stats.dfy`: the dashboard.
- `products.dfy`: the product page.
- `categories.dfy`: the categories endpoint.
- `suppliers.dfy`: the suppliers endpoint.

The two `POST` routes treat a duplicate name differently. `app/api/categories/route.ts:33-34`
answers 400 on SQLSTATE 23505. `app/api/suppliers/route.ts:31-33` has no such branch and answers
500 for every failure. The model follows each route: `Suppliers.SupplierTable.Post` never answers
400.

## Model

| member | source | states |
|---|---|---|
| Stats.GetStats | app/api/stats/route.ts:4-88 | The status is always 200. If any of the four reads fails, every count and the stock value are 0 and all three lists are empty. If all reads succeed: the counts are the table sizes; the low-stock count is the number of products with `stock < min_stock`; the stock value is the sum of `price * stock`; `recentMovements` is `RecentMovements` of the ledger and products (at most ten rows, one per movement up to ten); `categoryDistribution` is `Distribution` of the categories and products (one row per category); and the trend is `StockTrends` of the ledger |
| Stats.LowStockCount | app/api/stats/route.ts:18-20 | The count is the size of the selection of products with `stock < min_stock` (strict, so `stock == min_stock` is not low). It is at most the number of products, and 0 exactly when every product is at or above its minimum |
| Stats.LowStockAdd | app/api/stats/route.ts:19 | Adding a product raises the low-stock count by one exactly when that product's stock is below its minimum |
| Stats.StockValue | app/api/stats/route.ts:22-24 | The parsed `SUM(price * stock)`, with "0" standing in for NULL, is the sum of `price * stock` over all products, and 0 (not null) for an empty table |
| Stats.StockValueAdd | app/api/stats/route.ts:23 | Adding a product adds its `price * stock` to the total |
| Stats.StockValueNonNegative | app/api/stats/route.ts:23-24 | With non-negative prices and stocks, the total stock value is non-negative |
| Stats.Newest | app/api/stats/route.ts:31-32 | `ORDER BY created_at DESC LIMIT 10` keeps `min(10, n)` movements. Order, provenance and the top-10 property are stated by `Stats.NewestMovements` |
| Stats.NewestMovements | app/api/stats/route.ts:27-32 | `ORDER BY created_at DESC LIMIT 10` returns `min(10, n)` movements, newest first, all drawn from the ledger (a sub-multiset), and every movement left out is no newer than every one returned |
| Stats.RecentMovements | app/api/stats/route.ts:27-33 | The joined list has `min(10, n)` rows. Their contents are stated by `Stats.RecentMovementsJoin` |
| Stats.RecentMovementsJoin | app/api/stats/route.ts:27-33 | At most 10 entries. The i-th entry's movement is the i-th of `Newest`, so newest first and the top ten. Each comes from the ledger, and its `product_name` is null exactly when no product has its `product_id`. Under the primary-key constraint, it is that product's name |
| Stats.Distribution | app/api/stats/route.ts:36-42 | One row per category: as many rows as categories, and a permutation of the per-category `{ name, value }` rows. Order and zero counts are stated by `Stats.DistributionSpec` |
| Stats.DistributionSpec | app/api/stats/route.ts:36-42 | One row per category, holding that category's product count (0 when no product references it). The rows are a permutation of the per-category rows, ordered by value non-increasing |
| Stats.StockTrends | app/api/stats/route.ts:45-60 | Trend days are strictly ascending, so each day appears once (`GROUP BY … ORDER BY date ASC`). Each point's sums are stated by `Stats.TrendAt` and `Stats.TrendSums`, its days by `Stats.TrendDays`, and the totals by `Stats.TrendTotals` |
| Stats.TrendAt | app/api/stats/route.ts:45-60 | Each trend point's `in` is the sum of IN quantities and its `out` the sum of absolute OUT quantities of the windowed movements on its day |
| Stats.TrendSums | app/api/stats/route.ts:46-49 | Each point's `in` and `out` columns are the `CASE` sums over the movements of that day in the window |
| Stats.TrendDays | app/api/stats/route.ts:50-52 | Every trend day is the day of some movement in the window. Every movement in the window has its day in the trend. Days with no movements are omitted |
| Stats.TrendNonNegative | app/api/stats/route.ts:48-49 | When no IN movement has a negative quantity, both columns of every point are non-negative. OUT needs no condition, because it sums absolute values |
| Stats.TrendTotals | app/api/stats/route.ts:45-54 | Grouping loses nothing: the `in` column sums to the IN total of the window, and the `out` column to its absolute OUT total |
| Stats.TrendIgnoresOlderMovements | app/api/stats/route.ts:51 | A movement older than `now - 7 days` does not change the trend |
| Stats.DayTotalsCover | app/api/stats/route.ts:52 | When the listed days are distinct and cover every movement's day, the per-day sums add up to the whole sum |
| Inventory.ProductName | app/api/stats/route.ts:28-30 | The left join gives null exactly when no product has the id, and otherwise the name of a product with that id |
| Inventory.ProductNameOfKey | app/api/stats/route.ts:30 | With unique product ids, the join finds the name of the one product with the id |
| Relational.Where | app/products/page.tsx:57-63 | The selection is never longer than its input, and holds exactly the input elements that satisfy the predicate |
| Relational.WhereIsSubsequence | app/products/page.tsx:57-63 | The selection keeps the relative order of the input (it is a subsequence) |
| Relational.WhereIdempotent | app/products/page.tsx:57-63 | Selecting twice with the same predicate equals selecting once |
| Relational.Count | app/api/categories/route.ts:7-9 | `COUNT` is at most the number of rows. It is 0 exactly when no row qualifies, and the number of rows exactly when every row does |
| Relational.CountIsWhereLength | app/api/categories/route.ts:7 | The count is the length of the selection |
| Relational.SqlSum | app/api/stats/route.ts:23-24 | `SUM` is NULL exactly over no rows, and otherwise the arithmetic sum |
| Relational.SumAppend | app/api/stats/route.ts:23 | The sum over two concatenated tables is the sum of the two sums |
| Sorting.SortDescendingSorted | app/api/stats/route.ts:31 | The descending sort is ordered by the key non-increasing, and is a permutation of its input |
| Sorting.PrefixIsTop | app/api/stats/route.ts:31-32 | Cutting a descending list after k rows leaves out only rows whose key is at most every kept row's key |
| Sorting.SortAscendingSorted | app/api/categories/route.ts:11 | The ascending sort is ordered by the code-point string order of the key, and is a permutation of its input |
| Sorting.LexLeTotal | app/api/categories/route.ts:11 | Any two names are comparable in the string order |
| Sorting.LexLeTransitive | app/api/categories/route.ts:11 | The string order is transitive |
| Sorting.LexLeAntisymmetric | app/api/categories/route.ts:11 | Two names ordered both ways are equal |
| Text.TrimStart | app/products/page.tsx:52 | The result is a suffix of the input, and the removed prefix is all whitespace. The result is empty or starts with a non-whitespace character, and it is empty exactly when the input is all whitespace |
| Text.TrimEnd | app/products/page.tsx:52 | The result is a prefix of the input, and the removed suffix is all whitespace. The result is empty or ends with a non-whitespace character, and it is empty exactly when the input is all whitespace |
| Text.Trim | app/products/page.tsx:52 | `s.trim()` is `TrimStart` followed by `TrimEnd`: what remains of `s` after a whitespace prefix and then a whitespace suffix are removed. It is never longer than `s`, and it is empty or begins and ends with a non-whitespace character |
| Text.TrimEmptyIffBlank | app/products/page.tsx:52 | `s.trim() === ""` exactly when `s` is all whitespace |
| Text.LowerChar | app/products/page.tsx:55 | An upper-case ASCII letter maps to the lower-case letter at the same place in the alphabet, and every other character is unchanged |
| Text.Lower | app/products/page.tsx:55 | Lower-casing keeps the length, and each character is `LowerChar` of the input's character at the same position |
| Text.Includes | app/products/page.tsx:59-62 | The empty needle is found in every text, and a needle that is found is no longer than the text. The exact meaning is stated by `Text.IncludesIffOccurs` |
| Text.IncludesIffOccurs | app/products/page.tsx:59-62 | `hay.includes(needle)` holds exactly when `needle` occurs in `hay` at some position |
| Products.Filter | app/products/page.tsx:51-66 | The filtered list is never longer than the product list and holds only its products. What is kept is stated by `Products.FilterSelects`, the order by `Products.FilterKeepsOrder` |
| Products.FilterSelects | app/products/page.tsx:52-62 | A blank query leaves the list unchanged. Otherwise a product is kept exactly when the lower-cased, untrimmed query occurs in its lower-cased name, SKU, description (if any) or category name (if any), so leading and trailing spaces take part in the test |
| Products.FilterKeepsOrder | app/products/page.tsx:56-58 | The filtered list is a subsequence of the product list, in the same order and never longer |
| Products.FilterIdempotent | app/products/page.tsx:57-63 | Filtering the filtered list with the same query changes nothing |
| Products.AfterFetch | app/products/page.tsx:22-39 | A non-OK status or a non-array body gives the empty list. An array body gives that array. A failed request or an unparseable body keeps the previous list |
| Products.ProductsPage.constructor | app/products/page.tsx:13-17 | The page starts with empty lists, an empty query and loading on |
| Products.ProductsPage.FetchProducts | app/products/page.tsx:19-45 | Both lists become `AfterFetch` of the outcome. The query is untouched, and loading is off afterwards whatever happened |
| Products.ProductsPage.SetSearchQuery | app/products/page.tsx:87 | The query becomes the typed text |
| Products.ProductsPage.SearchEffect | app/products/page.tsx:51-66 | The filtered list becomes `Filter(products, searchQuery)`, never longer than the product list |
| Categories.Listing | app/api/categories/route.ts:6-11 | One listing row per category. Order and counts are stated by `Categories.ListingSpec` |
| Categories.ListingSpec | app/api/categories/route.ts:6-11 | Every category is listed exactly once (a permutation), in ascending name order. Each `product_count` is the number of products with that `category_id`, and it is 0 exactly when there are none |
| Categories.CategoryTable.Get | app/api/categories/route.ts:4-18 | A failed read answers 500 "Failed to fetch categories". Otherwise 200 with the listing of the current rows |
| Categories.CategoryTable.Post | app/api/categories/route.ts:20-38 | Success appends exactly one row with the next id, the given name and description, and returns it with 201. A taken name answers 400 "Category with this name already exists" and any other failure 500 "Failed to create category", both leaving the table unchanged. Ids stay below the counter, and ids and names stay unique |
| Suppliers.Listing | app/api/suppliers/route.ts:6-11 | One listing row per supplier. Order and counts are stated by `Suppliers.ListingSpec` |
| Suppliers.ListingSpec | app/api/suppliers/route.ts:6-11 | Every supplier is listed exactly once (a permutation), in ascending name order. Each `product_count` is the number of products with that `supplier_id`, and it is 0 exactly when there are none |
| Suppliers.SupplierTable.Get | app/api/suppliers/route.ts:4-18 | A failed read answers 500 "Failed to fetch suppliers". Otherwise 200 with the listing of the current rows |
| Suppliers.SupplierTable.Post | app/api/suppliers/route.ts:20-35 | Success appends exactly one row with the next id, the given name, email, phone and address, and returns it with 201. Every failure, a taken name included, answers 500 "Failed to create supplier" and leaves the table unchanged. There is no 400 path. Ids stay below the counter, and ids and names stay unique |

## Left out

- Database I/O goes through the `pg` pool: connections, environment configuration, query timing and logging. A read becomes a `Result` input, and a failed write becomes a flag or a taken name.
- `console.error` / `console.warn` logging is left out. It has no effect on results.
- JSX rendering, the create dialog (`isCreating`), `useEffect` scheduling and the `fetch`/`res.json()` transport of the product page are left out. The outcome of a fetch is an input.
- The browser error listener and the build configuration contain nothing that can be stated as a contract.
- Stats.GetStats: `totalStockValue` is `Number.parseFloat` of a decimal sum. The model keeps prices in integer cents and the sum exact.
- Stats.GetStats: counts arrive as strings passed to `parseInt`. The model keeps them as exact integers.
- Stats.Distribution: `value` is a SQL `COUNT`, a `bigint` that the `pg` driver returns as text. The route passes it through without `parseInt`, so the JSON carries a string. The model types it `nat`.
- Categories.Listing: `product_count` is likewise a `COUNT` passed through as text in the JSON. The model types it `nat`.
- Suppliers.Listing: `product_count` is likewise passed through as text. The model types it `nat`.
- Stats.StockTrends: `toLocaleDateString` formatting of the day label is not modelled. A trend point carries the day number.
- Stats.StockTrends: `DATE(created_at)` depends on the database time zone. The model uses UTC day numbers `t / 86400`, so a window of 7 × 24 hours can touch 8 calendar days.
- Stats.NewestMovements: the order of movements with equal `created_at` is unspecified in SQL. The contract states only the key order and the top-10 property, not which of several tied rows is returned.
- Stats.DistributionSpec: the order among categories with equal counts is not stated, for the same reason.
- Categories.ListingSpec: names are ordered by code points (C collation). A database with a locale collation may order them differently, and ties are not ordered.
- Suppliers.ListingSpec: the same collation and tie caveats apply.
- Text.Lower: lower-casing covers ASCII letters only. Unicode case mapping is not modelled.
- Categories.CategoryTable.Post: a failed insert leaves the id counter as it was. A PostgreSQL serial sequence may consume a value on a failed insert, so the model's ids can be smaller than the database's.
- Categories.CategoryTable.Post: the request body is not validated. A missing name (a NOT NULL violation) or an unreadable body is folded into `otherFailure`.
- Suppliers.SupplierTable.Post: a taken name is treated as a unique violation, on the assumption that supplier names carry the unique constraint the data model gives them. Without that constraint the row would be inserted.
- The stock-update dual write (product stock and ledger row) is not in the modelled files. Its concurrency is outside a sequential model.
