/** The dashboard statistics endpoint: eight read-only queries over the products, categories,
    suppliers and stock movements tables, combined into one snapshot, with an all-zero snapshot
    when any read fails. */
module Stats {
  import opened Optional
  import opened Inventory
  import opened Relational
  import opened Sorting

  const SECONDS_PER_DAY := 86400
  /** The trend covers `created_at >= NOW() - INTERVAL '7 days'`. */
  const TREND_DAYS := 7
  /** `LIMIT 10` on the recent movements. */
  const RECENT_LIMIT := 10

  /** A movement row joined with the name of its product (null when the product is gone). */
  datatype RecentMovement = RecentMovement(movement: StockMovement, product_name: Option<string>)

  /** One row of the category distribution: `{ name, value }`. */
  datatype CategorySlice = CategorySlice(name: string, value: nat)

  /** One day of the stock trend; `day` counts days since the epoch and stands for the formatted
      date label. */
  datatype TrendPoint = TrendPoint(day: int, in_qty: int, out_qty: int)

  datatype Snapshot = Snapshot(
    totalProducts: nat,
    totalCategories: nat,
    totalSuppliers: nat,
    lowStockProducts: nat,
    totalStockValue: int,
    recentMovements: seq<RecentMovement>,
    categoryDistribution: seq<CategorySlice>,
    stockTrends: seq<TrendPoint>)

  datatype StatsResponse = StatsResponse(status: int, snapshot: Snapshot)

  // ---------------------------------------------------------------- low stock

  /** `stock < min_stock`: strictly below the reorder threshold. */
  predicate IsLowStock(p: Product) {
    p.stock < p.min_stock
  }

  /** `SELECT COUNT(*) FROM products WHERE stock < min_stock`: the number of products strictly
      below their threshold, 0 exactly when every product is at or above it. */
  function LowStockCount(ps: seq<Product>): (n: nat)
    ensures n == |Where(ps, IsLowStock)|
    ensures n <= |ps|
    ensures n == 0 <==> forall p :: p in ps ==> p.stock >= p.min_stock
  {
    CountIsWhereLength(ps, IsLowStock);
    Count(ps, IsLowStock)
  }

  /** Adding a product adds one to the low-stock count exactly when its stock is strictly below
      its threshold; a product whose stock equals the threshold adds nothing. */
  lemma LowStockAdd(ps: seq<Product>, p: Product)
    ensures LowStockCount(ps + [p]) == LowStockCount(ps) + (if p.stock < p.min_stock then 1 else 0)
  {
    CountAppend(ps, [p], IsLowStock);
  }

  // ---------------------------------------------------------------- stock value

  function LineValue(p: Product): int {
    p.price * p.stock
  }

  /** `parseFloat(SUM(price * stock) || "0")`: a NULL sum over no products reads as 0, so the
      value is the sum of price times stock over all products, and 0 (never null) when there are
      none. */
  function StockValue(ps: seq<Product>): (r: int)
    ensures r == Sum(ps, LineValue)
    ensures ps == [] ==> r == 0
  {
    match SqlSum(ps, LineValue)
    case None => 0
    case Some(total) => total
  }

  /** Adding a product adds exactly its price times its stock to the stock value. */
  lemma StockValueAdd(ps: seq<Product>, p: Product)
    ensures StockValue(ps + [p]) == StockValue(ps) + p.price * p.stock
  {
    SumAppend(ps, [p], LineValue);
  }

  lemma StockValueNonNegative(ps: seq<Product>)
    requires forall p :: p in ps ==> p.price >= 0 && p.stock >= 0
    ensures StockValue(ps) >= 0
  {
    forall p | p in ps
      ensures LineValue(p) >= 0
    {
      assert p.price * p.stock >= 0;
    }
    SumNonNegative(ps, LineValue);
  }

  // ---------------------------------------------------------------- recent movements

  function CreatedAt(m: StockMovement): int {
    m.created_at
  }

  function Min(a: int, b: int): int {
    if a < b then a else b
  }

  /** `ORDER BY created_at DESC LIMIT 10`. */
  function Newest(ms: seq<StockMovement>): (r: seq<StockMovement>)
    ensures |r| == Min(RECENT_LIMIT, |ms|)
  {
    var sorted := SortDescending(ms, CreatedAt);
    assert |multiset(sorted)| == |sorted| && |multiset(ms)| == |ms|;
    sorted[..Min(RECENT_LIMIT, |sorted|)]
  }

  /** The newest movements: at most ten of them, newest first, drawn from the ledger, and no
      movement left out is newer than any movement returned. */
  lemma NewestMovements(ms: seq<StockMovement>)
    ensures |Newest(ms)| == Min(RECENT_LIMIT, |ms|)
    ensures forall i, j :: 0 <= i < j < |Newest(ms)| ==>
              Newest(ms)[i].created_at >= Newest(ms)[j].created_at
    ensures multiset(Newest(ms)) <= multiset(ms)
    ensures forall m :: multiset(ms)[m] > multiset(Newest(ms))[m] ==>
              forall i :: 0 <= i < |Newest(ms)| ==> m.created_at <= Newest(ms)[i].created_at
  {
    var sorted := SortDescending(ms, CreatedAt);
    SortDescendingSorted(ms, CreatedAt);
    var k := Min(RECENT_LIMIT, |sorted|);
    assert |multiset(ms)| == |ms|;
    PrefixIsTop(sorted, CreatedAt, k);
    assert Newest(ms) == sorted[..k];
  }

  /** `SELECT sm.*, p.name AS product_name FROM stock_movements sm LEFT JOIN products p ...
      ORDER BY sm.created_at DESC LIMIT 10`. */
  function RecentMovements(ms: seq<StockMovement>, ps: seq<Product>): (r: seq<RecentMovement>)
    ensures |r| == Min(RECENT_LIMIT, |ms|)
  {
    NewestMovements(ms);
    var newest := Newest(ms);
    seq(|newest|, i requires 0 <= i < |newest| =>
      RecentMovement(newest[i], ProductName(ps, newest[i].product_id)))
  }

  /** Each recent movement comes from the ledger and carries the name of the product with its
      product id, or null when no product has that id. */
  lemma RecentMovementsJoin(ms: seq<StockMovement>, ps: seq<Product>)
    ensures |RecentMovements(ms, ps)| <= RECENT_LIMIT
    ensures forall i :: 0 <= i < |RecentMovements(ms, ps)| ==>
              var r := RecentMovements(ms, ps)[i];
              && r.movement == Newest(ms)[i]
              && r.movement in ms
              && (r.product_name == None <==> forall p :: p in ps ==> p.id != r.movement.product_id)
              && (UniqueProductIds(ps) ==>
                    forall k :: 0 <= k < |ps| && ps[k].id == r.movement.product_id ==>
                                  r.product_name == Some(ps[k].name))
  {
    NewestMovements(ms);
    var rs := RecentMovements(ms, ps);
    forall i | 0 <= i < |rs|
      ensures rs[i].movement in ms
    {
      assert rs[i].movement == Newest(ms)[i];
      assert Newest(ms)[i] in multiset(Newest(ms));
    }
    if UniqueProductIds(ps) {
      forall k | 0 <= k < |ps| {
        ProductNameOfKey(ps, k);
      }
    }
  }

  // ---------------------------------------------------------------- category distribution

  /** One `{ name, value }` row per category, in table order, before sorting. */
  function Slices(cs: seq<Category>, ps: seq<Product>): (r: seq<CategorySlice>)
    ensures |r| == |cs|
  {
    seq(|cs|, i requires 0 <= i < |cs| => CategorySlice(cs[i].name, CategoryProductCount(ps, cs[i].id)))
  }

  function SliceValue(s: CategorySlice): int {
    s.value
  }

  /** `SELECT c.name, COUNT(p.id) AS value FROM categories c LEFT JOIN products p ...
      GROUP BY c.id, c.name ORDER BY value DESC`. */
  function Distribution(cs: seq<Category>, ps: seq<Product>): (r: seq<CategorySlice>)
    ensures |r| == |cs|
    ensures multiset(r) == multiset(Slices(cs, ps))
  {
    var r := SortDescending(Slices(cs, ps), SliceValue);
    assert |multiset(r)| == |r| && |multiset(Slices(cs, ps))| == |cs|;
    r
  }

  /** Each category's row is among the rows of the distribution. */
  lemma DistributionHasEveryCategory(cs: seq<Category>, ps: seq<Product>, k: int)
    requires 0 <= k < |cs|
    ensures CategorySlice(cs[k].name, CategoryProductCount(ps, cs[k].id)) in Distribution(cs, ps)
  {
    var s := Slices(cs, ps);
    SortDescendingSorted(s, SliceValue);
    assert s[k] in multiset(s);
  }

  /** One row per category, holding its product count (0 for a category with no products),
      largest count first. */
  lemma DistributionSpec(cs: seq<Category>, ps: seq<Product>)
    ensures |Distribution(cs, ps)| == |cs|
    ensures multiset(Distribution(cs, ps)) == multiset(Slices(cs, ps))
    ensures forall k :: 0 <= k < |cs| ==>
              CategorySlice(cs[k].name, CategoryProductCount(ps, cs[k].id)) in Distribution(cs, ps)
    ensures forall k :: 0 <= k < |cs| && (forall p :: p in ps ==> p.category_id != Some(cs[k].id)) ==>
              CategorySlice(cs[k].name, 0) in Distribution(cs, ps)
    ensures forall i, j :: 0 <= i < j < |Distribution(cs, ps)| ==>
              Distribution(cs, ps)[i].value >= Distribution(cs, ps)[j].value
  {
    var d := Distribution(cs, ps);
    var s := Slices(cs, ps);
    SortDescendingSorted(s, SliceValue);
    assert |d| == |s| by {
      assert |multiset(d)| == |d| && |multiset(s)| == |s|;
    }
    forall k | 0 <= k < |cs| {
      DistributionHasEveryCategory(cs, ps, k);
    }
    forall i, j | 0 <= i < j < |d|
      ensures d[i].value >= d[j].value
    {
      assert SliceValue(d[i]) >= SliceValue(d[j]);
    }
  }

  // ---------------------------------------------------------------- stock trends

  /** `DATE(created_at)` as a day number. */
  function Day(t: int): int {
    t / SECONDS_PER_DAY
  }

  function Cutoff(now: int): int {
    now - TREND_DAYS * SECONDS_PER_DAY
  }

  function InWindow(now: int): StockMovement -> bool {
    (m: StockMovement) => m.created_at >= Cutoff(now)
  }

  /** `WHERE created_at >= NOW() - INTERVAL '7 days'`. */
  function Window(ms: seq<StockMovement>, now: int): seq<StockMovement> {
    Where(ms, InWindow(now))
  }

  function Abs(x: int): nat {
    if x < 0 then -x else x
  }

  /** `CASE WHEN movement_type = 'IN' THEN quantity ELSE 0 END`. */
  function InCase(m: StockMovement): int {
    if m.movement_type == IN then m.quantity else 0
  }

  /** `CASE WHEN movement_type = 'OUT' THEN ABS(quantity) ELSE 0 END`. */
  function OutCase(m: StockMovement): int {
    if m.movement_type == OUT then Abs(m.quantity) else 0
  }

  function OnDay(d: int, g: StockMovement -> int): StockMovement -> int {
    (m: StockMovement) => if Day(m.created_at) == d then g(m) else 0
  }

  /** `SUM(g(row))` over the rows of group `DATE(created_at) = d`. */
  function DayTotal(ms: seq<StockMovement>, d: int, g: StockMovement -> int): int {
    Sum(ms, OnDay(d, g))
  }

  ghost predicate StrictlyAscending(ds: seq<int>) {
    forall i, j :: 0 <= i < j < |ds| ==> ds[i] < ds[j]
  }

  function InsertDay(d: int, ds: seq<int>): (r: seq<int>)
    requires StrictlyAscending(ds)
    ensures StrictlyAscending(r)
    ensures forall e :: e in r <==> e == d || e in ds
  {
    if ds == [] then [d]
    else if d < ds[0] then [d] + ds
    else if d == ds[0] then ds
    else
      var rest := InsertDay(d, ds[1..]);
      assert forall e :: e in rest ==> ds[0] < e by {
        forall e | e in ds[1..] ensures ds[0] < e {
          var k :| 0 <= k < |ds[1..]| && ds[1..][k] == e;
          assert ds[k + 1] == e;
        }
      }
      assert forall j :: 0 <= j < |rest| ==> ds[0] < rest[j] by {
        forall j | 0 <= j < |rest| ensures ds[0] < rest[j] {
          assert rest[j] in rest;
        }
      }
      [ds[0]] + rest
  }

  /** `GROUP BY DATE(created_at) ORDER BY date ASC`: each day that has a movement, once, in
      ascending order. */
  function DistinctDays(ms: seq<StockMovement>): (r: seq<int>)
    ensures StrictlyAscending(r)
    ensures forall d :: d in r <==> exists m :: m in ms && Day(m.created_at) == d
  {
    if ms == [] then []
    else InsertDay(Day(ms[0].created_at), DistinctDays(ms[1..]))
  }

  function Points(ds: seq<int>, w: seq<StockMovement>): (r: seq<TrendPoint>)
    ensures |r| == |ds|
    ensures forall i :: 0 <= i < |ds| ==> r[i].day == ds[i]
  {
    if ds == [] then []
    else [TrendPoint(ds[0], DayTotal(w, ds[0], InCase), DayTotal(w, ds[0], OutCase))] + Points(ds[1..], w)
  }

  lemma {:induction false} PointsAt(ds: seq<int>, w: seq<StockMovement>, i: int)
    requires 0 <= i < |ds|
    ensures Points(ds, w)[i] == TrendPoint(ds[i], DayTotal(w, ds[i], InCase), DayTotal(w, ds[i], OutCase))
  {
    if i > 0 {
      PointsAt(ds[1..], w, i - 1);
    }
  }

  /** The 7-day trend query and its `.map` to `{ date, in, out }`. Its days are strictly
      ascending, so no day appears twice. */
  function StockTrends(ms: seq<StockMovement>, now: int): (r: seq<TrendPoint>)
    ensures forall i, j :: 0 <= i < j < |r| ==> r[i].day < r[j].day
  {
    var w := Window(ms, now);
    Points(DistinctDays(w), w)
  }

  lemma TrendAt(ms: seq<StockMovement>, now: int, i: int)
    requires 0 <= i < |StockTrends(ms, now)|
    ensures var w := Window(ms, now);
            var d := DistinctDays(w)[i];
            StockTrends(ms, now)[i] == TrendPoint(d, DayTotal(w, d, InCase), DayTotal(w, d, OutCase))
  {
    PointsAt(DistinctDays(Window(ms, now)), Window(ms, now), i);
  }

  /** Each point of the trend holds, for its day, the sum of the quantities of the IN movements
      and the sum of the absolute quantities of the OUT movements of the last seven days. */
  lemma TrendSums(ms: seq<StockMovement>, now: int)
    ensures forall i :: 0 <= i < |StockTrends(ms, now)| ==>
              var pt := StockTrends(ms, now)[i];
              pt.in_qty == DayTotal(Window(ms, now), pt.day, InCase) &&
              pt.out_qty == DayTotal(Window(ms, now), pt.day, OutCase)
  {
    forall i | 0 <= i < |StockTrends(ms, now)| {
      TrendAt(ms, now, i);
    }
  }

  /** The trend has a point for a day exactly when some movement of the last seven days falls on
      that day: days without movements are omitted, and older movements are not counted. */
  lemma TrendDays(ms: seq<StockMovement>, now: int)
    ensures forall i :: 0 <= i < |StockTrends(ms, now)| ==>
              exists m :: m in ms && m.created_at >= now - TREND_DAYS * SECONDS_PER_DAY &&
                          Day(m.created_at) == StockTrends(ms, now)[i].day
    ensures forall m :: m in ms && m.created_at >= now - TREND_DAYS * SECONDS_PER_DAY ==>
              exists i :: 0 <= i < |StockTrends(ms, now)| && StockTrends(ms, now)[i].day == Day(m.created_at)
  {
    var w := Window(ms, now);
    var ds := DistinctDays(w);
    var r := StockTrends(ms, now);
    forall i | 0 <= i < |r|
      ensures exists m :: m in ms && m.created_at >= now - TREND_DAYS * SECONDS_PER_DAY &&
                          Day(m.created_at) == r[i].day
    {
      TrendAt(ms, now, i);
      assert ds[i] in ds;
      var m :| m in w && Day(m.created_at) == ds[i];
      assert InWindow(now)(m);
      assert m in ms && m.created_at >= now - TREND_DAYS * SECONDS_PER_DAY && Day(m.created_at) == r[i].day;
    }
    forall m | m in ms && m.created_at >= now - TREND_DAYS * SECONDS_PER_DAY
      ensures exists i :: 0 <= i < |r| && r[i].day == Day(m.created_at)
    {
      assert InWindow(now)(m);
      assert m in w;
      assert Day(m.created_at) in ds;
      var i :| 0 <= i < |ds| && ds[i] == Day(m.created_at);
      TrendAt(ms, now, i);
      assert 0 <= i < |r| && r[i].day == Day(m.created_at);
    }
  }

  /** When no IN movement carries a negative quantity (the product update writes IN for an
      increase), every IN and every OUT sum is non-negative; OUT sums use the absolute value. */
  lemma TrendNonNegative(ms: seq<StockMovement>, now: int)
    requires forall m :: m in ms && m.movement_type == IN ==> m.quantity >= 0
    ensures forall i :: 0 <= i < |StockTrends(ms, now)| ==>
              StockTrends(ms, now)[i].in_qty >= 0 && StockTrends(ms, now)[i].out_qty >= 0
  {
    var w := Window(ms, now);
    forall m | m in w
      ensures InCase(m) >= 0 && OutCase(m) >= 0
    {
      assert m in ms;
    }
    forall i | 0 <= i < |StockTrends(ms, now)|
      ensures StockTrends(ms, now)[i].in_qty >= 0 && StockTrends(ms, now)[i].out_qty >= 0
    {
      TrendAt(ms, now, i);
      var d := DistinctDays(w)[i];
      assert forall m :: m in w ==> OnDay(d, InCase)(m) >= 0;
      assert forall m :: m in w ==> OnDay(d, OutCase)(m) >= 0;
      SumNonNegative(w, OnDay(d, InCase));
      SumNonNegative(w, OnDay(d, OutCase));
    }
  }

  /** The totals of `g` over the groups of the days `ds`, one after the other. */
  function DayTotals(ds: seq<int>, ms: seq<StockMovement>, g: StockMovement -> int): int {
    if ds == [] then 0 else DayTotal(ms, ds[0], g) + DayTotals(ds[1..], ms, g)
  }

  lemma DayTotalCons(m: StockMovement, rest: seq<StockMovement>, d: int, g: StockMovement -> int)
    ensures DayTotal([m] + rest, d, g) == (if Day(m.created_at) == d then g(m) else 0) + DayTotal(rest, d, g)
    ensures DayTotal([m], d, g) == (if Day(m.created_at) == d then g(m) else 0)
  {
    assert ([m] + rest)[0] == m && ([m] + rest)[1..] == rest;
    assert [m][0] == m && [m][1..] == [];
    assert Sum([m], OnDay(d, g)) == OnDay(d, g)(m) + Sum([], OnDay(d, g));
  }

  lemma {:induction false} DayTotalsSplit(ds: seq<int>, m: StockMovement, rest: seq<StockMovement>, g: StockMovement -> int)
    ensures DayTotals(ds, [m] + rest, g) == DayTotals(ds, [m], g) + DayTotals(ds, rest, g)
  {
    if ds != [] {
      DayTotalsSplit(ds[1..], m, rest, g);
      DayTotalCons(m, rest, ds[0], g);
    }
  }

  lemma {:induction false} DayTotalsAbsent(ds: seq<int>, m: StockMovement, g: StockMovement -> int)
    requires Day(m.created_at) !in ds
    ensures DayTotals(ds, [m], g) == 0
  {
    if ds != [] {
      DayTotalsAbsent(ds[1..], m, g);
      DayTotalCons(m, [], ds[0], g);
    }
  }

  lemma {:induction false} DayTotalsSingle(ds: seq<int>, m: StockMovement, g: StockMovement -> int)
    requires StrictlyAscending(ds)
    requires Day(m.created_at) in ds
    ensures DayTotals(ds, [m], g) == g(m)
  {
    DayTotalCons(m, [], ds[0], g);
    if ds[0] == Day(m.created_at) {
      assert Day(m.created_at) !in ds[1..];
      DayTotalsAbsent(ds[1..], m, g);
    } else {
      DayTotalsSingle(ds[1..], m, g);
    }
  }

  /** Summing the per-day groups over days that cover every row, each once, sums every row. */
  lemma {:induction false} DayTotalsCover(ds: seq<int>, ms: seq<StockMovement>, g: StockMovement -> int)
    requires StrictlyAscending(ds)
    requires forall m :: m in ms ==> Day(m.created_at) in ds
    ensures DayTotals(ds, ms, g) == Sum(ms, g)
  {
    if ms == [] {
      DayTotalsEmpty(ds, g);
    } else {
      assert ms == [ms[0]] + ms[1..];
      DayTotalsSplit(ds, ms[0], ms[1..], g);
      DayTotalsSingle(ds, ms[0], g);
      DayTotalsCover(ds, ms[1..], g);
    }
  }

  lemma {:induction false} DayTotalsEmpty(ds: seq<int>, g: StockMovement -> int)
    ensures DayTotals(ds, [], g) == 0
  {
    if ds != [] {
      DayTotalsEmpty(ds[1..], g);
    }
  }

  function InQtyOf(pt: TrendPoint): int {
    pt.in_qty
  }

  function OutQtyOf(pt: TrendPoint): int {
    pt.out_qty
  }

  lemma {:induction false} PointsTotals(ds: seq<int>, w: seq<StockMovement>)
    ensures Sum(Points(ds, w), InQtyOf) == DayTotals(ds, w, InCase)
    ensures Sum(Points(ds, w), OutQtyOf) == DayTotals(ds, w, OutCase)
  {
    if ds != [] {
      PointsTotals(ds[1..], w);
    }
  }

  /** Nothing is lost or counted twice by the grouping: over the whole trend, the IN column adds
      up to the IN quantities and the OUT column to the absolute OUT quantities of all movements
      of the last seven days. */
  lemma TrendTotals(ms: seq<StockMovement>, now: int)
    ensures Sum(StockTrends(ms, now), InQtyOf) == Sum(Window(ms, now), InCase)
    ensures Sum(StockTrends(ms, now), OutQtyOf) == Sum(Window(ms, now), OutCase)
  {
    var w := Window(ms, now);
    var ds := DistinctDays(w);
    PointsTotals(ds, w);
    forall m | m in w
      ensures Day(m.created_at) in ds
    {
    }
    DayTotalsCover(ds, w, InCase);
    DayTotalsCover(ds, w, OutCase);
  }

  /** A movement older than the window never changes the trend. */
  lemma TrendIgnoresOlderMovements(ms: seq<StockMovement>, m: StockMovement, now: int)
    requires m.created_at < now - TREND_DAYS * SECONDS_PER_DAY
    ensures StockTrends(ms + [m], now) == StockTrends(ms, now)
  {
    WhereAppend(ms, [m], InWindow(now));
    assert Where([m], InWindow(now)) == [];
    assert Window(ms + [m], now) == Window(ms, now);
  }

  // ---------------------------------------------------------------- the snapshot

  /** The response body when any read fails: every count and the stock value 0, every list
      empty. */
  const DEFAULT_SNAPSHOT := Snapshot(0, 0, 0, 0, 0, [], [], [])

  /** The snapshot assembled from tables that were all read successfully. */
  function Compute(ps: seq<Product>, cs: seq<Category>, ss: seq<Supplier>, ms: seq<StockMovement>, now: int): Snapshot {
    Snapshot(
      |ps|, |cs|, |ss|,
      LowStockCount(ps),
      StockValue(ps),
      RecentMovements(ms, ps),
      Distribution(cs, ps),
      StockTrends(ms, now))
  }

  /** `GET /api/stats`: each table read may fail; any failure yields the default snapshot, and the
      status is 200 either way. `now` is the database clock. */
  function GetStats(
    products: Result<seq<Product>, DbError>,
    categories: Result<seq<Category>, DbError>,
    suppliers: Result<seq<Supplier>, DbError>,
    movements: Result<seq<StockMovement>, DbError>,
    now: int): (r: StatsResponse)
    ensures r.status == 200
    ensures products.Err? || categories.Err? || suppliers.Err? || movements.Err? ==>
              && r.snapshot.totalProducts == 0
              && r.snapshot.totalCategories == 0
              && r.snapshot.totalSuppliers == 0
              && r.snapshot.lowStockProducts == 0
              && r.snapshot.totalStockValue == 0
              && r.snapshot.recentMovements == []
              && r.snapshot.categoryDistribution == []
              && r.snapshot.stockTrends == []
    ensures products.Ok? && categories.Ok? && suppliers.Ok? && movements.Ok? ==>
              && r.snapshot.totalProducts == |products.value|
              && r.snapshot.totalCategories == |categories.value|
              && r.snapshot.totalSuppliers == |suppliers.value|
              && r.snapshot.lowStockProducts == |Where(products.value, IsLowStock)|
              && r.snapshot.totalStockValue == Sum(products.value, LineValue)
              && r.snapshot.recentMovements == RecentMovements(movements.value, products.value)
              && |r.snapshot.recentMovements| == Min(RECENT_LIMIT, |movements.value|)
              && r.snapshot.categoryDistribution == Distribution(categories.value, products.value)
              && |r.snapshot.categoryDistribution| == |categories.value|
              && r.snapshot.stockTrends == StockTrends(movements.value, now)
  {
    match (products, categories, suppliers, movements)
    case (Ok(ps), Ok(cs), Ok(ss), Ok(ms)) =>
      StatsResponse(200, Compute(ps, cs, ss, ms, now))
    case _ =>
      StatsResponse(200, DEFAULT_SNAPSHOT)
  }
}
