/** get_sales_stats (database.py:2238-2365): the sums of a period and their breakdowns by day, category
    and referral.  Days are numbers; the breakdowns drop orders whose category or user is missing. */
module SalesStats {
  import opened Tables
  import opened Sums
  import opened Sorting

  datatype Sale = Sale(day: int, status: Status, finalPrice: Option<int>, product: int, user: int)

  datatype Product = Product(price: int, category: int)

  /** referrer of a user, if any. */
  datatype Shop = Shop(sales: seq<Sale>, products: map<int, Product>, categories: seq<int>,
                       users: map<int, Option<int>>)

  datatype Totals = Totals(approved: int, pending: int, rejected: int, revenue: int)
  datatype Day = Day(day: int, revenue: int, orders: int)
  datatype Category = Category(id: int, revenue: int, orders: int)
  datatype Stats = Stats(
    current: Totals, previous: Totals, daily: seq<Day>, categories: seq<Category>, referral: int, direct: int)

  /** A condition on sales, and what a sale weighs. */
  type Test = Sale -> bool
  type Weight = Sale -> int

  /** COALESCE(o.final_price, p.price). */
  function Amount(shop: Shop): Weight {
    (s: Sale) => if s.finalPrice.Some? then s.finalPrice.value
                 else if s.product in shop.products then shop.products[s.product].price else 0
  }

  function One(): Weight { (s: Sale) => 1 }

  /** Sales of the period whose product exists. */
  function InPeriod(shop: Shop, start: int, end: int): Test {
    (s: Sale) => s.product in shop.products && start <= s.day <= end
  }

  function With(status: Status): Test { (s: Sale) => s.status == status }

  function OnDay(day: int): Test { (s: Sale) => s.day == day }

  function InCategory(shop: Shop, c: int): Test {
    (s: Sale) => s.product in shop.products && shop.products[s.product].category == c
  }

  function Referred(shop: Shop): Test { (s: Sale) => s.user in shop.users && shop.users[s.user].Some? }

  function Direct(shop: Shop): Test { (s: Sale) => s.user in shop.users && shop.users[s.user].None? }

  function And(a: Test, b: Test): Test { (s: Sale) => a(s) && b(s) }

  /** SUM(weight) over the rows that pass the test. */
  function Total(sales: seq<Sale>, test: Test, weight: Weight): int {
    Sum(sales, (s: Sale) => if test(s) then weight(s) else 0)
  }

  function Sold(shop: Shop, start: int, end: int): Test { And(InPeriod(shop, start, end), With(Approved)) }

  function PeriodTotals(shop: Shop, start: int, end: int): Totals {
    var period := InPeriod(shop, start, end);
    Totals(Total(shop.sales, And(period, With(Approved)), One()),
           Total(shop.sales, And(period, With(Pending)), One()),
           Total(shop.sales, And(period, With(Rejected)), One()),
           Total(shop.sales, Sold(shop, start, end), Amount(shop)))
  }

  // ------------------------------------------------------------------ splitting a total

  /** Two tests that never both hold split a third that holds when one of them does. */
  lemma {:induction false} TotalSplits(sales: seq<Sale>, whole: Test, a: Test, b: Test, w: Weight)
    requires forall s | s in sales :: (whole(s) <==> a(s) || b(s)) && !(a(s) && b(s))
    ensures Total(sales, whole, w) == Total(sales, a, w) + Total(sales, b, w)
  {
    if sales != [] {
      var n := |sales| - 1;
      assert sales == sales[..n] + [sales[n]];
      TotalSplits(sales[..n], whole, a, b, w);
      TotalLast(sales, whole, w);
      TotalLast(sales, a, w);
      TotalLast(sales, b, w);
    }
  }

  lemma TotalLast(sales: seq<Sale>, t: Test, w: Weight)
    requires sales != []
    ensures var n := |sales| - 1;
            Total(sales, t, w) == Total(sales[..n], t, w) + (if t(sales[n]) then w(sales[n]) else 0)
  {
  }

  lemma {:induction false} TotalNone(sales: seq<Sale>, t: Test, w: Weight)
    requires forall s | s in sales :: !t(s)
    ensures Total(sales, t, w) == 0
  {
    if sales != [] {
      var n := |sales| - 1;
      assert sales == sales[..n] + [sales[n]];
      TotalNone(sales[..n], t, w);
      TotalLast(sales, t, w);
    }
  }

  lemma {:induction false} TotalSame(sales: seq<Sale>, a: Test, b: Test, w: Weight)
    requires forall s | s in sales :: a(s) == b(s)
    ensures Total(sales, a, w) == Total(sales, b, w)
  {
    if sales != [] {
      var n := |sales| - 1;
      assert sales == sales[..n] + [sales[n]];
      TotalSame(sales[..n], a, b, w);
      TotalLast(sales, a, w);
      TotalLast(sales, b, w);
    }
  }

  // ------------------------------------------------------------------ by day

  function DaySum(shop: Shop, start: int, end: int, n: nat, w: Weight): int {
    if n == 0 then 0
    else DaySum(shop, start, end, n - 1, w) + Total(shop.sales, And(Sold(shop, start, end), OnDay(start + n - 1)), w)
  }

  function UpTo(day: int): Test { (s: Sale) => s.day < day }

  lemma {:induction false} DaysAddUp(shop: Shop, start: int, end: int, n: nat, w: Weight)
    ensures DaySum(shop, start, end, n, w) == Total(shop.sales, And(Sold(shop, start, end), UpTo(start + n)), w)
  {
    var sold := Sold(shop, start, end);
    if n == 0 {
      TotalNone(shop.sales, And(sold, UpTo(start)), w);
    } else {
      DaysAddUp(shop, start, end, n - 1, w);
      TotalSplits(shop.sales, And(sold, UpTo(start + n)), And(sold, UpTo(start + n - 1)),
                  And(sold, OnDay(start + n - 1)), w);
    }
  }

  /** length_days (lines 2251-2255): at least one day, even when the dates are the wrong way round. */
  function Length(start: int, end: int): nat { Max(end - start + 1, 1) }

  lemma DaysCoverPeriod(shop: Shop, start: int, end: int, w: Weight)
    ensures DaySum(shop, start, end, Length(start, end), w) == Total(shop.sales, Sold(shop, start, end), w)
  {
    DaysAddUp(shop, start, end, Length(start, end), w);
    TotalSame(shop.sales, And(Sold(shop, start, end), UpTo(start + Length(start, end))), Sold(shop, start, end), w);
  }

  // ------------------------------------------------------------------ by category

  function CategorySum(shop: Shop, start: int, end: int, cats: seq<int>, w: Weight): int {
    if cats == [] then 0
    else CategorySum(shop, start, end, cats[..|cats| - 1], w)
         + Total(shop.sales, And(Sold(shop, start, end), InCategory(shop, cats[|cats| - 1])), w)
  }

  function InOneOf(shop: Shop, cats: seq<int>): Test {
    (s: Sale) => s.product in shop.products && shop.products[s.product].category in cats
  }

  function InNoneOf(shop: Shop, cats: seq<int>): Test { (s: Sale) => !InOneOf(shop, cats)(s) }

  lemma {:induction false} CategoriesAddUp(shop: Shop, start: int, end: int, cats: seq<int>, w: Weight)
    requires forall i, j | 0 <= i < j < |cats| :: cats[i] != cats[j]
    ensures CategorySum(shop, start, end, cats, w)
         == Total(shop.sales, And(Sold(shop, start, end), InOneOf(shop, cats)), w)
  {
    var sold := Sold(shop, start, end);
    if cats == [] {
      TotalNone(shop.sales, And(sold, InOneOf(shop, cats)), w);
    } else {
      var n := |cats| - 1;
      assert cats == cats[..n] + [cats[n]];
      CategoriesAddUp(shop, start, end, cats[..n], w);
      TotalSplits(shop.sales, And(sold, InOneOf(shop, cats)), And(sold, InOneOf(shop, cats[..n])),
                  And(sold, InCategory(shop, cats[n])), w);
    }
  }

  /** Revenue of sales whose category row is gone, and of sales whose user is. */
  function Uncategorised(shop: Shop, start: int, end: int): int {
    Total(shop.sales, And(Sold(shop, start, end), InNoneOf(shop, shop.categories)), Amount(shop))
  }

  function Unknown(shop: Shop): Test { (s: Sale) => s.user !in shop.users }

  function Userless(shop: Shop, start: int, end: int): int {
    Total(shop.sales, And(Sold(shop, start, end), Unknown(shop)), Amount(shop))
  }

  lemma CategoriesCover(shop: Shop, start: int, end: int)
    requires forall i, j | 0 <= i < j < |shop.categories| :: shop.categories[i] != shop.categories[j]
    ensures CategorySum(shop, start, end, shop.categories, Amount(shop)) + Uncategorised(shop, start, end)
         == Total(shop.sales, Sold(shop, start, end), Amount(shop))
  {
    var sold, cats, w := Sold(shop, start, end), shop.categories, Amount(shop);
    CategoriesAddUp(shop, start, end, cats, w);
    TotalSplits(shop.sales, sold, And(sold, InOneOf(shop, cats)), And(sold, InNoneOf(shop, cats)), w);
  }

  function Known(shop: Shop): Test { (s: Sale) => s.user in shop.users }

  lemma ReferralsCover(shop: Shop, start: int, end: int)
    ensures ReferralRevenue(shop, start, end) + DirectRevenue(shop, start, end)
          + Userless(shop, start, end)
         == Total(shop.sales, Sold(shop, start, end), Amount(shop))
  {
    var sold, w := Sold(shop, start, end), Amount(shop);
    TotalSplits(shop.sales, sold, And(sold, Known(shop)), And(sold, Unknown(shop)), w);
    TotalSplits(shop.sales, And(sold, Known(shop)), And(sold, Referred(shop)), And(sold, Direct(shop)), w);
  }

  // ------------------------------------------------------------------ the period before

  /** The period compared with has the same length and ends the day before. */
  function PreviousStart(start: int, end: int): int { start - Length(start, end) }

  lemma PeriodsAbut(shop: Shop, start: int, end: int)
    requires start <= end
    ensures PeriodTotals(shop, PreviousStart(start, end), start - 1).revenue + PeriodTotals(shop, start, end).revenue
         == PeriodTotals(shop, PreviousStart(start, end), end).revenue
    ensures (start - 1) - PreviousStart(start, end) == end - start
  {
    var before := PreviousStart(start, end);
    TotalSplits(shop.sales, Sold(shop, before, end), Sold(shop, before, start - 1), Sold(shop, start, end),
                Amount(shop));
  }

  // ------------------------------------------------------------------ the figures

  function ReferralRevenue(shop: Shop, start: int, end: int): int {
    Total(shop.sales, And(Sold(shop, start, end), Referred(shop)), Amount(shop))
  }

  function DirectRevenue(shop: Shop, start: int, end: int): int {
    Total(shop.sales, And(Sold(shop, start, end), Direct(shop)), Amount(shop))
  }

  function DayFigures(shop: Shop, start: int, end: int, day: int): Day {
    var onDay := And(Sold(shop, start, end), OnDay(day));
    Day(day, Total(shop.sales, onDay, Amount(shop)), Total(shop.sales, onDay, One()))
  }

  function CategoryFigures(shop: Shop, start: int, end: int, c: int): Category {
    var within := And(Sold(shop, start, end), InCategory(shop, c));
    Category(c, Total(shop.sales, within, Amount(shop)), Total(shop.sales, within, One()))
  }

  lemma {:induction false} TotalAgrees(sales: seq<Sale>, a: Test, b: Test, v: Weight, w: Weight)
    requires forall s :: a(s) == b(s) && v(s) == w(s)
    ensures Total(sales, a, v) == Total(sales, b, w)
  {
    if sales != [] {
      TotalAgrees(sales[..|sales| - 1], a, b, v, w);
      TotalLast(sales, a, v);
      TotalLast(sales, b, w);
    }
  }

  function Sells(shop: Shop, sale: Sale): Shop { shop.(sales := shop.sales + [sale]) }

  lemma TotalOneMore(shop: Shop, sale: Sale, a: Test, b: Test, v: Weight, w: Weight)
    requires forall s :: a(s) == b(s) && v(s) == w(s)
    ensures Total(Sells(shop, sale).sales, a, v) == Total(shop.sales, b, w) + (if b(sale) then w(sale) else 0)
  {
    var more := shop.sales + [sale];
    TotalLast(more, a, v);
    assert more[..|shop.sales|] == shop.sales;
    TotalAgrees(shop.sales, a, b, v, w);
  }

  /** A sale counts for the report if it falls in the period and its product exists. */
  predicate Counts(shop: Shop, sale: Sale, start: int, end: int) {
    sale.product in shop.products && start <= sale.day <= end
  }

  /** What it brings: its final price, or for want of one the price of the product. */
  function Worth(shop: Shop, sale: Sale): int
    requires sale.product in shop.products
  {
    match sale.finalPrice
    case Some(price) => price
    case None => shop.products[sale.product].price
  }

  /** What one more sale adds to the totals: one to the count of its status, and its worth if approved. */
  lemma OneMoreInTotals(shop: Shop, sale: Sale, start: int, end: int)
    ensures var t, t' := PeriodTotals(shop, start, end), PeriodTotals(Sells(shop, sale), start, end);
            if !Counts(shop, sale, start, end) then t' == t
            else match sale.status
              case Approved => t' == t.(approved := t.approved + 1, revenue := t.revenue + Worth(shop, sale))
              case Pending => t' == t.(pending := t.pending + 1)
              case Rejected => t' == t.(rejected := t.rejected + 1)
  {
    var more := Sells(shop, sale);
    var period, period' := InPeriod(shop, start, end), InPeriod(more, start, end);
    TotalOneMore(shop, sale, And(period', With(Approved)), And(period, With(Approved)), One(), One());
    TotalOneMore(shop, sale, And(period', With(Pending)), And(period, With(Pending)), One(), One());
    TotalOneMore(shop, sale, And(period', With(Rejected)), And(period, With(Rejected)), One(), One());
    TotalOneMore(shop, sale, Sold(more, start, end), Sold(shop, start, end), Amount(more), Amount(shop));
  }

  /** And to the breakdowns, if it is approved: its worth to the revenue of referred buyers or of direct
      ones, as its user has a referrer or not; its worth and one order to its day, and to its category. */
  lemma OneMoreInBreakdowns(shop: Shop, sale: Sale, start: int, end: int, day: int, c: int)
    ensures var more := Sells(shop, sale);
            var d, d' := DayFigures(shop, start, end, day), DayFigures(more, start, end, day);
            var k, k' := CategoryFigures(shop, start, end, c), CategoryFigures(more, start, end, c);
            if !(Counts(shop, sale, start, end) && sale.status == Approved) then
              && ReferralRevenue(more, start, end) == ReferralRevenue(shop, start, end)
              && DirectRevenue(more, start, end) == DirectRevenue(shop, start, end) && d' == d && k' == k
            else
              var worth := Worth(shop, sale);
              && ReferralRevenue(more, start, end) == ReferralRevenue(shop, start, end)
                   + (if sale.user in shop.users && shop.users[sale.user].Some? then worth else 0)
              && DirectRevenue(more, start, end) == DirectRevenue(shop, start, end)
                   + (if sale.user in shop.users && shop.users[sale.user].None? then worth else 0)
              && d' == (if sale.day == day then Day(day, d.revenue + worth, d.orders + 1) else d)
              && k' == (if shop.products[sale.product].category == c
                        then Category(c, k.revenue + worth, k.orders + 1) else k)
  {
    var more := Sells(shop, sale);
    var sold, sold' := Sold(shop, start, end), Sold(more, start, end);
    var w, w' := Amount(shop), Amount(more);
    TotalOneMore(shop, sale, And(sold', Referred(more)), And(sold, Referred(shop)), w', w);
    TotalOneMore(shop, sale, And(sold', Direct(more)), And(sold, Direct(shop)), w', w);
    TotalOneMore(shop, sale, And(sold', OnDay(day)), And(sold, OnDay(day)), w', w);
    TotalOneMore(shop, sale, And(sold', OnDay(day)), And(sold, OnDay(day)), One(), One());
    TotalOneMore(shop, sale, And(sold', InCategory(more, c)), And(sold, InCategory(shop, c)), w', w);
    TotalOneMore(shop, sale, And(sold', InCategory(more, c)), And(sold, InCategory(shop, c)), One(), One());
  }

  /** With no sales there is nothing to report. */
  lemma NothingToReport(shop: Shop, start: int, end: int, day: int, c: int)
    requires shop.sales == []
    ensures PeriodTotals(shop, start, end) == Totals(0, 0, 0, 0)
    ensures ReferralRevenue(shop, start, end) == 0 && DirectRevenue(shop, start, end) == 0
    ensures DayFigures(shop, start, end, day) == Day(day, 0, 0)
    ensures CategoryFigures(shop, start, end, c) == Category(c, 0, 0)
  {
  }

  // ------------------------------------------------------------------ the report

  function DayRevenue(): Day -> int { (d: Day) => d.revenue }

  function DayOrders(): Day -> int { (d: Day) => d.orders }

  function CategoryRevenue(): Category -> int { (c: Category) => c.revenue }

  lemma DayAdds(shop: Shop, start: int, end: int, i: nat)
    ensures var d := DayFigures(shop, start, end, start + i);
            && d.day == start + i
            && DaySum(shop, start, end, i + 1, Amount(shop)) == DaySum(shop, start, end, i, Amount(shop)) + d.revenue
            && DaySum(shop, start, end, i + 1, One()) == DaySum(shop, start, end, i, One()) + d.orders
  {
  }

  lemma NoDays(shop: Shop, start: int, end: int, w: Weight)
    ensures DaySum(shop, start, end, 0, w) == 0
  {
  }

  lemma AllDays(shop: Shop, start: int, end: int)
    ensures DaySum(shop, start, end, Length(start, end), Amount(shop)) == PeriodTotals(shop, start, end).revenue
    ensures DaySum(shop, start, end, Length(start, end), One()) == PeriodTotals(shop, start, end).approved
  {
    DaysCoverPeriod(shop, start, end, Amount(shop));
    DaysCoverPeriod(shop, start, end, One());
  }

  /** The loop over the days (lines 2313-2317): a day without a row counts zero. */
  method DailySeries(shop: Shop, start: int, end: int) returns (series: seq<Day>)
    ensures |series| == if start <= end then end - start + 1 else 1
    ensures forall i | 0 <= i < |series| :: series[i] == DayFigures(shop, start, end, start + i)
    ensures Sum(series, DayRevenue()) == PeriodTotals(shop, start, end).revenue
    ensures Sum(series, DayOrders()) == PeriodTotals(shop, start, end).approved
  {
    hide DayFigures, DaySum, PeriodTotals, Total;
    series := [];
    NoDays(shop, start, end, Amount(shop));
    NoDays(shop, start, end, One());
    for i := 0 to Length(start, end)
      invariant |series| == i
      invariant forall k | 0 <= k < i :: series[k] == DayFigures(shop, start, end, start + k)
      invariant Sum(series, DayRevenue()) == DaySum(shop, start, end, i, Amount(shop))
      invariant Sum(series, DayOrders()) == DaySum(shop, start, end, i, One())
    {
      var entry := DayFigures(shop, start, end, start + i);
      DayAdds(shop, start, end, i);
      SumAppend(series, entry, DayRevenue());
      SumAppend(series, entry, DayOrders());
      series := series + [entry];
    }
    AllDays(shop, start, end);
  }

  /** The rows are those of the listed categories that sold something. */
  predicate RowsOf(shop: Shop, start: int, end: int, cats: seq<int>, rows: seq<Category>) {
    && (forall r | r in rows :: r.id in cats && r.orders > 0 && r == CategoryFigures(shop, start, end, r.id))
    && (forall c | c in cats && CategoryFigures(shop, start, end, c).orders > 0 ::
          CategoryFigures(shop, start, end, c) in rows)
  }

  function LeastFirst(): Category -> int { (c: Category) => -c.revenue }

  method CategoryBreakdown(shop: Shop, start: int, end: int) returns (rows: seq<Category>)
    ensures RowsOf(shop, start, end, shop.categories, rows)
    ensures forall i, j | 0 <= i < j < |rows| :: rows[i].revenue >= rows[j].revenue
    ensures Sum(rows, CategoryRevenue()) == CategorySum(shop, start, end, shop.categories, Amount(shop))
  {
    hide RowsOf, CategoryFigures, CategorySum, Sum;
    rows := [];
    var cats := shop.categories;
    NoRows(shop, start, end);
    for i := 0 to |cats|
      invariant RowsOf(shop, start, end, cats[..i], rows)
      invariant Sum(rows, CategoryRevenue()) == CategorySum(shop, start, end, cats[..i], Amount(shop))
    {
      assert cats[..i + 1] == cats[..i] + [cats[i]];
      RowAdds(shop, start, end, cats[..i], cats[i], rows);
      var row := CategoryFigures(shop, start, end, cats[i]);
      if row.orders > 0 { rows := rows + [row]; }  // GROUP BY makes no row for a category without sales
    }
    assert cats[..|cats|] == cats;
    SortedRows(shop, start, end, cats, rows);
    rows := SortedBy(rows, LeastFirst());
  }

  lemma NoRows(shop: Shop, start: int, end: int)
    ensures RowsOf(shop, start, end, [], [])
    ensures Sum([], CategoryRevenue()) == CategorySum(shop, start, end, [], Amount(shop))
  {
  }

  lemma RowAdds(shop: Shop, start: int, end: int, cats: seq<int>, c: int, rows: seq<Category>)
    requires RowsOf(shop, start, end, cats, rows)
    requires Sum(rows, CategoryRevenue()) == CategorySum(shop, start, end, cats, Amount(shop))
    ensures var row := CategoryFigures(shop, start, end, c);
            var rows' := if row.orders > 0 then rows + [row] else rows;
            && RowsOf(shop, start, end, cats + [c], rows')
            && Sum(rows', CategoryRevenue()) == CategorySum(shop, start, end, cats + [c], Amount(shop))
  {
    hide Total;
    var row := CategoryFigures(shop, start, end, c);
    assert (cats + [c])[..|cats|] == cats;
    SumAppend(rows, row, CategoryRevenue());
    NothingSold(shop.sales, And(Sold(shop, start, end), InCategory(shop, c)), Amount(shop));
    assert row.id == c;
  }

  lemma SortedRows(shop: Shop, start: int, end: int, cats: seq<int>, rows: seq<Category>)
    requires RowsOf(shop, start, end, cats, rows)
    ensures var sorted := SortedBy(rows, LeastFirst());
            && RowsOf(shop, start, end, cats, sorted)
            && (forall i, j | 0 <= i < j < |sorted| :: sorted[i].revenue >= sorted[j].revenue)
            && Sum(sorted, CategoryRevenue()) == Sum(rows, CategoryRevenue())
  {
    var sorted := SortedBy(rows, LeastFirst());
    SortedIsAscending(rows, LeastFirst());
    SortedPermutes(rows, LeastFirst());
    SortedSum(rows);
    forall r ensures r in sorted <==> r in rows {
      assert r in multiset(sorted) <==> r in multiset(rows);
    }
    forall i, j | 0 <= i < j < |sorted| ensures sorted[i].revenue >= sorted[j].revenue {
      assert LeastFirst()(sorted[i]) <= LeastFirst()(sorted[j]);
    }
  }

  lemma {:induction false} InsertSum(row: Category, rows: seq<Category>)
    ensures Sum(Insert(row, rows, LeastFirst()), CategoryRevenue()) == Sum(rows, CategoryRevenue()) + row.revenue
  {
    if rows != [] && LeastFirst()(rows[|rows| - 1]) > LeastFirst()(row) {
      var n := |rows| - 1;
      InsertSum(row, rows[..n]);
      SumAppend(Insert(row, rows[..n], LeastFirst()), rows[n], CategoryRevenue());
    } else {
      SumAppend(rows, row, CategoryRevenue());
      assert rows == [] ==> rows + [row] == [row];
    }
  }

  lemma {:induction false} SortedSum(rows: seq<Category>)
    ensures Sum(SortedBy(rows, LeastFirst()), CategoryRevenue()) == Sum(rows, CategoryRevenue())
  {
    if rows != [] {
      var n := |rows| - 1;
      SortedSum(rows[..n]);
      InsertSum(rows[n], SortedBy(rows[..n], LeastFirst()));
    }
  }

  lemma {:induction false} NothingSold(sales: seq<Sale>, t: Test, w: Weight)
    ensures Total(sales, t, One()) >= 0
    ensures Total(sales, t, One()) <= 0 ==> Total(sales, t, w) == 0
  {
    if sales != [] {
      NothingSold(sales[..|sales| - 1], t, w);
      TotalLast(sales, t, One());
      TotalLast(sales, t, w);
    }
  }

  /** The totals of the period and of the one of the same length before it, day by day, by category with
      the best first, and by how the buyers came.  Whatever the dates: the days add up to the revenue of
      the period; the categories do exactly when the sales without a category row bring nothing, and
      referred and direct revenue do exactly when the sales without a user do. */
  method GetSalesStats(shop: Shop, start: int, end: int) returns (stats: Stats)
    requires forall i, j | 0 <= i < j < |shop.categories| :: shop.categories[i] != shop.categories[j]
    ensures stats.current == PeriodTotals(shop, start, end)
    ensures stats.previous
         == PeriodTotals(shop, if start <= end then start - (end - start + 1) else start - 1, start - 1)
    ensures |stats.daily| == if start <= end then end - start + 1 else 1
    ensures forall i | 0 <= i < |stats.daily| :: stats.daily[i] == DayFigures(shop, start, end, start + i)
    ensures Sum(stats.daily, DayRevenue()) == stats.current.revenue
    ensures Sum(stats.daily, DayOrders()) == stats.current.approved
    ensures RowsOf(shop, start, end, shop.categories, stats.categories)
    ensures forall i, j | 0 <= i < j < |stats.categories| :: stats.categories[i].revenue >= stats.categories[j].revenue
    ensures Sum(stats.categories, CategoryRevenue()) == stats.current.revenue <==> Uncategorised(shop, start, end) == 0
    ensures stats.referral == ReferralRevenue(shop, start, end) && stats.direct == DirectRevenue(shop, start, end)
    ensures stats.referral + stats.direct == stats.current.revenue <==> Userless(shop, start, end) == 0
    ensures start <= end ==>
              stats.previous.revenue + stats.current.revenue
              == PeriodTotals(shop, PreviousStart(start, end), end).revenue
    ensures end < start ==> |stats.daily| == 1 && stats.current == Totals(0, 0, 0, 0)
  {
    var current := PeriodTotals(shop, start, end);
    var previous := PeriodTotals(shop, PreviousStart(start, end), start - 1);
    var daily := DailySeries(shop, start, end);
    var categories := CategoryBreakdown(shop, start, end);
    var referral, direct := ReferralRevenue(shop, start, end), DirectRevenue(shop, start, end);
    CategoriesCover(shop, start, end);
    ReferralsCover(shop, start, end);
    if start <= end { PeriodsAbut(shop, start, end); } else { EmptyPeriod(shop, start, end); }
    return Stats(current, previous, daily, categories, referral, direct);
  }

  lemma EmptyPeriod(shop: Shop, start: int, end: int)
    requires end < start
    ensures PeriodTotals(shop, start, end) == Totals(0, 0, 0, 0)
  {
    var period := InPeriod(shop, start, end);
    TotalNone(shop.sales, And(period, With(Approved)), One());
    TotalNone(shop.sales, And(period, With(Pending)), One());
    TotalNone(shop.sales, And(period, With(Rejected)), One());
    TotalNone(shop.sales, Sold(shop, start, end), Amount(shop));
  }
}
