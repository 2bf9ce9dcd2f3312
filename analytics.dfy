/**
  The aggregations the analytics page computes from the sale records before it
  draws each chart and table: sales and leads per day, the repeat-customer
  distribution, revenue per month, sales per manager, the managers table, and
  the ten products with the lowest revenue.
*/
module Analytics {
  import opened StrOrder
  import opened Grouping

  // ----- How each aggregation keys and filters the records -----

  function DateOf(s: Sale): string { s.date }

  function CustomerOf(s: Sale): string { s.customerId }

  function ManagerOf(s: Sale): string { s.manager }

  function ProductOf(s: Sale): string { s.product }

  /** `date.substring(0, 7)`: the `YYYY-MM` prefix, or the whole date when it is shorter. */
  function Month(date: string): (m: string)
    ensures |m| == if |date| < 7 then |date| else 7
    ensures m == date[..|m|]
  {
    if |date| < 7 then date else date[..7]
  }

  function MonthOf(s: Sale): string { Month(s.date) }

  predicate AnySale(s: Sale) { true }

  predicate IsLead(s: Sale) { s.isLead }

  /** The sum of all amounts. */
  function TotalAmount(sales: seq<Sale>): int {
    if sales == [] then 0 else TotalAmount(sales[..|sales| - 1]) + sales[|sales| - 1].amount
  }

  /** The number of records flagged as leads. */
  function LeadCount(sales: seq<Sale>): nat {
    if sales == [] then 0 else LeadCount(sales[..|sales| - 1]) + if sales[|sales| - 1].isLead then 1 else 0
  }

  /** Keeping every record counts all of them and sums all amounts; keeping leads counts the leads. */
  lemma {:induction false} OverallIsPlain(sales: seq<Sale>)
    ensures Overall(sales, AnySale) == Group(|sales|, TotalAmount(sales))
    ensures Overall(sales, IsLead).count == LeadCount(sales)
  {
    if sales != [] {
      OverallIsPlain(sales[..|sales| - 1]);
    }
  }

  // ----- Charts keyed by a sorted label -----

  /**
    Group, then sort the keys (`Object.keys(byKey).sort()`) and read each key's entry:
    the labels are the distinct keys, strictly increasing, and the entries hold every
    kept record once.
  */
  method SortedGroups(sales: seq<Sale>, key: Sale -> string, keep: Sale -> bool)
    returns (labels: seq<string>, entries: seq<Group>)
    ensures StrictlySorted(labels)
    ensures forall k :: k in labels <==> k in Keys(sales, key, keep)
    ensures entries == Column(labels, sales, key, keep)
    ensures SumGroups(entries) == Overall(sales, keep)
  {
    var groups, order := Tally(sales, key, keep);
    labels := Sort(order);
    SortDistinct(order);
    entries := seq(|labels|, i requires 0 <= i < |labels| => groups[labels[i]]);
    GroupsCoverAll(sales, key, keep);
    ColumnPermutation(labels, order, sales, key, keep);
  }

  /**
    `renderSalesByDayChart`: the labels are the distinct dates in increasing order, each
    value is the sum of the amounts on its date, and the values add up to the total amount.
  */
  method SalesByDay(sales: seq<Sale>) returns (labels: seq<string>, amounts: seq<int>)
    ensures StrictlySorted(labels)
    ensures forall d :: d in labels <==> exists i :: 0 <= i < |sales| && sales[i].date == d
    ensures |amounts| == |labels|
    ensures forall i :: 0 <= i < |labels| ==> amounts[i] == GroupOf(sales, labels[i], DateOf, AnySale).total
    ensures Sum(amounts) == TotalAmount(sales)
  {
    var entries;
    labels, entries := SortedGroups(sales, DateOf, AnySale);
    amounts := seq(|entries|, i requires 0 <= i < |entries| => entries[i].total);
    assert forall d :: d in labels <==> exists i :: 0 <= i < |sales| && sales[i].date == d by {
      forall d ensures d in labels <==> exists i :: 0 <= i < |sales| && sales[i].date == d {
        KeysExactly(sales, DateOf, AnySale, d);
      }
    }
    assert Sum(amounts) == TotalAmount(sales) by {
      SumOfFields(entries, seq(|entries|, i requires 0 <= i < |entries| => entries[i].count), amounts);
      OverallIsPlain(sales);
    }
  }

  /**
    `renderLeadsByDayChart`: only lead records count, so a date appears exactly when some
    lead falls on it; the labels increase, every count is at least one, and the counts add
    up to the number of leads.
  */
  method LeadsByDay(sales: seq<Sale>) returns (labels: seq<string>, counts: seq<int>)
    ensures StrictlySorted(labels)
    ensures forall d :: d in labels <==> exists i :: 0 <= i < |sales| && sales[i].isLead && sales[i].date == d
    ensures |counts| == |labels|
    ensures forall i :: 0 <= i < |labels| ==> counts[i] == GroupOf(sales, labels[i], DateOf, IsLead).count >= 1
    ensures Sum(counts) == LeadCount(sales)
  {
    var entries;
    labels, entries := SortedGroups(sales, DateOf, IsLead);
    counts := seq(|entries|, i requires 0 <= i < |entries| => entries[i].count);
    assert forall d :: d in labels <==> exists i :: 0 <= i < |sales| && sales[i].isLead && sales[i].date == d by {
      forall d ensures d in labels <==> exists i :: 0 <= i < |sales| && sales[i].isLead && sales[i].date == d {
        KeysExactly(sales, DateOf, IsLead, d);
      }
    }
    assert forall i :: 0 <= i < |labels| ==> counts[i] == GroupOf(sales, labels[i], DateOf, IsLead).count >= 1 by {
      forall i | 0 <= i < |labels| ensures counts[i] == GroupOf(sales, labels[i], DateOf, IsLead).count >= 1 {
        assert labels[i] in Keys(sales, DateOf, IsLead);
        KeysHaveRecords(sales, DateOf, IsLead, labels[i]);
        assert counts[i] == entries[i].count;
      }
    }
    assert Sum(counts) == LeadCount(sales) by {
      SumOfFields(entries, counts, seq(|entries|, i requires 0 <= i < |entries| => entries[i].total));
      OverallIsPlain(sales);
    }
  }

  /**
    `renderRevenueByMonthChart`: the labels are the distinct `YYYY-MM` prefixes in increasing
    order, each value sums the amounts of that month, and the values add up to the total amount.
  */
  method RevenueByMonth(sales: seq<Sale>) returns (labels: seq<string>, revenues: seq<int>)
    ensures StrictlySorted(labels)
    ensures forall m :: m in labels <==> exists i :: 0 <= i < |sales| && Month(sales[i].date) == m
    ensures |revenues| == |labels|
    ensures forall i :: 0 <= i < |labels| ==> revenues[i] == GroupOf(sales, labels[i], MonthOf, AnySale).total
    ensures Sum(revenues) == TotalAmount(sales)
  {
    var entries;
    labels, entries := SortedGroups(sales, MonthOf, AnySale);
    revenues := seq(|entries|, i requires 0 <= i < |entries| => entries[i].total);
    assert forall m :: m in labels <==> exists i :: 0 <= i < |sales| && Month(sales[i].date) == m by {
      forall m ensures m in labels <==> exists i :: 0 <= i < |sales| && Month(sales[i].date) == m {
        KeysExactly(sales, MonthOf, AnySale, m);
      }
    }
    assert Sum(revenues) == TotalAmount(sales) by {
      SumOfFields(entries, seq(|entries|, i requires 0 <= i < |entries| => entries[i].count), revenues);
      OverallIsPlain(sales);
    }
  }

  // ----- Repeat customers -----

  /** The doughnut chart's three slices: customers with one purchase, with two, and with three or more. */
  datatype Distribution = Distribution(one: nat, two: nat, threePlus: nat)

  /** `Object.values(purchasesByCustomer)`: each customer's number of purchases, in order of first appearance. */
  function Purchases(sales: seq<Sale>): (counts: seq<nat>)
    ensures |counts| == |Keys(sales, CustomerOf, AnySale)|
    ensures forall i :: 0 <= i < |counts| ==>
      counts[i] == GroupOf(sales, Keys(sales, CustomerOf, AnySale)[i], CustomerOf, AnySale).count
  {
    var customers := Keys(sales, CustomerOf, AnySale);
    seq(|customers|, i requires 0 <= i < |customers| => GroupOf(sales, customers[i], CustomerOf, AnySale).count)
  }

  /** Every listed customer made at least one purchase. */
  lemma PurchasesPositive(sales: seq<Sale>)
    ensures forall i :: 0 <= i < |Purchases(sales)| ==> Purchases(sales)[i] >= 1
  {
    var customers := Keys(sales, CustomerOf, AnySale);
    forall i | 0 <= i < |customers| ensures Purchases(sales)[i] >= 1 {
      KeysHaveRecords(sales, CustomerOf, AnySale, customers[i]);
    }
  }

  /** The `forEach` loop counting each customer's purchases, read out with `Object.values`. */
  method PurchaseCounts(sales: seq<Sale>) returns (counts: seq<nat>)
    ensures counts == Purchases(sales)
  {
    var purchasesByCustomer, customers := Tally(sales, CustomerOf, AnySale);
    counts := seq(|customers|, i requires 0 <= i < |customers| => purchasesByCustomer[customers[i]].count);
  }

  /** The slices of a list of purchase counts. */
  function Bucketed(counts: seq<nat>): (d: Distribution)
    ensures (forall i :: 0 <= i < |counts| ==> counts[i] >= 1) ==> d.one + d.two + d.threePlus == |counts|
  {
    if counts == [] then Distribution(0, 0, 0) else Sliced(Bucketed(counts[..|counts| - 1]), counts[|counts| - 1])
  }

  /** One more customer with `n` purchases, put in its slice (a count of 0 names no customer). */
  function Sliced(d: Distribution, n: nat): Distribution {
    if n == 1 then d.(one := d.one + 1)
    else if n == 2 then d.(two := d.two + 1)
    else if n >= 3 then d.(threePlus := d.threePlus + 1)
    else d
  }

  /**
    `renderRepeatCustomersChart`: count the purchases of each customer, then walk the counts
    putting 1 in the first slice, 2 in the second and anything else in the third. Every
    customer has at least one purchase, so "anything else" is three or more, and each
    distinct customer lands in exactly one slice.
  */
  method RepeatCustomers(sales: seq<Sale>) returns (dist: Distribution)
    ensures dist == Bucketed(Purchases(sales))
    ensures dist.one + dist.two + dist.threePlus == |Keys(sales, CustomerOf, AnySale)|
  {
    var counts := PurchaseCounts(sales);
    PurchasesPositive(sales);
    dist := Distribution(0, 0, 0);
    var i := 0;
    while i < |counts|
      invariant 0 <= i <= |counts|
      invariant dist == Bucketed(counts[..i])
    {
      var count := counts[i];
      assert Bucketed(counts[..i + 1]) == Sliced(dist, count) by {
        assert counts[..i + 1][..i] == counts[..i];
      }
      if count == 1 {
        dist := dist.(one := dist.one + 1);
      } else if count == 2 {
        dist := dist.(two := dist.two + 1);
      } else {
        dist := dist.(threePlus := dist.threePlus + 1);
      }
      i := i + 1;
    }
    assert counts[..|counts|] == counts;
  }

  // ----- Managers -----

  /**
    `renderSalesByManagerChart`: one label per manager in order of first appearance, each
    value the sum of that manager's amounts, the values adding up to the total amount.
  */
  method SalesByManager(sales: seq<Sale>) returns (labels: seq<string>, values: seq<int>)
    ensures labels == Keys(sales, ManagerOf, AnySale)
    ensures forall m :: m in labels <==> exists i :: 0 <= i < |sales| && sales[i].manager == m
    ensures |values| == |labels|
    ensures forall i :: 0 <= i < |labels| ==> values[i] == GroupOf(sales, labels[i], ManagerOf, AnySale).total
    ensures Sum(values) == TotalAmount(sales)
  {
    var byManager;
    byManager, labels := Tally(sales, ManagerOf, AnySale);
    values := seq(|labels|, i requires 0 <= i < |labels| => byManager[labels[i]].total);
    assert forall m :: m in labels <==> exists i :: 0 <= i < |sales| && sales[i].manager == m by {
      forall m ensures m in labels <==> exists i :: 0 <= i < |sales| && sales[i].manager == m {
        KeysExactly(sales, ManagerOf, AnySale, m);
      }
    }
    assert Sum(values) == TotalAmount(sales) by {
      var column := Column(labels, sales, ManagerOf, AnySale);
      SumOfFields(column, seq(|column|, i requires 0 <= i < |column| => column[i].count), values);
      GroupsCoverAll(sales, ManagerOf, AnySale);
      OverallIsPlain(sales);
    }
  }

  /** A row of the managers table, without the average check. */
  datatype ManagerRow = ManagerRow(manager: string, orders: nat, revenue: int)

  /**
    `renderManagersTable`: one row per distinct manager in order of first appearance, with
    the number of that manager's sales and their revenue; the orders add up to the number of sales.
  */
  method ManagersTable(sales: seq<Sale>) returns (rows: seq<ManagerRow>)
    ensures rows == ManagerRows(sales)
    ensures |rows| == |Keys(sales, ManagerOf, AnySale)|
    ensures forall i :: 0 <= i < |rows| ==>
      var g := GroupOf(sales, Keys(sales, ManagerOf, AnySale)[i], ManagerOf, AnySale);
      rows[i] == ManagerRow(Keys(sales, ManagerOf, AnySale)[i], g.count, g.total) && g.count >= 1
    ensures Sum(seq(|rows|, i requires 0 <= i < |rows| => rows[i].orders)) == |sales|
  {
    rows := ManagerEntries(sales);
    ManagerOrdersAddUp(sales);
  }

  /** One row per manager, in order of first appearance, with that manager's orders and revenue. */
  function ManagerRows(sales: seq<Sale>): (rows: seq<ManagerRow>)
    ensures |rows| == |Keys(sales, ManagerOf, AnySale)|
    ensures forall i :: 0 <= i < |rows| ==>
      var m := Keys(sales, ManagerOf, AnySale)[i];
      rows[i] == ManagerRow(m, GroupOf(sales, m, ManagerOf, AnySale).count, GroupOf(sales, m, ManagerOf, AnySale).total)
  {
    var managers := Keys(sales, ManagerOf, AnySale);
    seq(|managers|, i requires 0 <= i < |managers| =>
      ManagerRow(managers[i], GroupOf(sales, managers[i], ManagerOf, AnySale).count,
                 GroupOf(sales, managers[i], ManagerOf, AnySale).total))
  }

  /** The `forEach` loop over the sales that fills `managersData`, then one row per entry. */
  method ManagerEntries(sales: seq<Sale>) returns (rows: seq<ManagerRow>)
    ensures rows == ManagerRows(sales)
  {
    var managersData, managers := Tally(sales, ManagerOf, AnySale);
    rows := seq(|managers|, i requires 0 <= i < |managers| =>
      ManagerRow(managers[i], managersData[managers[i]].count, managersData[managers[i]].total));
  }

  /** Every manager row has at least one order, and the orders of all rows add up to the number of sales. */
  lemma ManagerOrdersAddUp(sales: seq<Sale>)
    ensures forall i :: 0 <= i < |ManagerRows(sales)| ==> ManagerRows(sales)[i].orders >= 1
    ensures var rows := ManagerRows(sales);
      Sum(seq(|rows|, i requires 0 <= i < |rows| => rows[i].orders)) == |sales|
  {
    var rows := ManagerRows(sales);
    var managers := Keys(sales, ManagerOf, AnySale);
    forall i | 0 <= i < |rows| ensures rows[i].orders >= 1 {
      KeysHaveRecords(sales, ManagerOf, AnySale, managers[i]);
    }
    var column := Column(managers, sales, ManagerOf, AnySale);
    SumOfFields(column, seq(|rows|, i requires 0 <= i < |rows| => rows[i].orders),
                seq(|rows|, i requires 0 <= i < |rows| => rows[i].revenue));
    GroupsCoverAll(sales, ManagerOf, AnySale);
    OverallIsPlain(sales);
  }

  /** The managers table and the sales-by-manager chart list the same managers in the same order with the same revenue. */
  method ManagersTableMatchesChart(sales: seq<Sale>) returns (rows: seq<ManagerRow>, labels: seq<string>, values: seq<int>)
    ensures rows == ManagerRows(sales) && labels == Keys(sales, ManagerOf, AnySale)
    ensures |rows| == |labels| == |values|
    ensures forall i :: 0 <= i < |rows| ==> rows[i].manager == labels[i] && rows[i].revenue == values[i]
  {
    rows := ManagersTable(sales);
    labels, values := SalesByManager(sales);
  }

  // ----- Products with the lowest revenue -----

  /** A row of the products table, without the turnover. */
  datatype ProductRow = ProductRow(product: string, units: nat, revenue: int)

  /** How many rows the products table shows. */
  const ShownProducts := 10

  /** `Object.entries(productsData).map(...)`: one row per product, in order of first appearance. */
  function ProductRows(sales: seq<Sale>): (rows: seq<ProductRow>)
    ensures |rows| == |Keys(sales, ProductOf, AnySale)|
    ensures forall i :: 0 <= i < |rows| ==>
      var p := Keys(sales, ProductOf, AnySale)[i];
      rows[i] == ProductRow(p, GroupOf(sales, p, ProductOf, AnySale).count, GroupOf(sales, p, ProductOf, AnySale).total)
  {
    var products := Keys(sales, ProductOf, AnySale);
    seq(|products|, i requires 0 <= i < |products| =>
      ProductRow(products[i], GroupOf(sales, products[i], ProductOf, AnySale).count,
                 GroupOf(sales, products[i], ProductOf, AnySale).total))
  }

  /** The `forEach` loop over the sales, then `Object.entries(productsData).map(...)`. */
  method ProductEntries(sales: seq<Sale>) returns (rows: seq<ProductRow>)
    ensures rows == ProductRows(sales)
  {
    var productsData, products := Tally(sales, ProductOf, AnySale);
    rows := seq(|products|, i requires 0 <= i < |products| =>
      ProductRow(products[i], productsData[products[i]].count, productsData[products[i]].total));
  }

  predicate RevenueSorted(rows: seq<ProductRow>) {
    forall i, j :: 0 <= i < j < |rows| ==> rows[i].revenue <= rows[j].revenue
  }

  /** Inserts `x` after every row whose revenue is not above its own. */
  function InsertByRevenue(x: ProductRow, rows: seq<ProductRow>): (r: seq<ProductRow>)
    requires RevenueSorted(rows)
    ensures RevenueSorted(r)
    ensures |r| == |rows| + 1
    ensures multiset(r) == multiset(rows) + multiset{x}
    ensures r[|r| - 1] == x || (rows != [] && r[|r| - 1] == rows[|rows| - 1])
  {
    if rows == [] || rows[|rows| - 1].revenue <= x.revenue then rows + [x]
    else
      var init := rows[..|rows| - 1];
      var last := rows[|rows| - 1];
      assert rows == init + [last];
      var r := InsertByRevenue(x, init);
      assert r[|r| - 1].revenue <= last.revenue;
      r + [last]
  }

  /** `.sort((a, b) => a.revenue - b.revenue)`: ascending by revenue. */
  function SortByRevenue(rows: seq<ProductRow>): (r: seq<ProductRow>)
    ensures RevenueSorted(r)
    ensures |r| == |rows|
    ensures multiset(r) == multiset(rows)
  {
    if rows == [] then []
    else
      assert rows == rows[..|rows| - 1] + [rows[|rows| - 1]];
      InsertByRevenue(rows[|rows| - 1], SortByRevenue(rows[..|rows| - 1]))
  }

  /** Cutting a revenue-sorted permutation of the rows after `n` leaves out no row below one kept. */
  lemma LowestFirst(rows: seq<ProductRow>, sorted: seq<ProductRow>, n: nat)
    requires RevenueSorted(sorted) && multiset(sorted) == multiset(rows) && n <= |sorted|
    ensures forall r, q :: r in sorted[..n] && q in rows && q !in sorted[..n] ==> r.revenue <= q.revenue
  {
    forall r, q | r in sorted[..n] && q in rows && q !in sorted[..n]
      ensures r.revenue <= q.revenue
    {
      assert q in multiset(sorted);
      var j :| 0 <= j < |sorted| && sorted[j] == q;
      var i :| 0 <= i < n && sorted[..n][i] == r;
      assert sorted[i] == r;
    }
  }

  /** The first `n` rows of a revenue-sorted permutation: sorted, drawn from the rows, and the lowest. */
  lemma SortedPrefix(rows: seq<ProductRow>, sorted: seq<ProductRow>, n: nat)
    requires RevenueSorted(sorted) && multiset(sorted) == multiset(rows) && n <= |sorted|
    ensures RevenueSorted(sorted[..n])
    ensures multiset(sorted[..n]) <= multiset(rows)
    ensures forall r, q :: r in sorted[..n] && q in rows && q !in sorted[..n] ==> r.revenue <= q.revenue
  {
    assert sorted == sorted[..n] + sorted[n..];
    LowestFirst(rows, sorted, n);
  }

  /**
    `renderProductsTable`: the first ten products by ascending revenue. At most ten rows,
    in non-decreasing revenue, each a product's real units and revenue, and no product
    left out has lower revenue than one shown.
  */
  method ProductsTable(sales: seq<Sale>) returns (shown: seq<ProductRow>)
    ensures |shown| == if |ProductRows(sales)| < ShownProducts then |ProductRows(sales)| else ShownProducts
    ensures RevenueSorted(shown)
    ensures multiset(shown) <= multiset(ProductRows(sales))
    ensures forall r, q :: r in shown && q in ProductRows(sales) && q !in shown ==> r.revenue <= q.revenue
  {
    var entries := ProductEntries(sales);
    var sorted := SortByRevenue(entries);
    var n := if |sorted| < ShownProducts then |sorted| else ShownProducts;
    shown := sorted[..n];
    SortedPrefix(entries, sorted, n);
  }

}
