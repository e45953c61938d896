/** The dashboard: over the orders the date filters keep, their count, the
    revenue (sum of order totals), the cost (quantity times the product's
    cost, for items whose product has a cost row) and the profit. */
module Dashboard {
  import opened Common
  import opened DateRange
  import opened Sorting
  import opened Orders
  import ProductCosts

  /** The body of `GET /dashboard`; amounts in cents. */
  datatype DashboardSummary = DashboardSummary(ordersCount: nat, revenue: Cents, costTotal: Cents, profit: Cents)

  function TotalOf(o: Order): int {
    o.totalAmount
  }

  /** What one item adds to the cost total: `cost.cost * item.quantity`
      when the product has a cost row, nothing otherwise. */
  function ItemCost(costs: ProductCosts.CostStore, it: OrderItem): int {
    match ProductCosts.FindByProductId(costs, it.productId)
    case None => 0
    case Some(c) => c.cost * it.quantity
  }

  function ItemsCost(costs: ProductCosts.CostStore, items: seq<OrderItem>): int {
    if items == [] then 0 else ItemCost(costs, items[0]) + ItemsCost(costs, items[1..])
  }

  function OrderCostOf(costs: ProductCosts.CostStore): Order -> int {
    (o: Order) => ItemsCost(costs, o.items)
  }

  /** The sum of the order totals. */
  function Revenue(os: seq<Order>): int {
    SumBy(os, TotalOf)
  }

  /** The cost of every item of every order. */
  function CostTotal(costs: ProductCosts.CostStore, os: seq<Order>): int {
    SumBy(os, OrderCostOf(costs))
  }

  /** The revenue pass: `orders.reduce((acc, o) => acc + o.totalAmount, 0)`. */
  method SumRevenue(orders: seq<Order>) returns (revenue: int)
    ensures revenue == Revenue(orders)
  {
    revenue := 0;
    var i := 0;
    while i < |orders|
      invariant 0 <= i <= |orders|
      invariant revenue + Revenue(orders[i..]) == Revenue(orders)
    {
      assert orders[i..][1..] == orders[i + 1..];
      revenue := revenue + orders[i].totalAmount;
      i := i + 1;
    }
  }

  /** The inner cost loop over one order's items, starting from `acc`. */
  method AddItemsCost(costs: ProductCosts.CostStore, items: seq<OrderItem>, acc: int) returns (costTotal: int)
    ensures costTotal == acc + ItemsCost(costs, items)
  {
    costTotal := acc;
    var j := 0;
    while j < |items|
      invariant 0 <= j <= |items|
      invariant costTotal + ItemsCost(costs, items[j..]) == acc + ItemsCost(costs, items)
    {
      var cost := ProductCosts.FindByProductId(costs, items[j].productId);
      if cost.Some? {
        costTotal := costTotal + cost.value.cost * items[j].quantity;
      }
      assert items[j..][1..] == items[j + 1..];
      j := j + 1;
    }
  }

  /** The outer cost loop over the orders. */
  method SumCost(costs: ProductCosts.CostStore, orders: seq<Order>) returns (costTotal: int)
    ensures costTotal == CostTotal(costs, orders)
  {
    costTotal := 0;
    var i := 0;
    while i < |orders|
      invariant 0 <= i <= |orders|
      invariant costTotal + CostTotal(costs, orders[i..]) == CostTotal(costs, orders)
    {
      costTotal := AddItemsCost(costs, orders[i].items, costTotal);
      assert orders[i..][1..] == orders[i + 1..];
      i := i + 1;
    }
  }

  /** `getDashboard`: the filtered orders, their count, revenue and cost,
      and the profit as the difference. */
  method GetDashboard(s: OrderStore, costs: ProductCosts.CostStore, f: Filters, parse: DateParser) returns (d: DashboardSummary)
    ensures d.ordersCount == |FindFiltered(s, f, parse)|
    ensures d.revenue == Revenue(FindFiltered(s, f, parse))
    ensures d.costTotal == CostTotal(costs, FindFiltered(s, f, parse))
    ensures d.profit == d.revenue - d.costTotal
  {
    var orders := FindFiltered(s, f, parse);
    var revenue := SumRevenue(orders);
    var costTotal := SumCost(costs, orders);
    d := DashboardSummary(|orders|, revenue, costTotal, revenue - costTotal);
  }

  /** The revenue of the orders `findFiltered` keeps: each order's total
      when it lies in the range, nothing when it does not. */
  function InRangeRevenue(os: seq<Order>, f: Filters, parse: DateParser): int {
    if os == [] then 0
    else (if InFilter(os[0], f, parse) then os[0].totalAmount else 0) + InRangeRevenue(os[1..], f, parse)
  }

  /** The cost of the orders `findFiltered` keeps, likewise. */
  function InRangeCost(costs: ProductCosts.CostStore, os: seq<Order>, f: Filters, parse: DateParser): int {
    if os == [] then 0
    else (if InFilter(os[0], f, parse) then ItemsCost(costs, os[0].items) else 0) + InRangeCost(costs, os[1..], f, parse)
  }

  lemma {:induction false} FilterSums(costs: ProductCosts.CostStore, os: seq<Order>, f: Filters, parse: DateParser)
    ensures Revenue(FilterOrders(os, f, parse)) == InRangeRevenue(os, f, parse)
    ensures CostTotal(costs, FilterOrders(os, f, parse)) == InRangeCost(costs, os, f, parse)
  {
    if os != [] {
      FilterSums(costs, os[1..], f, parse);
      var rest := FilterOrders(os[1..], f, parse);
      assert ([os[0]] + rest)[1..] == rest;
    }
  }

  /** The dashboard's revenue and cost are the sums, over every stored
      order, of what the orders within the range contribute: an order
      outside the range contributes nothing, and the newest-first sort
      changes no sum. */
  lemma DashboardSumsInRange(s: OrderStore, costs: ProductCosts.CostStore, f: Filters, parse: DateParser)
    ensures Revenue(FindFiltered(s, f, parse)) == InRangeRevenue(FindAll(s), f, parse)
    ensures CostTotal(costs, FindFiltered(s, f, parse)) == InRangeCost(costs, FindAll(s), f, parse)
  {
    var kept := FilterOrders(FindAll(s), f, parse);
    SumBySortDesc(kept, OrderKey(parse), TotalOf);
    SumBySortDesc(kept, OrderKey(parse), OrderCostOf(costs));
    FilterSums(costs, FindAll(s), f, parse);
  }

  /** With no date filters the dashboard counts every stored order. */
  lemma DashboardNoFiltersCountsAll(s: OrderStore, f: Filters, parse: DateParser)
    requires !Truthy(f.startDate) && !Truthy(f.endDate)
    ensures |FindFiltered(s, f, parse)| == |s.orders|
  {
    FindFilteredNoFilters(s, f, parse);
  }

  lemma {:induction false} InRangeAppendOut(costs: ProductCosts.CostStore, os: seq<Order>, o: Order, f: Filters, parse: DateParser)
    requires !InFilter(o, f, parse)
    ensures InRangeRevenue(os + [o], f, parse) == InRangeRevenue(os, f, parse)
    ensures InRangeCost(costs, os + [o], f, parse) == InRangeCost(costs, os, f, parse)
    ensures FilterOrders(os + [o], f, parse) == FilterOrders(os, f, parse)
  {
    if os == [] {
      assert [o][1..] == [];
    } else {
      assert (os + [o])[1..] == os[1..] + [o];
      InRangeAppendOut(costs, os[1..], o, f, parse);
    }
  }

  /** Storing an order that lies outside the range changes none of the
      four dashboard figures. */
  lemma OutOfRangeOrderIgnored(s: OrderStore, costs: ProductCosts.CostStore, o: Order, f: Filters, parse: DateParser)
    requires !HasOrder(s, o.id)
    requires !InFilter(o, f, parse)
    ensures var s' := Save(s, o).0;
            && |FindFiltered(s', f, parse)| == |FindFiltered(s, f, parse)|
            && Revenue(FindFiltered(s', f, parse)) == Revenue(FindFiltered(s, f, parse))
            && CostTotal(costs, FindFiltered(s', f, parse)) == CostTotal(costs, FindFiltered(s, f, parse))
  {
    var s' := Save(s, o).0;
    FindAllAfterSave(s, o);
    InRangeAppendOut(costs, FindAll(s), o, f, parse);
    DashboardSumsInRange(s, costs, f, parse);
    DashboardSumsInRange(s', costs, f, parse);
    var k := FilterOrders(FindAll(s), f, parse);
    assert |multiset(FindFiltered(s, f, parse))| == |multiset(k)|;
    assert |multiset(FindFiltered(s', f, parse))| == |multiset(k)|;
  }

  lemma {:induction false} ItemsCostNonNegative(costs: ProductCosts.CostStore, items: seq<OrderItem>)
    requires forall id :: id in costs ==> costs[id] >= 0
    requires forall k :: 0 <= k < |items| ==> items[k].quantity >= 0
    ensures ItemsCost(costs, items) >= 0
  {
    if items != [] {
      ItemsCostNonNegative(costs, items[1..]);
    }
  }

  lemma {:induction false} CostTotalNonNegative(costs: ProductCosts.CostStore, os: seq<Order>)
    requires forall id :: id in costs ==> costs[id] >= 0
    requires forall i, k :: 0 <= i < |os| && 0 <= k < |os[i].items| ==> os[i].items[k].quantity >= 0
    ensures CostTotal(costs, os) >= 0
  {
    if os != [] {
      ItemsCostNonNegative(costs, os[0].items);
      CostTotalNonNegative(costs, os[1..]);
    }
  }

  /** With non-negative costs and positive quantities (what the validators
      admit) the cost total is never negative. */
  lemma DashboardCostNonNegative(s: OrderStore, costs: ProductCosts.CostStore, f: Filters, parse: DateParser)
    requires forall id :: id in costs ==> costs[id] >= 0
    requires forall i, k :: 0 <= i < |s.orders| && 0 <= k < |s.orders[i].items| ==> s.orders[i].items[k].quantity >= 1
    ensures CostTotal(costs, FindFiltered(s, f, parse)) >= 0
  {
    var r := FindFiltered(s, f, parse);
    forall i, k | 0 <= i < |r| && 0 <= k < |r[i].items|
      ensures r[i].items[k].quantity >= 0
    {
      FindFilteredFromStore(s, f, parse, i);
    }
    CostTotalNonNegative(costs, r);
  }
}
