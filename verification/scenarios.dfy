/** Worked examples: the demo data the database is seeded with, and a
    one-order scenario in which an item without a cost row makes the
    profit negative. */
module Scenarios {
  import opened Common
  import opened DateRange
  import opened Orders
  import opened Dashboard
  import ProductCosts

  /** The three seeded orders, as the API lists them. */
  const Order1 := Order("seed-order-1", "ORD-10001", "Maria Souza", "maria@email.com", 11970, "2025-02-10T14:32:00Z",
    [OrderItem("P-001", "Camiseta Básica", 2, 4990), OrderItem("P-002", "Caneca Personalizada", 1, 1990)])
  const Order2 := Order("seed-order-2", "ORD-10002", "João Silva", "joao@email.com", 5425, "2025-02-11T09:15:00Z",
    [OrderItem("P-003", "Adesivo Logo", 5, 485), OrderItem("P-004", "Boné Snapback", 1, 3000)])
  const Order3 := Order("seed-order-3", "ORD-10003", "Ana Costa", "ana@email.com", 7460, "2025-02-12T16:45:00Z",
    [OrderItem("P-005", "Chaveiro Metal", 3, 820), OrderItem("P-001", "Camiseta Básica", 1, 4990)])

  /** The seeded tables: the three orders inserted in turn, their six item
      rows numbered 1 to 6. */
  function SeedStore(): (s: OrderStore)
    ensures FindAll(s) == [Order1, Order2, Order3]
    ensures |s.orders| == 3 && s.nextRowId == 7
  {
    var s1 := CreateFromWebhook(Empty, Order1).0;
    var s2 := CreateFromWebhook(s1, Order2).0;
    var s3 := CreateFromWebhook(s2, Order3).0;
    s3
  }

  /** The seeded cost rows. */
  const SeedCosts: ProductCosts.CostStore :=
    map["P-001" := 2000, "P-002" := 850, "P-003" := 120, "P-004" := 1500, "P-005" := 300]

  lemma SeedOrderCosts()
    ensures ItemsCost(SeedCosts, Order1.items) == 4850
    ensures ItemsCost(SeedCosts, Order2.items) == 2100
    ensures ItemsCost(SeedCosts, Order3.items) == 2900
  {
    assert Order1.items[1..][1..] == [];
    assert Order2.items[1..][1..] == [];
    assert Order3.items[1..][1..] == [];
  }

  /** The unfiltered dashboard over the seed: 3 orders, revenue 248.55,
      cost 98.50, profit 150.05, whatever the date parser. */
  lemma SeedDashboard(parse: DateParser)
    ensures |FindFiltered(SeedStore(), NoFilters, parse)| == 3
    ensures Revenue(FindFiltered(SeedStore(), NoFilters, parse)) == 24855
    ensures CostTotal(SeedCosts, FindFiltered(SeedStore(), NoFilters, parse)) == 9850
    ensures Revenue(FindFiltered(SeedStore(), NoFilters, parse))
          - CostTotal(SeedCosts, FindFiltered(SeedStore(), NoFilters, parse)) == 15005
  {
    var s := SeedStore();
    DashboardNoFiltersCountsAll(s, NoFilters, parse);
    DashboardSumsInRange(s, SeedCosts, NoFilters, parse);
    SeedOrderCosts();
    var all := [Order1, Order2, Order3];
    assert all[1..] == [Order2, Order3] && all[1..][1..] == [Order3] && all[1..][1..][1..] == [];
    assert InRangeRevenue([Order3], NoFilters, parse) == 7460;
    assert InRangeCost(SeedCosts, [Order3], NoFilters, parse) == 2900;
  }

  /** The third seeded order stores 74.60 while its items add up to 74.50:
      "total equals the sum of the items" is not an invariant of the store,
      only a property of orders created from the web form. */
  lemma SeedTotalDiffersFromItems()
    ensures var o := FindAll(SeedStore())[2];
            o.totalAmount == 7460 && ItemsTotal(o.items) == 7450
  {
    var items := Order3.items;
    assert items[..1] == [items[0]];
    assert items[..1][..0] == [];
    assert ItemsTotal(items[..1]) == 2460;
  }

  /** Products P1 (cost 10.00) and P2 (no cost); one order of P1 x 2 and
      P2 x 1 at 5.00 each: total 15.00, and a dashboard over that order
      alone shows revenue 15.00, cost 20.00 and profit -5.00. */
  lemma OneOrderScenario(parse: DateParser, freshId: string, nowMillis: nat, nowIso: string)
    ensures var dto := CreateOrderDto("Buyer", "buyer@example.com",
                                      [OrderItem("P1", "One", 2, 500), OrderItem("P2", "Two", 1, 500)]);
            var s := CreateFromDto(Empty, dto, freshId, nowMillis, nowIso).0;
            var costs: ProductCosts.CostStore := map["P1" := 1000];
            && s.orders[0].totalAmount == 1500
            && Revenue(FindFiltered(s, NoFilters, parse)) == 1500
            && CostTotal(costs, FindFiltered(s, NoFilters, parse)) == 2000
  {
    var items := [OrderItem("P1", "One", 2, 500), OrderItem("P2", "Two", 1, 500)];
    var dto := CreateOrderDto("Buyer", "buyer@example.com", items);
    var r := CreateFromDto(Empty, dto, freshId, nowMillis, nowIso);
    var s := r.0;
    var costs: ProductCosts.CostStore := map["P1" := 1000];
    assert items[..1] == [items[0]];
    assert items[..1][..0] == [];
    assert ItemsTotal(items[..1]) == 1000;
    assert ItemsTotal(items) == 1500;
    assert items[1..][1..] == [];
    assert ItemsCost(costs, items) == 2000;
    var all := FindAll(s);
    assert all == [OrderView(r.1)];
    assert all[0].items == items;
    assert all[1..] == [];
    DashboardSumsInRange(s, costs, NoFilters, parse);
  }
}
