/** The order store: orders with their line items, created either from the
    web form (which computes the total) or from the e-commerce webhook
    (which trusts the caller's total and timestamp), listed, and filtered
    by an inclusive date range, newest first. */
module Orders {
  import opened Common
  import opened DateRange
  import opened Decimal
  import opened Sorting

  /** A line item as the API receives and returns it. */
  datatype OrderItem = OrderItem(productId: string, productName: string, quantity: int, unitPrice: Cents)

  /** An order as the API receives it from the webhook and returns it from
      `findAll`. */
  datatype Order = Order(
    id: string,
    externalId: string,
    buyerName: string,
    buyerEmail: string,
    totalAmount: Cents,
    createdAt: string,
    items: seq<OrderItem>)

  /** An `order_item` row: the API item plus its serial key and the key of
      the order it belongs to. */
  datatype StoredItem = StoredItem(rowId: nat, orderId: string, productId: string, productName: string, quantity: int, unitPrice: Cents)

  /** An `order` row with its items loaded. */
  datatype StoredOrder = StoredOrder(
    id: string,
    externalId: string,
    buyerName: string,
    buyerEmail: string,
    totalAmount: Cents,
    createdAt: string,
    items: seq<StoredItem>)

  /** The `order` and `order_item` tables, orders in the order `find()`
      lists them; `nextRowId` is the next value of the item key sequence. */
  datatype OrderStore = OrderStore(orders: seq<StoredOrder>, nextRowId: nat)

  const Empty := OrderStore([], 1)

  /** The body of `POST /orders`. */
  datatype CreateOrderDto = CreateOrderDto(buyerName: string, buyerEmail: string, items: seq<OrderItem>)

  /** The numeric constraints the DTO validation enforces before the service
      runs: at least one item, each with quantity at least 1 and a
      non-negative unit price. */
  predicate ValidDto(dto: CreateOrderDto) {
    && |dto.items| >= 1
    && forall i :: 0 <= i < |dto.items| ==> dto.items[i].quantity >= 1 && dto.items[i].unitPrice >= 0
  }

  predicate HasOrder(s: OrderStore, id: string) {
    exists i :: 0 <= i < |s.orders| && s.orders[i].id == id
  }

  /** Order keys are unique and every item row points at its own order. */
  predicate Valid(s: OrderStore) {
    && (forall i, j :: 0 <= i < j < |s.orders| ==> s.orders[i].id != s.orders[j].id)
    && (forall i, k :: 0 <= i < |s.orders| && 0 <= k < |s.orders[i].items| ==>
          s.orders[i].items[k].orderId == s.orders[i].id)
  }

  /** `unitPrice * quantity`. */
  function LineTotal(item: OrderItem): int {
    item.unitPrice * item.quantity
  }

  /** `items.reduce((acc, item) => acc + item.unitPrice * item.quantity, 0)`,
      exact in cents. */
  function ItemsTotal(items: seq<OrderItem>): int {
    if items == [] then 0 else ItemsTotal(items[..|items| - 1]) + LineTotal(items[|items| - 1])
  }

  /** The total of a concatenation is the sum of the totals. */
  lemma {:induction false} ItemsTotalConcat(a: seq<OrderItem>, b: seq<OrderItem>)
    ensures ItemsTotal(a + b) == ItemsTotal(a) + ItemsTotal(b)
  {
    if b != [] {
      assert (a + b)[..|a + b| - 1] == a + b[..|b| - 1];
      ItemsTotalConcat(a, b[..|b| - 1]);
    } else {
      assert a + b == a;
    }
  }

  /** Quantities of at least 1 and non-negative prices give a total that is
      at least every single line. */
  lemma {:induction false} ItemsTotalBounds(items: seq<OrderItem>)
    requires forall i :: 0 <= i < |items| ==> items[i].quantity >= 1 && items[i].unitPrice >= 0
    ensures ItemsTotal(items) >= 0
    ensures forall i :: 0 <= i < |items| ==> ItemsTotal(items) >= LineTotal(items[i])
  {
    if items != [] {
      var init := items[..|items| - 1];
      ItemsTotalBounds(init);
      assert forall i :: 0 <= i < |init| ==> init[i] == items[i];
    }
  }

  /** The item rows `save` inserts for `items`, keys counting up from `rowId`. */
  function ItemRows(rowId: nat, orderId: string, items: seq<OrderItem>): (r: seq<StoredItem>)
    ensures |r| == |items|
    ensures forall k :: 0 <= k < |r| ==> r[k].rowId == rowId + k && r[k].orderId == orderId
  {
    seq(|items|, k requires 0 <= k < |items| =>
      StoredItem(rowId + k, orderId, items[k].productId, items[k].productName, items[k].quantity, items[k].unitPrice))
  }

  /** The `findAll` view of one item row: the key columns dropped, the
      other four fields kept. */
  function ItemView(it: StoredItem): OrderItem {
    OrderItem(it.productId, it.productName, it.quantity, it.unitPrice)
  }

  /** The `findAll` view of one order row. */
  function OrderView(o: StoredOrder): Order {
    Order(o.id, o.externalId, o.buyerName, o.buyerEmail, o.totalAmount, o.createdAt,
          seq(|o.items|, k requires 0 <= k < |o.items| => ItemView(o.items[k])))
  }

  /** `orderRepo.save` of a new order with cascaded items, as one atomic
      update. The id comes from `randomUUID()` and is taken to be fresh. */
  function Save(s: OrderStore, o: Order): (r: (OrderStore, StoredOrder))
    requires !HasOrder(s, o.id)
    ensures r.0.orders == s.orders + [r.1]
    ensures r.0.nextRowId == s.nextRowId + |o.items|
    ensures OrderView(r.1) == o
    ensures forall k :: 0 <= k < |r.1.items| ==> r.1.items[k].orderId == o.id
    ensures Valid(s) ==> Valid(r.0)
  {
    var row := StoredOrder(o.id, o.externalId, o.buyerName, o.buyerEmail, o.totalAmount, o.createdAt,
                           ItemRows(s.nextRowId, o.id, o.items));
    assert OrderView(row).items == o.items;
    (OrderStore(s.orders + [row], s.nextRowId + |o.items|), row)
  }

  /** `findAll`: every stored order, in store order, with its items; only the
      item key columns are dropped (the numeric conversion of the decimal
      columns is the identity on cents). */
  function FindAll(s: OrderStore): (r: seq<Order>)
    ensures |r| == |s.orders|
    ensures forall i :: 0 <= i < |r| ==>
              var o := s.orders[i];
              && r[i].id == o.id && r[i].externalId == o.externalId
              && r[i].buyerName == o.buyerName && r[i].buyerEmail == o.buyerEmail
              && r[i].totalAmount == o.totalAmount && r[i].createdAt == o.createdAt
              && |r[i].items| == |o.items|
              && forall k :: 0 <= k < |o.items| ==>
                   && r[i].items[k].productId == o.items[k].productId
                   && r[i].items[k].productName == o.items[k].productName
                   && r[i].items[k].quantity == o.items[k].quantity
                   && r[i].items[k].unitPrice == o.items[k].unitPrice
  {
    seq(|s.orders|, i requires 0 <= i < |s.orders| => OrderView(s.orders[i]))
  }

  /** Saving an order makes `findAll` list it last, exactly as given, and
      changes no earlier entry. */
  lemma FindAllAfterSave(s: OrderStore, o: Order)
    requires !HasOrder(s, o.id)
    ensures FindAll(Save(s, o).0) == FindAll(s) + [o]
  {
    var s' := Save(s, o).0;
    assert forall i :: 0 <= i < |s.orders| ==> s'.orders[i] == s.orders[i];
  }

  /** `createFromWebhook`: the order is stored as given, with the caller's
      total and timestamp and no recomputation from the items. */
  function CreateFromWebhook(s: OrderStore, data: Order): (r: (OrderStore, StoredOrder))
    requires !HasOrder(s, data.id)
    ensures r.1.totalAmount == data.totalAmount && r.1.createdAt == data.createdAt
    ensures r.1.id == data.id && r.1.externalId == data.externalId
    ensures r.0.orders == s.orders + [r.1]
    ensures FindAll(r.0) == FindAll(s) + [data]
  {
    FindAllAfterSave(s, data);
    Save(s, data)
  }

  /** `createFromDto`: a new order with a fresh id, the external id
      `WEB-<epoch millis>`, the buyer copied, the total computed from the
      items, the creation instant `nowIso`, and the items copied in order. */
  function CreateFromDto(s: OrderStore, dto: CreateOrderDto, freshId: string, nowMillis: nat, nowIso: string): (r: (OrderStore, StoredOrder))
    requires ValidDto(dto)
    requires !HasOrder(s, freshId)
    ensures r.0.orders == s.orders + [r.1]
    ensures r.1.id == freshId && r.1.createdAt == nowIso
    ensures r.1.buyerName == dto.buyerName && r.1.buyerEmail == dto.buyerEmail
    ensures r.1.totalAmount == ItemsTotal(dto.items) && r.1.totalAmount >= 0
    ensures |r.1.externalId| > 4 && r.1.externalId[..4] == "WEB-"
    ensures AllDigits(r.1.externalId[4..]) && DigitsValue(r.1.externalId[4..]) == nowMillis
    ensures OrderView(r.1).items == dto.items
  {
    var o := Order(freshId, "WEB-" + NatToString(nowMillis), dto.buyerName, dto.buyerEmail,
                   ItemsTotal(dto.items), nowIso, dto.items);
    ItemsTotalBounds(dto.items);
    NatToStringRoundTrip(nowMillis);
    assert o.externalId[4..] == NatToString(nowMillis);
    Save(s, o)
  }

  /** The query of `GET /orders` and `GET /dashboard`. */
  datatype Filters = Filters(startDate: Option<string>, endDate: Option<string>)

  const NoFilters := Filters(None, None)

  /** The `findFiltered` predicate: a bound applies only when its string is
      truthy, and the order is dropped only when strictly outside it. */
  predicate InFilter(o: Order, f: Filters, parse: DateParser) {
    var date := parse(o.createdAt);
    if Truthy(f.startDate) && Before(date, parse(f.startDate.value)) then false
    else if Truthy(f.endDate) && After(date, parse(f.endDate.value)) then false
    else true
  }

  /** The range the filters denote. */
  function RangeOf(f: Filters, parse: DateParser): Range {
    Range(if Truthy(f.startDate) then Some(parse(f.startDate.value)) else None,
          if Truthy(f.endDate) then Some(parse(f.endDate.value)) else None)
  }

  /** The inline filter of `findFiltered` is `isWithinRange` on the order's
      date and the range its filters denote. */
  lemma InFilterIsWithinRange(o: Order, f: Filters, parse: DateParser)
    ensures InFilter(o, f, parse) <==> IsWithinRange(parse(o.createdAt), RangeOf(f, parse))
  {
  }

  /** `orders.filter(...)`: the orders that pass, in their original order. */
  function FilterOrders(os: seq<Order>, f: Filters, parse: DateParser): (r: seq<Order>)
    ensures |r| <= |os|
    ensures forall i :: 0 <= i < |r| ==> r[i] in os && InFilter(r[i], f, parse)
    ensures forall i :: 0 <= i < |os| && InFilter(os[i], f, parse) ==> os[i] in r
  {
    if os == [] then []
    else
      var rest := FilterOrders(os[1..], f, parse);
      assert forall i :: 1 <= i < |os| ==> os[i] == os[1..][i - 1];
      if InFilter(os[0], f, parse) then [os[0]] + rest else rest
  }

  /** The filter read from the other end: a further order is kept after
      the earlier ones exactly when it passes. Together with the empty
      case this fixes the filter's order and multiplicity completely. */
  lemma {:induction false} FilterOrdersAppend(os: seq<Order>, o: Order, f: Filters, parse: DateParser)
    ensures FilterOrders(os + [o], f, parse)
         == FilterOrders(os, f, parse) + (if InFilter(o, f, parse) then [o] else [])
  {
    var x: seq<Order> := if InFilter(o, f, parse) then [o] else [];
    var t := os + [o];
    if os == [] {
      assert t == [o] && t[1..] == [];
    } else {
      assert t[0] == os[0] && t[1..] == os[1..] + [o];
      FilterOrdersAppend(os[1..], o, f, parse);
      var rest := FilterOrders(os[1..], f, parse);
      if InFilter(os[0], f, parse) {
        assert FilterOrders(t, f, parse) == [os[0]] + (rest + x);
        assert [os[0]] + (rest + x) == ([os[0]] + rest) + x;
      } else {
        assert FilterOrders(t, f, parse) == rest + x;
      }
    }
  }

  /** Each order passing the filter is kept as many times as it occurs,
      and every other order not at all. */
  lemma {:induction false} FilterOrdersCount(os: seq<Order>, o: Order, f: Filters, parse: DateParser)
    ensures multiset(FilterOrders(os, f, parse))[o] == if InFilter(o, f, parse) then multiset(os)[o] else 0
  {
    if os != [] {
      FilterOrdersCount(os[1..], o, f, parse);
      assert os == [os[0]] + os[1..];
      assert multiset(os)[o] == multiset([os[0]])[o] + multiset(os[1..])[o];
    }
  }

  /** Without filters every order passes, so nothing is dropped or moved. */
  lemma {:induction false} FilterNoFilters(os: seq<Order>, f: Filters, parse: DateParser)
    requires !Truthy(f.startDate) && !Truthy(f.endDate)
    ensures FilterOrders(os, f, parse) == os
  {
    if os != [] {
      FilterNoFilters(os[1..], f, parse);
      assert [os[0]] + os[1..] == os;
    }
  }

  /** `new Date(o.createdAt).getTime()`, with an Invalid Date placed at 0. */
  function TimeKey(parse: DateParser, o: Order): int {
    match parse(o.createdAt)
    case Some(t) => t
    case None => 0
  }

  function OrderKey(parse: DateParser): Order -> int {
    (o: Order) => TimeKey(parse, o)
  }

  /** `findFiltered`: the orders of `findAll` within the range, newest
      first, ties in store order. */
  function FindFiltered(s: OrderStore, f: Filters, parse: DateParser): (r: seq<Order>)
    ensures forall i :: 0 <= i < |r| ==> InFilter(r[i], f, parse) && r[i] in FindAll(s)
    ensures forall i :: 0 <= i < |s.orders| && InFilter(FindAll(s)[i], f, parse) ==> FindAll(s)[i] in r
    ensures !Truthy(f.startDate) && !Truthy(f.endDate) ==> multiset(r) == multiset(FindAll(s))
    ensures multiset(r) == multiset(FilterOrders(FindAll(s), f, parse))
    ensures forall i, j :: 0 <= i < j < |r| ==> TimeKey(parse, r[i]) >= TimeKey(parse, r[j])
  {
    var all := FindAll(s);
    var kept := FilterOrders(all, f, parse);
    var r := SortDesc(kept, OrderKey(parse));
    SortDescMembers(kept, OrderKey(parse));
    if !Truthy(f.startDate) && !Truthy(f.endDate) then
      FilterNoFilters(all, f, parse);
      r
    else r
  }

  /** With no filters every stored order is listed, once each. */
  lemma FindFilteredNoFilters(s: OrderStore, f: Filters, parse: DateParser)
    requires !Truthy(f.startDate) && !Truthy(f.endDate)
    ensures |FindFiltered(s, f, parse)| == |s.orders|
  {
    var r := FindFiltered(s, f, parse);
    assert |multiset(r)| == |multiset(FindAll(s))|;
  }

  /** Every listed order comes from a stored row with the same creation
      string. */
  lemma FindFilteredFromStore(s: OrderStore, f: Filters, parse: DateParser, i: nat)
    requires i < |FindFiltered(s, f, parse)|
    ensures exists k :: 0 <= k < |s.orders| && FindFiltered(s, f, parse)[i] == OrderView(s.orders[k])
  {
    var r := FindFiltered(s, f, parse);
    assert r[i] in FindAll(s);
    var k :| 0 <= k < |FindAll(s)| && FindAll(s)[k] == r[i];
    assert FindAll(s)[k] == OrderView(s.orders[k]);
  }

  /** When every stored creation string is a valid date, the listing is
      newest first by those dates. */
  lemma FindFilteredNewestFirst(s: OrderStore, f: Filters, parse: DateParser)
    requires forall k :: 0 <= k < |s.orders| ==> parse(s.orders[k].createdAt).Some?
    ensures var r := FindFiltered(s, f, parse);
            forall i, j :: 0 <= i < j < |r| ==>
              && parse(r[i].createdAt).Some? && parse(r[j].createdAt).Some?
              && parse(r[i].createdAt).value >= parse(r[j].createdAt).value
  {
    var r := FindFiltered(s, f, parse);
    forall i | 0 <= i < |r|
      ensures parse(r[i].createdAt).Some?
    {
      FindFilteredFromStore(s, f, parse, i);
    }
  }

  /** Orders with equal timestamps keep their store order: for every
      timestamp, the listed orders carrying it are exactly the filtered
      ones carrying it, in the same order. */
  lemma FindFilteredStable(s: OrderStore, f: Filters, parse: DateParser, t: int)
    ensures WithKey(FindFiltered(s, f, parse), OrderKey(parse), t)
         == WithKey(FilterOrders(FindAll(s), f, parse), OrderKey(parse), t)
  {
    SortDescStable(FilterOrders(FindAll(s), f, parse), OrderKey(parse), t);
  }
}
