/** The new-order form of the web UI: the buyer fields and a list of item
    drafts edited in place (update one field set, add a blank item, remove
    one), the running total, the submit guard and the payload sent to
    `POST /orders`. The page and the order dialog carry identical copies of
    these helpers; both are modelled by the one definition here. */
module OrderDraft {
  import opened Common
  import opened Orders

  /** The blank item a new line starts from. */
  const DefaultItem := OrderItem("", "", 1, 0)

  /** A `Partial<CreateOrderItemInput>`: the fields to overwrite. */
  datatype ItemPatch = ItemPatch(
    productId: Option<string>,
    productName: Option<string>,
    quantity: Option<int>,
    unitPrice: Option<Cents>)

  const NoChange := ItemPatch(None, None, None, None)

  function Pick<T>(o: Option<T>, keep: T): T {
    match o
    case Some(v) => v
    case None => keep
  }

  /** `{ ...item, ...partial }`. */
  function ApplyPatch(item: OrderItem, p: ItemPatch): OrderItem {
    OrderItem(Pick(p.productId, item.productId), Pick(p.productName, item.productName),
              Pick(p.quantity, item.quantity), Pick(p.unitPrice, item.unitPrice))
  }

  /** Spreading a patch twice is spreading it once, and an empty patch
      changes nothing. */
  lemma ApplyPatchIdempotent(item: OrderItem, p: ItemPatch)
    ensures ApplyPatch(ApplyPatch(item, p), p) == ApplyPatch(item, p)
    ensures ApplyPatch(item, NoChange) == item
  {
  }

  /** `items.map((item, i) => i === index ? { ...item, ...partial } : item)`
      over the suffix `items` whose first element has position `k`. */
  function UpdateFrom(items: seq<OrderItem>, k: int, index: int, p: ItemPatch): (r: seq<OrderItem>)
    ensures |r| == |items|
    ensures forall i :: 0 <= i < |items| && k + i != index ==> r[i] == items[i]
    ensures forall i :: 0 <= i < |items| && k + i == index ==> r[i] == ApplyPatch(items[i], p)
  {
    if items == [] then []
    else [if k == index then ApplyPatch(items[0], p) else items[0]] + UpdateFrom(items[1..], k + 1, index, p)
  }

  /** `updateOrderItem(index, partial)` / `updateItem(index, partial)`. */
  function UpdateItem(items: seq<OrderItem>, index: int, p: ItemPatch): (r: seq<OrderItem>)
    ensures |r| == |items|
    ensures 0 <= index < |items| ==> r == items[index := ApplyPatch(items[index], p)]
    ensures !(0 <= index < |items|) ==> r == items
  {
    UpdateFrom(items, 0, index, p)
  }

  /** `addOrderItem` / `addItem`. */
  function AddItem(items: seq<OrderItem>): (r: seq<OrderItem>)
    ensures |r| == |items| + 1 && r[..|items|] == items
    ensures r[|items|] == DefaultItem
  {
    items + [DefaultItem]
  }

  /** `prev.filter((_, i) => i !== index)` over the suffix `items` whose
      first element has position `k`. */
  function RemoveFrom(items: seq<OrderItem>, k: int, index: int): (r: seq<OrderItem>)
    ensures k <= index < k + |items| ==> r == items[..index - k] + items[index - k + 1..]
    ensures !(k <= index < k + |items|) ==> r == items
  {
    if items == [] then []
    else if k == index then RemoveFrom(items[1..], k + 1, index)
    else
      var rest := RemoveFrom(items[1..], k + 1, index);
      assert k < index < k + |items| ==> items[..index - k] == [items[0]] + items[1..][..index - k - 1];
      [items[0]] + rest
  }

  /** `removeOrderItem(index)` / `removeItem(index)`: exactly the item at
      `index` goes, the others keep their order; an index outside the list
      removes nothing. */
  function RemoveItem(items: seq<OrderItem>, index: int): (r: seq<OrderItem>)
    ensures 0 <= index < |items| ==> r == items[..index] + items[index + 1..]
    ensures 0 <= index < |items| ==> |r| == |items| - 1
    ensures !(0 <= index < |items|) ==> r == items
  {
    RemoveFrom(items, 0, index)
  }

  /** Removing the line just added restores the list. */
  lemma RemoveAddedItem(items: seq<OrderItem>)
    ensures RemoveItem(AddItem(items), |items|) == items
  {
    assert AddItem(items)[..|items|] == items;
  }

  /** Adding a line adds one blank item after the existing ones and leaves
      the total alone, since a blank item is worth nothing. */
  lemma AddItemTotal(items: seq<OrderItem>)
    ensures |AddItem(items)| == |items| + 1 && AddItem(items)[..|items|] == items
    ensures AddItem(items)[|items|] == DefaultItem
    ensures ItemsTotal(AddItem(items)) == ItemsTotal(items)
  {
    assert AddItem(items)[..|items|] == items;
  }

  lemma SplitAt<T>(s: seq<T>, i: int)
    requires 0 <= i < |s|
    ensures s == s[..i] + [s[i]] + s[i + 1..]
  {
  }

  lemma ItemsTotalSplit(a: seq<OrderItem>, x: OrderItem, b: seq<OrderItem>)
    ensures ItemsTotal(a + [x] + b) == ItemsTotal(a) + LineTotal(x) + ItemsTotal(b)
  {
    ItemsTotalConcat(a + [x], b);
    ItemsTotalConcat(a, [x]);
    assert [x][..0] == [];
  }

  /** Removing a line takes exactly its `unitPrice * quantity` off the
      total. */
  lemma RemoveItemTotal(items: seq<OrderItem>, index: int)
    requires 0 <= index < |items|
    ensures ItemsTotal(RemoveItem(items, index)) == ItemsTotal(items) - LineTotal(items[index])
  {
    var a, b := items[..index], items[index + 1..];
    SplitAt(items, index);
    ItemsTotalSplit(a, items[index], b);
    ItemsTotalConcat(a, b);
  }

  /** Updating a line changes the total by the difference of its line
      totals before and after. */
  lemma UpdateItemTotal(items: seq<OrderItem>, index: int, p: ItemPatch)
    requires 0 <= index < |items|
    ensures ItemsTotal(UpdateItem(items, index, p))
         == ItemsTotal(items) - LineTotal(items[index]) + LineTotal(ApplyPatch(items[index], p))
  {
    var x := ApplyPatch(items[index], p);
    var a, b := items[..index], items[index + 1..];
    SplitAt(items, index);
    SplitAt(UpdateItem(items, index, p), index);
    ItemsTotalSplit(a, items[index], b);
    ItemsTotalSplit(a, x, b);
  }

  /** `orderTotal` / `total`: `items.reduce((acc, item) => acc +
      item.unitPrice * item.quantity, 0)`, the same sum the backend stores
      for an order made from the form. */
  method DraftTotal(items: seq<OrderItem>) returns (total: int)
    ensures total == ItemsTotal(items)
  {
    total := 0;
    var i := 0;
    while i < |items|
      invariant 0 <= i <= |items|
      invariant total == ItemsTotal(items[..i])
    {
      assert items[..i + 1][..i] == items[..i];
      total := total + items[i].unitPrice * items[i].quantity;
      i := i + 1;
    }
    assert items[..|items|] == items;
  }

  /** The form's state: buyer name, buyer email and the item lines. */
  datatype OrderForm = OrderForm(buyerName: string, buyerEmail: string, items: seq<OrderItem>)

  /** The state `openOrderDialog` and `handleClose` put the form in. */
  const Fresh := OrderForm("", "", [DefaultItem])

  /** `canSubmitOrder` / `canSubmit`. */
  predicate CanSubmit(d: OrderForm) {
    && Trim(d.buyerName) != ""
    && Trim(d.buyerEmail) != ""
    && |d.items| > 0
    && forall i :: 0 <= i < |d.items| ==>
         d.items[i].productId != "" && d.items[i].quantity >= 1 && d.items[i].unitPrice >= 0
  }

  /** The body sent to `POST /orders`: trimmed buyer fields, the lines
      copied field by field in order. */
  function Payload(d: OrderForm): CreateOrderDto {
    CreateOrderDto(Trim(d.buyerName), Trim(d.buyerEmail),
                   seq(|d.items|, i requires 0 <= i < |d.items| =>
                     OrderItem(d.items[i].productId, d.items[i].productName, d.items[i].quantity, d.items[i].unitPrice)))
  }

  /** `handleSubmit`: send the payload, then reset the form once
      `onSubmit` resolves; `accepted` is whether it did. A rejected
      submission leaves the form as it was. */
  function HandleSubmit(d: OrderForm, accepted: bool): (r: (CreateOrderDto, OrderForm))
    ensures r.0.items == d.items
    ensures r.0.buyerName == Trim(d.buyerName) && r.0.buyerEmail == Trim(d.buyerEmail)
    ensures accepted ==> r.1.buyerName == "" && r.1.buyerEmail == "" && r.1.items == [DefaultItem]
    ensures !accepted ==> r.1 == d
  {
    (Payload(d), if accepted then Fresh else d)
  }

  /** The submit guard is the backend's numeric validation of the payload
      together with non-blank buyer fields and a product on every line:
      whenever the button is enabled the service accepts the numbers, and
      conversely. */
  lemma CanSubmitIffValidPayload(d: OrderForm)
    ensures CanSubmit(d) <==>
            && ValidDto(Payload(d))
            && Payload(d).buyerName != "" && Payload(d).buyerEmail != ""
            && forall i :: 0 <= i < |Payload(d).items| ==> Payload(d).items[i].productId != ""
  {
    var p := Payload(d);
    PayloadFields(d, p);
    GuardIff(d, p);
  }

  /** The submit guard, against any payload with the form's fields. */
  lemma GuardIff(d: OrderForm, p: CreateOrderDto)
    requires p.items == d.items
    requires p.buyerName == Trim(d.buyerName) && p.buyerEmail == Trim(d.buyerEmail)
    ensures CanSubmit(d) <==>
            && ValidDto(p) && p.buyerName != "" && p.buyerEmail != ""
            && forall i :: 0 <= i < |p.items| ==> p.items[i].productId != ""
  {
  }

  lemma PayloadFields(d: OrderForm, p: CreateOrderDto)
    requires p == Payload(d)
    ensures p.items == d.items
    ensures p.buyerName == Trim(d.buyerName) && p.buyerEmail == Trim(d.buyerEmail)
  {
    assert p.items == d.items;
  }

  /** A freshly opened form cannot be submitted (its one line has no
      product yet), and shows a total of 0. */
  lemma FreshForm()
    ensures !CanSubmit(Fresh)
    ensures ItemsTotal(Fresh.items) == 0
    ensures |Fresh.items| == 1 && Fresh.items[0].quantity == 1
  {
    assert Fresh.items[..0] == [];
  }

  /** The total the form shows is the total the backend stores for the
      order it creates from the submitted payload. */
  lemma SubmittedTotalMatches(s: OrderStore, d: OrderForm, freshId: string, nowMillis: nat, nowIso: string)
    requires CanSubmit(d)
    requires !HasOrder(s, freshId)
    ensures ValidDto(HandleSubmit(d, true).0)
    ensures CreateFromDto(s, HandleSubmit(d, true).0, freshId, nowMillis, nowIso).1.totalAmount == ItemsTotal(d.items)
    ensures OrderView(CreateFromDto(s, HandleSubmit(d, true).0, freshId, nowMillis, nowIso).1).items == d.items
    ensures HandleSubmit(d, true).1 == Fresh
  {
    CanSubmitIffValidPayload(d);
  }
}
