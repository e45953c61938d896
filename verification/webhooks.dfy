/** The e-commerce webhook: the platform's order payload is renamed field
    by field into an order and stored as given. */
module Webhooks {
  import opened Common
  import opened Orders

  datatype Buyer = Buyer(buyerName: string, buyerEmail: string)

  datatype LineItem = LineItem(itemId: string, itemName: string, qty: int, unitPrice: Cents)

  /** The body of `POST /webhooks/orders`. */
  datatype WebhookPayload = WebhookPayload(
    id: string,
    buyer: Buyer,
    lineItems: seq<LineItem>,
    totalAmount: Cents,
    createdAt: string)

  function ItemOf(li: LineItem): OrderItem {
    OrderItem(li.itemId, li.itemName, li.qty, li.unitPrice)
  }

  /** The payload-to-order mapping of `createOrder`: a fresh internal id,
      the platform's id as the external id, the buyer unnested, total and
      timestamp passed through, and each line item renamed in place. */
  function ToOrder(body: WebhookPayload, freshId: string): (o: Order)
    ensures o.id == freshId && o.externalId == body.id
    ensures o.buyerName == body.buyer.buyerName && o.buyerEmail == body.buyer.buyerEmail
    ensures o.totalAmount == body.totalAmount && o.createdAt == body.createdAt
    ensures |o.items| == |body.lineItems|
    ensures forall k :: 0 <= k < |o.items| ==>
              && o.items[k].productId == body.lineItems[k].itemId
              && o.items[k].productName == body.lineItems[k].itemName
              && o.items[k].quantity == body.lineItems[k].qty
              && o.items[k].unitPrice == body.lineItems[k].unitPrice
  {
    Order(freshId, body.id, body.buyer.buyerName, body.buyer.buyerEmail, body.totalAmount, body.createdAt,
          seq(|body.lineItems|, k requires 0 <= k < |body.lineItems| => ItemOf(body.lineItems[k])))
  }

  /** The reverse renaming, from an order back to the platform's shape. */
  function PayloadOf(o: Order): WebhookPayload {
    WebhookPayload(o.externalId, Buyer(o.buyerName, o.buyerEmail),
                   seq(|o.items|, k requires 0 <= k < |o.items| =>
                     LineItem(o.items[k].productId, o.items[k].productName, o.items[k].quantity, o.items[k].unitPrice)),
                   o.totalAmount, o.createdAt)
  }

  /** The mapping loses nothing of the payload: renaming back gives it
      again. */
  lemma ToOrderRoundTrip(body: WebhookPayload, freshId: string)
    ensures PayloadOf(ToOrder(body, freshId)) == body
  {
    assert PayloadOf(ToOrder(body, freshId)).lineItems == body.lineItems;
  }

  /** `createOrder`: map the payload and store it through
      `createFromWebhook`. */
  function CreateOrder(s: OrderStore, body: WebhookPayload, freshId: string): (r: (OrderStore, StoredOrder))
    requires !HasOrder(s, freshId)
    ensures FindAll(r.0) == FindAll(s) + [ToOrder(body, freshId)]
    ensures PayloadOf(FindAll(r.0)[|s.orders|]) == body
  {
    ToOrderRoundTrip(body, freshId);
    CreateFromWebhook(s, ToOrder(body, freshId))
  }

  /** The webhook validation sets no minimum on `lineItems`, so a payload
      without items is stored as an order without items, its total kept. */
  lemma EmptyPayloadStored(s: OrderStore, body: WebhookPayload, freshId: string)
    requires !HasOrder(s, freshId)
    requires body.lineItems == []
    ensures var o := FindAll(CreateOrder(s, body, freshId).0)[|s.orders|];
            o.items == [] && o.totalAmount == body.totalAmount
  {
  }
}
