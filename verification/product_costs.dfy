/** The product-cost store: at most one cost per product id, upserted, and
    the product list joined with it for the costs screen. */
module ProductCosts {
  import opened Common
  import opened Products

  /** A cost row: `{ productId, cost }`. */
  datatype ProductCost = ProductCost(productId: string, cost: Cents)

  /** A row of the costs screen; `cost` is None (`null`) when unset. */
  datatype ProductCostView = ProductCostView(productId: string, productName: string, cost: Option<Cents>)

  /** The `product_cost` table, keyed by product id. */
  type CostStore = map<string, Cents>

  /** Every cost row belongs to a stored product (costs are only written by
      `Upsert`, which checks, and products are never deleted). */
  predicate CostsOfKnownProducts(products: ProductStore, costs: CostStore) {
    forall id :: id in costs ==> HasId(products, id)
  }

  /** `findByProductId`: the cost row, or nothing when none was stored. */
  function FindByProductId(costs: CostStore, productId: string): (r: Option<ProductCost>)
    ensures r.None? <==> productId !in costs
    ensures r.Some? ==> r.value == ProductCost(productId, costs[productId])
  {
    if productId in costs then Some(ProductCost(productId, costs[productId])) else None
  }

  /** `upsert` (both `POST /product-costs` and `PUT /product-costs/:id`
      route here): NotFound for an unknown product, with the costs left as
      they were; otherwise the row for `productId` is inserted or replaced
      and the inputs are echoed. The DTOs require `cost >= 0`. */
  function Upsert(products: ProductStore, costs: CostStore, productId: string, cost: Cents): (r: (CostStore, Result<ProductCost>))
    requires cost >= 0
    ensures r.1.Err? <==> !HasId(products, productId)
    ensures r.1.Err? ==> r.0 == costs && r.1.error.NotFound?
    ensures r.1.Ok? ==> r.1.value == ProductCost(productId, cost)
    ensures r.1.Ok? ==> r.0.Keys == costs.Keys + {productId}
    ensures forall id :: id in costs && id != productId ==> id in r.0 && r.0[id] == costs[id]
    ensures CostsOfKnownProducts(products, costs) ==> CostsOfKnownProducts(products, r.0)
  {
    if FindById(products, productId).None? then (costs, Err(NotFound("Produto não encontrado.")))
    else (costs[productId := cost], Ok(ProductCost(productId, cost)))
  }

  /** After a successful upsert the cost reads back as written. */
  lemma UpsertThenFind(products: ProductStore, costs: CostStore, productId: string, cost: Cents)
    requires cost >= 0
    requires HasId(products, productId)
    ensures FindByProductId(Upsert(products, costs, productId, cost).0, productId) == Some(ProductCost(productId, cost))
  {
  }

  /** Upserting the same cost twice is the same as upserting it once. */
  lemma UpsertIdempotent(products: ProductStore, costs: CostStore, productId: string, cost: Cents)
    requires cost >= 0
    ensures var once := Upsert(products, costs, productId, cost);
            Upsert(products, once.0, productId, cost) == once
  {
    var m := costs[productId := cost];
    assert m[productId := cost] == m;
  }

  /** Build the view rows of `ps`, in order. */
  function ViewRows(ps: seq<Product>, costs: CostStore): (r: seq<ProductCostView>)
    ensures |r| == |ps|
    ensures forall i :: 0 <= i < |ps| ==>
              && r[i].productId == ps[i].id
              && r[i].productName == ps[i].name
              && (r[i].cost.None? <==> ps[i].id !in costs)
              && (r[i].cost.Some? ==> r[i].cost.value == costs[ps[i].id])
  {
    if ps == [] then []
    else
      var row := ProductCostView(ps[0].id, ps[0].name, if ps[0].id in costs then Some(costs[ps[0].id]) else None);
      [row] + ViewRows(ps[1..], costs)
  }

  /** `findAllView`: one row per product, in product order, with the cost
      left-joined (None where no row exists). */
  function FindAllView(products: ProductStore, costs: CostStore): (r: seq<ProductCostView>)
    ensures |r| == |FindAll(products)|
    ensures forall i :: 0 <= i < |r| ==>
              var p := FindAll(products)[i];
              && r[i].productId == p.id && r[i].productName == p.name
              && r[i].cost == (match FindByProductId(costs, p.id)
                               case None => None
                               case Some(c) => Some(c.cost))
  {
    ViewRows(FindAll(products), costs)
  }

  /** A newly created product shows on the costs screen with no cost, as
      long as no cost row was left for its id. */
  lemma CreatedProductHasNoCost(s: ProductStore, costs: CostStore, input: CreateProductInput, freshId: string)
    requires Valid(s) && CostsOfKnownProducts(s, costs)
    requires Create(s, input, freshId).1.Ok?
    ensures var view := FindAllView(Create(s, input, freshId).0, costs);
            view[|view| - 1] == ProductCostView(ChooseId(input, freshId), input.name, None)
  {
  }
}
