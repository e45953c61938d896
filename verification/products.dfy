/** The product store: products keyed by a unique id, listed in insertion
    order. Products are created once and never changed or deleted. */
module Products {
  import opened Common

  datatype Product = Product(id: string, name: string)

  /** The body of `POST /products`: an optional id and a name. */
  datatype CreateProductInput = CreateProductInput(id: Option<string>, name: string)

  /** The `product` table, in the order `find()` lists it. */
  datatype ProductStore = ProductStore(products: seq<Product>)

  const Empty := ProductStore([])

  /** The primary key holds: no two stored products share an id. */
  predicate Valid(s: ProductStore) {
    forall i, j :: 0 <= i < j < |s.products| ==> s.products[i].id != s.products[j].id
  }

  predicate HasId(s: ProductStore, id: string) {
    exists i :: 0 <= i < |s.products| && s.products[i].id == id
  }

  /** The first product of `ps` with the given id. */
  function Lookup(ps: seq<Product>, id: string): (r: Option<Product>)
    ensures r.Some? <==> exists i :: 0 <= i < |ps| && ps[i].id == id
    ensures r.Some? ==> r.value.id == id && r.value in ps
  {
    if ps == [] then None
    else if ps[0].id == id then Some(ps[0])
    else
      var r := Lookup(ps[1..], id);
      assert forall i :: 0 < i < |ps| ==> ps[i] == ps[1..][i - 1];
      r
  }

  /** `findById`: the product with that id, or nothing. */
  function FindById(s: ProductStore, id: string): (r: Option<Product>)
    ensures r.Some? <==> HasId(s, id)
    ensures r.Some? ==> r.value.id == id && r.value in s.products
  {
    Lookup(s.products, id)
  }

  /** `findAll`: every stored product. */
  function FindAll(s: ProductStore): seq<Product> {
    s.products
  }

  /** `input.id || randomUUID()`: an absent or empty id is replaced by the
      fresh one. */
  function ChooseId(input: CreateProductInput, freshId: string): (id: string)
    ensures Truthy(input.id) ==> id == input.id.value
    ensures !Truthy(input.id) ==> id == freshId
  {
    if input.id.Some? && input.id.value != "" then input.id.value else freshId
  }

  /** `create`: Conflict when the chosen id is taken, leaving the store as
      it was; otherwise the new product is appended and returned. */
  function Create(s: ProductStore, input: CreateProductInput, freshId: string): (r: (ProductStore, Result<Product>))
    ensures r.1.Err? <==> HasId(s, ChooseId(input, freshId))
    ensures r.1.Err? ==> r.0 == s && r.1.error.Conflict?
    ensures r.1.Ok? ==> (r.1.value == Product(ChooseId(input, freshId), input.name)
                         && r.0.products == s.products + [r.1.value])
    ensures Valid(s) ==> Valid(r.0)
  {
    var id := ChooseId(input, freshId);
    if FindById(s, id).Some? then (s, Err(Conflict("Produto com este id já existe.")))
    else
      var p := Product(id, input.name);
      (ProductStore(s.products + [p]), Ok(p))
  }

  /** After a successful create, looking the id up finds the new product. */
  lemma CreateThenFind(s: ProductStore, input: CreateProductInput, freshId: string)
    requires Create(s, input, freshId).1.Ok?
    ensures var id := ChooseId(input, freshId);
            FindById(Create(s, input, freshId).0, id) == Some(Product(id, input.name))
  {
    var id := ChooseId(input, freshId);
    var s' := Create(s, input, freshId).0;
    var r := FindById(s', id);
    assert s'.products[|s.products|] == Product(id, input.name);
    assert r.Some?;
    var k :| 0 <= k < |s'.products| && s'.products[k] == r.value;
    assert k == |s.products|;
  }

  /** A successful create adds one product and changes no other lookup;
      a failed one changes nothing. */
  lemma CreateFrame(s: ProductStore, input: CreateProductInput, freshId: string, other: string)
    requires other != ChooseId(input, freshId)
    ensures FindById(Create(s, input, freshId).0, other) == FindById(s, other)
  {
    var s' := Create(s, input, freshId).0;
    if s' != s {
      LookupAppend(s.products, Create(s, input, freshId).1.value, other);
    }
  }

  lemma {:induction false} LookupAppend(ps: seq<Product>, p: Product, id: string)
    requires p.id != id
    ensures Lookup(ps + [p], id) == Lookup(ps, id)
  {
    if ps != [] {
      assert (ps + [p])[1..] == ps[1..] + [p];
      LookupAppend(ps[1..], p, id);
    }
  }
}
