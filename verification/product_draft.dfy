/** The new-product form of `NewProductDialog`: an optional SKU and a
    name, normalised into the body of `POST /products`, and reset once
    saved or closed. The page's own copy of the form sends the same body. */
module ProductDraft {
  import opened Common
  import opened Products

  /** The two text fields of the form. */
  datatype ProductForm = ProductForm(sku: string, name: string)

  /** Both fields empty: the initial state, and the state `handleClose`
      and a completed save leave. */
  const Blank := ProductForm("", "")

  /** The save button is enabled only when the trimmed name is not empty. */
  predicate CanSave(d: ProductForm) {
    Trim(d.name) != ""
  }

  /** `{ id: sku.trim() || undefined, name: name.trim() }`: a blank SKU
      is sent as no id at all. */
  function SaveRequest(d: ProductForm): (r: CreateProductInput)
    ensures r.name == Trim(d.name)
    ensures r.id.None? <==> Trim(d.sku) == ""
    ensures r.id.Some? ==> r.id.value == Trim(d.sku)
  {
    var id := Trim(d.sku);
    CreateProductInput(if id == "" then None else Some(id), Trim(d.name))
  }

  /** `handleSave`: the request is sent, and both fields are cleared once
      `onSave` resolves; `accepted` is whether it did. A rejected save
      leaves what was typed in place. */
  function HandleSave(d: ProductForm, accepted: bool): (r: (CreateProductInput, ProductForm))
    ensures r.0.name == Trim(d.name)
    ensures r.0.id.None? <==> Trim(d.sku) == ""
    ensures r.0.id.Some? ==> r.0.id.value == Trim(d.sku)
    ensures accepted ==> r.1.sku == "" && r.1.name == "" && !CanSave(r.1)
    ensures !accepted ==> r.1 == d
  {
    (SaveRequest(d), if accepted then Blank else d)
  }

  /** `handleClose`: both fields cleared, which disables the save button
      until a name is typed again. */
  function HandleClose(d: ProductForm): (r: ProductForm)
    ensures r.sku == "" && r.name == ""
    ensures !CanSave(r)
  {
    Blank
  }

  /** The request the form sends never carries an empty id, and it names
      the product either by its trimmed SKU or, for a SKU of spaces or
      nothing, by the id the service generates. */
  lemma SaveRequestChoosesId(d: ProductForm, freshId: string)
    ensures SaveRequest(d).id != Some("")
    ensures Trim(d.sku) == "" ==> ChooseId(SaveRequest(d), freshId) == freshId
    ensures Trim(d.sku) != "" ==> ChooseId(SaveRequest(d), freshId) == Trim(d.sku)
  {
  }

  /** Normalising is idempotent: a form filled with what was sent sends
      the same request again. */
  lemma SaveRequestIdempotent(d: ProductForm)
    ensures var r := SaveRequest(d);
            SaveRequest(ProductForm(if r.id.Some? then r.id.value else "", r.name)) == r
  {
    TrimIdempotent(d.sku);
    TrimIdempotent(d.name);
  }

  /** A form the button lets through either creates a product with a
      non-blank name, found under the chosen id, and is cleared; or meets
      a taken id, changes nothing in the store and keeps its fields. */
  lemma SavedProductIsFound(s: ProductStore, d: ProductForm, freshId: string)
    requires CanSave(d)
    ensures var created := Create(s, SaveRequest(d), freshId);
            var id := if Trim(d.sku) == "" then freshId else Trim(d.sku);
            var form := HandleSave(d, created.1.Ok?).1;
            && (created.1.Ok? ==> FindById(created.0, id) == Some(Product(id, Trim(d.name))) && form == Blank)
            && (created.1.Err? ==> created.0 == s && form == d)
  {
    if Create(s, SaveRequest(d), freshId).1.Ok? {
      CreateThenFind(s, SaveRequest(d), freshId);
    }
  }
}
