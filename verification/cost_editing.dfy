/** Editing a product's cost in place: the row being edited and the text
    in its input, the rule that turns that text into a cost (blank is 0,
    anything not a number or below 0 is refused), and what saving does with
    the editing state. The same rule is written twice in the UI, once in
    the cost table and once in the page that owns it. */
module CostEditing {
  import opened Common
  import opened Decimal
  import opened ProductCosts
  import Products

  /** The id of the row being edited (`null` when none) and its input text. */
  datatype CostEditor = CostEditor(editingId: Option<string>, value: string)

  /** No row in edition and an empty input: the initial state, and the
      state `stopEditing` returns to. */
  const Idle := CostEditor(None, "")

  /** `String(row.cost)` for a cost in cents, `''` for a missing one. */
  function CostText(cost: Option<Cents>): (t: string)
    ensures t == "" <==> cost.None?
    ensures cost.Some? ==> (t[0] == '-' <==> cost.value < 0)
  {
    match cost
    case None => ""
    case Some(c) => FormatAmount(c)
  }

  /** `startEditing(row)`: edit this row, starting from the text of its
      current cost (see `CostTextReadsBack` for what that text reads as). */
  function StartEditing(row: ProductCostView): (e: CostEditor)
    ensures e.editingId == Some(row.productId)
    ensures e.value == CostText(row.cost)
    ensures e.value == "" <==> row.cost.None?
  {
    CostEditor(Some(row.productId), CostText(row.cost))
  }

  /** The text of a cost is empty only for a missing cost, and
      `Number()` reads it back as the cost in reais. */
  lemma CostTextReadsBack(t: string, cost: Option<Cents>)
    requires t == CostText(cost)
    ensures t == "" <==> cost.None?
    ensures cost.Some? ==> ParseNumber(t) == Some(InReais(cost.value))
  {
    if cost.Some? {
      var c := cost.value;
      ParseFormatAmount(t, c);
    }
  }

  /** `stopEditing()`: no row in edition and an empty input, whatever was
      being edited; a later `startEditing` does not see the old text. */
  function StopEditing(e: CostEditor): (r: CostEditor)
    ensures r.editingId.None? && r.value == ""
  {
    Idle
  }

  /** Stopping forgets the edit entirely: the state left does not depend
      on the row or the text being edited. */
  lemma StopForgets(e1: CostEditor, e2: CostEditor)
    ensures StopEditing(e1) == StopEditing(e2) == Idle
  {
  }

  /** The input rule: a blank text is 0, otherwise `Number(text)`, refused
      (None) when that is NaN or negative. */
  function ParseCostInput(raw: string): (r: Option<real>)
    ensures r.Some? ==> r.value >= 0.0
    ensures Trim(raw) == "" ==> r == Some(0.0)
  {
    if Trim(raw) == "" then Some(0.0)
    else match ParseNumber(raw)
      case None => None
      case Some(v) => if v < 0.0 then None else Some(v)
  }

  /** The blank test is redundant with `Number()`, which reads a blank
      text as 0 too: the rule accepts exactly the texts whose number is
      defined and not negative, and then yields that number. */
  lemma ParseCostInputIsNumber(raw: string)
    ensures ParseCostInput(raw).Some? <==> ParseNumber(raw).Some? && ParseNumber(raw).value >= 0.0
    ensures ParseCostInput(raw).Some? ==> ParseCostInput(raw) == ParseNumber(raw)
  {
  }

  /** A save: the state the editor is left in and the call to `onSaveCost`
      made, if any, with the product id and the cost in reais. */
  datatype SaveOutcome = SaveOutcome(editor: CostEditor, saved: Option<(string, real)>)

  /** The table's `handleSave(productId)`: a refused text returns quietly,
      the editing state untouched; an accepted one is handed to
      `onSaveCost`, and the edition ends once that call resolves.
      `accepted` is whether it did; a rejected call leaves the edition
      open. */
  function HandleSave(e: CostEditor, productId: string, accepted: bool): (r: SaveOutcome)
    ensures r.saved.None? <==> ParseCostInput(e.value).None?
    ensures r.saved.None? ==> r.editor == e
    ensures r.saved.Some? ==> r.saved.value.0 == productId && r.saved.value.1 >= 0.0
    ensures r.saved.Some? && accepted ==> r.editor == Idle
    ensures !accepted ==> r.editor == e
    ensures Trim(e.value) == "" ==> r.saved == Some((productId, 0.0))
  {
    match ParseCostInput(e.value)
    case None => SaveOutcome(e, None)
    case Some(v) => SaveOutcome(if accepted then StopEditing(e) else e, Some((productId, v)))
  }

  /** The message the page shows for a refused cost. */
  const InvalidCost := "Custo inválido."

  /** A save on the page: the editor, the error shown and the update sent. */
  datatype PageSaveOutcome = PageSaveOutcome(editor: CostEditor, error: Option<string>, saved: Option<(string, real)>)

  /** The page's `handleSaveCost(productId)`: the same rule, but a refused
      text shows "Custo inválido." instead of returning quietly. An accepted
      value is sent, and the edition ends once the update and the two
      reloads after it resolve. `failure` is the message of the request
      that rejected, if one did: it is shown and the edition stays open.
      The error is cleared first, so a save that goes through shows none. */
  function HandleSaveCost(e: CostEditor, productId: string, failure: Option<string>): (r: PageSaveOutcome)
    ensures r.saved.None? <==> ParseCostInput(e.value).None?
    ensures r.saved.None? ==> r.error == Some(InvalidCost) && r.editor == e
    ensures r.saved.Some? ==> r.saved == Some((productId, ParseCostInput(e.value).value))
    ensures r.saved.Some? ==> r.error == failure
    ensures r.saved.Some? && failure.None? ==> r.editor == Idle
    ensures failure.Some? ==> r.editor == e
  {
    match ParseCostInput(e.value)
    case None => PageSaveOutcome(e, Some(InvalidCost), None)
    case Some(v) => PageSaveOutcome(if failure.None? then StopEditing(e) else e, failure, Some((productId, v)))
  }

  /** The table and the page apply the same rule: they send the same value
      for the same text and leave the same editing state when their
      requests meet the same fate, and the page stays quiet exactly when
      the table's save went through. */
  lemma TableAndPageAgree(e: CostEditor, productId: string, failure: Option<string>)
    ensures HandleSave(e, productId, failure.None?).saved == HandleSaveCost(e, productId, failure).saved
    ensures HandleSave(e, productId, failure.None?).editor == HandleSaveCost(e, productId, failure).editor
    ensures HandleSaveCost(e, productId, failure).error.None?
            <==> HandleSave(e, productId, failure.None?).saved.Some? && failure.None?
  {
  }

  /** Opening a row without a cost and saving it untouched sends 0. */
  lemma StartThenSaveBlank(row: ProductCostView, accepted: bool)
    requires row.cost.None?
    ensures HandleSave(StartEditing(row), row.productId, accepted)
         == SaveOutcome(if accepted then Idle else StartEditing(row), Some((row.productId, 0.0)))
  {
    var e := StartEditing(row);
    assert e.value == "";
    assert Trim(e.value) == "";
  }

  /** Opening a row with a cost and saving it untouched sends that cost
      back, in reais; a negative cost, which the backend never stores,
      would be refused. */
  lemma StartThenSaveCost(row: ProductCostView, c: Cents, accepted: bool)
    requires row.cost == Some(c)
    ensures c >= 0 ==>
              HandleSave(StartEditing(row), row.productId, accepted)
              == SaveOutcome(if accepted then Idle else StartEditing(row), Some((row.productId, InReais(c))))
    ensures c < 0 ==> HandleSave(StartEditing(row), row.productId, accepted).saved.None?
  {
    var e := StartEditing(row);
    assert e.value == FormatAmount(c);
    ParseFormatAmount(e.value, c);
    SaveReadable(e, row.productId, InReais(c), accepted);
  }

  /** Saving a text that `Number()` reads as `x`: sent when `x` is not
      negative, refused otherwise. */
  lemma SaveReadable(e: CostEditor, productId: string, x: real, accepted: bool)
    requires ParseNumber(e.value) == Some(x)
    ensures x >= 0.0 ==>
              HandleSave(e, productId, accepted) == SaveOutcome(if accepted then Idle else e, Some((productId, x)))
    ensures x < 0.0 ==> HandleSave(e, productId, accepted) == SaveOutcome(e, None)
  {
    ParseCostInputIsNumber(e.value);
  }

  /** Every cost the backend can have stored comes back unchanged through
      an untouched edit: for the rows of `findAllView`, saving without
      typing re-sends the stored cost, or 0 for a product without one. */
  lemma ViewRowRoundTrip(products: Products.ProductStore, costs: CostStore, i: nat)
    requires i < |FindAllView(products, costs)|
    requires forall id :: id in costs ==> costs[id] >= 0
    ensures var row := FindAllView(products, costs)[i];
            var r := HandleSave(StartEditing(row), row.productId, true);
            && r.editor == Idle
            && (row.productId in costs ==> r.saved == Some((row.productId, InReais(costs[row.productId]))))
            && (row.productId !in costs ==> r.saved == Some((row.productId, 0.0)))
  {
    var row := FindAllView(products, costs)[i];
    if row.productId in costs {
      StartThenSaveCost(row, costs[row.productId], true);
    } else {
      StartThenSaveBlank(row, true);
    }
  }
}
