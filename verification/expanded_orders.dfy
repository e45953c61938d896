/** Which rows of the orders table show their items: a map from order id
    to a flag, where a missing id reads as collapsed. */
module ExpandedOrders {

  type Expanded = map<string, bool>

  /** `prev[orderId]` read as a condition: false when absent. */
  predicate IsExpanded(m: Expanded, id: string) {
    id in m && m[id]
  }

  /** `toggleOrderExpanded(orderId)`: `{ ...prev, [orderId]: !prev[orderId] }`. */
  function Toggle(m: Expanded, id: string): (r: Expanded)
    ensures IsExpanded(r, id) <==> !IsExpanded(m, id)
    ensures r.Keys == m.Keys + {id}
    ensures forall k :: k in m && k != id ==> r[k] == m[k]
  {
    m[id := !IsExpanded(m, id)]
  }

  /** Toggling a row twice shows every row as it was; the map itself may
      have gained an entry set to false. */
  lemma ToggleTwice(m: Expanded, id: string, k: string)
    ensures IsExpanded(Toggle(Toggle(m, id), id), k) <==> IsExpanded(m, k)
  {
  }

  /** Toggling one row never opens or closes another. */
  lemma ToggleOthers(m: Expanded, id: string, k: string)
    requires k != id
    ensures IsExpanded(Toggle(m, id), k) <==> IsExpanded(m, k)
  {
  }
}
