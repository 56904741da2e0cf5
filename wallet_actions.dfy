/** The Redux action creators that tag a wallet node as a deposit node or a
    change node. A node is a plain object, given by its own properties; the
    action's `value` is a new object built with object spread, so the node
    passed in is never altered (values are immutable here). */
module WalletActions {
  import opened Js

  const UPDATE_DEPOSIT_NODE: string := "UPDATE_DEPOSIT_NODE"
  const UPDATE_CHANGE_NODE: string := "UPDATE_CHANGE_NODE"

  /** The action object `{ type, value }`. */
  datatype Action = Action(actionType: string, value: map<string, JsValue>)

  /** `updateDepositNodeAction`: `{ type: UPDATE_DEPOSIT_NODE, value: { ...value, ...{ change: false } } }`. */
  function UpdateDepositNodeAction(value: map<string, JsValue>): (action: Action)
    ensures action.actionType == UPDATE_DEPOSIT_NODE
    ensures action.value.Keys == value.Keys + {"change"}
    ensures action.value["change"] == Bool(false)
    ensures forall k :: k in value && k != "change" ==> action.value[k] == value[k]
  {
    SpreadTwo(value, map["change" := Bool(false)]);
    Action(UPDATE_DEPOSIT_NODE, Spread([value, map["change" := Bool(false)]]))
  }

  /** `updateChangeNodeAction`: `{ type: UPDATE_CHANGE_NODE, value: { ...value, ...{ change: true } } }`. */
  function UpdateChangeNodeAction(value: map<string, JsValue>): (action: Action)
    ensures action.actionType == UPDATE_CHANGE_NODE
    ensures action.value.Keys == value.Keys + {"change"}
    ensures action.value["change"] == Bool(true)
    ensures forall k :: k in value && k != "change" ==> action.value[k] == value[k]
  {
    SpreadTwo(value, map["change" := Bool(true)]);
    Action(UPDATE_CHANGE_NODE, Spread([value, map["change" := Bool(true)]]))
  }

  /** The two creators use distinct action types and build values that differ
      in the `change` flag only; apart from it, both equal the input node. */
  lemma CreatorsDifferOnlyInTag(value: map<string, JsValue>)
    ensures UpdateDepositNodeAction(value).actionType != UpdateChangeNodeAction(value).actionType
    ensures UpdateDepositNodeAction(value).value - {"change"} == value - {"change"}
    ensures UpdateChangeNodeAction(value).value - {"change"} == value - {"change"}
  {
    assert |UPDATE_DEPOSIT_NODE| != |UPDATE_CHANGE_NODE|;
    SpreadTwo(value, map["change" := Bool(false)]);
    SpreadTwo(value, map["change" := Bool(true)]);
  }

  /** Tagging an already tagged node again keeps only the last tag: the flag
      the node carried before is overridden, whatever it was. */
  lemma LastTagWins(value: map<string, JsValue>)
    ensures UpdateChangeNodeAction(UpdateDepositNodeAction(value).value) == UpdateChangeNodeAction(value)
    ensures UpdateDepositNodeAction(UpdateChangeNodeAction(value).value) == UpdateDepositNodeAction(value)
  {
    var d, c := UpdateDepositNodeAction(value).value, UpdateChangeNodeAction(value).value;
    SpreadTwo(value, map["change" := Bool(false)]);
    SpreadTwo(value, map["change" := Bool(true)]);
    SpreadTwo(d, map["change" := Bool(true)]);
    SpreadTwo(c, map["change" := Bool(false)]);
  }
}
