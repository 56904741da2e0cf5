/** JavaScript value semantics that the block-explorer client and the wallet
    action creators rely on: JSON-like values, truthiness, the short-circuit
    operators `&&` and `||`, object spread, and the fan-in of `Promise.all`. */
module Js {

  /** A JSON-like JavaScript value. Numbers are integers here: the payloads the
      model looks at never need fractions, NaN or infinities. */
  datatype JsValue =
    | Undefined
    | Null
    | Bool(b: bool)
    | Number(n: int)
    | Str(s: string)
    | Array(items: seq<JsValue>)
    | Object(fields: map<string, JsValue>)

  /** JavaScript's ToBoolean: `undefined`, `null`, `false`, `0` and `""` are
      falsy, every array and object is truthy. */
  predicate Truthy(v: JsValue) {
    match v
    case Undefined => false
    case Null => false
    case Bool(b) => b
    case Number(n) => n != 0
    case Str(s) => s != ""
    case Array(_) => true
    case Object(_) => true
  }

  /** Property access `v.key`: the field when `v` is an object holding it,
      `undefined` otherwise. (On `undefined` and `null` JavaScript throws; the
      callers in this model only reach those cases behind a falsy guard of
      `&&`, whose right operand is then never evaluated.) */
  function Get(v: JsValue, key: string): JsValue {
    match v
    case Object(fields) => if key in fields then fields[key] else Undefined
    case _ => Undefined
  }

  /** `a && b`: the left operand when it is falsy, else the right one. */
  function LogicalAnd(a: JsValue, b: JsValue): JsValue {
    if Truthy(a) then b else a
  }

  /** `a || b`: the left operand when it is truthy, else the right one. */
  function LogicalOr(a: JsValue, b: JsValue): JsValue {
    if Truthy(a) then a else b
  }

  /** The own properties of the object literal `{ ...parts[0], ..., ...parts[n-1] }`
      when every part is a plain object: each part in turn copies its
      properties over those collected so far. */
  function Spread(parts: seq<map<string, JsValue>>): map<string, JsValue> {
    if parts == [] then map[] else Spread(parts[..|parts| - 1]) + parts[|parts| - 1]
  }

  /** A spread object holds every key of every part, and nothing else. */
  lemma {:induction false} SpreadKeys(parts: seq<map<string, JsValue>>)
    ensures forall k :: k in Spread(parts) <==> exists i :: 0 <= i < |parts| && k in parts[i]
  {
    if parts != [] {
      var init, last := parts[..|parts| - 1], parts[|parts| - 1];
      SpreadKeys(init);
      assert Spread(parts) == Spread(init) + last;
      forall k
        ensures k in Spread(parts) <==> exists i :: 0 <= i < |parts| && k in parts[i]
      {
        if k in Spread(parts) && k !in last {
          var i :| 0 <= i < |init| && k in init[i];
          assert parts[i] == init[i];
        }
        if exists i :: 0 <= i < |parts| && k in parts[i] {
          var i :| 0 <= i < |parts| && k in parts[i];
          if i < |init| {
            assert init[i] == parts[i];
          }
        }
      }
    }
  }

  /** In a spread object, each key carries the value of the LAST part that
      holds it: later parts override earlier ones. */
  lemma {:induction false} SpreadLastWins(parts: seq<map<string, JsValue>>, i: nat, k: string)
    requires i < |parts| && k in parts[i]
    requires forall j :: i < j < |parts| ==> k !in parts[j]
    ensures k in Spread(parts) && Spread(parts)[k] == parts[i][k]
  {
    var init, last := parts[..|parts| - 1], parts[|parts| - 1];
    assert Spread(parts) == Spread(init) + last;
    if i < |init| {
      assert k !in last;
      assert init[i] == parts[i];
      SpreadLastWins(init, i, k);
    }
  }

  /** `{ ...a, ...b }` is the map union of `a` and `b`, where `b` wins on shared keys. */
  lemma SpreadTwo(a: map<string, JsValue>, b: map<string, JsValue>)
    ensures Spread([a, b]) == a + b
  {
    assert [a, b][..1] == [a];
    assert [a][..0] == [];
    calc {
      Spread([a, b]);
      Spread([a]) + b;
      (Spread([]) + a) + b;
      a + b;
    }
  }

  /** Outcome of an awaited computation: its value, or the value it threw. */
  datatype Result<+T, +E> = Ok(value: T) | Err(error: E)

  /** `await Promise.all(settled)`: every value, in the order of the promises,
      when all of them resolve; otherwise the rejection of the first promise
      (in promise order) that rejects, and no values at all. */
  function PromiseAll<T, E>(settled: seq<Result<T, E>>): (r: Result<seq<T>, E>)
    ensures r.Ok? <==> forall i :: 0 <= i < |settled| ==> settled[i].Ok?
    ensures r.Ok? ==> |r.value| == |settled|
    ensures r.Ok? ==> forall i :: 0 <= i < |settled| ==> r.value[i] == settled[i].value
    ensures r.Err? ==>
              exists i :: 0 <= i < |settled| && settled[i] == Err(r.error) &&
                          forall j :: 0 <= j < i ==> settled[j].Ok?
  {
    if settled == [] then Ok([])
    else
      match settled[0]
      case Err(e) => Err(e)
      case Ok(v) =>
        match PromiseAll(settled[1..])
        case Err(e) => Err(e)
        case Ok(vs) => Ok([v] + vs)
  }
}
