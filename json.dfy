/**
 * Parsed JSON values as the proxy function sees them after `response.json()`,
 * with JavaScript's property access and truthiness over them.
 */
module JsValue {
  import opened Wrappers

  /**
   * A JSON value. Numbers are kept as mathematical reals: the proxy never
   * computes with them, it only tests them for truthiness (zero or not).
   * Objects are maps, so the key order of an input object is not modelled.
   */
  datatype Json =
    | JNull
    | JBool(b: bool)
    | JNum(n: real)
    | JStr(s: string)
    | JArr(items: seq<Json>)
    | JObj(fields: map<string, Json>)

  /**
   * `v.key`. Only objects have own keys; on any other non-null value the
   * property is `undefined` (`None`). (On `null` JavaScript throws instead;
   * callers decide that case before looking keys up.)
   */
  function Get(v: Json, key: string): Option<Json> {
    if v.JObj? && key in v.fields then Some(v.fields[key]) else None
  }

  /** JavaScript truthiness: `undefined`, `null`, `false`, `0` and `""` are falsy. */
  predicate Truthy(v: Option<Json>) {
    match v
    case None => false
    case Some(JNull) => false
    case Some(JBool(b)) => b
    case Some(JNum(n)) => n != 0.0
    case Some(JStr(s)) => s != ""
    case Some(JArr(_)) => true
    case Some(JObj(_)) => true
  }

  /** `a || b`: the left operand when it is truthy, else the right one. */
  function Or(a: Option<Json>, b: Option<Json>): Option<Json> {
    if Truthy(a) then a else b
  }

  /**
   * `alts[0] || alts[1] || ... || alts[n-1]`, grouped to the left as
   * JavaScript groups it. The result is the first truthy alternative, or the
   * last alternative when none is truthy (`undefined` for no alternatives).
   */
  function OrChain(alts: seq<Option<Json>>): (r: Option<Json>)
    ensures (exists i | 0 <= i < |alts| :: Truthy(alts[i])) ==>
              Truthy(r) &&
              exists i | 0 <= i < |alts| :: r == alts[i] && forall j | 0 <= j < i :: !Truthy(alts[j])
    ensures (forall i | 0 <= i < |alts| :: !Truthy(alts[i])) ==>
              r == if alts == [] then None else alts[|alts| - 1]
    decreases |alts|
  {
    if alts == [] then None
    else
      var init := alts[..|alts| - 1];
      assert forall i | 0 <= i < |init| :: init[i] == alts[i];
      Or(OrChain(init), alts[|alts| - 1])
  }
}
