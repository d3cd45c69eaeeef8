/**
 * Decoded JSON values as `json.loads` returns them, with the two Python
 * operations the capture script applies to them: truth testing and `or`.
 * JSON `null` decodes to `None`, so `Null` also stands for Python's `None`.
 */
module Json {

  datatype Value =
    | Null
    | Bool(b: bool)
    | Number(n: real)
    | Str(s: string)
    | Array(items: seq<Value>)
    | Object(fields: map<string, Value>)

  /** Python's `bool(v)`: `None`, `False`, zero, the empty string, list and dict are false. */
  predicate Truthy(v: Value)
  {
    match v
    case Null => false
    case Bool(b) => b
    case Number(n) => n != 0.0
    case Str(s) => s != ""
    case Array(items) => items != []
    case Object(fields) => fields != map[]
  }

  /** `d.get(key)` on a decoded object: `None` when the key is absent. */
  function Get(fields: map<string, Value>, key: string): Value
  {
    if key in fields then fields[key] else Null
  }

  /** Python's `a or b`. */
  function Or(a: Value, b: Value): Value
  {
    if Truthy(a) then a else b
  }

  /**
   * The value of `v0 or v1 or ... or vn`: the first truthy value, or the
   * last value when none is truthy.
   */
  function FirstTruthy(vs: seq<Value>): (r: Value)
    requires vs != []
    ensures r in vs
    ensures Truthy(r) <==> exists i :: 0 <= i < |vs| && Truthy(vs[i])
    ensures (forall i :: 0 <= i < |vs| ==> !Truthy(vs[i])) ==> r == vs[|vs| - 1]
    ensures forall i :: 0 <= i < |vs| && Truthy(vs[i]) && (forall j :: 0 <= j < i ==> !Truthy(vs[j])) ==> r == vs[i]
  {
    if |vs| == 1 || Truthy(vs[0]) then vs[0]
    else
      var r := FirstTruthy(vs[1..]);
      assert forall i :: 1 <= i < |vs| ==> vs[i] == vs[1..][i - 1];
      r
  }

  /** Python's `or` chain groups to the left and picks the same value. */
  lemma OrChain3(a: Value, b: Value, c: Value)
    ensures Or(Or(a, b), c) == FirstTruthy([a, b, c])
  {
  }
}
