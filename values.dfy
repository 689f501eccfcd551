/** Values shared by every module: an optional value, JSON values with Python's
    equality on them, and Python's truthiness. */
module Values {

  datatype Option<+T> = None | Some(value: T) {
    /** The value, or a default when absent (Python's `d.get(key, default)`). */
    function GetOr(default: T): T {
      match this
      case Some(v) => v
      case None => default
    }
  }

  /** A JSON value as Python's `json` module hands it over: an object is a
      `dict` from its keys to its values, a number with a fraction or exponent is
      a `float` (an exact real here). */
  datatype Json =
    | JNull
    | JBool(b: bool)
    | JInt(i: int)
    | JFloat(f: real)
    | JStr(s: string)
    | JList(items: seq<Json>)
    | JObject(fields: map<string, Json>)

  /** The numeric value Python compares a `bool`, `int` or `float` by. */
  function PyNumber(v: Json): Option<real> {
    match v
    case JBool(b) => Some(if b then 1.0 else 0.0)
    case JInt(i) => Some(i as real)
    case JFloat(f) => Some(f)
    case _ => None
  }

  /** Python's `==` on JSON values: numbers by value (`True == 1 == 1.0`),
      lists element by element, objects by their key sets and the values under
      each key, whatever order the keys were written in. */
  predicate PyEq(a: Json, b: Json)
    decreases a
  {
    match a
    case JList(xs) =>
      b.JList? && |xs| == |b.items| && forall i :: 0 <= i < |xs| ==> PyEq(xs[i], b.items[i])
    case JObject(m) =>
      b.JObject? && m.Keys == b.fields.Keys && forall k :: k in m ==> PyEq(m[k], b.fields[k])
    case _ =>
      if PyNumber(a).Some? then PyNumber(b) == PyNumber(a) else a == b
  }

  /** Every value equals itself, so an entry is always found in a list holding it. */
  lemma {:induction false} PyEqReflexive(a: Json)
    ensures PyEq(a, a)
    decreases a
  {
    match a
    case JList(xs) =>
      forall i | 0 <= i < |xs| ensures PyEq(xs[i], xs[i]) { PyEqReflexive(xs[i]); }
    case JObject(m) =>
      forall k | k in m ensures PyEq(m[k], m[k]) { PyEqReflexive(m[k]); }
    case _ =>
  }

  /** `isinstance(v, int)`: in Python a bool is an int, so `True` passes. */
  predicate IsPyInt(v: Json) {
    v.JInt? || v.JBool?
  }

  /** The integer value of something `IsPyInt` accepts (`True` is 1). */
  function PyIntValue(v: Json): int
    requires IsPyInt(v)
  {
    if v.JInt? then v.i else if v.b then 1 else 0
  }

  /** Python truthiness of an optional string: `None` and `""` are false. */
  predicate Truthy(o: Option<string>) {
    o.Some? && o.value != ""
  }
}
