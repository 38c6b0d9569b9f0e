/**
 * The slice of JavaScript's value semantics the components rely on: dynamically
 * typed values, plain objects as string-keyed records, truthiness, strict
 * equality, optional chaining, nullish coalescing and object spread.
 */
module Js {

  /** A JavaScript value; numbers are exact reals (no NaN, no rounding). */
  datatype Value =
    | Undefined
    | Null
    | Bool(b: bool)
    | Num(n: real)
    | Str(s: string)
    | Obj(fields: map<string, Value>)

  /** A plain object: its own enumerable properties. */
  type Record = map<string, Value>

  /** `r[k]` (or `r.k`): a missing property reads as `undefined`. */
  function Get(r: Record, k: string): Value
  {
    if k in r then r[k] else Undefined
  }

  /** `if (v)`: false, 0, "", null and undefined are falsy; every object is truthy. */
  predicate Truthy(v: Value)
  {
    match v
    case Undefined => false
    case Null => false
    case Bool(b) => b
    case Num(n) => n != 0.0
    case Str(s) => s != ""
    case Obj(_) => true
  }

  /** `a === b` on primitives. Objects compare by identity, which a value
      model cannot see, so two objects are never taken to be strictly equal. */
  predicate StrictEquals(a: Value, b: Value)
  {
    a == b && !a.Obj?
  }

  /** `v?.k` for a data property `k`: `undefined` on null, undefined and primitives. */
  function Prop(v: Value, k: string): Value
  {
    if v.Obj? then Get(v.fields, k) else Undefined
  }

  /** `v ?? d`: the default replaces null and undefined only. */
  function Coalesce(v: Value, d: Value): (r: Value)
    ensures r == d <== v.Null? || v.Undefined?
    ensures !(v.Null? || v.Undefined?) ==> r == v
  {
    if v.Null? || v.Undefined? then d else v
  }

  /** `{ ...a, ...b }`: every property of `b`, and the properties of `a` that `b` lacks. */
  function Spread(a: Record, b: Record): (r: Record)
    ensures r.Keys == a.Keys + b.Keys
    ensures forall k :: Get(r, k) == if k in b then b[k] else Get(a, k)
  {
    a + b
  }
}
