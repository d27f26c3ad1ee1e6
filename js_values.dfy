/** JavaScript values as the application handles them: optional properties,
    the scalars that form state holds, plain objects and JavaScript truthiness. */
module JsValues {

  /** An optional property: `None` is `undefined` (or `null` where the code treats both alike). */
  datatype Option<T> = None | Some(value: T) {
    function GetOr(default: T): T {
      match this
      case Some(v) => v
      case None => default
    }
  }

  /** A JSON scalar held in page state: text typed into an input, a number
      from the geolocation API, or `null`. */
  datatype Scalar = Str(s: string) | Num(x: real) | Null

  /** A flat JavaScript object; an absent key reads as `undefined`. */
  type Obj = map<string, Scalar>

  /** JavaScript truthiness of a scalar: `''`, `0` and `null` are falsy. */
  predicate IsTruthy(v: Scalar) {
    match v
    case Str(s) => s != ""
    case Num(x) => x != 0.0
    case Null => false
  }

  /** `!!o[k]`: the key is present and its value is truthy. */
  predicate Truthy(o: Obj, k: string) {
    k in o && IsTruthy(o[k])
  }

  /** `!!s` for an optional string. */
  predicate TruthyText(s: Option<string>) {
    s.Some? && s.value != ""
  }

  /** `o[k]`, with `None` for `undefined`. */
  function Get(o: Obj, k: string): Option<Scalar> {
    if k in o then Some(o[k]) else None
  }

  /** `o[k] || fallback`. */
  function OrElse(o: Obj, k: string, fallback: Scalar): Scalar {
    if Truthy(o, k) then o[k] else fallback
  }

  /** `m || fallback` for an optional message. */
  function TextOr(m: Option<string>, fallback: string): string {
    if TruthyText(m) then m.value else fallback
  }

  /** `after` is `before` with key `k` set to `v` and nothing else changed. */
  ghost predicate UpdatedAt(before: Obj, after: Obj, k: string, v: Scalar) {
    && after.Keys == before.Keys + {k}
    && after[k] == v
    && forall j :: j in before && j != k ==> after[j] == before[j]
  }
}
