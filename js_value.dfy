/**
 * JavaScript values as seen by the object helpers of common.js.
 *
 * A plain object (one whose `Object.prototype.toString` tag is
 * "[object Object]") is represented by the map of its OWN enumerable
 * properties; inherited properties are not part of the value.  Every other
 * kind of object (arrays, functions, dates, ...) is opaque and carries only
 * an identity, because the helpers modelled here never look inside it.
 */
module JsValue {

  datatype Value =
    | Undefined
    | Null
    | Bool(b: bool)
    | Num(x: real)
    | Str(s: string)
    | Other(id: nat)
    | Obj(props: Props)

  /** The own enumerable properties of a plain object. */
  type Props = map<string, Value>

  /** JavaScript's falsy values (NaN is not modelled: numbers are reals). */
  predicate Falsy(v: Value)
  {
    || v.Undefined?
    || v.Null?
    || (v.Bool? && !v.b)
    || (v.Num? && v.x == 0.0)
    || (v.Str? && v.s == "")
  }

  /** True exactly for values whose toString tag is "[object Object]". */
  predicate IsPlainObject(v: Value)
  {
    v.Obj?
  }

  /**
   * The own enumerable properties a `for ... in` loop guarded by
   * `hasOwnProperty` visits; arguments that are not plain objects
   * contribute none in this model.
   */
  function OwnProps(v: Value): (r: Props)
  {
    if v.Obj? then v.props else map[]
  }
}
