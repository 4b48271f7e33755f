/**
 * ECMAScript values as the collection polyfills of harmony.js see them, the
 * strict equality `===` of ECMA-262 5.1 (section 11.9.6) and the "egal"
 * identity test `Object.is` / `Object.isnt` built on it.
 *
 * Numbers are modelled by what `===` and `Object.is` can tell apart: NaN, the
 * two zeros, the two infinities and the non-zero finite values (as reals).
 */
module JsValues {

  datatype Option<T> = None | Some(value: T)

  type NonZeroReal = x: real | x != 0.0 witness 1.0

  datatype Value =
    | Undefined
    | Null
    | Bool(b: bool)
    | NaN
    | PosZero
    | NegZero
    | Infinity(negative: bool)
    | Finite(x: NonZeroReal)
    | Str(s: string)
    | Obj(ref: JsObject)
  {
    predicate IsNumber() {
      NaN? || PosZero? || NegZero? || Infinity? || Finite?
    }

    /** +0 or -0: the values that `=== 0` accepts. */
    predicate IsZero() {
      PosZero? || NegZero?
    }
  }

  /**
   * An ECMAScript object. Only the two things the weak-map emulation touches
   * are modelled: the chain of `valueOf` overrides installed on it (oldest
   * first; the empty chain is the inherited `Object.prototype.valueOf`, which
   * returns the object itself) and its own property named "value".
   */
  class JsObject {
    var hooks: seq<Hook>
    var valueProperty: Option<Value>

    /** The object literal `{}`. */
    constructor ()
      ensures hooks == [] && valueProperty == None
    {
      hooks := [];
      valueProperty := None;
    }
  }

  /**
   * One `valueOf` override: called with `token` it returns `secrets`, called
   * with anything else it delegates to the override installed before it.
   */
  datatype Hook = Hook(token: JsObject, secrets: JsObject)

  /**
   * ToBoolean (section 9.2 of ECMA-262 5.1): the values `&&`, `||` and `if`
   * treat as true. Exactly undefined, null, false, NaN, the two zeros and the
   * empty string are false; in particular every object is true.
   */
  function Truthy(v: Value): (r: bool)
    ensures !r <==> v.Undefined? || v.Null? || v == Bool(false) || v.NaN? || v.IsZero() || v == Str("")
  {
    match v
    case Undefined => false
    case Null => false
    case Bool(b) => b
    case NaN => false
    case PosZero => false
    case NegZero => false
    case Infinity(_) => true
    case Finite(_) => true
    case Str(s) => |s| > 0
    case Obj(_) => true
  }

  /**
   * The Strict Equality Comparison Algorithm (section 11.9.6 of ECMA-262 5.1):
   * values of different types are never equal, NaN equals nothing, +0 and -0
   * are equal, objects are equal when they are the same object.
   */
  function StrictEquals(x: Value, y: Value): (r: bool)
    ensures r <==> (x == y && !x.NaN?) || (x.IsZero() && y.IsZero())
  {
    match (x, y)
    case (Undefined, Undefined) => true
    case (Null, Null) => true
    case (Bool(a), Bool(b)) => a == b
    case (Str(a), Str(b)) => a == b
    case (Obj(a), Obj(b)) => a == b
    case _ =>
      if x.IsNumber() && y.IsNumber() then
        if x.NaN? || y.NaN? then false
        else if x.IsZero() && y.IsZero() then true
        else x == y
      else false
  }

  /** The number `1 / v`: the zeros go to the infinity of their sign. */
  function Reciprocal(v: Value): (r: Value)
    requires v.IsNumber()
    ensures r.IsNumber()
    ensures v.PosZero? <==> r == Infinity(false)
    ensures v.NegZero? <==> r == Infinity(true)
  {
    match v
    case NaN => NaN
    case PosZero => Infinity(false)
    case NegZero => Infinity(true)
    case Infinity(negative) => if negative then NegZero else PosZero
    case Finite(x) =>
      assert x * (1.0 / x) == 1.0;
      Finite(1.0 / x)
  }

  /**
   * `Number.isNaN`: a number, and not-a-number. Unlike the global `isNaN` it
   * does not coerce, so only NaN itself passes.
   */
  function IsNaN(v: Value): (r: bool)
    ensures r <==> v == NaN
  {
    v.IsNumber() && v.NaN?
  }

  /**
   * `Object.is`: `===`, except that +0 and -0 are told apart by dividing 1 by
   * them, and NaN, the one value that is not `===` to itself, is identical to
   * itself. It is exactly equality of the modelled values.
   */
  function Is(x: Value, y: Value): (r: bool)
    ensures r <==> x == y
  {
    if StrictEquals(x, y) then
      !StrictEquals(x, PosZero) || StrictEquals(Reciprocal(x), Reciprocal(y))
    else
      IsNaN(x) && IsNaN(y)
  }

  /** `Object.isnt`: the negation of `Object.is`. */
  function Isnt(x: Value, y: Value): (r: bool)
    ensures r <==> x != y
    ensures r <==> !Is(x, y)
  {
    !Is(x, y)
  }

  /**
   * How `Object.is` relates to `===`: reflexive on every value, NaN included;
   * false for +0 and -0; and the same as `===` on every other pair.
   */
  lemma IsVersusStrictEquals(x: Value, y: Value)
    ensures Is(x, x)
    ensures Is(NaN, NaN) && !StrictEquals(NaN, NaN)
    ensures !Is(PosZero, NegZero) && StrictEquals(PosZero, NegZero)
    ensures !(x.IsZero() && y.IsZero()) && !(x.NaN? && y.NaN?) ==> (Is(x, y) <==> StrictEquals(x, y))
    ensures Is(x, y) == Is(y, x)
  {
  }
}
