/** The JavaScript values that reach the sanitisers: whatever was persisted
    in extension storage or read from an imported JSON file. Only the parts
    of JavaScript's coercion rules the extension relies on are spelled out;
    the rest is supplied by the host environment `Env`. */
module JsValues {
  import opened Basics

  /** A JavaScript number: finite (ratios and indices are modelled as exact
      reals), NaN, or one of the infinities. */
  datatype JsNum = Finite(r: real) | NaN | PosInf | NegInf

  datatype JsValue =
    | Undefined
    | Null
    | Bool(b: bool)
    | Num(n: JsNum)
    | Str(s: string)
    | Arr(elems: seq<JsValue>)
    | Obj(props: map<string, JsValue>)

  /** What the host engine provides and the model does not reproduce:
      parsing of general numeric strings (`Number("0.5")`), the string form
      of numbers, arrays and objects (`String(x)`), and `encodeURIComponent`
      (percent-encoding as in section 2.1 of RFC 3986). */
  datatype Env = Env(
    parseNumber: string -> JsNum,
    text: JsValue -> string,
    encode: string -> string)

  /** JavaScript truthiness (`!!v`). */
  predicate Truthy(v: JsValue) {
    match v
    case Undefined => false
    case Null => false
    case Bool(b) => b
    case Num(n) => !(n.NaN? || n == Finite(0.0))
    case Str(s) => s != ""
    case Arr(_) => true
    case Obj(_) => true
  }

  /** `v === null || v === undefined`, the test behind `??`. */
  predicate Nullish(v: JsValue) {
    v.Undefined? || v.Null?
  }

  /** `typeof v === "object"`. */
  predicate IsObject(v: JsValue) {
    v.Null? || v.Arr? || v.Obj?
  }

  /** Optional property access `v?.key`: a missing property, or a receiver
      that is null, undefined or a primitive, reads as undefined. */
  function Get(v: JsValue, key: string): (r: JsValue)
    ensures !v.Obj? ==> r == Undefined
    ensures v.Obj? && key !in v.props ==> r == Undefined
  {
    if v.Obj? && key in v.props then v.props[key] else Undefined
  }

  /** `String(v)`. */
  function Text(env: Env, v: JsValue): (r: string)
    ensures v.Str? ==> r == v.s
  {
    match v
    case Undefined => "undefined"
    case Null => "null"
    case Bool(b) => if b then "true" else "false"
    case Str(s) => s
    case _ => env.text(v)
  }

  /** `Number(s)` for a string: the empty string is 0 and a string of
      decimal digits is its decimal value; any other string is left to the
      host's parser. */
  function StringToNumber(env: Env, s: string): (r: JsNum)
    ensures s == "" ==> r == Finite(0.0)
    ensures s != "" && AllDigits(s) ==> r == Finite(FromDecimal(s) as real)
  {
    if s == "" then Finite(0.0)
    else if AllDigits(s) then Finite(FromDecimal(s) as real)
    else env.parseNumber(s)
  }

  /** `Number(v)`. */
  function ToNumber(env: Env, v: JsValue): (r: JsNum)
    ensures v.Num? ==> r == v.n
    ensures v.Undefined? ==> r.NaN?
  {
    match v
    case Undefined => NaN
    case Null => Finite(0.0)
    case Bool(b) => Finite(if b then 1.0 else 0.0)
    case Num(n) => n
    case Str(s) => StringToNumber(env, s)
    case _ => StringToNumber(env, env.text(v))
  }

  /** `Number.isFinite(n)`. */
  predicate IsFinite(n: JsNum) {
    n.Finite?
  }

  /** Strict order on numbers that are not NaN. */
  predicate Below(a: JsNum, b: JsNum)
    requires !a.NaN? && !b.NaN?
  {
    match (a, b)
    case (NegInf, NegInf) => false
    case (NegInf, _) => true
    case (_, PosInf) => !a.PosInf?
    case (Finite(x), Finite(y)) => x < y
    case _ => false
  }

  /** `Math.max(a, b)`: NaN if either argument is NaN. */
  function JsMax(a: JsNum, b: JsNum): (r: JsNum)
    ensures a.NaN? || b.NaN? ==> r.NaN?
    ensures a.Finite? && b.Finite? ==> r == Finite(if a.r < b.r then b.r else a.r)
  {
    if a.NaN? || b.NaN? then NaN else if Below(a, b) then b else a
  }

  /** `Math.min(a, b)`: NaN if either argument is NaN. */
  function JsMin(a: JsNum, b: JsNum): (r: JsNum)
    ensures a.NaN? || b.NaN? ==> r.NaN?
    ensures a.Finite? && b.Finite? ==> r == Finite(if b.r < a.r then b.r else a.r)
  {
    if a.NaN? || b.NaN? then NaN else if Below(b, a) then b else a
  }
}
