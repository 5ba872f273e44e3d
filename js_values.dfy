/**
 * The slice of JavaScript value semantics that the media picker relies on:
 * dynamically typed values, plain objects as string-keyed records, truthiness,
 * `||`, `??`, optional chaining, `toString` and object spread.
 *
 * Numbers are modelled as integers (the picker only handles ids, counts and
 * page numbers). A host object such as a browser `File` is a `Ref`, compared
 * by identity as `===` does.
 */
module JsValues {

  datatype JsValue =
    | Undefined
    | Null
    | Bool(b: bool)
    | Num(n: int)
    | Str(s: string)
    | Arr(items: seq<JsValue>)
    | Obj(fields: map<string, JsValue>)
    | Ref(id: nat)

  /** A plain object: its own enumerable properties. A key set to `undefined`
      by a spread is present with value `Undefined`. */
  type JsObject = map<string, JsValue>

  /** The outcome of a JavaScript expression that may throw. */
  datatype Result<T> = Ok(value: T) | Err(error: string)

  datatype Option<T> = None | Some(value: T)

  const TYPE_ERROR := "TypeError"

  predicate Truthy(v: JsValue)
  {
    match v
    case Undefined => false
    case Null => false
    case Bool(b) => b
    case Num(n) => n != 0
    case Str(s) => s != ""
    case _ => true
  }

  predicate Nullish(v: JsValue)
  {
    v == Undefined || v == Null
  }

  /** `a || b` */
  function Or(a: JsValue, b: JsValue): (r: JsValue)
    ensures Truthy(a) ==> r == a
    ensures !Truthy(a) ==> r == b
  {
    if Truthy(a) then a else b
  }

  /** `a ?? b` */
  function Coalesce(a: JsValue, b: JsValue): (r: JsValue)
    ensures Nullish(a) ==> r == b
    ensures !Nullish(a) ==> r == a
  {
    if Nullish(a) then b else a
  }

  /** `o[k]` on a plain object: a missing key reads as `undefined`. */
  function Get(o: JsObject, k: string): JsValue
  {
    if k in o then o[k] else Undefined
  }

  /** `b` agrees with `a` on every key outside `keys`: what a spread
      `{...a, k1: .., k2: ..}` leaves alone. */
  ghost predicate SameExcept(a: JsObject, b: JsObject, keys: set<string>)
  {
    forall k :: k !in keys ==> Get(b, k) == Get(a, k)
  }

  /** `v?.k`: `undefined` on a nullish receiver; own properties of an object;
      `length` of an array or string; `undefined` otherwise. */
  function OptProp(v: JsValue, k: string): JsValue
  {
    match v
    case Obj(m) => Get(m, k)
    case Arr(s) => if k == "length" then Num(|s|) else Undefined
    case Str(s) => if k == "length" then Num(|s|) else Undefined
    case _ => Undefined
  }

  /** `v.k` without optional chaining: reading a property of `null` or
      `undefined` throws a TypeError. */
  function Prop(v: JsValue, k: string): (r: Result<JsValue>)
    ensures r.Err? <==> Nullish(v)
    ensures r.Ok? ==> r.value == OptProp(v, k)
  {
    if Nullish(v) then Err(TYPE_ERROR) else Ok(OptProp(v, k))
  }

  /** `v?.[i]` for an index `i`. */
  function OptIndex(v: JsValue, i: nat): JsValue
  {
    match v
    case Arr(s) => if i < |s| then s[i] else Undefined
    case Str(s) => if i < |s| then Str([s[i]]) else Undefined
    case Obj(m) => Get(m, NatToDecimal(i))
    case _ => Undefined
  }

  /** `{...v}`: the own properties copied by an object spread. Spreading a
      nullish or primitive value copies nothing. */
  function SpreadOf(v: JsValue): JsObject
  {
    match v
    case Obj(m) => m
    case _ => map[]
  }

  /** `[...v]` inside an array literal: arrays and strings are iterable,
      nullish and other values throw. */
  function IterableItems(v: JsValue): (r: Result<seq<JsValue>>)
    ensures v.Arr? ==> r == Ok(v.items)
  {
    match v
    case Arr(s) => Ok(s)
    case Str(s) => Ok(seq(|s|, i requires 0 <= i < |s| => Str([s[i]])))
    case _ => Err(TYPE_ERROR)
  }

  function DigitChar(d: nat): char
    requires d < 10
  {
    "0123456789"[d]
  }

  /** Decimal rendering of a natural number, as `String(n)` does. */
  function NatToDecimal(n: nat): (r: string)
    ensures |r| >= 1
    ensures forall i :: 0 <= i < |r| ==> '0' <= r[i] <= '9'
    decreases n
  {
    if n < 10 then [DigitChar(n)] else NatToDecimal(n / 10) + [DigitChar(n % 10)]
  }

  /** Decimal rendering of an integer (`${n}` / `n.toString()`). */
  function IntToDecimal(n: int): (r: string)
    ensures |r| >= 1
  {
    if n < 0 then "-" + NatToDecimal(-n) else NatToDecimal(n)
  }

  /** `String(v)`; elements of an array are joined with commas, nullish
      elements rendering as the empty string. */
  function ToString(v: JsValue): string
    decreases v, 1
  {
    match v
    case Undefined => "undefined"
    case Null => "null"
    case Bool(b) => if b then "true" else "false"
    case Num(n) => IntToDecimal(n)
    case Str(s) => s
    case Arr(s) => JoinItems(v, s, 0)
    case Obj(_) => "[object Object]"
    case Ref(_) => "[object Object]"
  }

  function JoinItems(ghost whole: JsValue, s: seq<JsValue>, i: nat): string
    requires whole.Arr? && s == whole.items && i <= |s|
    decreases whole, 0, |s| - i
  {
    if i == |s| then ""
    else
      var head := if Nullish(s[i]) then "" else ToString(s[i]);
      if i + 1 == |s| then head else head + "," + JoinItems(whole, s, i + 1)
  }
}
