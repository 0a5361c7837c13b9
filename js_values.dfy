/** The dynamic values the JavaScript prototype handles as options, and the
    strict-mode property access it relies on. */
module JsValues {

  /** A computation that may throw. */
  datatype Result<+T> = Ok(value: T) | Failure(error: string) {
    predicate IsFailure() {
      Failure?
    }

    function PropagateFailure<U>(): Result<U>
      requires Failure?
    {
      Failure(error)
    }

    function Extract(): T
      requires Ok?
    {
      value
    }
  }

  const TypeError: string := "TypeError"

  /** A JavaScript value as options carry it. Arrays keep their elements
      and any named properties set on them; numbers are integers; a
      built-in function is one an array inherits from `Array.prototype`. */
  datatype JsValue =
    | Undefined
    | Null
    | Bool(b: bool)
    | Num(n: int)
    | Str(s: string)
    | Arr(items: seq<JsValue>, props: map<string, JsValue>)
    | Obj(props: map<string, JsValue>)
    | Builtin(fname: string)

  /** JavaScript truthiness. */
  predicate Truthy(v: JsValue) {
    match v
    case Undefined => false
    case Null => false
    case Bool(b) => b
    case Num(n) => n != 0
    case Str(s) => s != ""
    case Arr(_, _) => true
    case Obj(_) => true
    case Builtin(_) => true
  }

  /** `typeof v === 'object'` -- true for `null` too. */
  predicate IsObject(v: JsValue) {
    v.Null? || v.Arr? || v.Obj?
  }

  /** A value that can hold properties: an array or a plain object. */
  predicate HoldsProps(v: JsValue) {
    v.Arr? || v.Obj?
  }

  function Lookup(p: map<string, JsValue>, k: string): JsValue {
    if k in p then p[k] else Undefined
  }

  /** What an array inherits under a key: of the property names the client
      reads, only `find` is a member of `Array.prototype`. */
  function Inherited(k: string): JsValue {
    if k == "find" then Builtin("find") else Undefined
  }

  /** An array's property: its own one, else the inherited one. */
  function OwnOrInherited(p: map<string, JsValue>, k: string): JsValue {
    if k in p then p[k] else Inherited(k)
  }

  /** `v[k]`: a TypeError on `undefined` and `null`; the length of an array
      or a string; an array's own property, else what it inherits;
      `undefined` for any other property of a primitive. (The client never
      reads a property of a built-in function.) */
  function Get(v: JsValue, k: string): (r: Result<JsValue>)
    ensures r.Failure? <==> v.Undefined? || v.Null?
    ensures v.Obj? ==> r == Ok(Lookup(v.props, k))
    ensures v.Arr? && k != "length" ==> r == Ok(OwnOrInherited(v.props, k))
    ensures v.Arr? && k != "find" && k != "length" ==> r == Ok(Lookup(v.props, k))
  {
    match v
    case Undefined => Failure(TypeError)
    case Null => Failure(TypeError)
    case Arr(items, p) => if k == "length" then Ok(Num(|items|)) else Ok(OwnOrInherited(p, k))
    case Str(s) => if k == "length" then Ok(Num(|s|)) else Ok(Undefined)
    case Obj(p) => Ok(Lookup(p, k))
    case _ => Ok(Undefined)
  }

  /** `v[k] = x` in strict mode: only arrays and objects take properties;
      anything else throws. */
  function Set(v: JsValue, k: string, x: JsValue): (r: Result<JsValue>)
    ensures r.Ok? <==> HoldsProps(v)
    ensures r.Ok? ==> HoldsProps(r.value) && r.value.Arr? == v.Arr?
  {
    match v
    case Arr(items, p) => Ok(Arr(items, p[k := x]))
    case Obj(p) => Ok(Obj(p[k := x]))
    case _ => Failure(TypeError)
  }

  /** Reading back a property just written gives the written value; every
      other property reads as before. */
  lemma GetAfterSet(v: JsValue, k: string, x: JsValue, k2: string)
    requires HoldsProps(v) && k != "length"
    ensures Get(Set(v, k, x).value, k) == Ok(x)
    ensures k2 != k ==> Get(Set(v, k, x).value, k2) == Get(v, k2)
  {
  }

  /** Writing back the value a property already holds changes nothing. */
  lemma SetSameValue(v: JsValue, k: string)
    requires HoldsProps(v) && k != "length" && Lookup(v.props, k) != Undefined
    ensures Set(v, k, Get(v, k).value) == Ok(v)
  {
    assert k in v.props;
    assert v.props[k := v.props[k]] == v.props;
  }

  /** A second write to the same property replaces the first. */
  lemma SetTwice(v: JsValue, k: string, x: JsValue, y: JsValue)
    requires HoldsProps(v)
    ensures Set(Set(v, k, x).value, k, y) == Set(v, k, y)
  {
    assert v.props[k := x][k := y] == v.props[k := y];
  }

  /** The decimal text of a number, as `String(n)` writes an integer. */
  function NatText(n: nat): string
    decreases n
  {
    if n < 10 then ["0123456789"[n]] else NatText(n / 10) + ["0123456789"[n % 10]]
  }

  function IntText(n: int): string {
    if n < 0 then "-" + NatText(-n) else NatText(n)
  }

  /** `String(v)`, the conversion `indexOf` applies to its argument. */
  function ToText(v: JsValue): string
    decreases v, 1
  {
    match v
    case Undefined => "undefined"
    case Null => "null"
    case Bool(b) => if b then "true" else "false"
    case Num(n) => IntText(n)
    case Str(s) => s
    case Arr(items, _) => JoinItems(items)
    case Obj(_) => "[object Object]"
    case Builtin(f) => "function " + f + "() { [native code] }"
  }

  /** `items.join(",")`: `undefined` and `null` elements become empty text. */
  function JoinItems(items: seq<JsValue>): string
    decreases items, 0
  {
    if items == [] then ""
    else
      var first := if items[0].Undefined? || items[0].Null? then "" else ToText(items[0]);
      if |items| == 1 then first else first + "," + JoinItems(items[1..])
  }
}
