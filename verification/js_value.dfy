/**
  The slice of JavaScript value semantics the handlers rely on: the values a
  JSON-RPC request, the snap's persisted state and local storage can hold,
  truthiness, nullishness, string conversion in template literals, property
  reads and the `in` operator, with the `TypeError`s they throw.

  Numbers are integers here; object identity, prototypes and functions are
  not modelled, so `==` on `Value` agrees with JavaScript's `===` on the
  primitives the handlers compare against (`'dark'`, `true`).
 */
module JsValue {
  import opened Wrappers
  import opened Decimal

  datatype Value =
    | Undefined
    | Null
    | Bool(b: bool)
    | Num(n: int)
    | Str(s: string)
    | Arr(elems: seq<Value>)
    | Obj(fields: map<string, Value>)

  /** What a handler throws (a promise it returns rejects with the same value). */
  datatype Thrown =
    | TypeError(message: string)
      /** `new Error(message)` */
    | PlainError(message: string)
      /** A JSON-RPC error object as built by `rpcErrors` */
    | RpcError(code: int, message: string, data: Value)

  /** How a promise the page awaits settles. */
  datatype Settled = Resolved(value: Value) | Rejected(reason: Thrown)

  /** `v ?? d` falls back to `d` exactly for these. */
  predicate Nullish(v: Value) {
    v.Undefined? || v.Null?
  }

  /** JavaScript's ToBoolean: what `!v` negates and `v ? a : b` tests. */
  predicate Truthy(v: Value) {
    match v
    case Undefined => false
    case Null => false
    case Bool(b) => b
    case Num(n) => n != 0
    case Str(s) => |s| > 0
    case Arr(_) => true
    case Obj(_) => true
  }

  /** Comma-separated concatenation, as `Array.prototype.join` with its default separator. */
  function Join(parts: seq<string>): string
    decreases |parts|
  {
    if |parts| == 0 then ""
    else if |parts| == 1 then parts[0]
    else parts[0] + "," + Join(parts[1..])
  }

  /** String conversion, as `${v}` in a template literal performs it. */
  function ToText(v: Value): string
    decreases v
  {
    match v
    case Undefined => "undefined"
    case Null => "null"
    case Bool(b) => if b then "true" else "false"
    case Num(n) => IntText(n)
    case Str(s) => s
    case Obj(_) => "[object Object]"
    case Arr(es) =>
      Join(seq(|es|, i requires 0 <= i < |es| => if Nullish(es[i]) then "" else ToText(es[i])))
  }

  /** The array index a property key denotes, if any: keys that are the canonical decimal text of a natural. */
  function ArrayIndex(key: string): (r: Option<nat>)
    ensures r.Some? ==> NatText(r.value) == key
  {
    if Canonical(key) then
      NatTextParse(key);
      Some(ParseNat(key))
    else None
  }

  /** `key in v`: own keys of a record, `length` and in-range indices of an array; a TypeError on primitives. */
  function HasProperty(v: Value, key: string): (r: Result<bool, Thrown>)
    ensures r.Failure? <==> !(v.Obj? || v.Arr?)
    ensures r.Failure? ==> r.error.TypeError?
  {
    match v
    case Obj(m) => Success(key in m)
    case Arr(es) =>
      var idx := ArrayIndex(key);
      Success(key == "length" || (idx.Some? && idx.value < |es|))
    case _ =>
      Failure(TypeError("Cannot use 'in' operator to search for '" + key + "' in " + ToText(v)))
  }

  /** `v[key]` / `v.key` for keys no built-in prototype defines; a TypeError on `null` and `undefined`. */
  function Get(v: Value, key: string): (r: Result<Value, Thrown>)
    ensures r.Failure? <==> Nullish(v)
    ensures r.Failure? ==> r.error.TypeError?
  {
    match v
    case Undefined =>
      Failure(TypeError("Cannot read properties of undefined (reading '" + key + "')"))
    case Null =>
      Failure(TypeError("Cannot read properties of null (reading '" + key + "')"))
    case Obj(m) => Success(if key in m then m[key] else Undefined)
    case Arr(es) =>
      var idx := ArrayIndex(key);
      if key == "length" then Success(Num(|es|))
      else if idx.Some? && idx.value < |es| then Success(es[idx.value])
      else Success(Undefined)
    case Str(s) =>
      var idx := ArrayIndex(key);
      if key == "length" then Success(Num(|s|))
      else if idx.Some? && idx.value < |s| then Success(Str([s[idx.value]]))
      else Success(Undefined)
    case _ => Success(Undefined)
  }
}
