/**
 * JavaScript values as the story payloads, configuration modules and
 * story arguments carry them. Numbers are integers, objects are plain
 * records whose keys keep insertion order, and a function is known only
 * by an identifier (its behaviour is supplied where it matters).
 */
module Values {
  import opened Wrappers
  import opened Text
  import opened Records

  datatype Value =
    | Undefined
    | Null
    | Bool(b: bool)
    | Num(n: int)
    | Str(s: string)
    | Arr(items: seq<Value>)
    | Obj(fields: seq<Entry<Value>>)
    | Func(id: nat)

  type Field = Entry<Value>

  /** `obj[key]` on a record: the stored value, or `undefined` when the key is absent. */
  function Get(fields: seq<Field>, key: string): (r: Value)
    ensures !HasKey(fields, key) ==> r == Undefined
  {
    match Lookup(fields, key)
    case None => Undefined
    case Some(v) => v
  }

  /** `v?.key` on any value: own properties exist only on records here. */
  function Prop(v: Value, key: string): (r: Value)
    ensures !v.Obj? ==> r == Undefined
  {
    if v.Obj? then Get(v.fields, key) else Undefined
  }

  /** Truthiness of a value (`if (v)`), for the values the model carries. */
  predicate Truthy(v: Value)
  {
    match v
    case Undefined => false
    case Null => false
    case Bool(b) => b
    case Num(n) => n != 0
    case Str(s) => s != ""
    case _ => true
  }

  /** `v !== undefined && v !== null`. */
  predicate Defined(v: Value)
  {
    !v.Undefined? && !v.Null?
  }

  /** `typeof v === 'object' && v !== null`: records and arrays. */
  predicate IsObject(v: Value)
  {
    v.Obj? || v.Arr?
  }

  /** `JSON.stringify(v)` of a value; `undefined` and functions have no JSON text. */
  function JsonStringify(v: Value): Option<string>
  {
    match v
    case Undefined => None
    case Func(_) => None
    case Null => Some("null")
    case Bool(b) => Some(if b then "true" else "false")
    case Num(n) => Some(IntToString(n))
    case Str(s) => Some(JsonQuote(s))
    case Arr(items) => Some("[" + JsonItems(items) + "]")
    case Obj(fields) => Some("{" + JsonFields(fields) + "}")
  }

  /** Array items, where values without JSON text become `null`. */
  function JsonItems(items: seq<Value>): string
    decreases items
  {
    if items == [] then ""
    else
      var head := match JsonStringify(items[0]) case Some(t) => t case None => "null";
      if |items| == 1 then head else head + "," + JsonItems(items[1..])
  }

  /** Object members, where members whose value has no JSON text are dropped. */
  function JsonFields(fields: seq<Field>): string
    decreases fields
  {
    if fields == [] then ""
    else
      var rest := JsonFields(fields[1..]);
      match JsonStringify(fields[0].val)
      case None => rest
      case Some(t) =>
        var member := JsonQuote(fields[0].key) + ":" + t;
        if rest == "" then member else member + "," + rest
  }

  /** The text a function's `toString()` gives: opaque, supplied by the caller. */
  type FunctionText = nat -> string

  /** `String(v)`. */
  function ToJsString(v: Value, fnText: FunctionText): string
    decreases v, 1
  {
    match v
    case Undefined => "undefined"
    case Null => "null"
    case Bool(b) => if b then "true" else "false"
    case Num(n) => IntToString(n)
    case Str(s) => s
    case Arr(items) => JoinedItems(items, fnText)
    case Obj(_) => "[object Object]"
    case Func(id) => fnText(id)
  }

  /** `Array.prototype.join(',')`, where `null` and `undefined` items print as empty. */
  function JoinedItems(items: seq<Value>, fnText: FunctionText): string
    decreases items, 0
  {
    if items == [] then ""
    else
      var head := if items[0].Undefined? || items[0].Null? then "" else ToJsString(items[0], fnText);
      if |items| == 1 then head else head + "," + JoinedItems(items[1..], fnText)
  }
}
