/** The JavaScript values the service reads out of a parsed reply and out of
    its caller's input, with the coercions it applies to them: truthiness,
    property access, `String(…)` and `Number(…)`.

    Rendering a number as text and reading a number from text are
    floating-point operations; they are parameters (`ShowNumber`,
    `ReadNumber`) rather than part of the model. */
module JsValue {
  import opened Wrappers
  import opened Text

  /** A value `JSON.parse` can produce. */
  datatype Json =
    | JNull
    | JBool(b: bool)
    | JNum(n: real)
    | JStr(s: string)
    | JArr(items: seq<Json>)
    | JObj(fields: map<string, Json>)

  /** A JavaScript number: finite, or one of NaN and the infinities. */
  datatype JsNumber = Finite(value: real) | NonFinite

  /** `String(n)` for a finite number. */
  type ShowNumber = real -> string

  /** `Number(s)` for a string. */
  type ReadNumber = string -> JsNumber

  /** JavaScript truthiness of a JSON value. */
  predicate Truthy(v: Json) {
    match v
    case JNull => false
    case JBool(b) => b
    case JNum(n) => n != 0.0
    case JStr(s) => s != []
    case JArr(_) => true
    case JObj(_) => true
  }

  /** Truthiness of a property that may be absent (`undefined`). */
  predicate TruthyField(v: Option<Json>) {
    v.Some? && Truthy(v.value)
  }

  /** The property `key` of `v`: absent unless `v` is an object holding it. */
  function Field(v: Json, key: string): (r: Option<Json>)
    ensures r.Some? <==> v.JObj? && key in v.fields
    ensures r.Some? ==> r.value == v.fields[key]
  {
    if v.JObj? && key in v.fields then Some(v.fields[key]) else None
  }

  /** `v ?? d`: the value unless it is absent or `null`. */
  function OrElse(v: Option<Json>, d: Json): (r: Json)
    ensures v.Some? && !v.value.JNull? ==> r == v.value
    ensures v.None? || v.value.JNull? ==> r == d
  {
    if v.Some? && !v.value.JNull? then v.value else d
  }

  /** `String(v)`. An array joins its elements with commas, writing `null`
      elements as empty text; an object is `[object Object]`. */
  function ToText(v: Json, show: ShowNumber): string
    decreases v, 1
  {
    match v
    case JNull => "null"
    case JBool(b) => if b then "true" else "false"
    case JNum(n) => show(n)
    case JStr(s) => s
    case JArr(items) => Join(ItemTexts(v, items, show), ",")
    case JObj(_) => "[object Object]"
  }

  /** The texts of the elements of an array, as `Array.prototype.join`
      writes them. */
  function ItemTexts(v: Json, items: seq<Json>, show: ShowNumber): (r: seq<string>)
    requires v.JArr? && items == v.items
    ensures |r| == |items|
    decreases v, 0
  {
    seq(|items|, i requires 0 <= i < |items| => if items[i].JNull? then "" else ToText(items[i], show))
  }

  /** `Number(v)`. */
  function ToNumber(v: Json, show: ShowNumber, read: ReadNumber): JsNumber {
    match v
    case JNull => Finite(0.0)
    case JBool(b) => Finite(if b then 1.0 else 0.0)
    case JNum(n) => Finite(n)
    case JStr(s) => read(s)
    case JArr(_) => read(ToText(v, show))
    case JObj(_) => read(ToText(v, show))
  }

  /** `Number.isFinite(x) && lo <= x && x <= hi`. */
  predicate InRange(x: JsNumber, lo: real, hi: real) {
    x.Finite? && lo <= x.value <= hi
  }
}
