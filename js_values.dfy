/** JavaScript values as they arrive in response bodies, with the two
    conversions the core applies to them: truthiness and `String(v)`. */
module JsValues {
  import JsStrings

  /** Numbers are integral here. */
  datatype JsValue =
    | Undefined
    | Null
    | Bool(b: bool)
    | Num(n: int)
    | Str(s: string)
    | Arr(items: seq<JsValue>)
    | Obj(props: map<string, JsValue>)

  predicate Truthy(v: JsValue) {
    match v
    case Undefined => false
    case Null => false
    case Bool(b) => b
    case Num(n) => n != 0
    case Str(s) => s != ""
    case Arr(_) => true
    case Obj(_) => true
  }

  /** `v?.message`: only an object can carry the property. */
  function MessageOf(v: JsValue): (m: JsValue)
    ensures m != Undefined ==> v.Obj? && "message" in v.props && m == v.props["message"]
  {
    match v
    case Obj(props) => if "message" in props then props["message"] else Undefined
    case _ => Undefined
  }

  /** `String(v)`; an array joins its elements with ',' and shows null and
      undefined elements as empty. */
  function ToString(v: JsValue): string {
    match v
    case Undefined => "undefined"
    case Null => "null"
    case Bool(b) => if b then "true" else "false"
    case Num(n) => JsStrings.IntToString(n)
    case Str(s) => s
    case Arr(items) => JoinElements(items)
    case Obj(_) => "[object Object]"
  }

  function JoinElements(items: seq<JsValue>): string
    decreases items
  {
    if |items| == 0 then ""
    else
      var last := items[|items| - 1];
      var text := if last.Undefined? || last.Null? then "" else ToString(last);
      if |items| == 1 then text else JoinElements(items[..|items| - 1]) + "," + text
  }

  /** `v || fallback`, as a string: a truthy value converted, else the fallback. */
  function OrElse(v: JsValue, fallback: string): (s: string)
    ensures !Truthy(v) ==> s == fallback
    ensures v.Str? && v.s != "" ==> s == v.s
  {
    if Truthy(v) then ToString(v) else fallback
  }
}
