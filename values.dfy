/** Abstract JavaScript values, as far as the task library inspects them. */
module Values {

  datatype Option<+T> = None | Some(value: T) {
    /** `x || fallback` for a value that is either null or set. */
    function GetOr(default: T): T {
      if Some? then value else default
    }
  }

  /** A JavaScript value. Numbers are integers (NaN, infinities and fractions are
      not modelled); a plain object carries its own properties, whether it is an
      `Error` instance, and the text its `toString()` produces. */
  datatype Value =
    | Undefined
    | Null
    | Bool(b: bool)
    | Num(n: int)
    | Str(s: string)
    | Arr(elems: seq<Value>)
    | Obj(props: map<string, Value>, isError: bool, text: string)

  /** JavaScript truthiness: `if (v)`. */
  predicate Truthy(v: Value) {
    match v
    case Undefined => false
    case Null => false
    case Bool(b) => b
    case Num(n) => n != 0
    case Str(s) => s != ""
    case Arr(_) => true
    case Obj(_, _, _) => true
  }

  /** Property read `v.key`: only objects carry the properties looked up here. */
  function Prop(v: Value, key: string): Value {
    if v.Obj? && key in v.props then v.props[key] else Undefined
  }

  /** An `Error` whose message is `what`. */
  function MakeError(what: string): (e: Value)
    ensures Truthy(e) && e.Obj? && e.isError
    ensures Prop(e, "message") == Str(what)
  {
    Obj(map["message" := Str(what)], true, "Error: " + what)
  }

  function DigitChar(d: nat): char
    requires d < 10
  {
    ['0', '1', '2', '3', '4', '5', '6', '7', '8', '9'][d]
  }

  /** Decimal digits of `n`, most significant first. */
  function NatString(n: nat): (r: string)
    ensures |r| >= 1
    decreases n
  {
    if n < 10 then [DigitChar(n)] else NatString(n / 10) + [DigitChar(n % 10)]
  }

  /** `String(v)`; for a truthy value this is also what `v.toString()` gives. */
  function JsString(v: Value): string
    decreases v, 1
  {
    match v
    case Undefined => "undefined"
    case Null => "null"
    case Bool(b) => if b then "true" else "false"
    case Num(n) => if n < 0 then "-" + NatString(-n) else NatString(n)
    case Str(s) => s
    case Arr(elems) => JoinElems(v, elems)
    case Obj(_, _, text) => text
  }

  /** `Array.prototype.join(",")`: null and undefined elements print as "". */
  function JoinElems(ghost whole: Value, elems: seq<Value>): string
    requires forall i | 0 <= i < |elems| :: elems[i] < whole
    decreases whole, 0, |elems|
  {
    if elems == [] then ""
    else
      var head := if elems[0].Undefined? || elems[0].Null? then "" else JsString(elems[0]);
      if |elems| == 1 then head else head + "," + JoinElems(whole, elems[1..])
  }
}
