/**
 * The values the parsed metadata documents hold, and the two JavaScript
 * conversions the packager applies to them: reading a key of a plain
 * object, and turning a value into text inside a template literal or a
 * string concatenation.
 */
module JsValues {
  import opened Wrappers
  import opened Numbers

  /**
   * A JSON value, plus `undefined` (what a missing key reads as) and NaN
   * (what `parseInt` gives when there is nothing to parse). Numbers are
   * integral.
   */
  datatype Value =
    | Undefined
    | Null
    | Bool(b: bool)
    | Num(n: int)
    | NaN
    | Str(s: string)
    | Arr(items: seq<Value>)
    | Obj(fields: Object)

  /** A parsed JSON object, key by key. */
  type Object = map<string, Value>

  /** `obj[key]` on a plain object: `undefined` when the key is absent. */
  function Get(obj: Object, key: string): Value {
    if key in obj then obj[key] else Undefined
  }

  /** The number `x` (`None` is NaN) as a value. */
  function NumberValue(x: Option<int>): Value {
    match x
    case Some(n) => Num(n)
    case None => NaN
  }

  /** `parts.join(sep)`. */
  function Join(parts: seq<string>, sep: string): string {
    if parts == [] then ""
    else if |parts| == 1 then parts[0]
    else parts[0] + sep + Join(parts[1..], sep)
  }

  /**
   * `String(v)` converts `v` without throwing. A parsed object with its own
   * `toString` key holds data there rather than a method, so the
   * conversion finds no callable `toString`, gets an object back from the
   * inherited `valueOf`, and throws a TypeError. An array converts by
   * converting its elements, so one holding such an object throws too.
   */
  predicate Stringable(v: Value)
    decreases v
  {
    match v
    case Arr(items) => forall i :: 0 <= i < |items| ==> Stringable(items[i])
    case Obj(fields) => "toString" !in fields
    case _ => true
  }

  /** An own `toString` key, directly or inside an array, makes the conversion throw; other keys do not. */
  lemma OwnToStringNotStringable()
    ensures !Stringable(Obj(map["toString" := Str("1.0")]))
    ensures !Stringable(Arr([Str("a"), Obj(map["toString" := Str("1.0")])]))
    ensures Stringable(Obj(map["valueOf" := Str("1.0")]))
  {
    var items := [Str("a"), Obj(map["toString" := Str("1.0")])];
    assert !Stringable(items[1]);
  }

  /**
   * `String(v)` of a `Stringable` value: what `${v}` and `"text" + v`
   * insert. Arrays join their elements with `,`, writing `null` and
   * `undefined` elements as empty text; every such object is
   * `[object Object]`. For any other value the conversion throws, and
   * `run()` fails before this text is used.
   */
  function ToJsString(v: Value): (r: string)
    ensures v.Str? ==> r == v.s
    ensures v.Num? ==> ParseInt(r) == Some(v.n)
    ensures v.NaN? ==> ParseInt(r) == None
    decreases v
  {
    match v
    case Undefined => "undefined"
    case Null => "null"
    case Bool(b) => if b then "true" else "false"
    case Num(n) => ParseIntOfIntToString(n); IntToString(n)
    case NaN => ParseIntOfNumberToString(None); "NaN"
    case Str(s) => s
    case Arr(items) =>
      Join(seq(|items|, i requires 0 <= i < |items| =>
                 if items[i].Undefined? || items[i].Null? then "" else ToJsString(items[i])), ",")
    case Obj(_) => "[object Object]"
  }
}
