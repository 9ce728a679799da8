/** The JavaScript values that tool inputs and elicited content carry, with the
    language's truthiness, property lookup on a plain object, and `||`. */
module JsValue {

  /** A primitive JavaScript value. Numbers are mathematical reals; NaN is the
      one IEEE value besides zero whose truthiness matters here. */
  datatype Value = Undefined | Null | Bool(b: bool) | Num(n: real) | NaN | Str(s: string)

  /** A plain object whose properties are primitive values: a missing key reads
      as `undefined`. */
  type Bag = map<string, Value>

  /** `Boolean(v)`: false exactly for undefined, null, false, 0, NaN and "". */
  predicate Truthy(v: Value)
    ensures !Truthy(v) <==> v in {Undefined, Null, Bool(false), Num(0.0), NaN, Str("")}
  {
    match v
    case Undefined => false
    case Null => false
    case Bool(b) => b
    case Num(n) => n != 0.0
    case NaN => false
    case Str(s) => s != ""
  }

  /** `obj[key]`. */
  function Prop(obj: Bag, key: string): (v: Value)
    ensures key in obj ==> v == obj[key]
    ensures key !in obj ==> v == Undefined
  {
    if key in obj then obj[key] else Undefined
  }

  /** `a || b`: the first operand when it is truthy, else the second. */
  function Or(a: Value, b: Value): (r: Value)
    ensures Truthy(r) <==> Truthy(a) || Truthy(b)
    ensures Truthy(a) ==> r == a
    ensures !Truthy(a) ==> r == b
  {
    if Truthy(a) then a else b
  }

  /** `Object.assign(target, source)` on a copy of `target`: every property of
      `source` overrides the one of the same name in `target`. */
  function Assign(target: Bag, source: Bag): (r: Bag)
    ensures r.Keys == target.Keys + source.Keys
    ensures forall k :: k in source ==> Prop(r, k) == source[k]
    ensures forall k :: k !in source ==> Prop(r, k) == Prop(target, k)
  {
    target + source
  }

  /** The decimal text of a count, as a template literal `${n}` renders it. */
  function DecimalString(n: nat): (r: string)
    ensures |r| >= 1 && forall k :: 0 <= k < |r| ==> '0' <= r[k] <= '9'
    decreases n
  {
    if n < 10 then [DigitChar(n)] else DecimalString(n / 10) + [DigitChar(n % 10)]
  }

  function DigitChar(d: nat): (c: char)
    requires d < 10
    ensures '0' <= c <= '9'
  {
    ['0', '1', '2', '3', '4', '5', '6', '7', '8', '9'][d]
  }

  /** Reads decimal digits back as a number, most significant first. */
  function ParseDecimal(s: string): nat
    requires forall k :: 0 <= k < |s| ==> '0' <= s[k] <= '9'
    decreases |s|
  {
    if s == [] then 0
    else ParseDecimal(s[..|s| - 1]) * 10 + ((s[|s| - 1] as int) - ('0' as int))
  }

  /** The rendered count reads back as the count itself. */
  lemma {:induction false} DecimalRoundTrip(n: nat)
    ensures ParseDecimal(DecimalString(n)) == n
    decreases n
  {
    var r := DecimalString(n);
    if n >= 10 {
      DecimalRoundTrip(n / 10);
      assert r[..|r| - 1] == DecimalString(n / 10);
    }
  }
}
