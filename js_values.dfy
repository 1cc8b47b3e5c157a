/**
 * The JavaScript values the library passes around: the loosely typed contents of a data
 * bag, JavaScript's truthiness, `String(value)`, and plain objects as ordered dictionaries
 * (own string-keyed properties enumerate in insertion order).
 */
module JsValues {
  import opened Wrappers

  /** An ordered dictionary: the own enumerable properties of a plain JavaScript object. */
  datatype Dict<V> = Dict(keys: seq<string>, values: map<string, V>) {

    /** Keys are distinct and are exactly the keys that hold a value. */
    ghost predicate Valid() {
      Distinct(keys) && forall k :: k in values <==> k in keys
    }

    /** `obj[k]`, with `None` for `undefined`. */
    function Get(k: string): (r: Option<V>)
      ensures r.Some? <==> k in values
      ensures r.Some? ==> r.value == values[k]
    {
      if k in values then Some(values[k]) else None
    }

    /** `obj[k] = v`: an existing property keeps its place, a new one is enumerated last. */
    function Put(k: string, v: V): (d: Dict<V>)
      ensures d.values == values[k := v]
      ensures d.keys == if k in keys then keys else keys + [k]
      ensures Valid() ==> d.Valid()
    {
      Dict(if k in keys then keys else keys + [k], values[k := v])
    }

    /** `delete obj[k]`. */
    function Delete(k: string): (d: Dict<V>)
      ensures d.values == values - {k}
      ensures forall x :: x in d.keys <==> x in keys && x != k
      ensures Valid() ==> d.Valid()
    {
      Dict(RemoveKey(keys, k), values - {k})
    }
  }

  /** `{}` */
  function EmptyDict<V>(): (d: Dict<V>)
    ensures d.Valid() && d.values == map[]
  {
    Dict([], map[])
  }

  predicate Distinct(ks: seq<string>) {
    forall i, j :: 0 <= i < j < |ks| ==> ks[i] != ks[j]
  }

  /** `ks` with every occurrence of `k` taken out, order kept. */
  function RemoveKey(ks: seq<string>, k: string): (r: seq<string>)
    ensures forall x :: x in r <==> x in ks && x != k
    ensures Distinct(ks) ==> Distinct(r)
  {
    if ks == [] then []
    else
      var rest := RemoveKey(ks[1..], k);
      assert Distinct(ks) ==> ks[0] !in ks[1..];
      if ks[0] == k then rest else [ks[0]] + rest
  }

  /**
   * A JavaScript object whose identity matters: it is updated in place and may be shared
   * (request headers, an error's data, a data bag).
   */
  class JsRecord<V> {
    var dict: Dict<V>

    constructor(d: Dict<V>)
      ensures dict == d
    {
      dict := d;
    }
  }

  /** The values a data bag holds. Numbers are integers: NaN and fractions are not modelled. */
  datatype Value =
    | Undefined
    | Null
    | Bool(b: bool)
    | Num(n: int)
    | Str(s: string)
    | Arr(items: seq<Value>)
    | Obj(fields: Dict<Value>)

  /** `!value`: the falsy values (NaN aside). */
  predicate Falsy(v: Value) {
    v == Undefined || v == Null || v == Bool(false) || v == Num(0) || v == Str("")
  }

  /** `value === undefined || value === null` */
  predicate Nullish(v: Value) {
    v == Undefined || v == Null
  }

  /** `value ?? fallback` */
  function Coalesce(v: Value, fallback: Value): (r: Value)
    ensures Nullish(v) ==> r == fallback
    ensures !Nullish(v) ==> r == v
  {
    if Nullish(v) then fallback else v
  }

  function DigitChar(d: nat): char
    requires d < 10
  {
    "0123456789"[d]
  }

  /** The decimal numeral of a natural number. */
  function NatToDecimal(n: nat): (r: string)
    ensures |r| >= 1 && forall c :: c in r ==> '0' <= c <= '9'
  {
    if n < 10 then [DigitChar(n)] else NatToDecimal(n / 10) + [DigitChar(n % 10)]
  }

  /** `String(n)` for an integral number. */
  function IntToDecimal(n: int): string {
    if n < 0 then "-" + NatToDecimal(-n) else NatToDecimal(n)
  }

  /** `String(value)`; an array is joined with commas, its null and undefined elements as empty text. */
  function ToJsString(v: Value): (r: string)
    decreases v, 1
    ensures v.Str? ==> r == v.s
  {
    match v
    case Undefined => "undefined"
    case Null => "null"
    case Bool(b) => if b then "true" else "false"
    case Num(n) => IntToDecimal(n)
    case Str(s) => s
    case Arr(items) => JoinElements(items)
    case Obj(_) => "[object Object]"
  }

  /** `items.join(",")` */
  function JoinElements(items: seq<Value>): string
    decreases items, 0
  {
    if items == [] then ""
    else
      var head := if Nullish(items[0]) then "" else ToJsString(items[0]);
      if |items| == 1 then head else head + "," + JoinElements(items[1..])
  }
}
