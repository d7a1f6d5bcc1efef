/**
 * Property values as they cross the D-Bus and QML boundaries: a small tagged
 * union standing for the QVariant types the connection manager handles, and
 * the QVariant conversions (`toString`, `toBool`, `value<QVariantMap>`) that
 * the code applies to them.
 */
module Variants {
  import opened Text

  datatype Option<T> = None | Some(value: T) {
    function GetOr(default: T): T {
      match this
      case Some(v) => v
      case None => default
    }
  }

  datatype Value =
    | VBool(b: bool)
    | VInt(i: int)
    | VString(s: string)
    | VStrings(l: seq<string>)
    | VMap(m: map<string, Value>)

  /** A QVariantMap. */
  type PropertyMap = map<string, Value>

  function DigitChar(d: nat): (c: char)
    requires d < 10
  {
    "0123456789"[d]
  }

  /** Decimal digits of a natural number, most significant first, no leading zeros. */
  function Digits(n: nat): (r: string)
    ensures r != []
    decreases n
  {
    if n < 10 then [DigitChar(n)] else Digits(n / 10) + [DigitChar(n % 10)]
  }

  /** `QString::number` of an integer. */
  function IntToString(i: int): (r: string)
    ensures r != []
  {
    if i < 0 then "-" + Digits(-i) else Digits(i)
  }

  /**
   * `QVariant::toString`, with `None` for the null QString returned when the
   * held type has no conversion to a string.
   */
  function ToQString(v: Value): (r: Option<string>)
    ensures v.VBool? ==> r == Some(if v.b then "true" else "false")
    ensures v.VInt? ==> r == Some(IntToString(v.i))
    ensures v.VString? ==> r == Some(v.s)
    ensures v.VStrings? ==> (r.Some? <==> |v.l| == 1) && (|v.l| == 1 ==> r == Some(v.l[0]))
    ensures v.VMap? ==> r == None
  {
    match v
    case VBool(b) => Some(if b then "true" else "false")
    case VInt(i) => Some(IntToString(i))
    case VString(s) => Some(s)
    case VStrings(l) => if |l| == 1 then Some(l[0]) else None
    case VMap(_) => None
  }

  /** `QVariant::toString` where the null and the empty string are not told apart. */
  function ToStr(v: Value): string {
    ToQString(v).GetOr("")
  }

  /** `QVariant::toBool`: a string is false when empty, "0" or "false" in any case. */
  function ToBool(v: Value): (r: bool)
    ensures v.VBool? ==> r == v.b
    ensures v.VInt? ==> (r <==> v.i != 0)
    ensures v.VString? ==> (r <==> v.s != "" && v.s != "0" && LowerAll(v.s) != "false")
    ensures v == VString("") || v == VString("0") || v == VString("false") || v == VString("FALSE") ==> !r
    ensures v.VStrings? || v.VMap? ==> !r
  {
    match v
    case VBool(b) => b
    case VInt(i) => i != 0
    case VString(s) => !(s == "" || s == "0" || LowerAll(s) == "false")
    case VStrings(_) => false
    case VMap(_) => false
  }

  /** `QVariant::value<QVariantMap>()`: the map held, or an empty map. */
  function AsMap(v: Value): PropertyMap {
    if v.VMap? then v.m else map[]
  }

  /** `map.value(key).toString()`; a missing key reads as the empty string. */
  function StringValue(m: PropertyMap, key: string): string {
    if key in m then ToStr(m[key]) else ""
  }

  /** `map.value(key).toBool()`; a missing key reads as false. */
  function BoolValue(m: PropertyMap, key: string): bool {
    key in m && ToBool(m[key])
  }
}
