/**
 * Decoded JSON replies of the Besmart cloud, and the Python operations the
 * client applies to them: truthiness, `dict.get`, `==` against literals,
 * indexing, and the conversions `float`, `int`, `bool` and `str`.
 * Python's None and JSON null are the same value, Null.
 */
module Json {
  import opened Wrappers
  import Text
  import Tenths

  datatype Value =
    | Null
    | Bool(b: bool)
    | Num(n: int)
    | Str(s: string)
    | Arr(items: seq<Value>)
    | Obj(fields: map<string, Value>)

  /** Python truthiness: None, False, 0, "", [] and {} are false, every other value is true. */
  predicate Truthy(v: Value) {
    match v
    case Null => false
    case Bool(b) => b
    case Num(n) => n != 0
    case Str(s) => s != []
    case Arr(items) => items != []
    case Obj(fields) => fields != map[]
  }

  /** `fields.get(key, default)` on a dict. */
  function FieldOr(fields: map<string, Value>, key: string, default: Value): Value {
    if key in fields then fields[key] else default
  }

  /**
   * `v.get(key, default)`: None when v is not a dict, where Python raises
   * AttributeError ('NoneType' object has no attribute 'get', and so on).
   */
  function GetOr(v: Value, key: string, default: Value): (r: Option<Value>)
    ensures r.Some? <==> v.Obj?
  {
    match v
    case Obj(fields) => Some(FieldOr(fields, key, default))
    case _ => None
  }

  /** `v.get(key)`. */
  function Get(v: Value, key: string): Option<Value> {
    GetOr(v, key, Null)
  }

  /** `v == n` for an int literal n: Python's True and False are equal to 1 and 0. */
  predicate EqualsInt(v: Value, n: int) {
    v == Num(n) || (v.Bool? && n == (if v.b then 1 else 0))
  }

  /** Lists and dicts cannot be hashed: using one as a dict key or set element raises TypeError. */
  predicate Hashable(v: Value) {
    !v.Arr? && !v.Obj?
  }

  /** `v[i]` for a non-negative index: None where Python raises (IndexError, KeyError, TypeError). */
  function Index(v: Value, i: nat): Option<Value> {
    match v
    case Arr(items) => if i < |items| then Some(items[i]) else None
    case Str(s) => if i < |s| then Some(Str([s[i]])) else None
    case _ => None
  }

  /** The result of a conversion, with the two exceptions the client distinguishes. */
  datatype Conversion<+T> = Converted(value: T) | ValueError | TypeError

  /** `float(v)`. */
  function ToFloat(v: Value): Conversion<real> {
    match v
    case Null => TypeError
    case Bool(b) => Converted(if b then 1.0 else 0.0)
    case Num(n) => Converted(n as real)
    case Str(s) =>
      (match Text.ParseDecimal(s)
       case Some(x) => Converted(x)
       case None => ValueError)
    case Arr(_) => TypeError
    case Obj(_) => TypeError
  }

  /** `int(v)`. */
  function ToInt(v: Value): Conversion<int> {
    match v
    case Null => TypeError
    case Bool(b) => Converted(if b then 1 else 0)
    case Num(n) => Converted(n)
    case Str(s) =>
      (match Text.ParseInt(s)
       case Some(i) => Converted(i)
       case None => ValueError)
    case Arr(_) => TypeError
    case Obj(_) => TypeError
  }

  /** `str(v)` for a scalar; None for a list or dict, whose printed form is not modelled. */
  function ToStr(v: Value): Option<string> {
    match v
    case Null => Some("None")
    case Bool(b) => Some(if b then "True" else "False")
    case Num(n) => Some(Text.IntToString(n))
    case Str(s) => Some(s)
    case Arr(_) => None
    case Obj(_) => None
  }

  /** `float` reads the text of a temperature in tenths back as that temperature. */
  lemma FloatOfTenths(t: int)
    ensures ToFloat(Str(Tenths.TenthsToString(t))) == Converted(t as real / 10.0)
  {
    Tenths.ParseTenths(t);
  }

  /** `int(str(i)) == i`, and `int` of the JSON number i is i as well. */
  lemma IntOfDecimal(i: int)
    ensures ToInt(Str(Text.IntToString(i))) == Converted(i)
    ensures ToInt(Num(i)) == Converted(i)
  {
    Text.ParseIntOfString(i);
  }
}
