/** JSON values as `serde_json::Value` holds them, and the accessors the webhook uses. */
module Json {
  import opened Wrappers

  /** A number keeps whether it was written as an integer: `as_i64` refuses fractions. */
  datatype Number = Integer(i: int) | Fraction(r: real)

  datatype Json =
    | Null
    | Bool(b: bool)
    | Num(n: Number)
    | Str(s: string)
    | Arr(items: seq<Json>)
    | Obj(fields: map<string, Json>)

  type Fields = map<string, Json>

  const I64_MIN: int := -0x8000_0000_0000_0000
  const I64_MAX: int := 0x7fff_ffff_ffff_ffff

  function Field(m: Fields, key: string): Option<Json> {
    if key in m then Some(m[key]) else None
  }

  function AsStr(v: Option<Json>): Option<string> {
    match v
    case Some(Str(s)) => Some(s)
    case _ => None
  }

  function AsBool(v: Option<Json>): Option<bool> {
    match v
    case Some(Bool(b)) => Some(b)
    case _ => None
  }

  function AsI64(v: Option<Json>): Option<int> {
    match v
    case Some(Num(Integer(i))) => if I64_MIN <= i <= I64_MAX then Some(i) else None
    case _ => None
  }

  function StrOr(v: Option<Json>, default: string): string {
    match AsStr(v)
    case Some(s) => s
    case None => default
  }

  function BoolOr(v: Option<Json>, default: bool): bool {
    match AsBool(v)
    case Some(b) => b
    case None => default
  }

  /** `as_object` on the value a key holds. */
  function ObjectAt(m: Fields, key: string): Option<Fields> {
    match Field(m, key)
    case Some(Obj(f)) => Some(f)
    case _ => None
  }
}
