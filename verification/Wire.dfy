// JSON values as the foreman's validators see them after decoding, and the accessors
// that the Rust code applies to them.
module Wire {

  datatype Option<+T> = None | Some(value: T)

  // `K` is the type of object keys.  `Int` covers every JSON number without a fraction.
  datatype Json<K> =
    | Null
    | Bool(b: bool)
    | Int(n: int)
    | Real(r: real)
    | Str(s: string)
    | Arr(items: seq<Json<K>>)
    | Obj(fields: map<K, Json<K>>)

  const SAFE: int := 9_007_199_254_740_991
  const U32_MAX: int := 4_294_967_295
  const I64_MIN: int := -0x8000_0000_0000_0000
  const I64_MAX: int := 0x7fff_ffff_ffff_ffff
  const U64_MAX: int := 0xffff_ffff_ffff_ffff

  function AsStr<K>(j: Json<K>): Option<string> {
    if j.Str? then Some(j.s) else None
  }

  function AsInt<K>(j: Json<K>): Option<int> {
    if j.Int? && I64_MIN <= j.n <= I64_MAX then Some(j.n) else None
  }

  function Get<K>(fields: map<K, Json<K>>, key: K): Option<Json<K>> {
    if key in fields then Some(fields[key]) else None
  }

  function StrAt<K>(fields: map<K, Json<K>>, key: K): Option<string> {
    if key in fields then AsStr(fields[key]) else None
  }

  function IntAt<K>(fields: map<K, Json<K>>, key: K): Option<int> {
    if key in fields then AsInt(fields[key]) else None
  }

  // The object stored under `key`, or the empty object when there is none.
  function ObjAt<K>(fields: map<K, Json<K>>, key: K): map<K, Json<K>> {
    if key in fields && fields[key].Obj? then fields[key].fields else map[]
  }

  predicate HasPrefix(text: string, prefix: string) {
    |prefix| <= |text| && text[..|prefix|] == prefix
  }
}
