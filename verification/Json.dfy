// JSON values as the Rust side holds them after parsing. An object is the
// sequence of its members in iteration order. A number that is not an integer is
// kept as its printed text.
module Json {
  import opened Prelude

  datatype Value =
    | Null
    | Bool(flag: bool)
    | Number(number: int)
    | Float(printed: string)
    | String(text: string)
    | Array(items: seq<Value>)
    | Object(members: seq<Member>)

  datatype Member = Member(key: string, value: Value)

  // The value stored under `key`, the first one if the key is repeated.
  function Lookup(members: seq<Member>, key: string): Option<Value> {
    if members == [] then None
    else if members[0].key == key then Some(members[0].value)
    else Lookup(members[1..], key)
  }

  // `get` on a value that may not be an object.
  function Get(value: Option<Value>, key: string): Option<Value> {
    if value.Some? && value.value.Object? then Lookup(value.value.members, key) else None
  }

  const I64_MIN: int := -0x8000_0000_0000_0000
  const I64_MAX: int := 0x7fff_ffff_ffff_ffff

  function AsI64(value: Option<Value>): Option<int> {
    if value.Some? && value.value.Number? && I64_MIN <= value.value.number <= I64_MAX
    then Some(value.value.number) else None
  }

  function AsText(value: Option<Value>): Option<string> {
    if value.Some? && value.value.String? then Some(value.value.text) else None
  }
}
