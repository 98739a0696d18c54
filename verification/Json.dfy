/** JSON values and the accessors of serde_json that the parsers use. Parsing text into a
    value is a parameter of the code that needs it. */
module Json {
  import opened Wrappers

  datatype Value =
    | Null
    | Bool(b: bool)
    | Number(n: int)
    | Str(s: string)
    | Array(items: seq<Value>)
    | Object(fields: map<string, Value>)

  type Parser = string -> Option<Value>

  function Get(v: Value, key: string): Option<Value> {
    if v.Object? && key in v.fields then Some(v.fields[key]) else None
  }

  function GetStr(v: Value, key: string): Option<string> {
    var field := Get(v, key);
    if field.Some? && field.value.Str? then Some(field.value.s) else None
  }

  function GetArray(v: Value, key: string): Option<seq<Value>> {
    var field := Get(v, key);
    if field.Some? && field.value.Array? then Some(field.value.items) else None
  }

  /** `as_u64`: a number that is not negative. */
  function GetNat(v: Value, key: string): Option<nat> {
    var field := Get(v, key);
    if field.Some? && field.value.Number? && field.value.n >= 0 then Some(field.value.n) else None
  }

  /** `v.get(outer).and_then(|f| f.get(key)).and_then(as_str)`. */
  function GetInnerStr(v: Value, outer: string, key: string): Option<string> {
    var field := Get(v, outer);
    if field.Some? then GetStr(field.value, key) else None
  }

  // Fields, without the accessors.

  ghost predicate HasField(v: Value, key: string) {
    v.Object? && key in v.fields
  }

  /** The string under a key; `None` stands for a missing field, `null` or any other value. */
  ghost predicate HasStr(v: Value, key: string, s: Option<string>) {
    if s.Some? then HasField(v, key) && v.fields[key] == Str(s.value)
    else HasField(v, key) ==> !v.fields[key].Str?
  }

  lemma StrIs(v: Value, key: string, s: Option<string>)
    requires HasStr(v, key, s)
    ensures GetStr(v, key) == s
  {
  }
}
