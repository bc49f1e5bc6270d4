/** An already-parsed JSON value (the value grammar of section 3 of RFC 8259)
    and the org.json accessors the extraction uses, each a partial lookup that
    either yields a value or fails (where org.json throws `JSONException`). */
module JsonValue {
  import opened Options

  /** A JSON value. Numbers keep their lexeme: nothing here computes with
      them. An object is a map from member name to value, as org.json's
      `JSONObject` holds it after parsing. */
  datatype Json =
    | JNull
    | JBool(b: bool)
    | JNumber(lexeme: string)
    | JString(str: string)
    | JArray(elems: seq<Json>)
    | JObject(members: map<string, Json>)

  type Members = map<string, Json>

  /** `new JSONObject(text)` on text that parsed to `v`: only an object is accepted. */
  function AsObject(v: Json): Option<Members>
  {
    if v.JObject? then Some(v.members) else None
  }

  /** `JSONObject.getJSONObject(key)`: fails when the key is missing or its value is not an object. */
  function GetJSONObject(o: Members, key: string): Option<Members>
  {
    if key in o then AsObject(o[key]) else None
  }

  /** `JSONObject.getJSONArray(key)`: fails when the key is missing or its value is not an array. */
  function GetJSONArray(o: Members, key: string): Option<seq<Json>>
  {
    if key in o && o[key].JArray? then Some(o[key].elems) else None
  }

  /** `JSONObject.getString(key)`: fails when the key is missing or its value
      is not a string. Android's org.json would instead turn any present
      non-string value into its text; that coercion is not modelled. */
  function GetString(o: Members, key: string): Option<string>
  {
    if key in o && o[key].JString? then Some(o[key].str) else None
  }

  /** `JSONArray.getJSONObject(index)`: fails when the index is out of range
      or the element there is not an object. */
  function ArrayGetJSONObject(a: seq<Json>, index: int): Option<Members>
  {
    if 0 <= index < |a| then AsObject(a[index]) else None
  }

  /** True when `key` is present in `o` and holds a string. */
  predicate HasString(o: Members, key: string)
  {
    key in o && o[key].JString?
  }
}
