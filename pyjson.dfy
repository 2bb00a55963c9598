/**
 * A JSON document as Python's `json` decoder hands it over (dicts, lists,
 * strings, numbers, booleans and None), together with the few Python
 * operations the query plugin applies to it: `dict.get`, subscription with
 * a string or an integer, and truthiness. Each operation yields the value
 * Python yields or the exception Python raises.
 */
module PyJson {
  import opened Wrappers

  /** A decoded JSON value. Numbers are kept exact. */
  datatype Json =
    | JNull
    | JBool(b: bool)
    | JNumber(n: real)
    | JString(s: string)
    | JArray(items: seq<Json>)
    | JObject(fields: map<string, Json>)

  /** The exceptions the plugin's code can raise on a decoded reply, which its caller catches. */
  datatype Exception =
    | RequestException(msg: string)   // raised by the HTTP client library
    | AttributeError                  // `.get` on something that is not a dict
    | TypeError                       // subscript of the wrong kind, float() of a non-number
    | KeyError                        // dict subscript with a missing key
    | IndexError                      // sequence subscript out of range
    | ValueError                      // float() of a string that is not a number
    | OverflowError                   // float() of an integer too large for a float

  /** A subscript: `x['name']` or `x[n]`. */
  datatype Index = Name(name: string) | Position(n: int)

  /** Python truthiness of a decoded JSON value. */
  predicate Truthy(j: Json)
  {
    match j
    case JNull => false
    case JBool(b) => b
    case JNumber(n) => n != 0.0
    case JString(s) => s != []
    case JArray(items) => items != []
    case JObject(fields) => fields != map[]
  }

  /** `obj.get(key, default)`: only a dict has `get`. */
  function Get(obj: Json, key: string, default: Json): Result<Json, Exception>
  {
    if !obj.JObject? then Err(AttributeError)
    else if key in obj.fields then Ok(obj.fields[key])
    else Ok(default)
  }

  /** Python's sequence indexing, negative positions counting from the end. */
  function At<T>(s: seq<T>, n: int): Option<T>
  {
    if 0 <= n < |s| then Some(s[n])
    else if -|s| <= n < 0 then Some(s[|s| + n])
    else None
  }

  /**
   * `container[index]`. A dict looks the key up (decoded JSON keys are
   * always strings, so an integer key is never present); a list or a
   * string is indexed by position (a string yields a one-character string);
   * anything else is not subscriptable.
   */
  function Subscript(container: Json, index: Index): Result<Json, Exception>
  {
    if container.JObject? then
      if index.Name? && index.name in container.fields then Ok(container.fields[index.name])
      else Err(KeyError)
    else if (container.JArray? || container.JString?) && index.Position? then
      if container.JArray? then
        var item := At(container.items, index.n);
        if item.Some? then Ok(item.value) else Err(IndexError)
      else
        var c := At(container.s, index.n);
        if c.Some? then Ok(JString([c.value])) else Err(IndexError)
    else Err(TypeError)
  }
}
