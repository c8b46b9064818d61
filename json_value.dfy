/** A decoded JSON value and the Python operations the response checks apply to it. */
module JsonValue {
  import opened Outcomes
  import PyText

  /** What `response.json()` yields: `None`, a bool, a number, a string, a list or a
      dict with string keys. Numbers are integers in this model. */
  datatype Json =
    | JNull
    | JBool(b: bool)
    | JNum(n: int)
    | JStr(s: string)
    | JArr(elems: seq<Json>)
    | JObj(fields: map<string, Json>)

  /** Raised by the interpreter; its message text is not modelled. */
  const TypeError := Exc(OtherClass("TypeError"), "")
  const AttributeError := Exc(OtherClass("AttributeError"), "")
  const IndexError := Exc(OtherClass("IndexError"), "")

  /** Python truthiness: `None`, `False`, `0`, `""`, `[]` and `{}` are false. */
  predicate Truthy(x: Json)
  {
    match x
    case JNull => false
    case JBool(b) => b
    case JNum(n) => n != 0
    case JStr(s) => s != []
    case JArr(e) => e != []
    case JObj(m) => m != map[]
  }

  /** `key in x` for a string key: a dict's keys, a list's elements, a string's
      substrings; other values raise `TypeError`. */
  function Contains(x: Json, key: string): Result<bool>
  {
    match x
    case JObj(m) => Ok(key in m)
    case JArr(e) => Ok(JStr(key) in e)
    case JStr(s) => Ok(PyText.In(key, s))
    case _ => Err(TypeError)
  }

  /** `x[key]` for a string key: only a dict can be indexed so, and a missing key raises
      `KeyError`. */
  function Index(x: Json, key: string): Result<Json>
  {
    match x
    case JObj(m) => if key in m then Ok(m[key]) else Err(KeyError(key))
    case _ => Err(TypeError)
  }

  /** `x.get(key, default)`: only a dict has `get`. */
  function Get(x: Json, key: string, default: Json): Result<Json>
  {
    match x
    case JObj(m) => Ok(if key in m then m[key] else default)
    case _ => Err(AttributeError)
  }

  /** `x[0]`: the first element of a list or the first character of a string; the
      integer key 0 is never a key of a decoded dict; other values are not subscriptable. */
  function First(x: Json): Result<Json>
  {
    match x
    case JArr(e) => if e != [] then Ok(e[0]) else Err(IndexError)
    case JStr(s) => if s != [] then Ok(JStr([s[0]])) else Err(IndexError)
    case JObj(_) => Err(Exc(OtherClass("KeyError"), "0"))
    case _ => Err(TypeError)
  }
}
