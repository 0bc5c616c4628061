/**
 * JSON-like values as the crawler receives them from the search API, together
 * with the Python behaviour the crawler relies on when it inspects them:
 * truthiness, `dict.get`, subscripts, `len` and iteration.
 * Numbers are integers only.
 */
module JsonData {
  import opened Wrappers

  datatype Json =
    | JNull
    | JBool(b: bool)
    | JNum(n: int)
    | JStr(s: string)
    | JList(items: seq<Json>)
    | JObj(fields: map<string, Json>)

  /** The Python exceptions the modelled code can raise. */
  datatype Exc =
    | AttributeError
    | TypeError
    | KeyError(key: string)
    | IndexError
    | ClientResponseError(status: int)
    | OtherError(name: string)

  /** Python truthiness: None, False, 0, "", [] and {} are falsy. */
  predicate Truthy(j: Json)
  {
    match j
    case JNull => false
    case JBool(b) => b
    case JNum(n) => n != 0
    case JStr(s) => s != ""
    case JList(xs) => xs != []
    case JObj(m) => m != map[]
  }

  /**
   * `d.get(k)` on a dict: the value of k, or None when k is absent. A key
   * mapped to JSON null and a missing key both read as None.
   */
  function Get(m: map<string, Json>, k: string): (r: Json)
    ensures k !in m ==> r == JNull
    ensures k in m ==> r == m[k]
  {
    if k in m then m[k] else JNull
  }

  /** `d.get(k, default)`: the default only when the key is absent. */
  function GetOr(m: map<string, Json>, k: string, default: Json): (r: Json)
    ensures k !in m ==> r == default
    ensures k in m ==> r == m[k]
  {
    if k in m then m[k] else default
  }

  /**
   * `j[0]`: the first list element, or the first character of a string.
   * Python's `d[0]` on a dict raises `KeyError(0)` with an int key; the key is
   * written "0" here, and nothing stated about the model depends on it.
   */
  function First(j: Json): (r: Result<Json, Exc>)
    ensures r.Ok? <==> ((j.JList? && |j.items| > 0) || (j.JStr? && |j.s| > 0))
    ensures j.JList? && |j.items| > 0 ==> r == Ok(j.items[0])
    ensures j.JObj? ==> r == Err(KeyError("0"))
  {
    match j
    case JList(xs) => if |xs| > 0 then Ok(xs[0]) else Err(IndexError)
    case JStr(s) => if |s| > 0 then Ok(JStr([s[0]])) else Err(IndexError)
    case JObj(_) => Err(KeyError("0"))
    case _ => Err(TypeError)
  }

  /** `j[k]` with a string key: only a dict holding k answers. */
  function Field(j: Json, k: string): (r: Result<Json, Exc>)
    ensures r.Ok? <==> (j.JObj? && k in j.fields)
    ensures r.Ok? ==> r.value == j.fields[k]
    ensures j.JObj? && k !in j.fields ==> r == Err(KeyError(k))
  {
    match j
    case JObj(m) => if k in m then Ok(m[k]) else Err(KeyError(k))
    case _ => Err(TypeError)
  }

  /** `len(j)`: defined for lists, strings and dicts only. */
  function Len(j: Json): (r: Result<nat, Exc>)
    ensures r.Ok? <==> (j.JList? || j.JStr? || j.JObj?)
    ensures r.Ok? ==> (r.value == 0 <==> !Truthy(j))
  {
    match j
    case JList(xs) => Ok(|xs|)
    case JStr(s) => Ok(|s|)
    case JObj(m) => Ok(|m|)
    case _ => Err(TypeError)
  }

  /**
   * `for x in j`: the elements of a list. An empty dict or string iterates
   * nothing; a non-empty one yields keys or characters, on which the crawler
   * then fails, and is modelled as failing at once.
   */
  function Elements(j: Json): (r: Result<seq<Json>, Exc>)
    ensures j.JList? ==> r == Ok(j.items)
    ensures r.Ok? && !j.JList? ==> r.value == []
    ensures (j.JNull? || j.JNum? || j.JBool?) ==> r.Err?
  {
    match j
    case JList(xs) => Ok(xs)
    case JObj(m) => if m == map[] then Ok([]) else Err(AttributeError)
    case JStr(s) => if s == "" then Ok([]) else Err(AttributeError)
    case _ => Err(TypeError)
  }

  /** `j // 10` for the JSON values Python can floor-divide (bool is an int). */
  function FloorDiv10(j: Json): (r: Result<int, Exc>)
    ensures j.JNum? ==> r.Ok? && 10 * r.value <= j.n < 10 * r.value + 10
    ensures (j.JStr? || j.JList? || j.JObj? || j.JNull?) ==> r == Err(TypeError)
  {
    match j
    case JNum(n) => Ok(n / 10)
    case JBool(_) => Ok(0)
    case _ => Err(TypeError)
  }
}
