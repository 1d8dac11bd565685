/** JSON values as the pipeline sees them after decoding, with the parts of
    Python's value semantics the modelled code relies on: truthiness, dict
    lookup, iteration, subscripting, `in` and `str()`.

    Python's `None` and JSON `null` are the same value, so `JNull` also stands
    for "the resolver returned None". Objects keep their members in insertion
    order, like a Python dict; lookups take the first member with the key.
    Numbers are integers (a score such as 7.5 is carried in tenths). */
module JsonValues {
  import opened Outcomes
  import Text

  datatype Json =
    | JNull
    | JBool(b: bool)
    | JNum(n: int)
    | JStr(s: string)
    | JArr(items: seq<Json>)
    | JObj(members: seq<Member>)

  datatype Member = Member(key: string, value: Json)

  /** Python truthiness: `None`, `False`, `0`, `""`, `[]` and `{}` are falsy. */
  predicate Truthy(j: Json) {
    match j
    case JNull => false
    case JBool(b) => b
    case JNum(n) => n != 0
    case JStr(s) => |s| > 0
    case JArr(xs) => |xs| > 0
    case JObj(ms) => |ms| > 0
  }

  /** Python's `a or b`: `a` when it is truthy, otherwise `b`. */
  function Or(a: Json, b: Json): (r: Json)
    ensures Truthy(a) ==> r == a
    ensures !Truthy(a) ==> r == b
  {
    if Truthy(a) then a else b
  }

  predicate HasKey(ms: seq<Member>, key: string) {
    exists i :: 0 <= i < |ms| && ms[i].key == key
  }

  /** `d.get(key)`: the value stored under `key`, or None. */
  function Get(ms: seq<Member>, key: string): (r: Option<Json>)
    ensures r.Some? <==> HasKey(ms, key)
    ensures r.Some? ==> exists i :: 0 <= i < |ms| && ms[i] == Member(key, r.value)
  {
    if |ms| == 0 then None
    else if ms[0].key == key then Some(ms[0].value)
    else
      var r := Get(ms[1..], key);
      assert r.Some? ==> exists i :: 0 <= i < |ms[1..]| && ms[1..][i] == Member(key, r.value);
      r
  }

  /** `d.get(key)` with a missing key read as None, the way `not d.get(key)` uses it. */
  function GetOrNull(ms: seq<Member>, key: string): Json {
    match Get(ms, key)
    case Some(v) => v
    case None => JNull
  }

  /** The values Python's `for x in j` (and so `list.extend(j)`) produces:
      list elements, one-character strings of a string, keys of a dict.
      `None`, booleans and numbers are not iterable. */
  function Iterate(j: Json): (r: Result<seq<Json>>)
    ensures j.JArr? ==> r == Ok(j.items)
    ensures (j.JNull? || j.JBool? || j.JNum?) <==> r.Err?
    ensures r.Err? ==> r.error == TypeError
  {
    match j
    case JArr(xs) => Ok(xs)
    case JStr(s) => Ok(seq(|s|, i requires 0 <= i < |s| => JStr([s[i]])))
    case JObj(ms) => Ok(seq(|ms|, i requires 0 <= i < |ms| => JStr(ms[i].key)))
    case _ => Err(TypeError)
  }

  /** `j[key]` for a string key. */
  function Subscript(j: Json, key: string): (r: Result<Json>)
    ensures r.Ok? <==> j.JObj? && HasKey(j.members, key)
    ensures r.Ok? ==> Get(j.members, key) == Some(r.value)
  {
    match j
    case JObj(ms) =>
      (match Get(ms, key)
       case Some(v) => Ok(v)
       case None => Err(KeyError))
    case _ => Err(TypeError)
  }

  /** `j[0]`. */
  function First(j: Json): (r: Result<Json>)
    ensures j.JArr? && |j.items| > 0 ==> r == Ok(j.items[0])
    ensures j.JArr? && |j.items| == 0 ==> r == Err(IndexError)
  {
    match j
    case JArr(xs) => if |xs| > 0 then Ok(xs[0]) else Err(IndexError)
    case JStr(s) => if |s| > 0 then Ok(JStr([s[0]])) else Err(IndexError)
    case JObj(_) => Err(KeyError)
    case _ => Err(TypeError)
  }

  /** `key in j` for a string key: key membership in a dict, element
      membership in a list, substring test in a string. */
  function In(j: Json, key: string): (r: Result<bool>)
    ensures j.JObj? ==> r == Ok(HasKey(j.members, key))
  {
    match j
    case JObj(ms) => Ok(HasKey(ms, key))
    case JArr(xs) => Ok(JStr(key) in xs)
    case JStr(s) => Ok(Text.Contains(s, key))
    case _ => Err(TypeError)
  }

  function DigitsOf(n: nat): string
    decreases n
  {
    if n < 10 then ["0123456789"[n]] else DigitsOf(n / 10) + ["0123456789"[n % 10]]
  }

  /** `repr(j)`; string escaping is not modelled. */
  function Repr(j: Json): string {
    match j
    case JNull => "None"
    case JBool(b) => if b then "True" else "False"
    case JNum(n) => if n < 0 then "-" + DigitsOf(-n) else DigitsOf(n)
    case JStr(s) => "'" + s + "'"
    case JArr(xs) => "[" + ReprItems(xs) + "]"
    case JObj(ms) => "{" + ReprMembers(ms) + "}"
  }

  function ReprItems(xs: seq<Json>): string {
    if |xs| == 0 then ""
    else if |xs| == 1 then Repr(xs[0])
    else Repr(xs[0]) + ", " + ReprItems(xs[1..])
  }

  function ReprMembers(ms: seq<Member>): string {
    if |ms| == 0 then ""
    else
      var first := "'" + ms[0].key + "': " + Repr(ms[0].value);
      if |ms| == 1 then first else first + ", " + ReprMembers(ms[1..])
  }

  /** `str(j)`, as an f-string renders it: a string is itself, anything else its repr. */
  function Str(j: Json): (r: string)
    ensures j.JStr? ==> r == j.s
  {
    if j.JStr? then j.s else Repr(j)
  }
}
