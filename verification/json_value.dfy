/** JSON values as the Python code handles them after `json.loads`: `None`,
    `bool`, `int`, `str`, `list` and `dict`, together with the parts of Python's
    object behaviour the protocol code depends on: truthiness, `d[k]`,
    `d.get(k, default)` and `str(x)`. Floating-point numbers are not modelled. */
module JsonValue {
  import opened Wrappers
  import Strings

  datatype Json =
    | JNull
    | JBool(b: bool)
    | JInt(i: int)
    | JStr(s: string)
    | JArr(items: seq<Json>)
    | JObj(fields: map<string, Json>)

  /** A JSON object, i.e. a Python `Dict[str, Any]`. */
  type Object = map<string, Json>

  /** Python's `bool(x)`: `None`, `False`, `0`, `""`, `[]` and `{}` are false. */
  predicate Truthy(j: Json) {
    match j
    case JNull => false
    case JBool(b) => b
    case JInt(i) => i != 0
    case JStr(s) => |s| > 0
    case JArr(items) => |items| > 0
    case JObj(fields) => |fields| > 0
  }

  /** `type(x).__name__`. */
  function TypeName(j: Json): string {
    match j
    case JNull => "NoneType"
    case JBool(_) => "bool"
    case JInt(_) => "int"
    case JStr(_) => "str"
    case JArr(_) => "list"
    case JObj(_) => "dict"
  }

  /** The text of the `KeyError` raised by `d[key]` on a missing key. */
  function KeyErrorText(key: string): string {
    "'" + key + "'"
  }

  /** `x[key]` for a string key: the entry of a dict, a `KeyError` for a missing
      key, a `TypeError` for every other kind of value. */
  function Subscript(j: Json, key: string): (r: Result<Json, string>)
    ensures r.Success? <==> j.JObj? && key in j.fields
    ensures r.Success? ==> r.value == j.fields[key]
    ensures j.JObj? && key !in j.fields ==> r == Failure(KeyErrorText(key))
    ensures j.JArr? ==> r == Failure("list indices must be integers or slices, not str")
    ensures j.JStr? ==> r == Failure("string indices must be integers, not 'str'")
  {
    match j
    case JObj(fields) => if key in fields then Success(fields[key]) else Failure(KeyErrorText(key))
    case JArr(_) => Failure("list indices must be integers or slices, not str")
    case JStr(_) => Failure("string indices must be integers, not 'str'")
    case _ => Failure("'" + TypeName(j) + "' object is not subscriptable")
  }

  /** `d[key]` on a dict. */
  function Field(o: Object, key: string): (r: Result<Json, string>)
    ensures r.Success? <==> key in o
    ensures r.Success? ==> r.value == o[key]
    ensures r.Failure? ==> r.error == KeyErrorText(key)
  {
    if key in o then Success(o[key]) else Failure(KeyErrorText(key))
  }

  /** `x.get(key, default)`: only dicts have `get`. */
  function GetOr(j: Json, key: string, default: Json): (r: Result<Json, string>)
    ensures r.Success? <==> j.JObj?
    ensures j.JObj? && key in j.fields ==> r == Success(j.fields[key])
    ensures j.JObj? && key !in j.fields ==> r == Success(default)
    ensures !j.JObj? ==> r == Failure("'" + TypeName(j) + "' object has no attribute 'get'")
  {
    match j
    case JObj(fields) => Success(if key in fields then fields[key] else default)
    case _ => Failure("'" + TypeName(j) + "' object has no attribute 'get'")
  }

  /** `key in x` for a string key: a dict tests its keys, a list its items, a
      string its substrings; `None`, `bool` and `int` are not iterable. */
  function PyContains(j: Json, key: string): (r: Result<bool, string>)
    ensures r.Success? <==> j.JObj? || j.JArr? || j.JStr?
    ensures j.JObj? ==> r == Success(key in j.fields)
    ensures j.JArr? ==> r == Success(JStr(key) in j.items)
    ensures j.JStr? ==> r == Success(Strings.Contains(j.s, key))
    ensures r.Failure? ==> r.error == "argument of type '" + TypeName(j) + "' is not iterable"
  {
    match j
    case JObj(fields) => Success(key in fields)
    case JArr(items) => Success(JStr(key) in items)
    case JStr(s) => Success(Strings.Contains(s, key))
    case _ => Failure("argument of type '" + TypeName(j) + "' is not iterable")
  }

  /** `d.get(key, default)` on a dict. */
  function Lookup(o: Object, key: string, default: Json): (r: Json)
    ensures key in o ==> r == o[key]
    ensures key !in o ==> r == default
  {
    if key in o then o[key] else default
  }

  /** `str(x)`. Scalars and empty containers are rendered exactly; the contents
      of non-empty containers are abbreviated. */
  function PyStr(j: Json): string {
    match j
    case JNull => "None"
    case JBool(b) => if b then "True" else "False"
    case JInt(i) => Strings.IntToString(i)
    case JStr(s) => s
    case JArr(items) => if |items| == 0 then "[]" else "[...]"
    case JObj(fields) => if |fields| == 0 then "{}" else "{...}"
  }

  /** `repr(x)`: like `str(x)`, but a string is written as a quoted literal. */
  function PyRepr(j: Json): string {
    match j
    case JStr(s) => Strings.Repr(s)
    case _ => PyStr(j)
  }

  /** The failure reported when a field holds a value whose JSON type is not the one
      the source declares for it. */
  function TypeMismatch(field: string, expected: string, j: Json): string {
    "'" + field + "' must be " + expected + ", not " + TypeName(j)
  }

  /** A field declared `str`. */
  function AsString(j: Json, field: string): (r: Result<string, string>)
    ensures r.Success? <==> j.JStr?
    ensures r.Success? ==> j == JStr(r.value)
  {
    match j
    case JStr(s) => Success(s)
    case _ => Failure(TypeMismatch(field, "str", j))
  }

  /** A field declared `int`. */
  function AsInt(j: Json, field: string): (r: Result<int, string>)
    ensures r.Success? <==> j.JInt?
    ensures r.Success? ==> j == JInt(r.value)
  {
    match j
    case JInt(i) => Success(i)
    case _ => Failure(TypeMismatch(field, "int", j))
  }

  /** A field declared `Dict[str, Any]`. */
  function AsObject(j: Json, field: string): (r: Result<Object, string>)
    ensures r.Success? <==> j.JObj?
    ensures r.Success? ==> j == JObj(r.value)
  {
    match j
    case JObj(o) => Success(o)
    case _ => Failure(TypeMismatch(field, "dict", j))
  }

  /** A field declared `List[...]`. */
  function AsList(j: Json, field: string): (r: Result<seq<Json>, string>)
    ensures r.Success? <==> j.JArr?
    ensures r.Success? ==> j == JArr(r.value)
  {
    match j
    case JArr(items) => Success(items)
    case _ => Failure(TypeMismatch(field, "list", j))
  }

  /** A field declared `Optional[str]`: `None` stands for an absent value. */
  function AsOptString(j: Json, field: string): (r: Result<Option<string>, string>)
    ensures r == Success(None) <==> j == JNull
    ensures (r.Success? && r.value.Some?) <==> j.JStr?
    ensures r.Success? && r.value.Some? ==> j == JStr(r.value.value)
  {
    match j
    case JNull => Success(None)
    case JStr(s) => Success(Some(s))
    case _ => Failure(TypeMismatch(field, "str or None", j))
  }

  /** A field declared `Optional[Dict[str, Any]]`. */
  function AsOptObject(j: Json, field: string): (r: Result<Option<Object>, string>)
    ensures r == Success(None) <==> j == JNull
    ensures (r.Success? && r.value.Some?) <==> j.JObj?
    ensures r.Success? && r.value.Some? ==> j == JObj(r.value.value)
  {
    match j
    case JNull => Success(None)
    case JObj(o) => Success(Some(o))
    case _ => Failure(TypeMismatch(field, "dict or None", j))
  }

  /** The encoding of an optional value: `None` is JSON `null`. */
  function OptString(v: Option<string>): (j: Json)
    ensures AsOptString(j, "") == Success(v)
  {
    match v
    case None => JNull
    case Some(s) => JStr(s)
  }

  /** `x or {}` for an optional dict: `None` and `{}` both give `{}`. */
  function ObjectOrEmpty(v: Option<Object>): (o: Object)
    ensures v.Some? ==> o == v.value
    ensures v.None? ==> o == map[]
  {
    match v
    case None => map[]
    case Some(m) => m
  }

  /** `[decode(x) for x in items]`: every item decodes, or the first failure,
      scanning left to right, is the result. */
  function DecodeEach<T>(items: seq<Json>, decode: Json -> Result<T, string>): (r: Result<seq<T>, string>)
    ensures r.Success? <==> forall i :: 0 <= i < |items| ==> decode(items[i]).Success?
    ensures r.Success? ==> |r.value| == |items|
    ensures r.Success? ==> forall i :: 0 <= i < |items| ==> decode(items[i]) == Success(r.value[i])
    ensures r.Failure? ==> exists i :: (0 <= i < |items| && decode(items[i]) == Failure(r.error) &&
                                        forall k :: 0 <= k < i ==> decode(items[k]).Success?)
  {
    if |items| == 0 then Success([])
    else
      var x :- decode(items[0]);
      var rest :- DecodeEach(items[1..], decode);
      Success([x] + rest)
  }
}
