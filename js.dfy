/** JavaScript values as the handlers and the browser client see them after
    JSON parsing, with the truthiness rules the source's `if (x)` and `a || b`
    tests rely on. */
module Js {

  datatype Option<+T> = None | Some(value: T)

  /** A JSON-like value. `Undefined` stands for a missing property; numbers are
      integers (floating point is not modelled). */
  datatype Json =
    | Undefined
    | Null
    | Bool(b: bool)
    | Num(n: int)
    | Str(s: string)
    | Arr(elems: seq<Json>)
    | Obj(fields: map<string, Json>)

  /** JavaScript truthiness: `undefined`, `null`, `false`, `0` and `""` are falsy. */
  predicate Truthy(v: Json) {
    match v
    case Undefined => false
    case Null => false
    case Bool(b) => b
    case Num(n) => n != 0
    case Str(s) => s != ""
    case Arr(_) => true
    case Obj(_) => true
  }

  /** `a || b`: the left operand when it is truthy, otherwise the right one. */
  function Or(a: Json, b: Json): (r: Json)
    ensures Truthy(r) <==> Truthy(a) || Truthy(b)
    ensures r == a || r == b
    ensures Truthy(a) ==> r == a
  {
    if Truthy(a) then a else b
  }

  /** Property lookup on a parsed request body; a missing key reads as `undefined`. */
  function Get(m: map<string, Json>, key: string): (r: Json)
    ensures key !in m ==> r == Undefined
    ensures key in m ==> r == m[key]
  {
    if key in m then m[key] else Undefined
  }

  /** `v.key` on an arbitrary value: only objects have named own properties here. */
  function Field(v: Json, key: string): (r: Json)
    ensures r != Undefined ==> v.Obj? && key in v.fields && v.fields[key] == r
  {
    match v
    case Obj(fields) => Get(fields, key)
    case _ => Undefined
  }

  /** `x && x.length > 0` for the values that have a length (arrays and strings). */
  predicate HasItems(v: Json) {
    match v
    case Arr(elems) => |elems| > 0
    case Str(s) => |s| > 0
    case _ => false
  }

  /** An object literal with a single `error` field, the shape of every local error reply. */
  function ErrorObj(category: string): (r: Json)
    ensures r.Obj? && r.fields.Keys == {"error"} && r.fields["error"] == Str(category)
  {
    Obj(map["error" := Str(category)])
  }

  function DigitChar(d: nat): (c: char)
    requires d < 10
    ensures '0' <= c <= '9'
  {
    ['0', '1', '2', '3', '4', '5', '6', '7', '8', '9'][d]
  }

  function DigitValue(c: char): nat
    requires '0' <= c <= '9'
  {
    (c as int - '0' as int) as nat
  }

  predicate IsDecimal(s: string) {
    |s| > 0 && (forall i :: 0 <= i < |s| ==> '0' <= s[i] <= '9') && (|s| > 1 ==> s[0] != '0')
  }

  function ValueOf(s: string): nat
    requires forall i :: 0 <= i < |s| ==> '0' <= s[i] <= '9'
  {
    if s == [] then 0 else 10 * ValueOf(s[..|s| - 1]) + DigitValue(s[|s| - 1])
  }

  /** `String(n)` for a non-negative integer such as `Date.now()`. */
  function Decimal(n: nat): (s: string)
    ensures IsDecimal(s)
    ensures ValueOf(s) == n
  {
    if n < 10 then [DigitChar(n)]
    else
      var s := Decimal(n / 10) + [DigitChar(n % 10)];
      assert s[..|s| - 1] == Decimal(n / 10);
      s
  }
}
