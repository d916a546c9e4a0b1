/** The values the Apps Script handlers see: request fields after `JSON.parse`, and
    spreadsheet cells as `getValues` returns them. Numbers are integers here. */
module JsonValues {

  /** A JavaScript value. `Null` also stands for `undefined` (a missing field). */
  datatype Json =
    | Null
    | Bool(b: bool)
    | Num(n: int)
    | Str(s: string)
    | Arr(items: seq<Json>)
    | Obj(fields: seq<(string, Json)>)

  /** JavaScript truthiness: `false`, `0`, `''`, `null` and `undefined` are falsy. */
  predicate Truthy(v: Json) {
    match v
    case Null => false
    case Bool(b) => b
    case Num(n) => n != 0
    case Str(s) => s != ""
    case Arr(_) => true
    case Obj(_) => true
  }

  /** `a === b`. Arrays and objects compare by identity, and the values compared by
      the handlers (a request field against a freshly read cell) are never the same
      object, so two composite values are never identical here. */
  predicate StrictEquals(a: Json, b: Json) {
    a == b && !a.Arr? && !a.Obj?
  }

  function DigitChar(d: int): char
    requires 0 <= d < 10
  {
    "0123456789"[d]
  }

  /** Decimal digits of a natural number. */
  function NatText(n: nat): (r: string)
    ensures |r| > 0
    decreases n
  {
    if n < 10 then [DigitChar(n)] else NatText(n / 10) + [DigitChar(n % 10)]
  }

  /** `String(v)`: how a value becomes text when used as a property key or handed
      to `JSON.parse`. Array elements that are `null` or `undefined` print as empty. */
  function ToText(v: Json): string
    decreases v
  {
    match v
    case Null => "null"
    case Bool(b) => if b then "true" else "false"
    case Num(n) => if n < 0 then "-" + NatText(-n) else NatText(n)
    case Str(s) => s
    case Arr(items) => JoinTexts(seq(|items|, i requires 0 <= i < |items| =>
                                    if items[i].Null? then "" else ToText(items[i])))
    case Obj(_) => "[object Object]"
  }

  /** Texts separated by commas (`Array.prototype.toString`). */
  function JoinTexts(parts: seq<string>): string {
    if |parts| == 0 then ""
    else if |parts| == 1 then parts[0]
    else parts[0] + "," + JoinTexts(parts[1..])
  }
}
