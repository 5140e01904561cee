/** The JavaScript values that flow through the client and the JSON bodies,
    with the few language rules the code relies on: truthiness, optional
    property access (`v?.key`) and object spread (`{...v}`). */
module Js {

  import opened Text

  /** Numbers are integers only; `NaN` is the one non-integer number the code
      can produce (`Number('abc')`). `FileObj` is a browser `File`. */
  datatype Value =
    | Undefined
    | Null
    | Bool(b: bool)
    | Num(n: int)
    | NaN
    | Str(s: string)
    | Arr(items: seq<Value>)
    | Obj(fields: map<string, Value>)
    | FileObj(name: string)

  /** JavaScript truthiness: `undefined`, `null`, `false`, `0`, `NaN` and `''` are falsy. */
  predicate Truthy(v: Value)
  {
    match v
    case Undefined => false
    case Null => false
    case Bool(b) => b
    case Num(n) => n != 0
    case NaN => false
    case Str(s) => s != ""
    case Arr(_) => true
    case Obj(_) => true
    case FileObj(_) => true
  }

  /** `v?.key`: the field of an object, `undefined` for everything else. */
  function Prop(v: Value, key: string): (r: Value)
    ensures r != Undefined ==> v.Obj? && key in v.fields && r == v.fields[key]
    ensures v.Obj? && key in v.fields ==> r == v.fields[key]
  {
    if v.Obj? && key in v.fields then v.fields[key] else Undefined
  }

  /** The index keys `"0"`, `"1"`, … under which `{...v}` copies the items
      of a string or an array. */
  function IndexFields(items: seq<Value>): (m: map<string, Value>)
    ensures forall i :: 0 <= i < |items| ==> NatToString(i) in m && m[NatToString(i)] == items[i]
    ensures forall k :: k in m ==> AllDigits(k) && DigitsValue(k) < |items| && k == NatToString(DigitsValue(k))
  {
    map i | 0 <= i < |items| :: NatToString(i) := items[i]
  }

  /** The characters of a string, each as a one-character string. */
  function Chars(s: string): (r: seq<Value>)
    ensures |r| == |s| && forall i :: 0 <= i < |s| ==> r[i] == Str([s[i]])
  {
    seq(|s|, i requires 0 <= i < |s| => Str([s[i]]))
  }

  /** The own fields `{...v}` copies: an object's fields, a string's
      characters and an array's items under their index keys, and nothing
      from any other value (`null`, `undefined`, booleans, numbers and a
      `File`, whose properties are not its own). */
  function Spread(v: Value): (m: map<string, Value>)
    ensures v.Obj? ==> m == v.fields
    ensures v.Str? ==> forall i :: 0 <= i < |v.s| ==> NatToString(i) in m && m[NatToString(i)] == Str([v.s[i]])
    ensures v.Arr? ==> forall i :: 0 <= i < |v.items| ==> NatToString(i) in m && m[NatToString(i)] == v.items[i]
    ensures v.Str? ==> forall k :: k in m ==> AllDigits(k) && DigitsValue(k) < |v.s| && k == NatToString(DigitsValue(k))
    ensures v.Arr? ==> forall k :: k in m ==> AllDigits(k) && DigitsValue(k) < |v.items| && k == NatToString(DigitsValue(k))
    ensures !(v.Obj? || v.Str? || v.Arr?) ==> m == map[]
  {
    match v
    case Obj(fields) => fields
    case Str(s) => IndexFields(Chars(s))
    case Arr(items) => IndexFields(items)
    case _ => map[]
  }

  /** `a || b` on values: the first operand when truthy, otherwise the second. */
  function Or(a: Value, b: Value): (r: Value)
    ensures Truthy(a) ==> r == a
    ensures !Truthy(a) ==> r == b
  {
    if Truthy(a) then a else b
  }

  /** `Number(v)` for the values a form field holds: numbers stay, a string of
      decimal digits is read as a number, `''` and `null` give 0, booleans give
      0 or 1, and every other value gives `NaN`. */
  function ToNumber(v: Value): (r: Value)
    ensures r.Num? || r == NaN
    ensures v.Num? ==> r == v
    ensures v == Undefined ==> r == NaN
    ensures v.Str? && AllDigits(v.s) ==> r == Num(DigitsValue(v.s))
    ensures v.Str? && !AllDigits(v.s) ==> r == NaN
  {
    match v
    case Num(n) => v
    case Str(s) => if AllDigits(s) then Num(DigitsValue(s)) else NaN
    case Null => Num(0)
    case Bool(b) => Num(if b then 1 else 0)
    case _ => NaN
  }
}
