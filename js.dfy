/** JavaScript values as the components and services see them, and the
    object operations they rely on: truthiness, strict equality, property
    lookup, spreading, and picking fields into a payload.

    Dates: `Time(ms)` stands for a value that `new Date(...)` reads as the
    instant `ms` (a `Date`, or an ISO or `datetime-local` string that parses);
    a `Str` is a string that is not a date and makes an Invalid Date. */
module Js {
  import opened Common
  import Text

  datatype JsValue =
    | Undefined
    | Null
    | Bool(b: bool)
    | Num(n: int)
    | NaN
    | Str(s: string)
    | Time(ms: int)
    | Arr(items: seq<JsValue>)
    | Obj(fields: map<string, JsValue>)

  /** A plain object: its own keys and their values. A key that is missing
      reads as `undefined`. */
  type Object = map<string, JsValue>

  /** `Boolean(v)`. */
  predicate Truthy(v: JsValue) {
    match v
    case Undefined => false
    case Null => false
    case Bool(b) => b
    case Num(n) => n != 0
    case NaN => false
    case Str(s) => s != ""
    case Time(_) => true
    case Arr(_) => true
    case Obj(_) => true
  }

  /** `a === b` on primitives (`NaN` is not equal to itself). */
  predicate StrictEquals(a: JsValue, b: JsValue) {
    a == b && a != NaN
  }

  /** `o[k]`. */
  function Get(o: Object, k: string): (v: JsValue)
    ensures k !in o ==> v == Undefined
  {
    if k in o then o[k] else Undefined
  }

  /** `a || b`. */
  function Or(a: JsValue, b: JsValue): (r: JsValue)
    ensures Truthy(a) ==> r == a
    ensures !Truthy(a) ==> r == b
  {
    if Truthy(a) then a else b
  }

  /** `!v.trim()` for a form field; a value that is not a string is read
      by its truthiness. */
  predicate Blank(v: JsValue) {
    if v.Str? then Text.Trim(v.s) == "" else !Truthy(v)
  }

  /** The fields among `keys` whose value is truthy (`if (d.k) clean.k = d.k`
      for each key). */
  function PickTruthy(o: Object, keys: set<string>): (r: Object)
    ensures r.Keys == set k | k in keys && Truthy(Get(o, k))
    ensures forall k :: k in r ==> r[k] == o[k]
  {
    map k | k in keys && k in o && Truthy(o[k]) :: o[k]
  }

  /** The fields among `keys` that are not `undefined` (`if (d.k !== undefined)
      clean.k = d.k` for each key); `null` and `''` are kept. */
  function PickDefined(o: Object, keys: set<string>): (r: Object)
    ensures r.Keys == set k | k in keys && Get(o, k) != Undefined
    ensures forall k :: k in r ==> r[k] == o[k]
  {
    map k | k in keys && k in o && o[k] != Undefined :: o[k]
  }

  /** One more `if (d.k) clean.k = d.k` of a field-by-field copy. */
  lemma PickTruthyStep(o: Object, keys: set<string>, k: string)
    ensures PickTruthy(o, keys + {k}) ==
              if Truthy(Get(o, k)) then PickTruthy(o, keys)[k := o[k]] else PickTruthy(o, keys)
  {
  }

  /** One more `if (d.k !== undefined) clean.k = d.k` of a field-by-field copy. */
  lemma PickDefinedStep(o: Object, keys: set<string>, k: string)
    ensures PickDefined(o, keys + {k}) ==
              if Get(o, k) != Undefined then PickDefined(o, keys)[k := o[k]] else PickDefined(o, keys)
  {
  }

  /** A value read by `new Date(v)`, when it is a valid date. */
  function AsDate(v: JsValue): (t: Option<int>)
    ensures t.Some? <==> v.Time? || v.Num?
  {
    match v
    case Time(ms) => Some(ms)
    case Num(n) => Some(n)
    case _ => None
  }

  /** `new Date(v).toISOString()`: `None` when it throws a RangeError
      (an Invalid Date). */
  function ToIsoString(v: JsValue): (r: Option<JsValue>)
    ensures r.Some? <==> AsDate(v).Some?
    ensures r.Some? ==> r.value == Time(AsDate(v).value)
  {
    match AsDate(v)
    case Some(t) => Some(Time(t))
    case None => None
  }

  /** `parseInt(v)` for a string or a number; any other value gives `NaN`. */
  function ParseIntValue(v: JsValue): (r: JsValue)
    ensures r.Num? || r == NaN
    ensures v.Num? ==> r == v
  {
    match v
    case Num(n) => Num(n)
    case Str(s) =>
      (match Text.ParseInt(s)
       case Some(n) => Num(n)
       case None => NaN)
    case _ => NaN
  }

  /** A number written as text parses back to itself. */
  lemma ParseIntValueOfText(n: int)
    ensures ParseIntValue(Str(Text.IntToString(n))) == Num(n)
  {
    Text.ParseIntToString(n);
  }

  /** `v?.toLowerCase() || ''` for a string-valued field. */
  function LowerText(v: JsValue): (r: string)
    ensures v.Str? ==> r == Text.Lower(v.s)
    ensures !v.Str? ==> r == ""
  {
    if v.Str? then Text.Lower(v.s) else ""
  }

  /** One minute in milliseconds. */
  const Minute: int := 60_000

  /** The instant a `yyyy-MM-dd'T'HH:mm` rendering of `t` reads back as:
      seconds and milliseconds are dropped. */
  function ToMinute(t: int): (r: int)
    ensures r <= t < r + Minute
    ensures r % Minute == 0
  {
    t - t % Minute
  }
}
