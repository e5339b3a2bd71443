/**
 Python's `int(x)` and `float(x)` applied to a decoded JSON value. A conversion
 that raises ValueError or TypeError yields None. How Python reads a number out
 of a string is not modelled: it is a parameter of the model.
 */
module PyConvert {
  import opened Options
  import opened Json

  /** The string grammars of `int("…")` and `float("…")`. */
  datatype TextParsers = TextParsers(intOfText: string -> Option<int>, floatOfText: string -> Option<real>)

  /** Python's `int()` of a float: truncation toward zero. */
  function Truncate(f: real): (r: int)
    ensures f >= 0.0 ==> 0 <= r && r as real <= f < r as real + 1.0
    ensures f < 0.0 ==> r <= 0 && r as real - 1.0 < f <= r as real
  {
    if f >= 0.0 then f.Floor else -((-f).Floor)
  }

  /** `int(v)`: null, lists and objects raise TypeError; a string is read by the parser. */
  function ToInt(v: JsonValue, tp: TextParsers): (r: Option<int>)
    ensures r.None? <==> v.JNull? || v.JArray? || v.JObject? || (v.JString? && tp.intOfText(v.s).None?)
    ensures v.JInt? ==> r == Some(v.i)
    ensures v.JBool? ==> r == Some(if v.b then 1 else 0)
    ensures v.JFloat? ==> r == Some(Truncate(v.f))
    ensures v.JString? ==> r == tp.intOfText(v.s)
  {
    match v
    case JNull => None
    case JBool(b) => Some(if b then 1 else 0)
    case JInt(i) => Some(i)
    case JFloat(f) => Some(Truncate(f))
    case JString(s) => tp.intOfText(s)
    case JArray(_) => None
    case JObject(_) => None
  }

  /** `float(v)`: null, lists and objects raise TypeError; a string is read by the parser. */
  function ToFloat(v: JsonValue, tp: TextParsers): (r: Option<real>)
    ensures r.None? <==> v.JNull? || v.JArray? || v.JObject? || (v.JString? && tp.floatOfText(v.s).None?)
    ensures v.JInt? ==> r == Some(v.i as real)
    ensures v.JFloat? ==> r == Some(v.f)
    ensures v.JBool? ==> r == Some(if v.b then 1.0 else 0.0)
    ensures v.JString? ==> r == tp.floatOfText(v.s)
  {
    match v
    case JNull => None
    case JBool(b) => Some(if b then 1.0 else 0.0)
    case JInt(i) => Some(i as real)
    case JFloat(f) => Some(f)
    case JString(s) => tp.floatOfText(s)
    case JArray(_) => None
    case JObject(_) => None
  }

  /** An integer read back through `int()` of its float is itself. */
  lemma TruncateOfInt(i: int)
    ensures Truncate(i as real) == i
  {
    if i < 0 {
      assert (-(i as real)).Floor == -i;
    }
  }

  /** For every value that is not a string, `int(v)` agrees with `int(float(v))`. */
  lemma ToIntThroughFloat(v: JsonValue, tp: TextParsers)
    requires !v.JString?
    ensures ToInt(v, tp) == if ToFloat(v, tp).Some? then Some(Truncate(ToFloat(v, tp).value)) else None
  {
    match v
    case JInt(i) => TruncateOfInt(i);
    case JBool(b) => TruncateOfInt(if b then 1 else 0);
    case _ =>
  }

  /** `int(data.get(key, 0))`: a missing key converts the default `0`. */
  function IntField(data: Object, key: string, tp: TextParsers): (r: Option<int>)
    ensures Get(data, key).None? ==> r == Some(0)
    ensures Get(data, key).Some? ==> r == ToInt(Get(data, key).value, tp)
  {
    match Get(data, key)
    case None => ToInt(JInt(0), tp)
    case Some(v) => ToInt(v, tp)
  }

  /** `float(data.get(key, 0))`: a missing key converts the default `0`. */
  function FloatField(data: Object, key: string, tp: TextParsers): (r: Option<real>)
    ensures Get(data, key).None? ==> r == Some(0.0)
    ensures Get(data, key).Some? ==> r == ToFloat(Get(data, key).value, tp)
  {
    match Get(data, key)
    case None => ToFloat(JInt(0), tp)
    case Some(v) => ToFloat(v, tp)
  }
}
