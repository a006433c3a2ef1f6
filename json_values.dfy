/**
 * A JSON document after decoding, as the Python `json` module hands it over:
 * integers and floats are told apart (Python's `int` and `float`), `true` and
 * `false` become `bool`, arrays become `list`, objects become `dict`.
 * Numeric values never matter to the validator, only their tag, so a float
 * keeps its value as a `real` purely for completeness.
 */
module JsonValues {

  datatype Json =
    | JNull
    | JBool(b: bool)
    | JInt(i: int)
    | JFloat(f: real)
    | JString(s: string)
    | JArray(elems: seq<Json>)
    | JObject(fields: map<string, Json>)

  /** `isinstance(v, str)` */
  predicate IsStr(v: Json)
    ensures IsStr(v) ==> !IsNumber(v)
  {
    v.JString?
  }

  /**
   * `isinstance(v, int)`. In Python `bool` is a subclass of `int`, so
   * `true` and `false` pass this test.
   */
  predicate IsInt(v: Json)
    ensures v.JBool? ==> IsInt(v)
    ensures v.JFloat? ==> !IsInt(v)
  {
    v.JInt? || v.JBool?
  }

  /** `isinstance(v, (int, float))`; again `bool` passes as an `int`. */
  predicate IsNumber(v: Json)
    ensures IsNumber(v) ==> !v.JString? && !v.JNull? && !v.JArray? && !v.JObject?
    ensures IsInt(v) ==> IsNumber(v)
  {
    IsInt(v) || v.JFloat?
  }
}
