/**
 * The loosely typed values the invoice code passes around: JSON documents as
 * Python loads them, and dictionaries (records) keyed by field name.
 */
module JsonValues {
  import opened Optional
  import opened Text

  /** A JSON value; numbers are integers in this model. */
  datatype Json =
    | Null
    | Bool(b: bool)
    | Num(n: int)
    | Str(s: string)
    | Arr(items: seq<Json>)
    | Obj(fields: map<string, Json>)

  /** A Python dict with string keys, such as an invoice record or a table row. */
  type Record = map<string, Json>

  /** dict.get(key, default). */
  function Get(r: Record, key: string, default: Json): (v: Json)
    ensures key in r ==> v == r[key]
    ensures key !in r ==> v == default
  {
    if key in r then r[key] else default
  }

  /** `""` as a JSON value: the default of every field lookup in the web layer. */
  const Empty: Json := Str("")

  /**
   * How an f-string renders a value. Lists and dictionaries get a fixed
   * placeholder here instead of Python's repr.
   */
  function PyStr(v: Json): (text: string)
    ensures v.Str? ==> text == v.s
    ensures v.Null? ==> text == "None"
    ensures v.Bool? ==> text == if v.b then "True" else "False"
  {
    match v
    case Null => "None"
    case Bool(b) => if b then "True" else "False"
    case Num(n) => IntToString(n)
    case Str(s) => s
    case Arr(_) => "[...]"
    case Obj(_) => "{...}"
  }

  /** A number rendered by an f-string reads back through int(). */
  lemma {:induction false} PyStrNumReadsBack(n: int)
    requires |NatToString(if n < 0 then -n else n)| <= MaxStrDigits
    ensures ParseInt(PyStr(Num(n))) == Some(n)
  {
    ParseIntRoundTrip(n);
  }
}
