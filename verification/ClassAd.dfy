/** The values and records the monitoring core passes around. */
module ClassAd {
  import opened OrderedDict

  /** A typed attribute value; `Undefined` stands for Python's None.
      A real keeps the text it was decoded from. */
  datatype Value = Str(s: string) | Int(i: int) | Real(text: string) | Bool(b: bool) | Undefined

  /** One ClassAd: attribute name to value. */
  type Record = Dict<string, Value>

  /** A RecordSet key: one attribute value, or a tuple of them. */
  datatype Key = One(v: Value) | Tuple(vs: seq<Value>)
}
