/**
  Parsed JSON values, as the knowledge-graph loader sees them once the text has
  been parsed, together with the three Python operations the loader applies to
  them: indexing by a string key, iterating, and hashing into a set.
 */
module JsonValues {
  import opened Wrappers

  /** A parsed JSON value. Numbers are integers only. Object keys are unique
      (the parser keeps the last duplicate), so an object is a map. */
  datatype Json =
    | JNull
    | JBool(b: bool)
    | JInt(i: int)
    | JStr(s: string)
    | JArr(items: seq<Json>)
    | JObj(fields: map<string, Json>)

  /** A hashable JSON scalar as a member of a Python set. Python has
      `True == 1` and `False == 0` with equal hashes, so booleans share the
      integer keys. */
  datatype Key = KNone | KInt(i: int) | KStr(s: string)

  /** The set member a value becomes; `None` when hashing raises because
      the value is a list or a dict. */
  function KeyOf(v: Json): (k: Option<Key>)
    ensures k.None? <==> v.JArr? || v.JObj?
  {
    match v
    case JNull => Some(KNone)
    case JBool(b) => Some(KInt(if b then 1 else 0))
    case JInt(i) => Some(KInt(i))
    case JStr(s) => Some(KStr(s))
    case JArr(_) => None
    case JObj(_) => None
  }

  /** `v[name]`: a present key of a dict; a missing key (KeyError) or a
      value that is not a dict (TypeError) gives `None`. */
  function Get(v: Json, name: string): Option<Json>
  {
    if v.JObj? && name in v.fields then Some(v.fields[name]) else None
  }

  /** The values a Python `for` loop visits in `v`, or `None` when visiting
      them makes the loader raise. A list yields its items. An empty dict or
      an empty string yields nothing. A non-empty dict yields its keys and a
      non-empty string its characters, all strings, and indexing a string
      with a string raises, so both count as failures. Scalars are not
      iterable. */
  function Members(v: Json): (r: Option<seq<Json>>)
    ensures r.Some? <==> v.JArr? || v == JObj(map[]) || v == JStr("")
    ensures r.Some? && !v.JArr? ==> r.value == []
  {
    match v
    case JArr(items) => Some(items)
    case JObj(fields) => if fields == map[] then Some([]) else None
    case JStr(s) => if s == "" then Some([]) else None
    case _ => None
  }
}
