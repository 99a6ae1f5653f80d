/** JSON values and the containment operator `@>` of PostgreSQL (section 8.14.3 of its documentation). */
module Jsonb {
  datatype Json =
    | JNull
    | JBool(b: bool)
    | JNum(n: real)
    | JStr(s: string)
    | JArr(items: seq<Json>)
    | JObj(fields: map<string, Json>)

  predicate Scalar(v: Json) { !v.JArr? && !v.JObj? }

  /** Containment below the top level: structures must match, arrays are compared as sets. */
  predicate Deep(a: Json, b: Json)
    decreases b
  {
    match b
    case JObj(fields) => a.JObj? && forall k <- fields :: k in a.fields && Deep(a.fields[k], fields[k])
    case JArr(items) => a.JArr? && forall v <- items :: exists u <- a.items :: Deep(u, v)
    case _ => a == b
  }

  /** `a @> b`; an array may also contain a bare scalar, at the top level only. */
  predicate Contains(a: Json, b: Json) {
    Deep(a, b) || (Scalar(b) && a.JArr? && b in a.items)
  }
}
