/** The string-keyed nested maps that the index layer hands to the search backend
    (mappings, settings and document sources). */
module Json {

  datatype Json =
    | JString(str: string)
    | JBool(b: bool)
    | JNumber(n: int)
    | JObject(fields: map<string, Json>)

  /** A `java.util.Map<String, Object>` as built by the mapping compiler. */
  type Mapping = map<string, Json>

  /** At most `d` levels of objects are nested in `j` (a scalar has depth 0). */
  ghost predicate DepthAtMost(j: Json, d: nat)
    decreases d
  {
    match j
    case JObject(m) => d > 0 && forall k :: k in m ==> DepthAtMost(m[k], d - 1)
    case _ => true
  }

  /** A depth bound can always be relaxed. */
  lemma {:induction false} DepthAtMostWeaken(j: Json, d: nat, e: nat)
    requires DepthAtMost(j, d) && d <= e
    ensures DepthAtMost(j, e)
    decreases d
  {
    match j
    case JObject(m) =>
      forall k | k in m
        ensures DepthAtMost(m[k], e - 1)
      {
        DepthAtMostWeaken(m[k], d - 1, e - 1);
      }
    case _ =>
  }
}
