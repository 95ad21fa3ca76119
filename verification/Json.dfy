/** Decoded JSON values, as the services see them after `encoding/json` has read the text. */
module Json {
  import opened Text

  type Fields = map<string, Json>

  /** A number is kept as the text Go prints for it. */
  datatype Json =
    | JNull
    | JBool(b: bool)
    | JNumber(text: string)
    | JString(s: string)
    | JArray(items: seq<Json>)
    | JObject(fields: Fields)

  /** The object a value is, if it is one. */
  function AsObject(j: Json): Option<Fields> {
    match j
    case JObject(m) => Some(m)
    case _ => None
  }

  /** `strings.EqualFold`, for a folding that maps every letter to a representative of its case class. */
  predicate EqualFold(fold: char -> char, a: string, b: string) {
    |a| == |b| && forall i | 0 <= i < |a| :: fold(a[i]) == fold(b[i])
  }
}
