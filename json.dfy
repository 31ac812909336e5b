/** `serde_json::Value`, the JSON the gateway hands back, and the one piece of
    serialisation whose order matters to it: turning a list into a JSON array
    stops at the first element that fails to serialise. */
module JsonValue {
  import opened Wrappers

  /** A JSON value; numbers are integers here (floating point is not modelled)
      and an object keeps its fields in the order they are written. */
  datatype Json =
    | Null
    | Bool(b: bool)
    | Number(n: int)
    | String(s: string)
    | Array(items: seq<Json>)
    | Object(fields: seq<(string, Json)>)

  /** The keys of an object's fields, in order. */
  function Keys(fields: seq<(string, Json)>): (keys: seq<string>)
    ensures |keys| == |fields|
    ensures forall i :: 0 <= i < |fields| ==> keys[i] == fields[i].0
  {
    if fields == [] then [] else [fields[0].0] + Keys(fields[1..])
  }

  /** `serde_json::to_value` of a `Vec<T>`, given how one element serialises:
      the array of the elements' values, or the error of the first element
      that cannot be serialised. */
  function SerializeSeq<T>(item: T -> Result<Json, string>, xs: seq<T>): (r: Result<seq<Json>, string>)
    ensures r.Ok? <==> forall i :: 0 <= i < |xs| ==> item(xs[i]).Ok?
    ensures r.Ok? ==> |r.value| == |xs| && forall i :: 0 <= i < |xs| ==> item(xs[i]) == Ok(r.value[i])
    ensures r.Err? ==> exists i :: 0 <= i < |xs| && item(xs[i]) == Err(r.error) && forall j :: 0 <= j < i ==> item(xs[j]).Ok?
    decreases |xs|
  {
    if xs == [] then Ok([])
    else match item(xs[0])
      case Err(e) => Err(e)
      case Ok(v) =>
        match SerializeSeq(item, xs[1..])
        case Err(e) =>
          var k :| 0 <= k < |xs| - 1 && item(xs[1..][k]) == Err(e) && forall j :: 0 <= j < k ==> item(xs[1..][j]).Ok?;
          assert item(xs[k + 1]) == Err(e) && forall j :: 0 <= j < k + 1 ==> item(xs[j]).Ok?;
          Err(e)
        case Ok(rest) =>
          assert forall i :: 1 <= i < |xs| ==> xs[i] == xs[1..][i - 1];
          Ok([v] + rest)
  }
}
