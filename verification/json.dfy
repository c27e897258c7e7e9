/** Decoded JSON documents, and the Python dictionary operations the tools
    apply to them. */
module JsonModel {
  import opened Wrappers

  /** A value as Python's json.loads returns it. Floating-point numbers are
      not part of the model. */
  datatype Json =
    | JNull
    | JBool(b: bool)
    | JInt(i: int)
    | JString(s: string)
    | JArray(items: seq<Json>)
    | JObject(fields: map<string, Json>)

  /** Python truthiness of a decoded value: null, false, 0 and empty
      strings, lists and dictionaries are false. */
  predicate Truthy(j: Json) {
    match j
    case JNull => false
    case JBool(b) => b
    case JInt(i) => i != 0
    case JString(s) => |s| > 0
    case JArray(items) => |items| > 0
    case JObject(fields) => |fields| > 0
  }

  /** `j[key]` succeeds: j is a dictionary holding key. */
  predicate Has(j: Json, key: string) {
    j.JObject? && key in j.fields
  }

  /** `j.get(key)` on a dictionary j. */
  function Get(j: Json, key: string): (r: Option<Json>)
    ensures r.Some? <==> Has(j, key)
    ensures r.Some? ==> r.value == j.fields[key]
  {
    if Has(j, key) then Some(j.fields[key]) else None
  }

  /** Follows a chain of subscripts `j[k0][k1]...`; None as soon as one
      of them would miss. */
  function Path(j: Json, keys: seq<string>): Option<Json>
    decreases |keys|
  {
    if |keys| == 0 then Some(j)
    else match Get(j, keys[0])
      case None => None
      case Some(child) => Path(child, keys[1..])
  }

  /** A one-key path is a single lookup. */
  lemma PathOne(j: Json, a: string)
    ensures Path(j, [a]) == Get(j, a)
  {
    assert [a][1..] == [];
  }

  /** A two-key path looks the second key up in what the first found. */
  lemma PathTwo(j: Json, a: string, b: string)
    ensures Path(j, [a, b]) == if Has(j, a) then Get(j.fields[a], b) else None
  {
    assert [a, b][1..] == [b];
    if Has(j, a) {
      PathOne(j.fields[a], b);
    }
  }

  /** A three-key path looks the last two keys up in what the first found. */
  lemma PathThree(j: Json, a: string, b: string, c: string)
    ensures Path(j, [a, b, c]) == if Has(j, a) then Path(j.fields[a], [b, c]) else None
  {
    assert [a, b, c][1..] == [b, c];
  }

  /** The guard `data.get("items")` shared by the pod and node listings:
      the key is present and its value is truthy. */
  predicate HasItems(data: Json) {
    Has(data, "items") && Truthy(data.fields["items"])
  }

  /** The list under "items" once HasItems admitted it (empty otherwise). */
  function ItemsOf(data: Json): seq<Json> {
    if Has(data, "items") && data.fields["items"].JArray? then data.fields["items"].items else []
  }
}
