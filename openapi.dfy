/** The parsed OpenAPI 3.x document as far as the generator reads it.
    JSON objects become sequences of (key, value) pairs in document order.
    An absent `$ref` or `description` is the empty string: both are falsy
    in JavaScript, and the generator only tests them for truthiness. */
module OpenApi {
  import opened Common

  /** A schema fragment: `type`, `$ref`, `items` and `description`. */
  datatype Schema = Schema(kind: Option<string>, ref: string, items: Option<Schema>, description: string)

  /** The `{}` that the generator substitutes for a missing schema. */
  const EmptySchema := Schema(None, "", None, "")

  /** An entry of `components.schemas`; an absent `properties` is the empty list. */
  datatype ComponentSchema = ComponentSchema(description: string, properties: seq<(string, Schema)>)

  datatype Parameter = Parameter(name: string, schema: Option<Schema>)

  datatype MediaType = MediaType(schema: Option<Schema>)

  /** A `content` object: media-type name to media type. */
  type ContentMap = seq<(string, MediaType)>

  datatype RequestBody = RequestBody(content: Option<ContentMap>)

  datatype Response = Response(content: Option<ContentMap>)

  datatype Operation = Operation(
    operationId: string,
    description: string,
    summary: string,
    parameters: Option<seq<Parameter>>,
    requestBody: Option<RequestBody>,
    responses: Option<seq<(string, Response)>>,
    tags: Option<seq<string>>)

  /** `components` may be absent (the generator then throws); an absent
      `components.schemas` or `paths` is the empty list. */
  datatype Document = Document(
    components: Option<seq<(string, ComponentSchema)>>,
    paths: seq<(string, seq<(string, Operation)>)>)

  /** Property access `m[key]` on an object read as pairs: the first entry
      with that key, or `undefined`. */
  function Lookup<V>(m: seq<(string, V)>, key: string): (r: Option<V>)
    ensures r.None? <==> forall i :: 0 <= i < |m| ==> m[i].0 != key
  {
    if m == [] then None
    else if m[0].0 == key then Some(m[0].1)
    else
      assert forall i :: 1 <= i < |m| ==> m[i] == m[1..][i - 1];
      Lookup(m[1..], key)
  }

  /** A found value is that of the first entry with the key. */
  lemma {:induction false} LookupFirst<V>(m: seq<(string, V)>, key: string)
    requires Lookup(m, key).Some?
    ensures exists i :: 0 <= i < |m| && m[i] == (key, Lookup(m, key).value) &&
                        forall j :: 0 <= j < i ==> m[j].0 != key
  {
    if m[0].0 != key {
      LookupFirst(m[1..], key);
      var i :| 0 <= i < |m[1..]| && m[1..][i] == (key, Lookup(m, key).value) &&
               forall j :: 0 <= j < i ==> m[1..][j].0 != key;
      assert m[i + 1] == (key, Lookup(m, key).value);
      forall j | 0 <= j < i + 1 ensures m[j].0 != key {
        if j > 0 { assert m[j] == m[1..][j - 1]; }
      }
    }
  }

  /** A key added at the end does not shadow an earlier one. */
  lemma {:induction false} LookupAppend<V>(m: seq<(string, V)>, k: string, v: V, key: string)
    ensures Lookup(m + [(k, v)], key) ==
            if Lookup(m, key).Some? then Lookup(m, key)
            else if k == key then Some(v) else None
  {
    if m != [] {
      assert (m + [(k, v)])[1..] == m[1..] + [(k, v)];
      LookupAppend(m[1..], k, v, key);
    }
  }
}
