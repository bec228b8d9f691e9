/** The type resolution of bin/index.js: the `typeFormat` table and the three
    slightly different resolvers (component property, parameter, body and
    response), the content-type preference and the combined parameter type. */
module Resolve {
  import opened Common
  import opened Text
  import opened OpenApi

  const SchemaPrefix := "#/components/schemas/"

  /** The `typeFormat` object literal. */
  const TypeTable: map<string, string> := map[
    "string" := "string", "number" := "number", "integer" := "number",
    "boolean" := "boolean", "array" := "any[]", "object" := "any",
    "undefined" := "any", "null" := "any", "any" := "any"]

  /** `typeFormat[kind]`. A missing `type` is the value `undefined`, whose
      property key is the text "undefined", so it finds the entry 'any'.
      A kind outside the table gives `undefined` (`None`). */
  function TypeFormat(kind: Option<string>): (r: Option<string>)
    ensures kind.None? ==> r == Some("any")
    ensures kind.Some? ==> (r.Some? <==> kind.value in TypeTable)
  {
    var key := if kind.Some? then kind.value else "undefined";
    if key in TypeTable then Some(TypeTable[key]) else None
  }

  /** A value as a template literal prints it: `undefined` becomes the text "undefined". */
  function Js(v: Option<string>): string {
    if v.Some? then v.value else "undefined"
  }

  function StripRef(ref: string): string {
    RemoveFirst(ref, SchemaPrefix)
  }

  function ArrayOf(items: Schema): Schema {
    Schema(Some("array"), "", Some(items), "")
  }

  function RefTo(name: string): Schema {
    Schema(None, SchemaPrefix + name, None, "")
  }

  function Primitive(kind: Option<string>): Schema {
    Schema(kind, "", None, "")
  }

  /** The type of a component property (`genInterface`): a reference gives
      the bare schema name, and only when it starts with the schema prefix;
      array items fall back to 'any'. An array without `items` throws. */
  function ComponentPropType(p: Schema): (r: Result<string>)
    ensures r.TypeError? <==> p.kind == Some("array") && p.items.None?
  {
    if p.kind == Some("array") then
      if p.items.None? then TypeError
      else
        var it := p.items.value;
        var named := if it.ref != "" then StripRef(it.ref) else "";
        var item := if named != "" then Some(named) else TypeFormat(it.kind);
        Ok(item.GetOr("any") + "[]")
    else if p.ref != "" && StartsWith(p.ref, SchemaPrefix) then Ok(StripRef(p.ref))
    else Ok(Js(TypeFormat(p.kind)))
  }

  /** The type of a query or path parameter: a reference gives `Type.` and the
      name, whatever the reference text; array items go through the table with
      no fallback, and an array with neither `items` nor an item reference throws. */
  function ParamType(s: Schema): (r: Result<string>)
    ensures r.TypeError? <==> s.ref == "" && s.kind == Some("array") && s.items.None?
  {
    if s.ref != "" then Ok("Type." + StripRef(s.ref))
    else if s.kind == Some("array") then
      if s.items.Some? && s.items.value.ref != "" then Ok("Type." + StripRef(s.items.value.ref) + "[]")
      else if s.items.None? then TypeError
      else Ok(Js(TypeFormat(s.items.value.kind)) + "[]")
    else Ok(Js(TypeFormat(s.kind)))
  }

  /** The type of a request body or response schema: as for parameters, but
      `items` is read with optional chaining, so it never throws. */
  function BodyType(s: Schema): string {
    if s.ref != "" then "Type." + StripRef(s.ref)
    else if s.kind == Some("array") then
      if s.items.Some? && s.items.value.ref != "" then "Type." + StripRef(s.items.value.ref) + "[]"
      else Js(TypeFormat(if s.items.Some? then s.items.value.kind else None)) + "[]"
    else Js(TypeFormat(s.kind))
  }

  /** The content types tried for bodies and responses, in order. */
  const PreferredContent := ["application/json", "application/x-www-form-urlencoded",
    "multipart/form-data", "application/octet-stream", "text/plain", "*/*"]

  function FirstPresent(prefs: seq<string>, c: ContentMap): Option<MediaType> {
    if prefs == [] then None
    else if Lookup(c, prefs[0]).Some? then Lookup(c, prefs[0])
    else FirstPresent(prefs[1..], c)
  }

  /** The `a || b || …` chain over `content[...]`. */
  function SelectContent(c: ContentMap): Option<MediaType> {
    FirstPresent(PreferredContent, c)
  }

  /** The result is the entry of the first preferred type that is present,
      and it is absent exactly when none of them is. */
  lemma {:induction false} FirstPresentSpec(prefs: seq<string>, c: ContentMap)
    ensures FirstPresent(prefs, c).None? <==> forall i :: 0 <= i < |prefs| ==> Lookup(c, prefs[i]).None?
    ensures FirstPresent(prefs, c).Some? ==>
              exists i :: 0 <= i < |prefs| && FirstPresent(prefs, c) == Lookup(c, prefs[i]) &&
                          forall j :: 0 <= j < i ==> Lookup(c, prefs[j]).None?
  {
    if prefs != [] {
      FirstPresentSpec(prefs[1..], c);
      if Lookup(c, prefs[0]).None? {
        forall i | 0 <= i < |prefs[1..]| ensures prefs[1..][i] == prefs[i + 1] { }
        if FirstPresent(prefs, c).Some? {
          var i :| 0 <= i < |prefs[1..]| && FirstPresent(prefs[1..], c) == Lookup(c, prefs[1..][i]) &&
                   forall j :: 0 <= j < i ==> Lookup(c, prefs[1..][j]).None?;
          assert FirstPresent(prefs, c) == Lookup(c, prefs[i + 1]);
          forall j | 0 <= j < i + 1 ensures Lookup(c, prefs[j]).None? {
            if j > 0 { assert prefs[j] == prefs[1..][j - 1]; }
          }
        }
      }
    }
  }

  /** JSON content wins over every other type. */
  lemma JsonPreferred(c: ContentMap, m: MediaType)
    requires Lookup(c, "application/json") == Some(m)
    ensures SelectContent(c) == Some(m)
  {
  }

  /** `content?.schema ?? {}` for an optional, negotiated `content`. */
  function NegotiatedSchema(content: Option<ContentMap>): Schema {
    if content.None? then EmptySchema
    else
      var m := SelectContent(content.value);
      if m.None? then EmptySchema else m.value.schema.GetOr(EmptySchema)
  }

  /** A missing or unmatched content gives the type 'any'. */
  lemma NoContentIsAny(content: Option<ContentMap>)
    requires content.Some? ==> forall i :: 0 <= i < |PreferredContent| ==> Lookup(content.value, PreferredContent[i]).None?
    ensures BodyType(NegotiatedSchema(content)) == "any"
  {
    if content.Some? {
      FirstPresentSpec(PreferredContent, content.value);
    }
  }

  /** `_pType` (line 241): the query type and the body type, either alone
      when the other is 'any', or both in a union that also admits 'any'. */
  function CombineParamTypes(paramType: string, queryType: string): string {
    if paramType == "any" then (if queryType == "any" then "any" else queryType)
    else if queryType == "any" then paramType
    else queryType + " | " + paramType + " | any"
  }

  /** The non-'any' parts of (query, body), in that order. */
  function Informative(queryType: string, paramType: string): seq<string> {
    (if queryType == "any" then [] else [queryType]) + (if paramType == "any" then [] else [paramType])
  }

  /** The combined type against an independent description: 'any' when no part
      says anything, the one part when one does, otherwise the union of both
      parts with 'any'. The result is never empty when the parts are not. */
  lemma CombineParamTypesSpec(paramType: string, queryType: string)
    ensures var parts := Informative(queryType, paramType);
            CombineParamTypes(paramType, queryType) ==
              if |parts| == 0 then "any"
              else if |parts| == 1 then parts[0]
              else parts[0] + " | " + parts[1] + " | any"
  {
  }

  // ---------------------------------------------------------------------
  // The resolvers on the shapes the source distinguishes.

  /** Primitive property types: string, number/integer, boolean; 'any' for a
      missing type and for object, null and any. The table's `array` entry
      'any[]' is reached through an item type `array`. */
  lemma ComponentPrimitive(kind: Option<string>)
    requires kind != Some("array")
    ensures TypeFormat(Some("array")) == Some("any[]")
    ensures ComponentPropType(ArrayOf(Primitive(Some("array")))) == Ok("any[][]")
    ensures ComponentPropType(Primitive(kind)) == Ok(Js(TypeFormat(kind)))
    ensures kind == Some("string") ==> ComponentPropType(Primitive(kind)) == Ok("string")
    ensures kind == Some("integer") || kind == Some("number") ==> ComponentPropType(Primitive(kind)) == Ok("number")
    ensures kind == Some("boolean") ==> ComponentPropType(Primitive(kind)) == Ok("boolean")
    ensures kind.None? || kind == Some("object") || kind == Some("null") || kind == Some("any") ==>
              ComponentPropType(Primitive(kind)) == Ok("any")
  {
    assert "any[]" + "[]" == "any[][]";
  }

  /** A component array property: `Name[]` for referenced items, the table's
      type for primitive items, 'any[]' when the item kind is unknown. */
  lemma {:induction false} ComponentArray(name: string, itemKind: Option<string>)
    ensures name != "" ==> ComponentPropType(ArrayOf(RefTo(name))) == Ok(name + "[]")
    ensures itemKind.Some? && itemKind.value in TypeTable ==>
              ComponentPropType(ArrayOf(Primitive(itemKind))) == Ok(TypeTable[itemKind.value] + "[]")
    ensures itemKind.Some? && itemKind.value !in TypeTable ==>
              ComponentPropType(ArrayOf(Primitive(itemKind))) == Ok("any[]")
    ensures ComponentPropType(ArrayOf(Primitive(None))) == Ok("any[]")
  {
    RemovePrefix(SchemaPrefix, name);
    assert "any" + "[]" == "any[]";
  }

  /** References: the bare name in a component, `Type.` and the name for
      parameters, bodies and responses. */
  lemma {:induction false} References(name: string)
    ensures ComponentPropType(RefTo(name)) == Ok(name)
    ensures ParamType(RefTo(name)) == Ok("Type." + name)
    ensures BodyType(RefTo(name)) == "Type." + name
    ensures ParamType(ArrayOf(RefTo(name))) == Ok("Type." + name + "[]")
    ensures BodyType(ArrayOf(RefTo(name))) == "Type." + name + "[]"
  {
    RemovePrefix(SchemaPrefix, name);
  }

  /** In a component, a reference that does not start with the schema prefix
      is ignored and the property's `type` decides. */
  lemma ForeignRefIgnored(p: Schema)
    requires p.kind != Some("array") && !StartsWith(p.ref, SchemaPrefix)
    ensures ComponentPropType(p) == Ok(Js(TypeFormat(p.kind)))
  {
  }

  /** Where the parameter resolver does not throw, the body resolver agrees with it. */
  lemma BodyAgreesWithParam(s: Schema)
    requires ParamType(s).Ok?
    ensures BodyType(s) == ParamType(s).value
  {
  }

  /** An array body without `items` is 'any[]', where a parameter would throw. */
  lemma BodyArrayWithoutItems()
    ensures BodyType(Schema(Some("array"), "", None, "")) == "any[]"
    ensures ParamType(Schema(Some("array"), "", None, "")) == TypeError
  {
  }
}
