/** What `determineSchema` reads out of an OpenAPI Response Object, in the part
    both contract generators share (src/openAPI/api-contract/generateTests.js
    lines 112-128 and api/generateTests.js lines 97-113): a Reference Object is
    resolved by the last `/`-segment of its `$ref` in `components.responses`, and
    the schema of that response's first media type names a schema, an array of
    schemas, or an object whose properties mention one. */
module Schemas {
  import opened JsStrings
  import opened JsValues

  datatype Kind = Ref | Array | Object | Unknown

  /** The pair `[kind, name]` that `determineSchema` returns. */
  datatype Schema = Schema(kind: Kind, name: string)

  function KindText(k: Kind): string {
    match k
    case Ref => "ref"
    case Array => "array"
    case Object => "object"
    case Unknown => "unknown"
  }

  /** `["unknown", "unknown"]`, what the `catch` returns. */
  const UnknownSchema := Schema(Unknown, "unknown")

  /** `v.split("/").pop()`: only a string has `split`, so anything else throws;
      the name is the text after the last `/`. */
  function SplitPop(v: Value): (r: Result<string>)
    ensures r.Ok? <==> v.Some? && v.value.JStr?
    ensures r.Ok? ==> NoChar(r.value, '/') && IsSuffix(r.value, v.value.s)
  {
    if v.Some? && v.value.JStr? then
      LastSegmentShape(v.value.s, '/');
      Ok(LastSegment(v.value.s, "/"))
    else TypeError
  }

  /** `JSON.stringify(properties).split("schemas/").pop().split("\"")[0]`:
      `JSON.stringify(undefined)` is undefined, which has no `split`. */
  function ObjectSchemaName(properties: Value): (r: Result<string>)
    ensures r.Ok? <==> properties.Some?
    ensures r.Ok? ==> NoChar(r.value, '"')
  {
    var text :- StringifyValue(properties);
    FirstSegmentShape(LastSegment(text, "schemas/"), '"');
    Ok(FirstSegment(LastSegment(text, "schemas/"), "\""))
  }

  /** `Object.entries(response.content)[0][1].schema["$ref"].split("/").pop()`. */
  function ContentSchema(content: Value): (r: Result<Schema>)
    ensures r.Ok? ==> r.value.kind == Ref && NoChar(r.value.name, '/')
  {
    var entry :- FirstEntryValue(content);
    var schema :- Prop(Some(entry), "schema");
    var ref :- Prop(schema, "$ref");
    var name :- SplitPop(ref);
    Ok(Schema(Ref, name))
  }

  lemma ArrayAndObjectAreWords()
    ensures IsWord("array") && IsWord("object")
  {
  }

  /** The `$ref` branch of the `try` block. `Ok(None)` is reaching the `throw`:
      the response has no truthy `$ref`, or the resolved schema has neither a
      truthy `$ref` nor the type `array` or `object`. */
  function RefBranch(doc: Value, response: Json): (r: Result<Option<Schema>>)
    ensures r.Ok? && r.value.Some? ==> r.value.value.kind != Unknown
    ensures r.Ok? && r.value.Some? && r.value.value.kind in {Ref, Array} ==> NoChar(r.value.value.name, '/')
    ensures r.Ok? && r.value.Some? && r.value.value.kind == Object ==> NoChar(r.value.value.name, '"')
  {
    var ref :- Prop(Some(response), "$ref");
    if !Truthy(ref) then Ok(None)
    else
      var schema :- ResolvedSchema(doc, ref);
      ClassifySchema(schema)
  }

  /** `Object.entries(doc.components.responses[responseName].content)[0][1].schema`
      for the last `/`-segment `responseName` of `ref`. */
  function ResolvedSchema(doc: Value, ref: Value): Result<Value> {
    var responseName :- SplitPop(ref);
    var components :- Prop(doc, "components");
    var responses :- Prop(components, "responses");
    var named :- Prop(responses, responseName);
    var content :- Prop(named, "content");
    var responseContent :- FirstEntryValue(content);
    Prop(Some(responseContent), "schema")
  }

  /** What a resolved schema names: its own `$ref` first, then the items of an
      `array`, then the properties of an `object`. */
  function ClassifySchema(schema: Value): (r: Result<Option<Schema>>)
    ensures r.Ok? && r.value.Some? ==> r.value.value.kind != Unknown
    ensures r.Ok? && r.value.Some? && r.value.value.kind in {Ref, Array} ==> NoChar(r.value.value.name, '/')
    ensures r.Ok? && r.value.Some? && r.value.value.kind == Object ==> NoChar(r.value.value.name, '"')
  {
    ArrayAndObjectAreWords();
    var schemaRef :- Prop(schema, "$ref");
    // Reading `$ref` did not throw, so `schema` is an object from here on.
    var fields := schema.value;
    if Truthy(schemaRef) then
      var name :- SplitPop(schemaRef);
      Ok(Some(Schema(Ref, name)))
    else if LooseEqualsWord(Get(fields, "type"), "array") then
      var itemsRef :- Prop(Get(fields, "items"), "$ref");
      var name :- SplitPop(itemsRef);
      Ok(Some(Schema(Array, name)))
    else if LooseEqualsWord(Get(fields, "type"), "object") then
      var name :- ObjectSchemaName(Get(fields, "properties"));
      Ok(Some(Schema(Object, name)))
    else Ok(None)
  }

  // ---------------------------------------------------------------------------
  // Documents of the shapes the lemmas talk about

  /** A Reference Object `{ $ref: target }`. */
  function RefTo(target: string): Json {
    JObj([("$ref", JStr(target))])
  }

  /** A `content` map with one media type whose schema is `schema`. */
  function MediaTypes(mediaType: string, schema: Json): Json {
    JObj([(mediaType, JObj([("schema", schema)]))])
  }

  /** A document whose `components.responses` holds one response, `name`. */
  function ComponentsDoc(name: string, mediaType: string, schema: Json): Value {
    Some(JObj([("components", JObj([("responses", JObj([(name, JObj([("content", MediaTypes(mediaType, schema))]))]))]))]))
  }

  // ---------------------------------------------------------------------------
  // Lemmas

  lemma DistinctKeys()
    ensures "type" != "$ref" && "items" != "$ref" && "properties" != "$ref"
    ensures "type" != "items" && "type" != "properties"
  {
    assert "type"[0] != "$ref"[0];
  }

  /** A response that refers to `…/name` resolves to the schema of the first media
      type of `components.responses.name`. */
  lemma ResolvesByLastSegment(prefix: string, name: string, mediaType: string, schema: Json)
    requires NoChar(name, '/')
    ensures RefBranch(ComponentsDoc(name, mediaType, schema), RefTo(prefix + "/" + name)) == ClassifySchema(Some(schema))
  {
    LastSegmentAfter(prefix, '/', name);
    var target := prefix + "/" + name;
    assert target == prefix + ['/'] + name;
    var ref := Some(JStr(target));
    assert Prop(Some(RefTo(target)), "$ref") == Ok(ref);
    assert SplitPop(ref) == Ok(name);
    var doc := ComponentsDoc(name, mediaType, schema);
    var responses := JObj([(name, JObj([("content", MediaTypes(mediaType, schema))]))]);
    assert Prop(doc, "components") == Ok(Some(JObj([("responses", responses)])));
    assert Prop(Some(JObj([("responses", responses)])), "responses") == Ok(Some(responses));
    assert Prop(Some(responses), name) == Ok(Some(JObj([("content", MediaTypes(mediaType, schema))])));
    assert FirstEntryValue(Some(MediaTypes(mediaType, schema))) == Ok(JObj([("schema", schema)]));
    assert ResolvedSchema(doc, ref) == Ok(Some(schema));
  }

  /** A schema `$ref` is taken first, whatever else the schema says. */
  lemma ClassifySchemaRef(r: string, rest: seq<(string, Json)>)
    requires r != []
    ensures ClassifySchema(Some(JObj([("$ref", JStr(r))] + rest))) == Ok(Some(Schema(Ref, LastSegment(r, "/"))))
  {
    LookupHit([], "$ref", JStr(r), rest);
    assert [] + [("$ref", JStr(r))] + rest == [("$ref", JStr(r))] + rest;
  }

  /** A schema of type `array` names the schema of its items. */
  lemma ClassifySchemaArray(r: string)
    ensures ClassifySchema(Some(JObj([("type", JStr("array")), ("items", RefTo(r))]))) == Ok(Some(Schema(Array, LastSegment(r, "/"))))
  {
    DistinctKeys();
    ArrayAndObjectAreWords();
    var fields := [("type", JStr("array")), ("items", RefTo(r))];
    LookupMiss(fields, "$ref");
    LookupHit([], "type", JStr("array"), [("items", RefTo(r))]);
    assert [] + [("type", JStr("array"))] + [("items", RefTo(r))] == fields;
    LookupHit([("type", JStr("array"))], "items", RefTo(r), []);
    assert [("type", JStr("array"))] + [("items", RefTo(r))] + [] == fields;
  }

  /** A schema of type `object` takes its name from the serialised properties. */
  lemma ClassifySchemaObject(properties: Json)
    ensures ClassifySchema(Some(JObj([("type", JStr("object")), ("properties", properties)])))
      == Ok(Some(Schema(Object, FirstSegment(LastSegment(Stringify(properties), "schemas/"), "\""))))
  {
    DistinctKeys();
    ArrayAndObjectAreWords();
    assert "object" != "array";
    var fields := [("type", JStr("object")), ("properties", properties)];
    LookupMiss(fields, "$ref");
    LookupHit([], "type", JStr("object"), [("properties", properties)]);
    assert [] + [("type", JStr("object"))] + [("properties", properties)] == fields;
    LookupHit([("type", JStr("object"))], "properties", properties, []);
    assert [("type", JStr("object"))] + [("properties", properties)] + [] == fields;
  }

  /** Any other schema type reaches the `throw`. */
  lemma ClassifySchemaOtherType(t: string)
    requires t != "array" && t != "object"
    ensures ClassifySchema(Some(JObj([("type", JStr(t))]))) == Ok(None)
  {
    DistinctKeys();
    ArrayAndObjectAreWords();
    LookupMiss([("type", JStr(t))], "$ref");
  }

  /** A reference to a response the document does not define throws. */
  lemma RefBranchMissingResponse(prefix: string, name: string, other: string, mediaType: string, schema: Json)
    requires NoChar(name, '/') && other != name
    ensures RefBranch(ComponentsDoc(other, mediaType, schema), RefTo(prefix + "/" + name)).TypeError?
  {
    LastSegmentAfter(prefix, '/', name);
    assert prefix + "/" + name == prefix + ['/'] + name;
  }
}
