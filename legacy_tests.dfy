/** The first test generator (api/generateTests.js): for every operation of the
    document, whatever its method, it appends to `<operationId>.spec.ts` a Jest
    file holding one `describe` block per response code except `default`; each
    block requests the raw path with supertest and checks the status code and
    the schema its own `determineSchema` names. That `determineSchema` returns
    the bare schema name from its `content` branch, where the others return a
    `[kind, name]` pair, and the block then indexes the name's characters. */
module LegacyTests {
  import opened JsStrings
  import opened JsValues
  import opened Schemas
  import opened EmittedLines
  import opened Operations
  import opened LegacyText

  // ---------------------------------------------------------------------------
  // determineSchema

  /** What this `determineSchema` returns: the bare string of its `content`
      branch, or the pair `[kind, name]` of its other branches and its `catch`. */
  datatype Returned = Bare(text: string) | Pair(schema: Schema)

  /** The `try` block: a truthy `content` returns `ref.split("/").pop()` itself,
      otherwise the `$ref` branch decides; `Ok(None)` is reaching the `throw`. */
  function TrySchema(doc: Value, response: Value): (r: Result<Option<Returned>>)
    ensures r.Ok? && r.value.Some? && r.value.value.Bare? ==> NoChar(r.value.value.text, '/')
    ensures r.Ok? && r.value.Some? && r.value.value.Pair? ==> r.value.value.schema.kind != Unknown
  {
    var content :- Prop(response, "content");
    if Truthy(content) then
      var s :- ContentSchema(content);
      Ok(Some(Bare(s.name)))
    else
      var found :- RefBranch(doc, response.value);
      if found.Some? then Ok(Some(Pair(found.value))) else Ok(None)
  }

  /** `determineSchema(response)`: whatever throws or reaches the `throw` is
      caught and becomes `["unknown", "unknown"]`. */
  function DetermineSchema(doc: Value, response: Value): (r: Returned)
    ensures r.Bare? ==> NoChar(r.text, '/')
    ensures r.Pair? && r.schema.kind == Unknown ==> r.schema == UnknownSchema
  {
    match TrySchema(doc, response)
    case Ok(Some(s)) => s
    case _ => Pair(UnknownSchema)
  }

  /** `schema[i]`: an element of the pair, or a one-character string of the bare
      name; past the end it is undefined. */
  function Element(r: Returned, i: nat): Value {
    match r
    case Pair(s) => if i == 0 then Some(JStr(KindText(s.kind))) else if i == 1 then Some(JStr(s.name)) else None
    case Bare(t) => if i < |t| then Some(JStr([t[i]])) else None
  }

  /** `schema[0] == "array"`. */
  predicate IsArray(r: Returned) {
    ArrayAndObjectAreWords();
    LooseEqualsWord(Element(r, 0), "array")
  }

  /** `${schema[1]}`. */
  function SchemaName(r: Returned): string {
    Text(Element(r, 1))
  }

  // ---------------------------------------------------------------------------
  // The blocks of an operation

  /** What an operation's blocks depend on. */
  datatype Context = Context(doc: Value, host: Value, verb: string, path: string, responses: Json)

  /** One pass of the `for (const responseCode in responses)` body: reading
      `description` of a null response throws; the description is never empty,
      so its `|| ""` fallback is never taken. */
  function ResponseBlock(ctx: Context, code: string): Result<seq<string>> {
    var response := Get(ctx.responses, code);
    var description :- Prop(response, "description");
    var schema := DetermineSchema(ctx.doc, response);
    Ok(Block(code, code + " - " + Text(description), ctx.host, ctx.verb, ctx.path, IsArray(schema), SchemaName(schema)))
  }

  /** The block of one response code, as the response loop takes it. */
  function BlockOf(ctx: Context): string -> Result<seq<string>> {
    code => ResponseBlock(ctx, code)
  }

  /** The blocks for the response codes `codes`, skipping `default`. */
  function Blocks(ctx: Context, codes: seq<string>): Result<seq<string>> {
    ResponseLoop(BlockOf(ctx), codes)
  }

  // ---------------------------------------------------------------------------
  // One file per operation, and the run

  /** `operation.responses || {}`. */
  function OperationContext(doc: Value, host: Value, sel: Selected, operation: Json): Context {
    Context(doc, host, sel.verb, sel.path, Or(Get(operation, "responses"), JObj([])))
  }

  /** The lines appended for one operation; reading `operationId` of a missing
      or null operation throws. */
  function Emission(apiDocPath: string, doc: Value, host: Value, sel: Selected): Result<Written> {
    var id :- Prop(sel.operation, "operationId");
    var operationId := JsonText(Or(id, JStr("")));
    var ctx := OperationContext(doc, host, sel, sel.operation.value);
    var blocks :- Blocks(ctx, ForInKeys(Some(ctx.responses)));
    Ok(Written(operationId + ".spec.ts", Header(apiDocPath, sel.verb, sel.path, operationId) + blocks + [Closing]))
  }

  function Step(apiDocPath: string, doc: Value, host: Value): Selected -> Result<Written> {
    sel => Emission(apiDocPath, doc, host, sel)
  }

  /** The whole run after the `apiDocPath` check: the host, then one file per
      operation of every method; a throw anywhere ends the run. */
  function Run(apiDocPath: string, doc: Value): Result<seq<Written>> {
    var host :- Host(doc);
    Each(Step(apiDocPath, doc, host), SelectedOperations(Member(doc, "paths"), None))
  }

  // ---------------------------------------------------------------------------
  // The loops

  /** Lines 43-82: the `for (const responseCode in responses)` loop; a code
      whose block throws ends the loop and the run. */
  method EmitBlocks(ctx: Context, codes: seq<string>) returns (r: Result<seq<string>>)
    ensures r == Blocks(ctx, codes)
  {
    var body: seq<string> := [];
    var i := 0;
    while i < |codes|
      invariant 0 <= i <= |codes|
      invariant Blocks(ctx, codes[..i]) == Ok(body)
    {
      ResponseLoopStep(BlockOf(ctx), codes, i);
      if codes[i] != "default" {
        var block := ResponseBlock(ctx, codes[i]);
        if block.TypeError? {
          ResponseLoopPrefixFails(BlockOf(ctx), codes, i + 1);
          return TypeError;
        }
        body := body + block.value;
      }
      i := i + 1;
    }
    assert codes[..i] == codes;
    return Ok(body);
  }

  /** Lines 20-83: the operation's fields, the header, the blocks, the closing line. */
  method EmitOperation(apiDocPath: string, doc: Value, host: Value, sel: Selected) returns (r: Result<Written>)
    ensures r == Emission(apiDocPath, doc, host, sel)
  {
    var id := Prop(sel.operation, "operationId");
    if id.TypeError? {
      return TypeError;
    }
    var operationId := JsonText(Or(id.value, JStr("")));
    var ctx := OperationContext(doc, host, sel, sel.operation.value);
    var blocks := EmitBlocks(ctx, ForInKeys(Some(ctx.responses)));
    if blocks.TypeError? {
      return TypeError;
    }
    return Ok(Written(operationId + ".spec.ts", Header(apiDocPath, sel.verb, sel.path, operationId) + blocks.value + [Closing]));
  }

  /** Lines 14-87: the host, then the two `for…in` loops over paths and
      methods (Operations.Walk, every method wanted); the body of the inner
      loop is EmitOperation, whose result is Emission. */
  method GenerateLegacyTests(apiDocPath: string, doc: Value) returns (r: Result<seq<Written>>)
    ensures r == Run(apiDocPath, doc)
  {
    var found := Host(doc);
    if found.TypeError? {
      return TypeError;
    }
    r := Walk(Step(apiDocPath, doc, found.value), Member(doc, "paths"), None);
  }

  // ---------------------------------------------------------------------------
  // Lemmas: determineSchema

  /** A `content` schema reference wins, and what comes back is the bare name. */
  lemma ContentGivesBareName(doc: Value, mediaType: string, target: string, rest: seq<(string, Json)>)
    ensures DetermineSchema(doc, Some(JObj([("content", MediaTypes(mediaType, RefTo(target)))] + rest)))
      == Bare(LastSegment(target, "/"))
  {
    var content := MediaTypes(mediaType, RefTo(target));
    LookupHit([], "content", content, rest);
    assert [] + [("content", content)] + rest == [("content", content)] + rest;
    assert FirstEntryValue(Some(content)) == Ok(JObj([("schema", RefTo(target))]));
    assert Prop(Some(JObj([("schema", RefTo(target))])), "schema") == Ok(Some(RefTo(target)));
    assert Prop(Some(RefTo(target)), "$ref") == Ok(Some(JStr(target)));
    assert ContentSchema(Some(content)) == Ok(Schema(Ref, LastSegment(target, "/")));
  }

  /** A Reference Object response is classified by the schema it resolves to,
      as a pair, in the priority `ref`, `array`, `object`. */
  lemma ReferencedResponse(prefix: string, name: string, mediaType: string, schema: Json)
    requires NoChar(name, '/')
    ensures DetermineSchema(ComponentsDoc(name, mediaType, schema), Some(RefTo(prefix + "/" + name)))
      == match ClassifySchema(Some(schema)) case Ok(Some(s)) => Pair(s) case _ => Pair(UnknownSchema)
  {
    assert "$ref" != "content";
    ResolvesByLastSegment(prefix, name, mediaType, schema);
  }

  /** A response with neither `content` nor `$ref` reaches the `throw`: unknown. */
  lemma NeitherContentNorRef(doc: Value, fields: seq<(string, Json)>)
    requires forall i :: 0 <= i < |fields| ==> fields[i].0 != "content" && fields[i].0 != "$ref"
    ensures DetermineSchema(doc, Some(JObj(fields))) == Pair(UnknownSchema)
  {
    LookupMiss(fields, "content");
    LookupMiss(fields, "$ref");
  }

  /** How a block reads the result: only a pair of kind `array` passes
      `schema[0] == "array"`, since a bare name's first character is never the
      word; `schema[1]` is the pair's name, or the bare name's second
      character, or undefined for a name shorter than two characters. */
  lemma SchemaReading(r: Returned)
    ensures IsArray(r) <==> r.Pair? && r.schema.kind == Array
    ensures SchemaName(r) == match r
      case Pair(s) => s.name
      case Bare(t) => if |t| >= 2 then [t[1]] else "undefined"
  {
    if r.Bare? && |r.text| > 0 {
      assert |[r.text[0]]| != |"array"|;
    }
  }

  /** A `content` schema reference `<prefix>/<name>` has the block check the
      schema named by the second character of `name`, as a single object. */
  lemma ContentSchemaSecondCharacter(doc: Value, mediaType: string, prefix: string, name: string)
    requires NoChar(name, '/') && |name| >= 2
    ensures var r := DetermineSchema(doc, Some(JObj([("content", MediaTypes(mediaType, RefTo(prefix + "/" + name)))])));
      && !IsArray(r) && SchemaName(r) == [name[1]]
  {
    var target := prefix + "/" + name;
    ContentGivesBareName(doc, mediaType, target, []);
    assert [("content", MediaTypes(mediaType, RefTo(target)))] + [] == [("content", MediaTypes(mediaType, RefTo(target)))];
    LastSegmentAfter(prefix, '/', name);
    SchemaReading(Bare(name));
  }

  /** So `#/components/schemas/Widget` has the test check the schema `i`. */
  lemma ContentSchemaWidget(doc: Value, mediaType: string, prefix: string)
    ensures var r := DetermineSchema(doc, Some(JObj([("content", MediaTypes(mediaType, RefTo(prefix + "/" + "Widget")))])));
      SchemaName(r) == "i"
  {
    ContentSchemaSecondCharacter(doc, mediaType, prefix, "Widget");
  }

  // ---------------------------------------------------------------------------
  // Lemmas: reading a block back

  /** A block is written exactly when its response has a readable description. */
  lemma ResponseBlockIs(ctx: Context, code: string)
    ensures ResponseBlock(ctx, code).Ok? <==> Prop(Get(ctx.responses, code), "description").Ok?
    ensures ResponseBlock(ctx, code).Ok? ==>
      var response := Get(ctx.responses, code);
      var schema := DetermineSchema(ctx.doc, response);
      ResponseBlock(ctx, code).value == Block(code, code + " - " + Text(Get(response.value, "description")),
        ctx.host, ctx.verb, ctx.path, IsArray(schema), SchemaName(schema))
  {
  }

  /** Reading one response block back: its title, its single status assertion,
      its request of the raw path and its schema check. */
  lemma ResponseBlockLines(ctx: Context, code: string)
    ensures ResponseBlock(ctx, code).Ok? <==> Prop(Get(ctx.responses, code), "description").Ok?
    ensures ResponseBlock(ctx, code).Ok? ==>
      var lines := ResponseBlock(ctx, code).value;
      var response := Get(ctx.responses, code);
      var schema := DetermineSchema(ctx.doc, response);
      && Extract(lines, DescribePre, DescribePost) == [code + " - " + Text(Get(response.value, "description"))]
      && Extract(lines, StatusPre, StatusPost) == [code]
      && VerbLine(ctx.verb, ctx.path) in lines
      && Extract(lines, EachPre, SchemaPost) == (if IsArray(schema) then [SchemaName(schema)] else [])
      && Extract(lines, BodyPre, SchemaPost) == (if IsArray(schema) then [] else [SchemaName(schema)])
  {
    ResponseBlockIs(ctx, code);
    if ResponseBlock(ctx, code).Ok? {
      var response := Get(ctx.responses, code);
      var schema := DetermineSchema(ctx.doc, response);
      var title := code + " - " + Text(Get(response.value, "description"));
      BlockReading(code, title, ctx.host, ctx.verb, ctx.path, IsArray(schema), SchemaName(schema));
    }
  }

  /** The blocks of a list of codes assert exactly the codes other than
      `default`, in order, one each. */
  lemma BlocksStatusCodes(ctx: Context, codes: seq<string>)
    ensures Blocks(ctx, codes).Ok? ==> Extract(Blocks(ctx, codes).value, StatusPre, StatusPost) == NonDefault(codes)
  {
    forall c | c != "default" && BlockOf(ctx)(c).Ok?
      ensures Extract(BlockOf(ctx)(c).value, StatusPre, StatusPost) == [c]
    {
      ResponseBlockLines(ctx, c);
    }
    ResponseLoopReadBack(BlockOf(ctx), codes, StatusPre, StatusPost);
  }

  /** A generated file asserts, in order, every response code of its operation
      except `default`. */
  lemma EmissionStatusCodes(apiDocPath: string, doc: Value, host: Value, sel: Selected)
    ensures Emission(apiDocPath, doc, host, sel).Ok? ==>
      && sel.operation.Some?
      && Extract(Emission(apiDocPath, doc, host, sel).value.lines, StatusPre, StatusPost)
           == NonDefault(ForInKeys(Some(OperationContext(doc, host, sel, sel.operation.value).responses)))
  {
    if Emission(apiDocPath, doc, host, sel).Ok? {
      var id := Prop(sel.operation, "operationId").value;
      var operationId := JsonText(Or(id, JStr("")));
      var ctx := OperationContext(doc, host, sel, sel.operation.value);
      var codes := ForInKeys(Some(ctx.responses));
      var header := Header(apiDocPath, sel.verb, sel.path, operationId);
      BlocksStatusCodes(ctx, codes);
      ExtractAppend3(header, Blocks(ctx, codes).value, [Closing], StatusPre, StatusPost);
      HeaderWithoutStatus(apiDocPath, sel.verb, sel.path, operationId);
      ClosingWithoutStatus();
    }
  }

  /** Every method under every path gets a file, named by its `operationId`
      (the empty string when it has none) followed by `.spec.ts`. */
  lemma RunFiles(apiDocPath: string, doc: Value, k: nat)
    ensures Run(apiDocPath, doc).Ok? ==>
      var ops := SelectedOperations(Member(doc, "paths"), None);
      && |Run(apiDocPath, doc).value| == |ops|
      && (k < |ops| ==>
            && ops[k].operation.Some?
            && Run(apiDocPath, doc).value[k].file == JsonText(Or(Get(ops[k].operation.value, "operationId"), JStr(""))) + ".spec.ts")
  {
    if Run(apiDocPath, doc).Ok? {
      var host := Host(doc).value;
      var ops := SelectedOperations(Member(doc, "paths"), None);
      EachResults(Step(apiDocPath, doc, host), ops);
    }
  }
}
