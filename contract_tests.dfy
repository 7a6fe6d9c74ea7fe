/** The contract-test generator (src/openAPI/api-contract/generateTests.js): for
    every wanted operation of the document it writes a Jest file
    `<operationId>.contract.spec.ts` holding one `describe` block per response
    code except `default`; each block calls the operation with supertest and
    checks the status code, the body and the schema `determineSchema` names. */
module ContractTests {
  import opened JsStrings
  import opened JsValues
  import opened Schemas
  import opened EmittedLines
  import opened Operations
  import opened ContractText

  // ---------------------------------------------------------------------------
  // determineSchema and determineAPIKey

  /** The `try` block of `determineSchema`: a truthy `content` decides, otherwise
      the `$ref` branch does; `Ok(None)` is reaching the `throw`. */
  function TrySchema(doc: Value, response: Value): (r: Result<Option<Schema>>)
    ensures r.Ok? && r.value.Some? ==> r.value.value.kind != Unknown
    ensures r.Ok? && r.value.Some? && r.value.value.kind in {Ref, Array} ==> NoChar(r.value.value.name, '/')
    ensures r.Ok? && r.value.Some? && r.value.value.kind == Object ==> NoChar(r.value.value.name, '"')
  {
    var content :- Prop(response, "content");
    if Truthy(content) then
      var s :- ContentSchema(content);
      Ok(Some(s))
    else RefBranch(doc, response.value)
  }

  /** `determineSchema(response)`: whatever throws or reaches the `throw` is
      caught and becomes `["unknown", "unknown"]`. */
  function DetermineSchema(doc: Value, response: Value): (s: Schema)
    ensures s.kind == Unknown ==> s == UnknownSchema
    ensures s.kind in {Ref, Array} ==> NoChar(s.name, '/')
    ensures s.kind == Object ==> NoChar(s.name, '"')
  {
    match TrySchema(doc, response)
    case Ok(Some(s)) => s
    case _ => UnknownSchema
  }

  /** `[401, 403].includes(responseCode)`: `includes` compares without
      conversion, so only the numbers 401 and 403 pick the invalid key. */
  function ApiKey(responseCode: Value): string {
    if responseCode == Some(JNum(401)) || responseCode == Some(JNum(403)) then "invalid-api-key"
    else "${validApiKey}"
  }

  // ---------------------------------------------------------------------------
  // Parameters

  lemma LocationsAreWords()
    ensures IsWord("path") && IsWord("query")
  {
  }

  /** `parameters.filter(p => p.in == loc)`: only an array has `filter`, and
      reading `in` of a null parameter throws. */
  function InLocation(parameters: Json, loc: string): Result<seq<Json>>
    requires IsWord(loc)
  {
    if parameters.JArr? then Kept(parameters.items, loc) else TypeError
  }

  function Kept(items: seq<Json>, loc: string): Result<seq<Json>>
    requires IsWord(loc)
  {
    if items == [] then Ok([])
    else
      var n := |items| - 1;
      var kept :- Kept(items[..n], loc);
      var where :- Prop(Some(items[n]), "in");
      Ok(kept + (if LooseEqualsWord(where, loc) then [items[n]] else []))
  }

  /** `${p.name}` of each kept parameter. */
  function ParamNames(kept: seq<Json>): seq<string> {
    seq(|kept|, i requires 0 <= i < |kept| => Text(Get(kept[i], "name")))
  }

  /** The names declared in a block: the path parameters, then the query ones. */
  function DeclaredNames(parameters: Json): Result<seq<string>> {
    LocationsAreWords();
    var paths :- InLocation(parameters, "path");
    var queries :- InLocation(parameters, "query");
    Ok(ParamNames(paths) + ParamNames(queries))
  }

  // ---------------------------------------------------------------------------
  // The blocks of an operation

  /** What an operation's blocks depend on. */
  datatype Context = Context(doc: Value, host: Value, verb: string, path: string, parameters: Json, responses: Json)

  /** One pass of the `for (const responseCode in responses)` body. The
      description is `` ` - ${response.description}` ``, never empty, so its
      `|| ""` fallback is never taken; reading `description` of a null response
      throws, as does a parameter list `filter` cannot walk. */
  function ResponseBlock(ctx: Context, code: string): Result<seq<string>> {
    var response := Get(ctx.responses, code);
    var description :- Prop(response, "description");
    var names :- DeclaredNames(ctx.parameters);
    Ok(Block(code, code + " - " + Text(description), names, ctx.host, ctx.verb, ctx.path,
             ApiKey(Some(JStr(code))), DetermineSchema(ctx.doc, response)))
  }

  /** The block of one response code, as the response loop takes it. */
  function BlockOf(ctx: Context): string -> Result<seq<string>> {
    code => ResponseBlock(ctx, code)
  }

  /** The blocks for the response codes `codes`, skipping `default`. */
  function Blocks(ctx: Context, codes: seq<string>): Result<seq<string>> {
    ResponseLoop(BlockOf(ctx), codes)
  }

  // ---------------------------------------------------------------------------
  // One file per operation, and the run

  /** `operation.parameters || []` and `operation.responses || {}`. */
  function OperationContext(doc: Value, host: Value, sel: Selected, operation: Json): Context {
    Context(doc, host, sel.verb, sel.path, Or(Get(operation, "parameters"), JArr([])), Or(Get(operation, "responses"), JObj([])))
  }

  /** The file written for one selected operation; reading `operationId` of a
      missing or null operation throws. */
  function Emission(apiDocPath: string, doc: Value, host: Value, sel: Selected): Result<Written> {
    var id :- Prop(sel.operation, "operationId");
    var operationId := JsonText(Or(id, JStr("")));
    var ctx := OperationContext(doc, host, sel, sel.operation.value);
    var blocks :- Blocks(ctx, ForInKeys(Some(ctx.responses)));
    Ok(Written(operationId + ".contract.spec.ts", Header(apiDocPath, sel.verb, sel.path, operationId) + blocks + [Closing]))
  }

  function Step(apiDocPath: string, doc: Value, host: Value): Selected -> Result<Written> {
    sel => Emission(apiDocPath, doc, host, sel)
  }

  /** The whole run after the `apiDocPath` check: the host, then one file per
      wanted operation; a throw anywhere ends the run. */
  function Run(apiDocPath: string, desired: seq<string>, doc: Value): Result<seq<Written>> {
    var host :- Host(doc);
    Each(Step(apiDocPath, doc, host), SelectedOperations(Member(doc, "paths"), Some(desired)))
  }

  // ---------------------------------------------------------------------------
  // The loops

  /** Lines 49-97: the `for (const responseCode in responses)` loop; a code
      whose block throws ends the loop and the run. */
  method EmitBlocks(ctx: Context, codes: seq<string>) returns (r: Result<seq<string>>)
    ensures r == Blocks(ctx, codes)
  {
    var body: seq<string> := [];
    var i := 0;
    while i < |codes|
      invariant 0 <= i <= |codes|
      invariant Blocks(ctx, codes[..i]) == Ok(body)
    {
      ResponseLoopStep(BlockOf(ctx), codes, i);
      if codes[i] != "default" {
        var block := ResponseBlock(ctx, codes[i]);
        if block.TypeError? {
          ResponseLoopPrefixFails(BlockOf(ctx), codes, i + 1);
          return TypeError;
        }
        body := body + block.value;
      }
      i := i + 1;
    }
    assert codes[..i] == codes;
    return Ok(body);
  }

  /** Lines 27-98: the operation's fields, the header, the blocks, the closing line. */
  method EmitOperation(apiDocPath: string, doc: Value, host: Value, sel: Selected) returns (r: Result<Written>)
    ensures r == Emission(apiDocPath, doc, host, sel)
  {
    var id := Prop(sel.operation, "operationId");
    if id.TypeError? {
      return TypeError;
    }
    var operationId := JsonText(Or(id.value, JStr("")));
    var ctx := OperationContext(doc, host, sel, sel.operation.value);
    var blocks := EmitBlocks(ctx, ForInKeys(Some(ctx.responses)));
    if blocks.TypeError? {
      return TypeError;
    }
    return Ok(Written(operationId + ".contract.spec.ts", Header(apiDocPath, sel.verb, sel.path, operationId) + blocks.value + [Closing]));
  }

  /** Lines 15-102: the host, then the two `for…in` loops over paths and
      methods (Operations.Walk); the body of the inner loop is EmitOperation,
      whose result is Emission. */
  method GenerateContracts(apiDocPath: string, desired: seq<string>, doc: Value) returns (r: Result<seq<Written>>)
    ensures r == Run(apiDocPath, desired, doc)
  {
    var found := Host(doc);
    if found.TypeError? {
      return TypeError;
    }
    r := Walk(Step(apiDocPath, doc, found.value), Member(doc, "paths"), Some(desired));
  }

  // ---------------------------------------------------------------------------
  // Lemmas: determineSchema

  /** A `content` schema reference wins, even over a `$ref` on the response. */
  lemma ContentRefWins(doc: Value, mediaType: string, target: string, rest: seq<(string, Json)>)
    ensures DetermineSchema(doc, Some(JObj([("content", MediaTypes(mediaType, RefTo(target)))] + rest)))
      == Schema(Ref, LastSegment(target, "/"))
  {
    var content := MediaTypes(mediaType, RefTo(target));
    LookupHit([], "content", content, rest);
    assert [] + [("content", content)] + rest == [("content", content)] + rest;
    assert FirstEntryValue(Some(content)) == Ok(JObj([("schema", RefTo(target))]));
    assert Prop(Some(JObj([("schema", RefTo(target))])), "schema") == Ok(Some(RefTo(target)));
    assert Prop(Some(RefTo(target)), "$ref") == Ok(Some(JStr(target)));
    assert ContentSchema(Some(content)) == Ok(Schema(Ref, LastSegment(target, "/")));
  }

  /** A `content` schema without a `$ref` throws inside the `try`: unknown. */
  lemma ContentWithoutRef(doc: Value, mediaType: string, fields: seq<(string, Json)>)
    requires forall i :: 0 <= i < |fields| ==> fields[i].0 != "$ref"
    ensures DetermineSchema(doc, Some(JObj([("content", MediaTypes(mediaType, JObj(fields)))]))) == UnknownSchema
  {
    var content := MediaTypes(mediaType, JObj(fields));
    LookupMiss(fields, "$ref");
    assert FirstEntryValue(Some(content)) == Ok(JObj([("schema", JObj(fields))]));
    assert Prop(Some(JObj([("schema", JObj(fields))])), "schema") == Ok(Some(JObj(fields)));
    assert ContentSchema(Some(content)).TypeError?;
  }

  /** A Reference Object response is classified by the schema it resolves to. */
  lemma ReferencedResponse(prefix: string, name: string, mediaType: string, schema: Json)
    requires NoChar(name, '/')
    ensures DetermineSchema(ComponentsDoc(name, mediaType, schema), Some(RefTo(prefix + "/" + name)))
      == match ClassifySchema(Some(schema)) case Ok(Some(s)) => s case _ => UnknownSchema
  {
    assert "$ref" != "content";
    ResolvesByLastSegment(prefix, name, mediaType, schema);
  }

  /** A reference to a response the document lacks ends in unknown. */
  lemma ReferenceToMissingResponse(prefix: string, name: string, other: string, mediaType: string, schema: Json)
    requires NoChar(name, '/') && other != name
    ensures DetermineSchema(ComponentsDoc(other, mediaType, schema), Some(RefTo(prefix + "/" + name))) == UnknownSchema
  {
    assert "$ref" != "content";
    RefBranchMissingResponse(prefix, name, other, mediaType, schema);
  }

  /** A response with neither `content` nor `$ref` reaches the `throw`: unknown. */
  lemma NeitherContentNorRef(doc: Value, fields: seq<(string, Json)>)
    requires forall i :: 0 <= i < |fields| ==> fields[i].0 != "content" && fields[i].0 != "$ref"
    ensures DetermineSchema(doc, Some(JObj(fields))) == UnknownSchema
  {
    LookupMiss(fields, "content");
    LookupMiss(fields, "$ref");
  }

  /** Only the numbers 401 and 403 pick the invalid key; the string keys that
      `for…in` yields never do, so every block sends the valid key. */
  lemma ApiKeyChoice(responseCode: Value, code: string)
    ensures ApiKey(responseCode) == "invalid-api-key" <==> responseCode == Some(JNum(401)) || responseCode == Some(JNum(403))
    ensures ApiKey(responseCode) != "invalid-api-key" ==> ApiKey(responseCode) == "${validApiKey}"
    ensures ApiKey(Some(JStr(code))) == "${validApiKey}"
  {
  }

  // ---------------------------------------------------------------------------
  // Lemmas: parameters

  /** The filter keeps exactly the parameters whose `in` loosely equals `loc`;
      it throws exactly when the list is not an array or holds a null. */
  lemma {:induction false} KeptMembers(items: seq<Json>, loc: string, p: Json)
    requires IsWord(loc)
    ensures Kept(items, loc).Ok? <==> forall i :: 0 <= i < |items| ==> items[i] != JNull
    ensures Kept(items, loc).Ok? ==> (p in Kept(items, loc).value <==> p in items && LooseEqualsWord(Get(p, "in"), loc))
  {
    if items != [] {
      var n := |items| - 1;
      KeptMembers(items[..n], loc, p);
      assert items == items[..n] + [items[n]];
      assert forall i :: 0 <= i < n ==> items[..n][i] == items[i];
    }
  }

  lemma InLocationMembers(parameters: Json, loc: string, p: Json)
    requires IsWord(loc)
    ensures InLocation(parameters, loc).Ok? <==>
      parameters.JArr? && forall i :: 0 <= i < |parameters.items| ==> parameters.items[i] != JNull
    ensures InLocation(parameters, loc).Ok? ==>
      (p in InLocation(parameters, loc).value <==> p in parameters.items && LooseEqualsWord(Get(p, "in"), loc))
  {
    if parameters.JArr? {
      KeptMembers(parameters.items, loc, p);
    }
  }

  // ---------------------------------------------------------------------------
  // Lemmas: reading a block back


  /** A block is written exactly when its response has a readable description
      and the parameters can be filtered; `for…in` keys are strings, so the
      block always sends the valid key. */
  lemma ResponseBlockIs(ctx: Context, code: string)
    ensures ResponseBlock(ctx, code).Ok? <==>
      Prop(Get(ctx.responses, code), "description").Ok? && DeclaredNames(ctx.parameters).Ok?
    ensures ResponseBlock(ctx, code).Ok? ==>
      var response := Get(ctx.responses, code);
      ResponseBlock(ctx, code).value == Block(code, code + " - " + Text(Get(response.value, "description")), DeclaredNames(ctx.parameters).value,
        ctx.host, ctx.verb, ctx.path, "${validApiKey}", DetermineSchema(ctx.doc, response))
  {
  }

  /** Reading one response block back: its title, its single status assertion,
      its declarations, its API key, its request path and its schema check. */
  lemma ResponseBlockLines(ctx: Context, code: string)
    ensures ResponseBlock(ctx, code).Ok? <==>
      Prop(Get(ctx.responses, code), "description").Ok? && DeclaredNames(ctx.parameters).Ok?
    ensures ResponseBlock(ctx, code).Ok? ==>
      var lines := ResponseBlock(ctx, code).value;
      var response := Get(ctx.responses, code);
      var schema := DetermineSchema(ctx.doc, response);
      && Extract(lines, DescribePre, DescribePost) == [code + " - " + Text(Get(response.value, "description"))]
      && Extract(lines, StatusPre, StatusPost) == [code]
      && Extract(lines, DeclPre, DeclPost) == DeclaredNames(ctx.parameters).value
      && Extract(lines, KeyPre, KeyPost) == ["${validApiKey}"]
      && VerbLine(ctx.verb, ctx.path) in lines
      && Extract(lines, EachPre, SchemaPost) == (if schema.kind == Array then [schema.name] else [])
      && Extract(lines, BodyPre, SchemaPost) == (if schema.kind == Array then [] else [schema.name])
  {
    ResponseBlockIs(ctx, code);
    if ResponseBlock(ctx, code).Ok? {
      var response := Get(ctx.responses, code);
      var title := code + " - " + Text(Get(response.value, "description"));
      BlockReading(code, title, DeclaredNames(ctx.parameters).value, ctx.host, ctx.verb, ctx.path, "${validApiKey}", DetermineSchema(ctx.doc, response));
    }
  }

  /** The blocks of a list of codes assert exactly the codes other than
      `default`, in order, one each. */
  lemma BlocksStatusCodes(ctx: Context, codes: seq<string>)
    ensures Blocks(ctx, codes).Ok? ==> Extract(Blocks(ctx, codes).value, StatusPre, StatusPost) == NonDefault(codes)
  {
    forall c | c != "default" && BlockOf(ctx)(c).Ok?
      ensures Extract(BlockOf(ctx)(c).value, StatusPre, StatusPost) == [c]
    {
      ResponseBlockLines(ctx, c);
    }
    ResponseLoopReadBack(BlockOf(ctx), codes, StatusPre, StatusPost);
  }

  /** A generated file asserts, in order, every response code of its operation
      except `default`. */
  lemma EmissionStatusCodes(apiDocPath: string, doc: Value, host: Value, sel: Selected)
    ensures Emission(apiDocPath, doc, host, sel).Ok? ==>
      && sel.operation.Some?
      && Extract(Emission(apiDocPath, doc, host, sel).value.lines, StatusPre, StatusPost)
           == NonDefault(ForInKeys(Some(OperationContext(doc, host, sel, sel.operation.value).responses)))
  {
    if Emission(apiDocPath, doc, host, sel).Ok? {
      var id := Prop(sel.operation, "operationId").value;
      var operationId := JsonText(Or(id, JStr("")));
      var ctx := OperationContext(doc, host, sel, sel.operation.value);
      var codes := ForInKeys(Some(ctx.responses));
      var header := Header(apiDocPath, sel.verb, sel.path, operationId);
      BlocksStatusCodes(ctx, codes);
      ExtractAppend3(header, Blocks(ctx, codes).value, [Closing], StatusPre, StatusPost);
      HeaderWithoutStatus(apiDocPath, sel.verb, sel.path, operationId);
      ClosingWithoutStatus();
    }
  }
  /** The file an operation's emission writes to is named by its `operationId`. */
  lemma EmissionFile(apiDocPath: string, doc: Value, host: Value, sel: Selected)
    ensures Emission(apiDocPath, doc, host, sel).Ok? ==>
      && sel.operation.Some?
      && Emission(apiDocPath, doc, host, sel).value.file == FileName(sel.operation.value)
  {
  }

  /** `operationId + ".contract.spec.ts"`, with the empty name when there is none. */
  function FileName(operation: Json): string {
    JsonText(Or(Get(operation, "operationId"), JStr(""))) + ".contract.spec.ts"
  }

  /** After a run into an empty directory, a file exists exactly when some
      selected operation is named after it, and it holds every line written to
      it, in order. */
  lemma RunOutput(apiDocPath: string, desired: seq<string>, doc: Value, file: string)
    ensures Run(apiDocPath, desired, doc).Ok? ==>
      var ws := Run(apiDocPath, desired, doc).value;
      var ops := SelectedOperations(Member(doc, "paths"), Some(desired));
      && (file in Appended(ws) <==>
            exists k :: 0 <= k < |ops| && ops[k].operation.Some? && FileName(ops[k].operation.value) == file)
      && (file in Appended(ws) ==> Appended(ws)[file] == FileText(LinesFor(ws, file)))
  {
    if Run(apiDocPath, desired, doc).Ok? {
      var host := Host(doc).value;
      var step := Step(apiDocPath, doc, host);
      var ws := Run(apiDocPath, desired, doc).value;
      var ops := SelectedOperations(Member(doc, "paths"), Some(desired));
      EachResults(step, ops);
      forall k | 0 <= k < |ops|
        ensures ops[k].operation.Some? && ws[k].file == FileName(ops[k].operation.value)
      {
        assert step(ops[k]) == Emission(apiDocPath, doc, host, ops[k]);
        EmissionFile(apiDocPath, doc, host, ops[k]);
      }
      AppendedFiles(ws, file);
    }
  }
}
