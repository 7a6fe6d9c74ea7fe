/** The first load-test generator (src/api-performance/generateTests.js): the
    OpenAPI generator's builders and replace chain, but for every method, with
    `82` among the diverse values, a collapse of only the first run of three
    newlines, and the output `./<operationId>.performance.js`. */
module ApiPerformance {
  import opened JsStrings
  import opened JsValues
  import opened Operations
  import opened LoadScripts
  import OpenApiPerformance

  /** Lines 52-62: the placeholders of the ten `.replace` calls, in order. */
  const Marks: seq<string> := [ThresholdsMark, ResponsesMark, TrendsMark, PathMark, DiscreteDataMark,
                               DiverseDataMark, ParamsMark, MethodMark, CaseMark, HostMark]

  /** The values of the ten calls; the diverse data also offers `82`. */
  function Values(codes: seq<string>, names: seq<Value>, verb: string, path: string, host: Value): (vs: seq<string>)
    ensures |vs| == |Marks|
  {
    [ Join(Thresholds(codes), "\n\t\t"),
      Join(codes, ","),
      Join(Trends(codes), "\n"),
      Interpolated(path),
      Join(DiscreteData(names), ","),
      Join(DiverseData(names, InvalidsWith82), ","),
      ParamsText(names),
      verb,
      Join(Cases(codes), "\n\t"),
      Text(host) ]
  }

  function Chain(codes: seq<string>, names: seq<Value>, verb: string, path: string, host: Value): (chain: seq<(string, string)>)
    ensures IsChain(chain) && |chain| == |Marks|
  {
    MarksShape();
    Zip(Marks, Values(codes, names, verb, path, host))
  }

  lemma MarksShape()
    ensures forall i :: 0 <= i < |Marks| ==> DollarHeaded(Marks[i])
  {
    MarkShapes();
  }

  /** Lines 33-63: the body of the `readFile` callback; the regular expression
      of the last call has no `g` flag. */
  function Render(template: string, host: Value, verb: string, path: string, parameters: Json, responses: Json): Result<string> {
    var codes := StatusCodes(ForInKeys(Some(responses)));
    var names :- PathParams(parameters);
    Ok(CollapseFirst(Substitute(template, Chain(codes, names, verb, path, host))))
  }

  /** Lines 20-27 and 65: the operation's fields and the file its callback
      writes; reading `operationId` of a missing or null operation throws. */
  function Script(template: string, host: Value, sel: Selected): Result<Job> {
    var id :- Prop(sel.operation, "operationId");
    var operationId := JsonText(Or(id, JStr("")));
    var operation := sel.operation.value;
    var parameters := Or(Get(operation, "parameters"), JArr([]));
    var responses := Or(Get(operation, "responses"), JObj([]));
    Ok(Job("./" + operationId + ".performance.js", Render(template, host, sel.verb, sel.path, parameters, responses)))
  }

  function Step(template: string, host: Value): Selected -> Result<Job> {
    sel => Script(template, host, sel)
  }

  /** The run after the `apiDocPath` check: the host, then one job per
      operation of every method. */
  function Run(template: string, doc: Value): Result<seq<Job>> {
    var host :- Host(doc);
    Each(Step(template, host), SelectedOperations(Member(doc, "paths"), None))
  }

  /** Lines 14-74: the host, then the loops over paths and methods. */
  method GenerateScripts(template: string, doc: Value) returns (r: Result<seq<Job>>)
    ensures r == Run(template, doc)
  {
    var found := Host(doc);
    if found.TypeError? {
      return TypeError;
    }
    r := Walk(Step(template, found.value), Member(doc, "paths"), None);
  }

  // ---------------------------------------------------------------------------
  // Lemmas

  /** The chain is the OpenAPI generator's, placeholder for placeholder, except
      that the diverse data also offers `82`. */
  lemma SameChainBut82(codes: seq<string>, names: seq<Value>, verb: string, path: string, host: Value)
    ensures Marks == OpenApiPerformance.Marks
    ensures Values(codes, names, verb, path, host)
      == OpenApiPerformance.Values(codes, names, verb, path, host)[5 := Join(DiverseData(names, InvalidsWith82), ",")]
  {
  }

  /** A script is rendered exactly when the parameters can be filtered. */
  lemma RenderFails(template: string, host: Value, verb: string, path: string, parameters: Json, responses: Json)
    ensures Render(template, host, verb, path, parameters, responses).Ok? <==>
      parameters.JArr? && forall i :: 0 <= i < |parameters.items| ==> parameters.items[i] != JNull
  {
    PathParamsFromKept(parameters);
  }

  /** The host replaces `$HOST` last, so a template naming `$HOST` gets the host
      (as text, without newlines) in the written script. */
  lemma HostLands(template: string, host: Value, verb: string, path: string, parameters: Json, responses: Json)
    requires Occurs(template, HostMark) && NoChar(Text(host), '\n') && Text(host) != []
    ensures Render(template, host, verb, path, parameters, responses).Ok? ==>
      Occurs(Render(template, host, verb, path, parameters, responses).value, Text(host))
  {
    if Render(template, host, verb, path, parameters, responses).Ok? {
      var codes := StatusCodes(ForInKeys(Some(responses)));
      var names := PathParams(parameters).value;
      var chain := Chain(codes, names, verb, path, host);
      OpenApiPerformance.HostLast();
      SubstituteKeeps(template, chain[..9], HostMark);
      SubstituteLastLands(template, chain);
      CollapseKeeps(Substitute(template, chain), Text(host));
    }
  }

  /** The job of one operation that can be read: it is written to the file named
      after its `operationId` and holds the operation's rendered script. */
  lemma JobOf(template: string, host: Value, sel: Selected)
    ensures Script(template, host, sel).Ok? ==>
      && sel.operation.Some?
      && Script(template, host, sel).value.file == "./" + JsonText(Or(Get(sel.operation.value, "operationId"), JStr(""))) + ".performance.js"
      && Script(template, host, sel).value.contents == Render(template, host, sel.verb, sel.path, Or(Get(sel.operation.value, "parameters"), JArr([])), Or(Get(sel.operation.value, "responses"), JObj([])))
  {
  }

  /** One job per operation of every method, in document order, each named
      after its `operationId` (empty when it has none) and holding the script
      rendered from that operation's method, path, parameters and responses. */
  lemma RunJobs(template: string, doc: Value, k: nat)
    ensures Run(template, doc).Ok? ==>
      var ops := SelectedOperations(Member(doc, "paths"), None);
      && |Run(template, doc).value| == |ops|
      && (k < |ops| ==>
            && ops[k].operation.Some?
            && Run(template, doc).value[k].file == "./" + JsonText(Or(Get(ops[k].operation.value, "operationId"), JStr(""))) + ".performance.js"
            && Run(template, doc).value[k].contents == Render(template, Host(doc).value, ops[k].verb, ops[k].path, Or(Get(ops[k].operation.value, "parameters"), JArr([])), Or(Get(ops[k].operation.value, "responses"), JObj([]))))
  {
    if Run(template, doc).Ok? {
      var host := Host(doc).value;
      var ops := SelectedOperations(Member(doc, "paths"), None);
      EachResults(Step(template, host), ops);
      if k < |ops| {
        assert Step(template, host)(ops[k]) == Script(template, host, ops[k]);
        JobOf(template, host, ops[k]);
      }
    }
  }
}
