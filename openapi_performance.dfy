/** The OpenAPI load-test generator (src/openAPI/api-performance/generateTests.js):
    for every operation whose method is wanted it fills the k6 script template
    with the operation's status codes, path parameters, method, path and the
    host, and writes the result to `./<operationId>.js`. */
module OpenApiPerformance {
  import opened JsStrings
  import opened JsValues
  import opened Operations
  import opened LoadScripts

  /** Lines 58-68: the placeholders of the ten `.replace` calls, in order. */
  const Marks: seq<string> := [ThresholdsMark, ResponsesMark, TrendsMark, PathMark, DiscreteDataMark,
                               DiverseDataMark, ParamsMark, MethodMark, CaseMark, HostMark]

  /** The values of the ten calls: the thresholds, the codes, the trends, the
      path with every `{` turned into `${`, the two data lists, the parameter
      names, the method, the cases and the host. */
  function Values(codes: seq<string>, names: seq<Value>, verb: string, path: string, host: Value): (vs: seq<string>)
    ensures |vs| == |Marks|
  {
    [ Join(Thresholds(codes), "\n\t\t"),
      Join(codes, ","),
      Join(Trends(codes), "\n"),
      Interpolated(path),
      Join(DiscreteData(names), ","),
      Join(DiverseData(names, Invalids), ","),
      ParamsText(names),
      verb,
      Join(Cases(codes), "\n\t"),
      Text(host) ]
  }

  function Chain(codes: seq<string>, names: seq<Value>, verb: string, path: string, host: Value): (chain: seq<(string, string)>)
    ensures IsChain(chain) && |chain| == |Marks|
  {
    MarksShape();
    Zip(Marks, Values(codes, names, verb, path, host))
  }

  lemma MarksShape()
    ensures forall i :: 0 <= i < |Marks| ==> DollarHeaded(Marks[i])
  {
    MarkShapes();
  }

  /** `$HOST` is replaced last, and no earlier placeholder is related to it. */
  lemma HostLast()
    ensures Marks[|Marks| - 1] == HostMark
    ensures forall i :: 0 <= i < |Marks| - 1 ==> Unrelated(Marks[i], HostMark)
  {
    UnrelatedAt(ThresholdsMark, HostMark, 1);
    UnrelatedAt(ResponsesMark, HostMark, 1);
    UnrelatedAt(TrendsMark, HostMark, 1);
    UnrelatedAt(PathMark, HostMark, 1);
    UnrelatedAt(DiscreteDataMark, HostMark, 1);
    UnrelatedAt(DiverseDataMark, HostMark, 1);
    UnrelatedAt(ParamsMark, HostMark, 1);
    UnrelatedAt(MethodMark, HostMark, 1);
    UnrelatedAt(CaseMark, HostMark, 1);
  }

  /** Lines 39-69: the body of the `readFile` callback; filtering parameters that
      are not an array or hold a null throws. */
  function Render(template: string, host: Value, verb: string, path: string, parameters: Json, responses: Json): Result<string> {
    var codes := StatusCodes(ForInKeys(Some(responses)));
    var names :- PathParams(parameters);
    Ok(CollapseAll(Substitute(template, Chain(codes, names, verb, path, host))))
  }

  /** Lines 26-33 and 71: the operation's fields and the file its callback
      writes; reading `operationId` of a missing or null operation throws. */
  function Script(template: string, host: Value, sel: Selected): Result<Job> {
    var id :- Prop(sel.operation, "operationId");
    var operationId := JsonText(Or(id, JStr("")));
    var operation := sel.operation.value;
    var parameters := Or(Get(operation, "parameters"), JArr([]));
    var responses := Or(Get(operation, "responses"), JObj([]));
    Ok(Job("./" + operationId + ".js", Render(template, host, sel.verb, sel.path, parameters, responses)))
  }

  function Step(template: string, host: Value): Selected -> Result<Job> {
    sel => Script(template, host, sel)
  }

  /** The run after the `apiDocPath` check: the host, then one job per
      operation whose method is in `desired`. */
  function Run(template: string, doc: Value, desired: seq<string>): Result<seq<Job>> {
    var host :- Host(doc);
    Each(Step(template, host), SelectedOperations(Member(doc, "paths"), Some(desired)))
  }

  /** Lines 15-80: the host, then the loops over paths and methods. */
  method GenerateScripts(template: string, doc: Value, desired: seq<string>) returns (r: Result<seq<Job>>)
    ensures r == Run(template, doc, desired)
  {
    var found := Host(doc);
    if found.TypeError? {
      return TypeError;
    }
    r := Walk(Step(template, found.value), Member(doc, "paths"), Some(desired));
  }

  // ---------------------------------------------------------------------------
  // Lemmas

  /** A script is rendered exactly when the parameters can be filtered. */
  lemma RenderFails(template: string, host: Value, verb: string, path: string, parameters: Json, responses: Json)
    ensures Render(template, host, verb, path, parameters, responses).Ok? <==>
      parameters.JArr? && forall i :: 0 <= i < |parameters.items| ==> parameters.items[i] != JNull
  {
    PathParamsFromKept(parameters);
  }

  /** The host replaces `$HOST` last, so a template naming `$HOST` gets the host
      (as text, without newlines) in the written script. */
  lemma HostLands(template: string, host: Value, verb: string, path: string, parameters: Json, responses: Json)
    requires Occurs(template, HostMark) && NoChar(Text(host), '\n') && Text(host) != []
    ensures Render(template, host, verb, path, parameters, responses).Ok? ==>
      Occurs(Render(template, host, verb, path, parameters, responses).value, Text(host))
  {
    if Render(template, host, verb, path, parameters, responses).Ok? {
      var codes := StatusCodes(ForInKeys(Some(responses)));
      var names := PathParams(parameters).value;
      var chain := Chain(codes, names, verb, path, host);
      HostLast();
      SubstituteKeeps(template, chain[..9], HostMark);
      SubstituteLastLands(template, chain);
      CollapseKeeps(Substitute(template, chain), Text(host));
    }
  }

  /** The job of one operation that can be read: it is written to the file named
      after its `operationId` and holds the operation's rendered script. */
  lemma JobOf(template: string, host: Value, sel: Selected)
    ensures Script(template, host, sel).Ok? ==>
      && sel.operation.Some?
      && Script(template, host, sel).value.file == "./" + JsonText(Or(Get(sel.operation.value, "operationId"), JStr(""))) + ".js"
      && Script(template, host, sel).value.contents == Render(template, host, sel.verb, sel.path, Or(Get(sel.operation.value, "parameters"), JArr([])), Or(Get(sel.operation.value, "responses"), JObj([])))
  {
  }

  /** One job per operation of a wanted method, in document order, each named
      after its `operationId` (empty when it has none) and holding the script
      rendered from that operation's method, path, parameters and responses. */
  lemma RunJobs(template: string, doc: Value, desired: seq<string>, k: nat)
    ensures Run(template, doc, desired).Ok? ==>
      var ops := SelectedOperations(Member(doc, "paths"), Some(desired));
      && |Run(template, doc, desired).value| == |ops|
      && (k < |ops| ==>
            && ops[k].verb in desired
            && ops[k].operation.Some?
            && Run(template, doc, desired).value[k].file == "./" + JsonText(Or(Get(ops[k].operation.value, "operationId"), JStr(""))) + ".js"
            && Run(template, doc, desired).value[k].contents == Render(template, Host(doc).value, ops[k].verb, ops[k].path, Or(Get(ops[k].operation.value, "parameters"), JArr([])), Or(Get(ops[k].operation.value, "responses"), JObj([]))))
  {
    if Run(template, doc, desired).Ok? {
      var host := Host(doc).value;
      var ops := SelectedOperations(Member(doc, "paths"), Some(desired));
      EachResults(Step(template, host), ops);
      if k < |ops| {
        SelectedOperationsMembers(Member(doc, "paths"), Some(desired), ops[k]);
        assert Step(template, host)(ops[k]) == Script(template, host, ops[k]);
        JobOf(template, host, ops[k]);
      }
    }
  }
}
