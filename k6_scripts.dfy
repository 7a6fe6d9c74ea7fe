/** The k6 generator (k6/generateTests.js): for every operation, whatever its
    method, it fills only six placeholders of its template (the codes, trends,
    thresholds, cases, host and the path as written), collapses the first run
    of three newlines, and writes `./outputs/<operationId>.js`. */
module K6Scripts {
  import opened JsStrings
  import opened JsValues
  import opened Operations
  import opened LoadScripts

  /** Lines 44-50: the placeholders of the six `.replace` calls, in order. */
  const Marks: seq<string> := [ResponsesMark, TrendsMark, ThresholdsMark, CaseMark, HostMark, PathMark]

  /** The values of the six calls; the path goes in with its braces. */
  function Values(codes: seq<string>, path: string, host: Value): (vs: seq<string>)
    ensures |vs| == |Marks|
  {
    [ Join(codes, ","),
      Join(Trends(codes), "\n"),
      Join(Thresholds(codes), "\n\t\t"),
      Join(Cases(codes), "\n\t"),
      Text(host),
      path ]
  }

  function Chain(codes: seq<string>, path: string, host: Value): (chain: seq<(string, string)>)
    ensures IsChain(chain) && |chain| == |Marks|
  {
    MarksShape();
    Zip(Marks, Values(codes, path, host))
  }

  lemma MarksShape()
    ensures forall i :: 0 <= i < |Marks| ==> DollarHeaded(Marks[i])
  {
    MarkShapes();
  }

  /** `$PATH` is replaced last, and no earlier placeholder is related to it. */
  lemma PathLast()
    ensures Marks[|Marks| - 1] == PathMark
    ensures forall i :: 0 <= i < |Marks| - 1 ==> Unrelated(Marks[i], PathMark)
  {
    UnrelatedAt(ResponsesMark, PathMark, 1);
    UnrelatedAt(TrendsMark, PathMark, 1);
    UnrelatedAt(ThresholdsMark, PathMark, 1);
    UnrelatedAt(CaseMark, PathMark, 1);
    UnrelatedAt(HostMark, PathMark, 1);
  }

  /** The placeholders the chain does not fill are related to none it fills. */
  lemma UnfilledUnrelated(q: string)
    requires q in [DiscreteDataMark, DiverseDataMark, ParamsMark, MethodMark]
    ensures DollarHeaded(q) && forall i :: 0 <= i < |Marks| ==> Unrelated(Marks[i], q)
  {
    MarkShapes();
    UnrelatedAt(ResponsesMark, q, 1);
    UnrelatedAt(TrendsMark, q, 1);
    UnrelatedAt(ThresholdsMark, q, 1);
    UnrelatedAt(CaseMark, q, 1);
    UnrelatedAt(HostMark, q, 1);
    if q == ParamsMark {
      UnrelatedAt(PathMark, q, 3);
    } else {
      UnrelatedAt(PathMark, q, 1);
    }
  }

  /** Lines 33-51: the body of the `readFile` callback; nothing in it throws. */
  function Render(template: string, host: Value, path: string, responses: Json): string {
    var codes := StatusCodes(ForInKeys(Some(responses)));
    CollapseFirst(Substitute(template, Chain(codes, path, host)))
  }

  /** Lines 20-27 and 53: the operation's fields and the file its callback
      writes; reading `operationId` of a missing or null operation throws. */
  function Script(template: string, host: Value, sel: Selected): Result<Job> {
    var id :- Prop(sel.operation, "operationId");
    var operationId := JsonText(Or(id, JStr("")));
    var responses := Or(Get(sel.operation.value, "responses"), JObj([]));
    Ok(Job("./outputs/" + operationId + ".js", Ok(Render(template, host, sel.path, responses))))
  }

  function Step(template: string, host: Value): Selected -> Result<Job> {
    sel => Script(template, host, sel)
  }

  /** The run after the `apiDocPath` check: the host, then one job per
      operation of every method. */
  function Run(template: string, doc: Value): Result<seq<Job>> {
    var host :- Host(doc);
    Each(Step(template, host), SelectedOperations(Member(doc, "paths"), None))
  }

  /** Lines 14-66: the host, then the loops over paths and methods. */
  method GenerateScripts(template: string, doc: Value) returns (r: Result<seq<Job>>)
    ensures r == Run(template, doc)
  {
    var found := Host(doc);
    if found.TypeError? {
      return TypeError;
    }
    r := Walk(Step(template, found.value), Member(doc, "paths"), None);
  }

  // ---------------------------------------------------------------------------
  // Lemmas

  lemma SingleLine(q: string)
    requires q in [DiscreteDataMark, DiverseDataMark, ParamsMark, MethodMark]
    ensures NoChar(q, '\n') && q != []
  {
    if q == DiscreteDataMark {
      assert NoChar(DiscreteDataMark, '\n');
    } else if q == DiverseDataMark {
      assert NoChar(DiverseDataMark, '\n');
    } else if q == ParamsMark {
      assert NoChar(ParamsMark, '\n');
    } else {
      assert NoChar(MethodMark, '\n');
    }
  }

  /** Substituting any six values for the six placeholders keeps the four
      placeholders the chain does not name. */
  lemma ZipKeepsUnfilled(template: string, vs: seq<string>, q: string)
    requires |vs| == |Marks|
    requires q in [DiscreteDataMark, DiverseDataMark, ParamsMark, MethodMark] && Occurs(template, q)
    ensures NoChar(q, '\n') && q != []
    ensures IsChain(Zip(Marks, vs)) && Occurs(Substitute(template, Zip(Marks, vs)), q)
  {
    MarksShape();
    SingleLine(q);
    UnfilledUnrelated(q);
    SubstituteKeeps(template, Zip(Marks, vs), q);
  }

  /** `$DISCRETE_DATA`, `$DIVERSE_DATA`, `$PARAMS` and `$METHOD` are never
      filled: where the template has one, the written script has it too. */
  lemma UnfilledKept(template: string, host: Value, path: string, responses: Json, q: string)
    requires q in [DiscreteDataMark, DiverseDataMark, ParamsMark, MethodMark] && Occurs(template, q)
    ensures Occurs(Render(template, host, path, responses), q)
  {
    var vs := Values(StatusCodes(ForInKeys(Some(responses))), path, host);
    ZipKeepsUnfilled(template, vs, q);
    CollapseKeeps(Substitute(template, Zip(Marks, vs)), q);
  }

  /** The path replaces `$PATH` last, braces and all, so a template naming
      `$PATH` gets the path (when it has no newline) in the written script. */
  lemma PathLands(template: string, host: Value, path: string, responses: Json)
    requires Occurs(template, PathMark) && NoChar(path, '\n') && path != []
    ensures Occurs(Render(template, host, path, responses), path)
  {
    var chain := Chain(StatusCodes(ForInKeys(Some(responses))), path, host);
    PathLast();
    SubstituteKeeps(template, chain[..5], PathMark);
    SubstituteLastLands(template, chain);
    CollapseKeeps(Substitute(template, chain), path);
  }

  /** The job of one operation that can be read: it is written to the file named
      after its `operationId` and holds the operation's rendered script. */
  lemma JobOf(template: string, host: Value, sel: Selected)
    ensures Script(template, host, sel).Ok? ==>
      && sel.operation.Some?
      && Script(template, host, sel).value.file == "./outputs/" + JsonText(Or(Get(sel.operation.value, "operationId"), JStr(""))) + ".js"
      && Script(template, host, sel).value.contents == Ok(Render(template, host, sel.path, Or(Get(sel.operation.value, "responses"), JObj([]))))
  {
  }

  /** One job per operation of every method, in document order, each named
      after its `operationId` (empty when it has none) and holding the script
      rendered from that operation's path and responses; none of them throws. */
  lemma RunJobs(template: string, doc: Value, k: nat)
    ensures Run(template, doc).Ok? ==>
      var ops := SelectedOperations(Member(doc, "paths"), None);
      && |Run(template, doc).value| == |ops|
      && (k < |ops| ==>
            && ops[k].operation.Some?
            && Run(template, doc).value[k].file == "./outputs/" + JsonText(Or(Get(ops[k].operation.value, "operationId"), JStr(""))) + ".js"
            && Run(template, doc).value[k].contents == Ok(Render(template, Host(doc).value, ops[k].path, Or(Get(ops[k].operation.value, "responses"), JObj([])))))
  {
    if Run(template, doc).Ok? {
      var host := Host(doc).value;
      var ops := SelectedOperations(Member(doc, "paths"), None);
      EachResults(Step(template, host), ops);
      if k < |ops| {
        assert Step(template, host)(ops[k]) == Script(template, host, ops[k]);
        JobOf(template, host, ops[k]);
      }
    }
  }
}
