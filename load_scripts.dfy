/** What the three load-test generators (src/openAPI/api-performance,
    src/api-performance and k6, each a `generateTests.js`) share: inside the
    `readFile` callback for one operation they list its status codes, build a
    trend, a threshold and a `switch` case per code and, in the first two, a
    data line per path parameter, then fill the `$NAME` placeholders of a k6
    script template by a chain of global `replace` calls and collapse a run of
    three newlines. */
module LoadScripts {
  import opened JsStrings
  import opened JsValues
  import opened EmittedLines

  // ---------------------------------------------------------------------------
  // Status codes and the snippets per code

  /** `Object.keys(responses).filter(r => parseInt(r))`: the response keys whose
      `parseInt` is a number other than zero, as the original strings, in order. */
  function StatusCodes(keys: seq<string>): (codes: seq<string>)
    ensures |codes| <= |keys|
  {
    if keys == [] then []
    else
      var n := |keys| - 1;
      StatusCodes(keys[..n]) + (if ParseIntTruthy(keys[n]) then [keys[n]] else [])
  }

  const TrendPre := "const http_req_duration_"
  const TrendMid := " = new Trend(" + "\"http_req_duration_"
  const TrendPost := "\", true)"

  /** `const http_req_duration_${status} = new Trend("http_req_duration_${status}", true)`. */
  function TrendLine(status: string): string {
    TrendPre + status + TrendMid + status + TrendPost
  }

  const ThresholdPre := "\"http_req_duration_"
  /** The fixed percentile limits every threshold carries. */
  const ThresholdPost := "\": [\"p(90)<1000\", " + "\"p(95)<2000\", " + "\"p(100)<3000\"],"

  /** `"http_req_duration_${status}": ["p(90)<1000", "p(95)<2000", "p(100)<3000"],`. */
  function ThresholdLine(status: string): string {
    ThresholdPre + status + ThresholdPost
  }

  const CasePre := "case "
  const CaseMid := ":\n\t\thttp_req_duration_"
  const CasePost := ".add(result.timings" + ".duration)\n\t\tbreak;"

  /** `case ${status}:\n\t\thttp_req_duration_${status}.add(result.timings.duration)\n\t\tbreak;`. */
  function CaseLine(status: string): string {
    CasePre + status + CaseMid + status + CasePost
  }

  /** `statusCodes.map(...)` for each of the three snippets. */
  function Trends(codes: seq<string>): seq<string> {
    seq(|codes|, i requires 0 <= i < |codes| => TrendLine(codes[i]))
  }

  function Thresholds(codes: seq<string>): seq<string> {
    seq(|codes|, i requires 0 <= i < |codes| => ThresholdLine(codes[i]))
  }

  function Cases(codes: seq<string>): seq<string> {
    seq(|codes|, i requires 0 <= i < |codes| => CaseLine(codes[i]))
  }

  // ---------------------------------------------------------------------------
  // Path parameters and their data lines

  /** `parameters.filter(p => p.in === "path")`: only an array has `filter`, and
      reading `in` of a null parameter throws. */
  function PathKept(items: seq<Json>): Result<seq<Json>> {
    if items == [] then Ok([])
    else
      var n := |items| - 1;
      var kept :- PathKept(items[..n]);
      var where :- Prop(Some(items[n]), "in");
      Ok(kept + (if StrictEqualsString(where, "path") then [items[n]] else []))
  }

  /** `parameters.filter(p => p.in === "path").map(p => { return p.name })`. */
  function PathParams(parameters: Json): Result<seq<Value>> {
    if parameters.JArr? then
      var kept :- PathKept(parameters.items);
      Ok(seq(|kept|, i requires 0 <= i < |kept| => Get(kept[i], "name")))
    else TypeError
  }

  /** `const ${p} = randomItem(["${p}_1", "${p}_2"]);`. */
  function DiscreteLine(p: Value): string {
    var t := Text(p);
    "const " + t + " = randomItem([\"" + t + "_1\", \"" + t + "_2\"]);"
  }

  /** The values the diverse data adds to the two valid ones. */
  const Invalids := "null, undefined, \"invalid\", 4"
  const InvalidsWith82 := "null, undefined, \"invalid\", 4, 82"

  /** `const ${p} = randomItem(["${p}_1", "${p}_2", <invalids>]);`. */
  function DiverseLine(p: Value, invalids: string): string {
    var t := Text(p);
    "const " + t + " = randomItem([\"" + t + "_1\", \"" + t + "_2\", " + invalids + "]);"
  }

  function DiscreteData(names: seq<Value>): seq<string> {
    seq(|names|, i requires 0 <= i < |names| => DiscreteLine(names[i]))
  }

  function DiverseData(names: seq<Value>, invalids: string): seq<string> {
    seq(|names|, i requires 0 <= i < |names| => DiverseLine(names[i], invalids))
  }

  /** `pathParams.join(",")`: a missing name joins as the empty string. */
  function ParamsText(names: seq<Value>): string {
    Join(seq(|names|, i requires 0 <= i < |names| => JoinedText(names[i])), ",")
  }

  // ---------------------------------------------------------------------------
  // The replace chain

  const ThresholdsMark := "$THRESHOLDS"
  const ResponsesMark := "$RESPONSES"
  const TrendsMark := "$TRENDS"
  const PathMark := "$PATH"
  const DiscreteDataMark := "$DISCRETE_DATA"
  const DiverseDataMark := "$DIVERSE_DATA"
  const ParamsMark := "$PARAMS"
  const MethodMark := "$METHOD"
  const CaseMark := "$CASE"
  const HostMark := "$HOST"

  /** A chain of `.replace(/\$NAME/g, value)` calls: placeholders whose only `$`
      is their first character, each with its value. */
  predicate IsChain(chain: seq<(string, string)>) {
    forall i :: 0 <= i < |chain| ==> DollarHeaded(chain[i].0)
  }

  /** The placeholders, in the order of a chain, paired with their values. */
  function Zip(marks: seq<string>, values: seq<string>): (chain: seq<(string, string)>)
    requires |marks| == |values|
    ensures |chain| == |marks| && forall i :: 0 <= i < |marks| ==> chain[i] == (marks[i], values[i])
  {
    seq(|marks|, i requires 0 <= i < |marks| => (marks[i], values[i]))
  }

  /** Neither placeholder starts the other, so replacing one never touches the other. */
  predicate Unrelated(p: string, q: string) {
    !(p <= q) && !(q <= p)
  }

  /** The text after the calls of `chain`, in order; values are inserted
      literally. */
  function Substitute(s: string, chain: seq<(string, string)>): string
    requires IsChain(chain)
  {
    if chain == [] then s
    else
      var n := |chain| - 1;
      ReplaceAll(Substitute(s, chain[..n]), chain[n].0, chain[n].1)
  }

  /** `.replace(/\n\n\n/g, "\n")`. */
  function CollapseAll(s: string): string {
    ReplaceAll(s, "\n\n\n", "\n")
  }

  /** `.replace(/\n\n\n/, "\n")`: without the `g` flag only the first run goes. */
  function CollapseFirst(s: string): string {
    ReplaceFirst(s, "\n\n\n", "\n")
  }

  /** What one `readFile` callback produces: the file it writes, or the throw
      that ends the process. */
  datatype Job = Job(file: string, contents: Result<string>)

  // ---------------------------------------------------------------------------
  // Lemmas: status codes and snippets

  /** A key is kept exactly when `parseInt` makes it truthy. */
  lemma {:induction false} StatusCodesMembers(keys: seq<string>, c: string)
    ensures c in StatusCodes(keys) <==> c in keys && ParseIntTruthy(c)
  {
    if keys != [] {
      var n := |keys| - 1;
      StatusCodesMembers(keys[..n], c);
      assert keys == keys[..n] + [keys[n]];
    }
  }

  /** The filter keeps the order of the keys: it distributes over concatenation. */
  lemma {:induction false} StatusCodesAppend(a: seq<string>, b: seq<string>)
    ensures StatusCodes(a + b) == StatusCodes(a) + StatusCodes(b)
    decreases |b|
  {
    if b == [] {
      assert a + b == a;
    } else {
      var n := |b| - 1;
      assert (a + b)[..|a + b| - 1] == a + b[..n];
      StatusCodesAppend(a, b[..n]);
    }
  }

  /** `parseInt("default")` is NaN, so `default` is dropped. */
  lemma DefaultDropped()
    ensures !ParseIntTruthy("default")
  {
    assert !IsJsSpace('d');
    assert TrimStart("default") == "default";
    assert LeadingDigits("default", false) == [];
  }

  /** `parseInt("0")` is zero, so `0` is dropped. */
  lemma ZeroDropped()
    ensures !ParseIntTruthy("0")
  {
    assert !IsJsSpace('0');
    assert TrimStart("0") == "0";
    assert LeadingDigits("0"[1..], false) == [];
    assert LeadingDigits("0", false) == "0";
    assert RadixValue("0", false) == 0;
  }

  /** `200` is kept. */
  lemma OkCodeKept()
    ensures ParseIntTruthy("200")
  {
    assert !IsJsSpace('2');
    assert TrimStart("200") == "200";
    assert LeadingDigits("200"[3..], false) == [];
    assert LeadingDigits("200", false) == "200";
    RadixValueZero("200", false);
  }

  /** The range key `2XX` is kept too: `parseInt` stops at the first character
      that is not a digit. */
  lemma RangeKeyKept()
    ensures ParseIntTruthy("2XX")
  {
    assert !IsJsSpace('2');
    assert TrimStart("2XX") == "2XX";
    assert LeadingDigits("2XX"[1..], false) == [];
    assert LeadingDigits("2XX", false) == "2";
    RadixValueZero("2", false);
  }

  /** The thresholds read back as the status codes, one each, in order, every
      one with the fixed limits `p(90)<1000`, `p(95)<2000` and `p(100)<3000`. */
  lemma ThresholdsReadBack(codes: seq<string>)
    ensures Extract(Thresholds(codes), ThresholdPre, ThresholdPost) == codes
  {
    assert Thresholds(codes) == seq(|codes|, i requires 0 <= i < |codes| => ThresholdPre + codes[i] + ThresholdPost);
    ExtractAll(codes, ThresholdPre, ThresholdPost);
  }

  /** A line naming a status code twice determines the code. */
  lemma TwiceNamedInjective(pre: string, mid: string, post: string, a: string, b: string)
    requires pre + a + mid + a + post == pre + b + mid + b + post
    ensures a == b
  {
    var la := pre + a + mid + a + post;
    assert |la| == |pre| + |mid| + |post| + 2 * |a|;
    assert |a| == |b|;
    assert la[|pre|..|pre| + |a|] == a;
    assert (pre + b + mid + b + post)[|pre|..|pre| + |b|] == b;
  }

  /** The trends and the cases each determine the status codes, one line per
      code, in order. */
  lemma SnippetsDetermineCodes(a: seq<string>, b: seq<string>)
    ensures Trends(a) == Trends(b) ==> a == b
    ensures Cases(a) == Cases(b) ==> a == b
  {
    if Trends(a) == Trends(b) {
      forall i | 0 <= i < |a| ensures a[i] == b[i] {
        assert TrendLine(a[i]) == Trends(a)[i] == Trends(b)[i] == TrendLine(b[i]);
        TwiceNamedInjective(TrendPre, TrendMid, TrendPost, a[i], b[i]);
      }
    }
    if Cases(a) == Cases(b) {
      forall i | 0 <= i < |a| ensures a[i] == b[i] {
        assert CaseLine(a[i]) == Cases(a)[i] == Cases(b)[i] == CaseLine(b[i]);
        TwiceNamedInjective(CasePre, CaseMid, CasePost, a[i], b[i]);
      }
    }
  }

  // ---------------------------------------------------------------------------
  // Lemmas: path parameters and data

  /** The filter keeps exactly the parameters whose `in` is the string `path`
      (strict equality: no conversion); it throws exactly when a parameter is null. */
  lemma {:induction false} PathKeptMembers(items: seq<Json>, p: Json)
    ensures PathKept(items).Ok? <==> forall i :: 0 <= i < |items| ==> items[i] != JNull
    ensures PathKept(items).Ok? ==> (p in PathKept(items).value <==> p in items && Get(p, "in") == Some(JStr("path")))
  {
    if items != [] {
      var n := |items| - 1;
      PathKeptMembers(items[..n], p);
      assert items == items[..n] + [items[n]];
      assert forall i :: 0 <= i < n ==> items[..n][i] == items[i];
    }
  }

  /** The parameter names come from the path parameters only, in order; the list
      throws when the parameters are not an array or hold a null. */
  lemma PathParamsFromKept(parameters: Json)
    ensures PathParams(parameters).Ok? <==>
      parameters.JArr? && forall i :: 0 <= i < |parameters.items| ==> parameters.items[i] != JNull
    ensures PathParams(parameters).Ok? ==>
      var kept := PathKept(parameters.items).value;
      |PathParams(parameters).value| == |kept|
      && forall i :: 0 <= i < |kept| ==> PathParams(parameters).value[i] == Get(kept[i], "name")
  {
    if parameters.JArr? {
      PathKeptMembers(parameters.items, JNull);
    }
  }

  /** The diverse line offers the discrete line's two values, then the invalids. */
  lemma DiverseExtendsDiscrete(p: Value, invalids: string)
    ensures var d := DiscreteLine(p);
      |d| >= 3 && DiverseLine(p, invalids) == d[..|d| - 3] + ", " + invalids + "]);"
  {
    var t := Text(p);
    var head := "const " + t + " = randomItem([\"" + t + "_1\", \"" + t + "_2\"";
    assert DiscreteLine(p) == head + "]);";
    assert DiscreteLine(p)[..|DiscreteLine(p)| - 3] == head;
  }

  /** The second list of invalid values is the first with `82` appended. */
  lemma InvalidsDiffer()
    ensures InvalidsWith82 == Invalids + ", 82"
  {
  }

  // ---------------------------------------------------------------------------
  // Lemmas: the chain

  lemma UnrelatedAt(p: string, q: string, k: nat)
    requires k < |p| && k < |q| && p[k] != q[k]
    ensures Unrelated(p, q)
  {
  }

  /** Every placeholder is `$`-headed. */
  lemma MarkShapes()
    ensures DollarHeaded(ThresholdsMark) && DollarHeaded(ResponsesMark) && DollarHeaded(TrendsMark)
    ensures DollarHeaded(PathMark) && DollarHeaded(DiscreteDataMark) && DollarHeaded(DiverseDataMark)
    ensures DollarHeaded(ParamsMark) && DollarHeaded(MethodMark) && DollarHeaded(CaseMark) && DollarHeaded(HostMark)
  {
  }

  /** One more call of the chain replaces every occurrence of its placeholder:
      the text between occurrences is kept and the value put between. */
  lemma SubstituteStep(s: string, chain: seq<(string, string)>, p: string, r: string)
    requires IsChain(chain) && DollarHeaded(p)
    ensures IsChain(chain + [(p, r)])
    ensures Substitute(s, chain + [(p, r)]) == Join(Split(Substitute(s, chain), p), r)
  {
    assert (chain + [(p, r)])[..|chain|] == chain;
    ReplaceAllIsSplitJoin(Substitute(s, chain), p, r);
  }

  /** A placeholder the chain does not name, and that neither starts nor
      extends any placeholder it names, survives the chain. */
  lemma {:induction false} SubstituteKeeps(s: string, chain: seq<(string, string)>, q: string)
    requires IsChain(chain) && DollarHeaded(q)
    requires forall i :: 0 <= i < |chain| ==> Unrelated(chain[i].0, q)
    requires Occurs(s, q)
    ensures Occurs(Substitute(s, chain), q)
  {
    if chain != [] {
      var n := |chain| - 1;
      SubstituteKeeps(s, chain[..n], q);
      ReplaceAllPreservesPlaceholder(Substitute(s, chain[..n]), q, chain[n].0, chain[n].1);
    }
  }

  /** The value of the chain's last call lands in the text when its
      placeholder survives the calls before it. */
  lemma SubstituteLastLands(s: string, chain: seq<(string, string)>)
    requires IsChain(chain) && chain != []
    requires Occurs(Substitute(s, chain[..|chain| - 1]), chain[|chain| - 1].0)
    ensures Occurs(Substitute(s, chain), chain[|chain| - 1].1)
  {
    var n := |chain| - 1;
    ReplaceAllInserts(Substitute(s, chain[..n]), chain[n].0, chain[n].1);
  }

  /** Text without a newline survives either collapse. */
  lemma CollapseKeeps(s: string, q: string)
    requires NoChar(q, '\n') && q != [] && Occurs(s, q)
    ensures Occurs(CollapseAll(s), q) && Occurs(CollapseFirst(s), q)
  {
    ReplaceAllPreservesDisjoint(s, q, "\n\n\n", "\n", '\n');
    ReplaceFirstPreservesDisjoint(s, q, "\n\n\n", "\n", '\n');
  }

  /** The global collapse does not rescan what it wrote: five newlines become
      three. */
  lemma CollapseAllNoRescan()
    ensures CollapseAll("\n\n\n\n\n") == "\n\n\n"
  {
    assert ReplaceAll("", "\n\n\n", "\n") == "";
    assert ReplaceAll("\n", "\n\n\n", "\n") == "\n";
    assert ReplaceAll("\n\n", "\n\n\n", "\n") == "\n\n";
    assert "\n\n\n" <= "\n\n\n\n\n" && "\n\n\n\n\n"[3..] == "\n\n";
  }

  /** Both runs of three newlines go with the `g` flag; without it the second
      survives. */
  lemma CollapseAllVersusFirst()
    ensures CollapseAll("\n\n\nA\n\n\n") == "\nA\n"
    ensures CollapseFirst("\n\n\nA\n\n\n") == "\nA\n\n\n"
  {
    var s := "\n\n\nA\n\n\n";
    assert ReplaceAll("\n\n\n", "\n\n\n", "\n") == "\n" by {
      assert "\n\n\n"[3..] == "";
    }
    assert ReplaceAll("A\n\n\n", "\n\n\n", "\n") == "A\n" by {
      assert !("\n\n\n" <= "A\n\n\n") by { assert "A\n\n\n"[0] != "\n\n\n"[0]; }
      assert "A\n\n\n"[1..] == "\n\n\n";
    }
    assert "\n\n\n" <= s && s[3..] == "A\n\n\n";
    assert OccursAt(s, "\n\n\n", 0);
    assert IndexOf(s, "\n\n\n") == 0;
  }
}
