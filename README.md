# test-utils: a verified model of the OpenAPI test-script generators

test-utils reads an OpenAPI document and writes test scripts from it. This
model covers six source files:

- **The argument reader** (`src/utils/readArgs.js`). It folds the `--key=value`
  tokens of the command line into an object.
- **Two contract-test generators**:
  - `src/openAPI/api-contract/generateTests.js`
  - the earlier `api/generateTests.js`

  For every operation of the document, each one appends a jest file: a
  header, one `describe` block per response code, and a closing line.
  Which schema a block checks against is decided by `determineSchema`.
- **Three load-test generators**:
  - `src/openAPI/api-performance/generateTests.js`
  - `src/api-performance/generateTests.js`
  - `k6/generateTests.js`

  Each one fills a k6 script template through a chain of `.replace` calls,
  one file per operation.

The model is written in the system's own terms:

- **The parsed document** is a JSON value whose objects are ordered lists of
  entries. A missing property is `None`, JavaScript's `undefined`.
- **Exceptions.** A JavaScript `TypeError` (a property read on `undefined`
  or `null`) is the `TypeError` case of `Result`:
  - inside `determineSchema`, the `catch` turns it into the pair
    `["unknown", "unknown"]`;
  - in the generators' loops nothing catches it, so the run fails.
- **String operations** are modelled over `seq<char>` with their JavaScript
  meaning:
  - `replace` with a global regular expression is a left-to-right
    replace-all that does not rescan;
  - without the `g` flag, only the first match is replaced;
  - `split` / `pop` / `join`, template literals, loose `==` against a
    word, and `parseInt` truthiness.
- **The loops over paths and methods** are methods with loop invariants.
  Each is proved equal to a function over the document, and the
  properties are proved about those functions.
- **What a contract generator writes** is a sequence of lines per file.
  Each line's meaning is read back with `Extract(lines, pre, post)`: the
  `x` of every line of the form `pre + x + post`.
- **What a load-test generator writes** is a `Job`: a file name, and either
  the rendered text or the `TypeError` its callback throws.

Modules, one per file:

- `JsStrings`, `JsValues`: JavaScript strings and values.
- `CliArgs`: the argument reader.
- `Schemas`: the schema resolution shared by both `determineSchema`s.
- `Operations`: the loops over paths and methods.
- `EmittedLines`: appended lines and reading them back.
- `ContractText`, `ContractTests`: the current contract generator.
- `LegacyText`, `LegacyTests`: the earlier one.
- `LoadScripts`: the builders and the replace chain shared by the load-test
  generators.
- One module per load-test generator: `OpenApiPerformance`,
  `ApiPerformance`, `K6Scripts`.

Quirks of the code are modelled as written and stated as lemmas. These are:

- a value containing `=` is cut at its first `=`;
- `determineAPIKey` compares numbers with the string key, so it never
  returns `invalid-api-key`;
- the earlier `determineSchema` returns a bare string from its `content`
  branch, so `schema[1]` is that name's second character;
- two of the load-test generators collapse only the first run of three
  newlines;
- the k6 generator leaves four placeholders unfilled.

## Model

| member | source | states |
|---|---|---|
| CliArgs.Flags | src/utils/readArgs.js:4 | every kept token starts with `--` |
| CliArgs.LastFlagWithKey | src/utils/readArgs.js:6-9 | the index of the last `--` token whose key is `k`; no later token has that key, and -1 means none has |
| CliArgs.DesiredMethods | src/openAPI/api-contract/generateTests.js:14 | the method list is never empty |
| CliArgs.FirstSegmentKeepsDashes | src/utils/readArgs.js:5-7 | the text before the first `=` of a `--` token keeps both dashes, so `substring(2)` is well defined |
| CliArgs.ReadFlagsSnoc | src/utils/readArgs.js:6-9 | one more token assigns its key after all earlier ones, or changes nothing when it is not a flag |
| CliArgs.ReadFlagsKey | src/utils/readArgs.js:4-9 | a key is in the result exactly when some `--` token has it (and it is not `__proto__`); its value is that of the last such token |
| CliArgs.ReadArgsKey | src/utils/readArgs.js:2-9 | the same for the whole argv: the first two entries never contribute |
| CliArgs.NonFlagIgnored | src/utils/readArgs.js:4 | a token not starting with `--` leaves the result unchanged |
| CliArgs.LastOccurrenceWins | src/utils/readArgs.js:6-9 | a repeated key takes the value of its last occurrence |
| CliArgs.KeyValueToken | src/utils/readArgs.js:5-7 | `--k=v` without further `=` maps `k` to `v` |
| CliArgs.ValueCutAtEquals | src/utils/readArgs.js:5-6 | `--k=v1=v2` maps `k` to `v1`: the value is cut at its first `=` |
| CliArgs.BareFlagToken | src/utils/readArgs.js:5-7 | `--k` maps `k` to `undefined`: the key is present, the value absent |
| CliArgs.MethodFlagFallback | src/openAPI/api-contract/generateTests.js:14 | `--method=v` with non-empty `v` selects only `v`; an empty or missing value falls back to get, post, put, delete |
| JsStrings.IndexOf | src/openAPI/api-contract/generateTests.js:109 | the first position where the pattern occurs, or -1 when it occurs nowhere |
| JsStrings.ReplaceFirst | src/api-performance/generateTests.js:63 | a `replace` without `g`: unchanged without a match, otherwise only the first match is replaced |
| JsStrings.Split | src/openAPI/api-contract/generateTests.js:109 | `split` never yields an empty list |
| JsStrings.NatToString | src/openAPI/api-contract/generateTests.js:17 | the canonical decimal text of an array index: digits only, no leading zero |
| JsStrings.AsciiUpper | src/openAPI/api-contract/generateTests.js:45 | `toUpperCase` turns each of `a`–`z` into its capital and keeps every other character, at the same position |
| JsStrings.ReplaceAllNoOccurrence | src/openAPI/api-performance/generateTests.js:58-69 | a replace-all whose pattern does not occur changes nothing |
| JsStrings.ReplaceAllIsSplitJoin | src/openAPI/api-performance/generateTests.js:58-69 | replacing every occurrence is splitting at the pattern and joining with the replacement |
| JsStrings.SplitJoinRoundTrip | src/openAPI/api-contract/generateTests.js:109 | joining the parts of a split with the separator gives back the string |
| JsStrings.ReplaceAllSelf | src/openAPI/api-performance/generateTests.js:58-69 | replacing a pattern by itself changes nothing |
| JsStrings.InterpolatedIsBraceToDollar | src/openAPI/api-performance/generateTests.js:62 | `path.replace(/{/g, "${")` turns every `{` into `${` and nothing else; the length grows by the number of braces |
| JsStrings.InterpolatedWithoutBraces | src/openAPI/api-contract/generateTests.js:72 | a path without braces is written unchanged |
| JsStrings.LastSegmentShape | src/openAPI/api-contract/generateTests.js:109 | `split("/").pop()` has no `/`, is a suffix that follows the last `/`, and is the whole string when there is none |
| JsStrings.LastSegmentAfter | src/openAPI/api-contract/generateTests.js:114 | the last segment of `x + "/" + y` is `y` when `y` has no `/` |
| JsStrings.FirstSegmentBefore | src/openAPI/api-contract/generateTests.js:125 | `split(c)[0]` of `x + c + y` is `x` when `x` has no `c` |
| JsStrings.FirstSegmentShape | src/openAPI/api-contract/generateTests.js:125 | `split(c)[0]` is a prefix without `c`, followed by `c` when shorter than the string |
| JsStrings.ReplaceAllKeepsOtherPlaceholder | src/openAPI/api-performance/generateTests.js:58-68 | replacing one `$` placeholder passes over another one that neither starts nor extends it |
| JsStrings.ReplaceAllPreservesPlaceholder | src/openAPI/api-performance/generateTests.js:58-68 | such a placeholder that occurs before the replace still occurs after it |
| JsStrings.ReplaceAllJoin | src/openAPI/api-performance/generateTests.js:58-68 | replacing a placeholder in the join of parts without it is joining with the replacement |
| JsStrings.ReplaceAllInserts | src/openAPI/api-performance/generateTests.js:58-68 | a replace-all whose pattern occurs puts the replacement into the text |
| JsStrings.ReplaceAllPreservesDisjoint | src/openAPI/api-performance/generateTests.js:69 | collapsing newlines keeps every newline-free piece of text |
| JsStrings.ReplaceFirstPreservesDisjoint | src/api-performance/generateTests.js:63 | the same for the first-only collapse |
| JsStrings.NatToStringRoundTrip | src/openAPI/api-contract/generateTests.js:17 | the key written for an array index reads back as that index |
| JsStrings.NatToStringValue | src/openAPI/api-contract/generateTests.js:17 | the decimal text of `n` has the value `n` |
| JsValues.Or | src/openAPI/api-contract/generateTests.js:27-31 | `v \|\| d` is `v` when `v` is truthy and `d` otherwise |
| JsValues.Lookup | src/openAPI/api-contract/generateTests.js:115 | a found property is an entry of the object; a miss means no entry has the key |
| JsValues.Prop | src/openAPI/api-contract/generateTests.js:27 | reading a property throws exactly on `undefined` and `null` |
| JsValues.LeadingDigits | src/openAPI/api-performance/generateTests.js:39 | the digits `parseInt` reads are the longest prefix made of digits: the next character, if any, is not a digit |
| JsValues.ForInArrayKeys | src/openAPI/api-contract/generateTests.js:17-20 | `for…in` over an array yields its indices as text, and each key reads back its element |
| JsValues.LookupMiss | src/openAPI/api-contract/generateTests.js:115 | an object without the key gives `undefined` |
| JsValues.LookupHit | src/openAPI/api-contract/generateTests.js:115 | the first entry with the key gives its value |
| JsValues.RadixValueZero | src/openAPI/api-performance/generateTests.js:39 | the digits read have value zero exactly when all of them are `0` |
| Schemas.SplitPop | src/openAPI/api-contract/generateTests.js:109 | `ref.split("/").pop()` succeeds exactly on a string and yields a `/`-free suffix of it |
| Schemas.ObjectSchemaName | src/openAPI/api-contract/generateTests.js:125 | the object heuristic succeeds exactly when `properties` is present, and its name has no `"` |
| Schemas.ContentSchema | src/openAPI/api-contract/generateTests.js:107-110 | the content branch gives a `ref` pair whose name has no `/` |
| Schemas.RefBranch | src/openAPI/api-contract/generateTests.js:112-127 | a resolved reference gives ref, array or object, never unknown; ref and array names have no `/`, object names no `"` |
| Schemas.ClassifySchema | src/openAPI/api-contract/generateTests.js:117-126 | the same for the resolved schema |
| Schemas.ResolvesByLastSegment | src/openAPI/api-contract/generateTests.js:113-115 | a reference is resolved by its last segment in `components.responses`, whatever comes before it |
| Schemas.ClassifySchemaRef | src/openAPI/api-contract/generateTests.js:117-119 | a schema `$ref` wins: `ref` and its last segment |
| Schemas.ClassifySchemaArray | src/openAPI/api-contract/generateTests.js:120-122 | `type: array` gives `array` and the last segment of `items.$ref` |
| Schemas.ClassifySchemaObject | src/openAPI/api-contract/generateTests.js:123-126 | `type: object` gives `object` and the text after the last `schemas/` of the serialised properties, up to the first `"` |
| Schemas.ClassifySchemaOtherType | src/openAPI/api-contract/generateTests.js:117-128 | any other type falls through to `unknown` |
| Schemas.RefBranchMissingResponse | src/openAPI/api-contract/generateTests.js:115 | a reference to a response that is not there throws |
| Operations.MethodsOfMembers | src/openAPI/api-contract/generateTests.js:20-26 | the operations of one path are exactly its wanted methods with their values |
| Operations.PathsOfMembers | src/openAPI/api-contract/generateTests.js:17-26 | the operations over some paths are exactly the wanted methods under them |
| Operations.SelectedOperationsMembers | src/openAPI/api-contract/generateTests.js:17-26 | an operation is visited exactly when its path and method are keys of the document and the method is wanted |
| Operations.EachResults | src/openAPI/api-performance/generateTests.js:17-80 | the run succeeds exactly when every operation's step does, with one result per operation in order |
| Operations.EachSnoc | src/openAPI/api-performance/generateTests.js:17-80 | one more operation appends its result, or fails the run |
| Operations.EachPrefixFails | src/openAPI/api-performance/generateTests.js:17-80 | an uncaught error ends the run: once a prefix fails, the whole fails |
| Operations.Walk | src/openAPI/api-performance/generateTests.js:17-80 | the nested loops over paths and methods give exactly the step mapped over the selected operations |
| Operations.WalkVisit | src/openAPI/api-contract/generateTests.js:20-26 | visiting a wanted method appends its step's result, and a step that throws fails the whole run |
| Operations.WalkSkip | src/openAPI/api-contract/generateTests.js:22-24 | a method that is not wanted adds nothing |
| Operations.NonDefaultMembers | src/openAPI/api-contract/generateTests.js:49-52 | the codes written are exactly the response keys other than `default` |
| Operations.ResponseLoopStep | src/openAPI/api-contract/generateTests.js:49-97 | the response loop skips `default` and appends each other code's block, or stops at an error |
| Operations.ResponseLoopPrefixFails | src/openAPI/api-contract/generateTests.js:49-97 | an error in one code's block fails the whole operation |
| Operations.ResponseLoopReadBack | src/openAPI/api-contract/generateTests.js:49-77 | when each block names its own code once, the blocks name the response keys other than `default`, in order |
| EmittedLines.MiddleOf | src/openAPI/api-contract/generateTests.js:140-142 | a line `pre + x + post` reads back as `x` |
| EmittedLines.ExtractAppend | src/openAPI/api-contract/generateTests.js:140-142 | reading back distributes over appended lines |
| EmittedLines.ExtractAll | src/openAPI/api-contract/generateTests.js:62-68 | lines written from a list of values read back as that list |
| EmittedLines.FileTextAppend | src/openAPI/api-contract/generateTests.js:140-142 | the file text of appended lines is the concatenation of their texts |
| EmittedLines.FileTextLength | src/openAPI/api-contract/generateTests.js:140-142 | every line written adds its length plus one newline |
| EmittedLines.AppendedFiles | src/openAPI/api-contract/generateTests.js:34 | in append mode, starting from an empty directory, a file exists exactly when something was written to it, and holds all lines written to it in the order the writes were scheduled |
| ContractText.DescribeInBlock | src/openAPI/api-contract/generateTests.js:58-96 | a block has exactly one `describe` line, with its title |
| ContractText.DeclarationsInBlock | src/openAPI/api-contract/generateTests.js:62-68 | a block declares exactly the given names, in order |
| ContractText.KeyInBlock | src/openAPI/api-contract/generateTests.js:73 | a block sets exactly one API key |
| ContractText.StatusInBlock | src/openAPI/api-contract/generateTests.js:77 | a block asserts exactly one status code, its own |
| ContractText.EachCheckInBlock | src/openAPI/api-contract/generateTests.js:86-89 | an array schema is checked per element, by name; no other kind is |
| ContractText.BodyCheckInBlock | src/openAPI/api-contract/generateTests.js:90-92 | any other kind, unknown included, is checked on the whole body |
| ContractText.VerbLineInBlock | src/openAPI/api-contract/generateTests.js:72 | the request line carries the method and the path with every `{` turned into `${` |
| ContractText.BlockReading | src/openAPI/api-contract/generateTests.js:58-96 | all of the above for one block |
| ContractText.HeaderWithoutStatus | src/openAPI/api-contract/generateTests.js:36-46 | the header asserts no status code |
| ContractText.ClosingWithoutStatus | src/openAPI/api-contract/generateTests.js:98 | nor does the closing line |
| ContractTests.TrySchema | src/openAPI/api-contract/generateTests.js:105-128 | a schema found is never unknown; ref and array names have no `/`, object names no `"` |
| ContractTests.DetermineSchema | src/openAPI/api-contract/generateTests.js:104-134 | never throws: every failure is `["unknown", "unknown"]` |
| ContractTests.ContentRefWins | src/openAPI/api-contract/generateTests.js:107-110 | with `content`, the result is `ref` and the last segment of the first media type's schema `$ref`, whatever else the response holds |
| ContractTests.ContentWithoutRef | src/openAPI/api-contract/generateTests.js:107-132 | a `content` without `$ref` gives unknown rather than falling through to the response `$ref` |
| ContractTests.ReferencedResponse | src/openAPI/api-contract/generateTests.js:112-127 | a referenced response is classified by its first media type's schema |
| ContractTests.ReferenceToMissingResponse | src/openAPI/api-contract/generateTests.js:115-132 | a reference to a missing response gives unknown |
| ContractTests.NeitherContentNorRef | src/openAPI/api-contract/generateTests.js:128-132 | a response with neither `content` nor `$ref` gives unknown |
| ContractTests.ApiKeyChoice | src/openAPI/api-contract/generateTests.js:136-138 | the invalid key is chosen exactly for the numbers 401 and 403, so the string key the loop passes always gets `${validApiKey}` |
| ContractTests.KeptMembers | src/openAPI/api-contract/generateTests.js:62-66 | filtering throws exactly on a null parameter; it keeps exactly the parameters whose `in` loosely equals the location |
| ContractTests.InLocationMembers | src/openAPI/api-contract/generateTests.js:62-66 | the same for the operation's parameters, which must be an array |
| ContractTests.ResponseBlockLines | src/openAPI/api-contract/generateTests.js:54-96 | read back, a code's block has its title, its code, the declared names, the valid key, the request line, and the schema check of its kind |
| ContractTests.BlocksStatusCodes | src/openAPI/api-contract/generateTests.js:49-77 | the status codes asserted are the response keys other than `default`, in order, one block each |
| ContractTests.EmissionStatusCodes | src/openAPI/api-contract/generateTests.js:26-98 | the same for a whole file |
| ContractTests.EmitBlocks | src/openAPI/api-contract/generateTests.js:49-97 | the response loop writes exactly the blocks |
| ContractTests.EmitOperation | src/openAPI/api-contract/generateTests.js:26-98 | one operation's file: the header, the blocks, the closing line |
| ContractTests.GenerateContracts | src/openAPI/api-contract/generateTests.js:14-102 | the whole run: the host, then one file per operation of a desired method |
| ContractTests.RunOutput | src/openAPI/api-contract/generateTests.js:34 | after a run, a file exists exactly when some selected operation is named after it (`operationId.contract.spec.ts`), and holds every line written to it, in order |
| LegacyText.DescribeInBlock | api/generateTests.js:51-81 | a block has exactly one `describe` line, with its title |
| LegacyText.StatusInBlock | api/generateTests.js:62 | a block asserts exactly one status code, its own |
| LegacyText.EachCheckInBlock | api/generateTests.js:71-74 | an array schema is checked per element, by name |
| LegacyText.BodyCheckInBlock | api/generateTests.js:75-77 | anything else is checked on the whole body |
| LegacyText.VerbLineInBlock | api/generateTests.js:58 | the request line carries the path verbatim in double quotes |
| LegacyText.BlockReading | api/generateTests.js:51-81 | all of the above for one block: no declarations and no API key |
| LegacyText.HeaderWithoutStatus | api/generateTests.js:30-40 | the header asserts no status code |
| LegacyText.ClosingWithoutStatus | api/generateTests.js:83 | nor does the closing line |
| LegacyTests.TrySchema | api/generateTests.js:90-113 | a bare name has no `/`; a pair found is never unknown |
| LegacyTests.DetermineSchema | api/generateTests.js:89-119 | never throws: every failure is the unknown pair |
| LegacyTests.ContentGivesBareName | api/generateTests.js:92-95 | the content branch returns the bare last segment, not a pair |
| LegacyTests.ReferencedResponse | api/generateTests.js:97-111 | a referenced response gives a ref, array or object pair, in that priority |
| LegacyTests.NeitherContentNorRef | api/generateTests.js:113-118 | anything else gives the unknown pair |
| LegacyTests.SchemaReading | api/generateTests.js:71-76 | `schema[0] == "array"` holds only for an array pair; `schema[1]` is a pair's name, a bare string's second character, or `undefined` |
| LegacyTests.ContentSchemaSecondCharacter | api/generateTests.js:71-95 | a content schema is checked on the whole body against the second character of its name |
| LegacyTests.ContentSchemaWidget | api/generateTests.js:76-95 | `#/…/Widget` is checked against `"i"` |
| LegacyTests.ResponseBlockLines | api/generateTests.js:48-81 | read back: its title, its code, the verbatim request line and the schema check |
| LegacyTests.BlocksStatusCodes | api/generateTests.js:43-62 | the codes asserted are the response keys other than `default`, in order |
| LegacyTests.EmissionStatusCodes | api/generateTests.js:20-83 | the same for a whole file |
| LegacyTests.RunFiles | api/generateTests.js:16-28 | one file per operation of every method, named `operationId + ".spec.ts"` with an empty default |
| LegacyTests.EmitBlocks | api/generateTests.js:43-82 | the response loop writes exactly the blocks |
| LegacyTests.EmitOperation | api/generateTests.js:20-83 | one operation's file |
| LegacyTests.GenerateLegacyTests | api/generateTests.js:14-87 | the whole run, with no method filter |
| LoadScripts.StatusCodes | src/openAPI/api-performance/generateTests.js:39 | there are never more codes than response keys |
| LoadScripts.StatusCodesMembers | src/openAPI/api-performance/generateTests.js:39 | a key is kept exactly when its `parseInt` is truthy |
| LoadScripts.StatusCodesAppend | src/openAPI/api-performance/generateTests.js:39 | the filter keeps the keys' order |
| LoadScripts.DefaultDropped | src/openAPI/api-performance/generateTests.js:39 | `default` is dropped |
| LoadScripts.ZeroDropped | src/openAPI/api-performance/generateTests.js:39 | `0` is dropped |
| LoadScripts.OkCodeKept | src/openAPI/api-performance/generateTests.js:39 | `200` is kept |
| LoadScripts.RangeKeyKept | src/openAPI/api-performance/generateTests.js:39 | `2XX` is kept, as its leading digits are not zero |
| LoadScripts.ThresholdsReadBack | src/openAPI/api-performance/generateTests.js:43-45 | one threshold per code, in order, each with the fixed triple p(90)<1000, p(95)<2000, p(100)<3000 |
| LoadScripts.SnippetsDetermineCodes | src/openAPI/api-performance/generateTests.js:40-48 | the trends, and the cases, determine the codes they were built from |
| LoadScripts.PathKeptMembers | src/openAPI/api-performance/generateTests.js:49 | filtering throws exactly on a null parameter, and keeps exactly those whose `in` is strictly `"path"` |
| LoadScripts.PathParamsFromKept | src/openAPI/api-performance/generateTests.js:49 | the parameter names are the `name`s of the kept parameters, in order; non-array parameters throw |
| LoadScripts.DiverseExtendsDiscrete | src/openAPI/api-performance/generateTests.js:51-56 | a diverse line is its discrete line with the invalid values added to the list |
| LoadScripts.InvalidsDiffer | src/api-performance/generateTests.js:48-50 | the second generator's invalid values are the first one's plus `82` |
| LoadScripts.MarkShapes | src/openAPI/api-performance/generateTests.js:58-68 | every placeholder starts with `$` and has no other `$` |
| LoadScripts.UnrelatedAt | src/openAPI/api-performance/generateTests.js:58-68 | placeholders that differ at a position neither starts the other |
| LoadScripts.Zip | src/openAPI/api-performance/generateTests.js:58-68 | the chain pairs each placeholder with its value, in order |
| LoadScripts.SubstituteStep | src/openAPI/api-performance/generateTests.js:58-68 | each call replaces every occurrence of its placeholder in what the earlier calls produced |
| LoadScripts.SubstituteKeeps | src/openAPI/api-performance/generateTests.js:58-68 | a placeholder the chain does not name, and unrelated to every one it names, survives the chain |
| LoadScripts.SubstituteLastLands | src/openAPI/api-performance/generateTests.js:68 | the last call's value appears when its placeholder is still there |
| LoadScripts.CollapseKeeps | src/openAPI/api-performance/generateTests.js:69 | both collapses keep every newline-free piece of text |
| LoadScripts.CollapseAllNoRescan | src/openAPI/api-performance/generateTests.js:69 | the global collapse does not rescan: five newlines become three |
| LoadScripts.CollapseAllVersusFirst | src/api-performance/generateTests.js:63 | without `g` only the first run collapses: the two collapses differ on a text with two runs |
| OpenApiPerformance.Values | src/openAPI/api-performance/generateTests.js:58-68 | one value for each of the ten placeholders |
| OpenApiPerformance.Chain | src/openAPI/api-performance/generateTests.js:58-68 | the ten calls, in source order, form a chain of `$` placeholders |
| OpenApiPerformance.HostLast | src/openAPI/api-performance/generateTests.js:58-68 | `$HOST` is replaced last and is unrelated to every earlier placeholder |
| OpenApiPerformance.RenderFails | src/openAPI/api-performance/generateTests.js:49 | a script is rendered exactly when the parameters are an array without null |
| OpenApiPerformance.HostLands | src/openAPI/api-performance/generateTests.js:58-69 | a template naming `$HOST` gets the host in the written script |
| OpenApiPerformance.RunJobs | src/openAPI/api-performance/generateTests.js:14-71 | one job per operation of a desired method, in order, named `./` + operationId + `.js` and holding the script rendered from that operation's method, path, parameters and responses |
| OpenApiPerformance.GenerateScripts | src/openAPI/api-performance/generateTests.js:15-80 | the loops schedule exactly the jobs of the run |
| ApiPerformance.Values | src/api-performance/generateTests.js:52-62 | one value for each of the ten placeholders |
| ApiPerformance.Chain | src/api-performance/generateTests.js:52-62 | the ten calls, in source order, form a chain of `$` placeholders |
| ApiPerformance.SameChainBut82 | src/api-performance/generateTests.js:48-62 | the chain is the OpenAPI generator's except for the diverse data, which also offers `82` |
| ApiPerformance.RenderFails | src/api-performance/generateTests.js:43 | a script is rendered exactly when the parameters are an array without null |
| ApiPerformance.HostLands | src/api-performance/generateTests.js:52-63 | a template naming `$HOST` gets the host, after the first-only collapse too |
| ApiPerformance.RunJobs | src/api-performance/generateTests.js:16-65 | one job per operation of every method, named `./` + operationId + `.performance.js` and holding the script rendered from that operation's method, path, parameters and responses |
| ApiPerformance.GenerateScripts | src/api-performance/generateTests.js:14-74 | the loops schedule exactly the jobs of the run |
| K6Scripts.Values | k6/generateTests.js:44-50 | one value for each of the six placeholders, the path as written |
| K6Scripts.Chain | k6/generateTests.js:44-50 | the six calls, in source order, form a chain of `$` placeholders |
| K6Scripts.PathLast | k6/generateTests.js:44-50 | `$PATH` is replaced last and is unrelated to every earlier placeholder |
| K6Scripts.UnfilledUnrelated | k6/generateTests.js:44-50 | `$DISCRETE_DATA`, `$DIVERSE_DATA`, `$PARAMS` and `$METHOD` are unrelated to every placeholder the chain fills |
| K6Scripts.UnfilledKept | k6/generateTests.js:44-51 | those four placeholders stay in the written script wherever the template has them |
| K6Scripts.PathLands | k6/generateTests.js:50-51 | a template naming `$PATH` gets the raw path, braces and all |
| K6Scripts.RunJobs | k6/generateTests.js:16-53 | one job per operation of every method, named `./outputs/` + operationId + `.js` and holding the script rendered from that operation's path and responses, which never throws |
| K6Scripts.GenerateScripts | k6/generateTests.js:14-66 | the loops schedule exactly the jobs of the run |

The generated per-line reading lemmas in `ContractText` and `LegacyText`
(`…For…`, `…Without…`, `…InHead`, `…InTail`) are steps towards the
`…InBlock` lemmas above. The remaining string lemmas in `JsStrings` are
steps of the replace-all proofs. Neither has a row of its own.

## Left out

- File reading and writing, YAML parsing and console output are not
  modelled. The document is a parsed JSON value, and each file is the
  lines or text written to it.
- The `apiDocPath` check, with its `existsSync` test and `exit(1)`, is not
  modelled. A run starts after that check.
- The host `doc.servers[0].url` is read as in the source: a missing
  `servers` throws.
- Completion order of the asynchronous `readFile` / `writeFile` callbacks is
  not modelled. Neither is the order in which two jobs with the same file
  name overwrite each other. The jobs are given in the order the loops
  schedule them.
- OpenApiPerformance.RunJobs: a `TypeError` thrown inside one `readFile`
  callback ends the process in the source. The model keeps it as that
  job's failed contents and says nothing about which other jobs finished.
- ApiPerformance.RunJobs: the same for this generator's callbacks.
- K6Scripts.RunJobs: its callbacks do not throw. The order in which they
  complete is still not modelled.
- ContractTests.GenerateContracts: a `TypeError` in the loops ends the run
  as a failure with no files. The lines already appended to earlier files
  before the throw are not modelled.
- LegacyTests.GenerateLegacyTests: the same for the earlier generator.
- EmittedLines.AppendedFiles: the output directory is taken to be empty
  before a run. A file left by an earlier run would keep its old text, with
  the new lines appended after it. Two operations with the same `operationId`
  open two append streams on one file, and Node does not order their
  asynchronous writes. The model writes them in the order the loops schedule
  them. ContractTests.RunOutput rests on the same assumptions.
- ContractTests.GenerateContracts and LegacyTests.GenerateLegacyTests run
  the path and method loops through Operations.Walk, with the function
  Emission as the step. EmitOperation, the imperative form of one inner
  loop body, is proved equal to Emission but is not called from the loops.
- The template files are static text. They are a parameter of the
  load-test runs.
- JavaScript property enumeration order (integer-like keys first) is not
  modelled. `for…in` yields an object's keys in the order of its entries.
  Prototype properties are not modelled.
- `$&`, `$1` and the other replacement patterns of `String.prototype.replace`
  are not interpreted. Replacement values are inserted literally.
- `JSON.stringify` handles strings, numbers, booleans, null, arrays and
  objects with the usual escapes. Its number formatting is not modelled;
  numbers are integers here.
- `toUpperCase` is modelled on ASCII letters only.
- Strings are sequences of Unicode code points, not of UTF-16 code units as
  in JavaScript. For a name whose first character lies outside the Basic
  Multilingual Plane, `schema[1]` (LegacyTests.Element) is a lone surrogate
  in the source but the second code point in the model. `for…in` over such a
  string also yields more indices in the source than in the model.
- A parsed object may hold the same key twice, which the YAML loader
  rejects. Lookup takes the first entry, so such values only widen the
  inputs the model accepts.
- `tags` and `requestBody` are read by the loops but never used, so they
  are not modelled.
- The runtime of the generated jest and k6 scripts is a separate program.
