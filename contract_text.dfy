/** The text of a generated contract test (src/openAPI/api-contract/generateTests.js,
    lines 36-98): the header, one block per response code and the closing line,
    and how the values in it are read back. A line "of the form" `pre + x + post`
    is picked out by `Extract`; each reading lemma shows that exactly the
    intended lines have that form. Long literals are written in short pieces
    joined by `+`; the pieces join to the exact line. */
module ContractText {
  import opened JsStrings
  import opened JsValues
  import opened Schemas
  import opened EmittedLines

  const DescribePre := "  " + "describe(\""
  const DescribePost := "\", () => {"
  const DeclPre := "    " + "const "
  const DeclPost := " " + "= undefined;"
  const KeyPre := "        " + ".set(\"x-api-key\", `"
  const KeyPost := "`);"
  const StatusPre := "      " + "expect(result.statusCode)" + ".toEqual("
  const StatusPost := ");"
  const EachPre := "        " + "expect(object)" + ".toSatisfySchemaInApiSpec(\""
  const SchemaPost := "\");"
  const BodyPre := "      " + "expect(result.body)" + ".toSatisfySchemaInApiSpec(\""

  /** Lines 36-46: the imports, the OpenAPI document, the key and the opening `describe`. */
  function Header(apiDocPath: string, verb: string, path: string, operationId: string): seq<string> {
    [ "import {" + " APIGatewayProxyResult }" + " from \"aws-lambda\";",
      "import jestOpenAPI from" + " \"jest-openapi\";",
      "import request from" + " \"supertest\";",
      "import path from \"path\";",
      "",
      "jestOpenAPI(path.resolve" + "(__dirname, \"" + apiDocPath + "\"));",
      "",
      "const validApiKey =" + " undefined;",
      "",
      "describe(\"" + AsciiUpper(verb) + " " + path + " - " + operationId + "\", () => {",
      "" ]
  }

  /** Line 58: the block title is the response code and its description. */
  function DescribeLine(title: string): string {
    DescribePre + title + DescribePost
  }

  /** Line 71. */
  function HostLine(host: Value): string {
    "      " + "result = await request(\"" + Text(host) + "\")"
  }

  /** Line 72: the method, and the path as a template literal. */
  function VerbLine(verb: string, path: string): string {
    "        " + "." + verb + "(`" + Interpolated(path) + "`)"
  }

  /** Line 73. */
  function KeyLine(apiKey: string): string {
    KeyPre + apiKey + KeyPost
  }

  /** Line 76. */
  function TitleLine(code: string): string {
    "    " + "it(\"returns with status code" + " " + code + "\", () => {"
  }

  /** Line 77: the one assertion on the status code. */
  function StatusLine(code: string): string {
    StatusPre + code + StatusPost
  }

  /** Line 88: an array schema is checked element by element. */
  function EachLine(name: string): string {
    EachPre + name + SchemaPost
  }

  /** Line 91: any other schema is checked against the whole body. */
  function BodyLine(name: string): string {
    BodyPre + name + SchemaPost
  }

  /** Lines 59-61. */
  const OpenRest: seq<string> := [ "",
    "    " + "let result:" + " APIGatewayProxyResult;",
    "    " + "const expectedResponse = {" + " };" ]

  /** Lines 69-70. */
  const BeforeAll: seq<string> := [ "",
    "    " + "beforeAll(async () => {" ]

  /** Lines 74-75. */
  const RequestTail: seq<string> := [ "    " + "});",
    "" ]

  /** Lines 78-85. */
  const ChecksTail: seq<string> := [ "    " + "});",
    "",
    "    " + "it(\"returns the expected" + " body\", () => {",
    "      " + "expect(result.body).toEqual" + "(expectedResponse);",
    "    " + "});",
    "",
    "    " + "it(\"matches OpenAPI spec\", " + "() => {",
    "      " + "expect(result)" + ".toSatisfyApiSpec();" ]

  /** Lines 93-96. */
  const BlockClose: seq<string> := [ "    " + "});",
    "",
    "  " + "});",
    "" ]

  const ForLine := "      " + "for (const object of result" + ".body) {"
  const ForEnd := "      " + "}"
  const Closing := "});"

  /** Lines 62-68: `    const ${p.name} = undefined;` for each name. */
  function DeclLines(names: seq<string>): seq<string> {
    seq(|names|, i requires 0 <= i < |names| => DeclPre + names[i] + DeclPost)
  }

  /** Lines 86-92: `schema[0] == "array"` checks each element, anything else the whole body. */
  function SchemaCheck(schema: Schema): seq<string> {
    if schema.kind == Array then [ForLine] + [EachLine(schema.name)] + [ForEnd]
    else [BodyLine(schema.name)]
  }

  /** Lines 58-75: a block's title, declarations and request. */
  function BlockHead(title: string, names: seq<string>, host: Value, verb: string, path: string, apiKey: string): seq<string> {
    [DescribeLine(title)] + OpenRest + DeclLines(names) + BeforeAll + [HostLine(host)] + [VerbLine(verb, path)]
      + [KeyLine(apiKey)]
  }

  /** Lines 75-96: a block's checks and its closing lines. */
  function BlockTail(code: string, schema: Schema): seq<string> {
    RequestTail + [TitleLine(code)] + [StatusLine(code)] + ChecksTail + SchemaCheck(schema) + BlockClose
  }

  /** Lines 58-96: the lines written for one response code. */
  function Block(code: string, title: string, names: seq<string>, host: Value, verb: string, path: string, apiKey: string, schema: Schema): seq<string> {
    BlockHead(title, names, host, verb, path, apiKey) + BlockTail(code, schema)
  }

  // ---------------------------------------------------------------------------
  // Reading the lines back



  lemma DeclLinesNone(names: seq<string>, pre: string, post: string, k: nat)
    requires k < |pre| && k < |DeclPre| && DeclPre[k] != pre[k]
    ensures Extract(DeclLines(names), pre, post) == []
  {
    var lines := DeclLines(names);
    forall i | 0 <= i < |lines|
      ensures Middle(lines[i], pre, post) == []
    {
      NotPrefixAt(lines[i], pre, post, k);
    }
    ExtractNone(lines, pre, post);
  }

  lemma OpenRestWithoutDescribe()
    ensures Extract(OpenRest, DescribePre, DescribePost) == []
  {
    forall i | 0 <= i < |OpenRest|
      ensures Middle(OpenRest[i], DescribePre, DescribePost) == []
    {
      if i == 0 {
        NotPrefixAt(OpenRest[0], DescribePre, DescribePost, 0);
      } else if i == 1 {
        NotPrefixAt(OpenRest[1], DescribePre, DescribePost, 2);
      } else {
        NotPrefixAt(OpenRest[2], DescribePre, DescribePost, 2);
      }
    }
    ExtractNone(OpenRest, DescribePre, DescribePost);
  }

  lemma BeforeAllWithoutDescribe()
    ensures Extract(BeforeAll, DescribePre, DescribePost) == []
  {
    forall i | 0 <= i < |BeforeAll|
      ensures Middle(BeforeAll[i], DescribePre, DescribePost) == []
    {
      if i == 0 {
        NotPrefixAt(BeforeAll[0], DescribePre, DescribePost, 0);
      } else {
        NotPrefixAt(BeforeAll[1], DescribePre, DescribePost, 2);
      }
    }
    ExtractNone(BeforeAll, DescribePre, DescribePost);
  }

  lemma RequestTailWithoutDescribe()
    ensures Extract(RequestTail, DescribePre, DescribePost) == []
  {
    forall i | 0 <= i < |RequestTail|
      ensures Middle(RequestTail[i], DescribePre, DescribePost) == []
    {
      if i == 0 {
        NotPrefixAt(RequestTail[0], DescribePre, DescribePost, 2);
      } else {
        NotPrefixAt(RequestTail[1], DescribePre, DescribePost, 0);
      }
    }
    ExtractNone(RequestTail, DescribePre, DescribePost);
  }

  lemma ChecksTailWithoutDescribe()
    ensures Extract(ChecksTail, DescribePre, DescribePost) == []
  {
    forall i | 0 <= i < |ChecksTail|
      ensures Middle(ChecksTail[i], DescribePre, DescribePost) == []
    {
      if i == 0 {
        NotPrefixAt(ChecksTail[0], DescribePre, DescribePost, 2);
      } else if i == 1 {
        NotPrefixAt(ChecksTail[1], DescribePre, DescribePost, 0);
      } else if i == 2 {
        NotPrefixAt(ChecksTail[2], DescribePre, DescribePost, 2);
      } else if i == 3 {
        NotPrefixAt(ChecksTail[3], DescribePre, DescribePost, 2);
      } else if i == 4 {
        NotPrefixAt(ChecksTail[4], DescribePre, DescribePost, 2);
      } else if i == 5 {
        NotPrefixAt(ChecksTail[5], DescribePre, DescribePost, 0);
      } else if i == 6 {
        NotPrefixAt(ChecksTail[6], DescribePre, DescribePost, 2);
      } else {
        NotPrefixAt(ChecksTail[7], DescribePre, DescribePost, 2);
      }
    }
    ExtractNone(ChecksTail, DescribePre, DescribePost);
  }

  lemma BlockCloseWithoutDescribe()
    ensures Extract(BlockClose, DescribePre, DescribePost) == []
  {
    forall i | 0 <= i < |BlockClose|
      ensures Middle(BlockClose[i], DescribePre, DescribePost) == []
    {
      if i == 0 {
        NotPrefixAt(BlockClose[0], DescribePre, DescribePost, 2);
      } else if i == 1 {
        NotPrefixAt(BlockClose[1], DescribePre, DescribePost, 0);
      } else if i == 2 {
        NotPrefixAt(BlockClose[2], DescribePre, DescribePost, 2);
      } else {
        NotPrefixAt(BlockClose[3], DescribePre, DescribePost, 0);
      }
    }
    ExtractNone(BlockClose, DescribePre, DescribePost);
  }

  lemma ForLineForDescribe()
    ensures Extract([ForLine], DescribePre, DescribePost) == []
  {
    NotPrefixAt(ForLine, DescribePre, DescribePost, 2);
    ExtractSingle(ForLine, DescribePre, DescribePost);
  }

  lemma EachLineForDescribe(name: string)
    ensures Extract([EachLine(name)], DescribePre, DescribePost) == []
  {
    NotPrefixAt(EachLine(name), DescribePre, DescribePost, 2);
    ExtractSingle(EachLine(name), DescribePre, DescribePost);
  }

  lemma ForEndForDescribe()
    ensures Extract([ForEnd], DescribePre, DescribePost) == []
  {
    NotPrefixAt(ForEnd, DescribePre, DescribePost, 2);
    ExtractSingle(ForEnd, DescribePre, DescribePost);
  }

  lemma BodyLineForDescribe(name: string)
    ensures Extract([BodyLine(name)], DescribePre, DescribePost) == []
  {
    NotPrefixAt(BodyLine(name), DescribePre, DescribePost, 2);
    ExtractSingle(BodyLine(name), DescribePre, DescribePost);
  }

  lemma SchemaCheckForDescribe(schema: Schema)
    ensures Extract(SchemaCheck(schema), DescribePre, DescribePost) == []
  {
    if schema.kind == Array {
      ExtractAppend3([ForLine], [EachLine(schema.name)], [ForEnd], DescribePre, DescribePost);
      ForLineForDescribe();
      EachLineForDescribe(schema.name);
      ForEndForDescribe();
    } else {
      BodyLineForDescribe(schema.name);
    }
  }

  lemma DescribeLineForDescribe(title: string)
    ensures Extract([DescribeLine(title)], DescribePre, DescribePost) == [title]
  {
    MiddleOf(DescribePre, title, DescribePost);
    ExtractSingle(DescribeLine(title), DescribePre, DescribePost);
  }

  lemma HostLineForDescribe(host: Value)
    ensures Extract([HostLine(host)], DescribePre, DescribePost) == []
  {
    NotPrefixAt(HostLine(host), DescribePre, DescribePost, 2);
    ExtractSingle(HostLine(host), DescribePre, DescribePost);
  }

  lemma VerbLineForDescribe(verb: string, path: string)
    ensures Extract([VerbLine(verb, path)], DescribePre, DescribePost) == []
  {
    NotPrefixAt(VerbLine(verb, path), DescribePre, DescribePost, 2);
    ExtractSingle(VerbLine(verb, path), DescribePre, DescribePost);
  }

  lemma KeyLineForDescribe(apiKey: string)
    ensures Extract([KeyLine(apiKey)], DescribePre, DescribePost) == []
  {
    NotPrefixAt(KeyLine(apiKey), DescribePre, DescribePost, 2);
    ExtractSingle(KeyLine(apiKey), DescribePre, DescribePost);
  }

  lemma TitleLineForDescribe(code: string)
    ensures Extract([TitleLine(code)], DescribePre, DescribePost) == []
  {
    NotPrefixAt(TitleLine(code), DescribePre, DescribePost, 2);
    ExtractSingle(TitleLine(code), DescribePre, DescribePost);
  }

  lemma StatusLineForDescribe(code: string)
    ensures Extract([StatusLine(code)], DescribePre, DescribePost) == []
  {
    NotPrefixAt(StatusLine(code), DescribePre, DescribePost, 2);
    ExtractSingle(StatusLine(code), DescribePre, DescribePost);
  }

  lemma DeclLinesWithoutDescribe(names: seq<string>)
    ensures Extract(DeclLines(names), DescribePre, DescribePost) == []
  {
    DeclLinesNone(names, DescribePre, DescribePost, 2);
  }

  lemma DescribeInHead(title: string, names: seq<string>, host: Value, verb: string, path: string, apiKey: string)
    ensures Extract(BlockHead(title, names, host, verb, path, apiKey), DescribePre, DescribePost) == [title]
  {
    DescribeLineForDescribe(title);
    OpenRestWithoutDescribe();
    DeclLinesWithoutDescribe(names);
    BeforeAllWithoutDescribe();
    HostLineForDescribe(host);
    VerbLineForDescribe(verb, path);
    KeyLineForDescribe(apiKey);
    ExtractSeven([DescribeLine(title)], OpenRest, DeclLines(names), BeforeAll, [HostLine(host)], [VerbLine(verb, path)], [KeyLine(apiKey)], DescribePre, DescribePost, [title], [], [], [], [], [], []);
  }

  lemma DescribeInTail(code: string, schema: Schema)
    ensures Extract(BlockTail(code, schema), DescribePre, DescribePost) == []
  {
    RequestTailWithoutDescribe();
    TitleLineForDescribe(code);
    StatusLineForDescribe(code);
    ChecksTailWithoutDescribe();
    SchemaCheckForDescribe(schema);
    BlockCloseWithoutDescribe();
    ExtractSix(RequestTail, [TitleLine(code)], [StatusLine(code)], ChecksTail, SchemaCheck(schema), BlockClose, DescribePre, DescribePost, [], [], [], [], [], []);
  }

  /** Each block opens one `describe`, titled by its code and description. */
  lemma DescribeInBlock(code: string, title: string, names: seq<string>, host: Value, verb: string, path: string, apiKey: string, schema: Schema)
    ensures Extract(Block(code, title, names, host, verb, path, apiKey, schema), DescribePre, DescribePost) == [title]
  {
    DescribeInHead(title, names, host, verb, path, apiKey);
    DescribeInTail(code, schema);
    ExtractAppend(BlockHead(title, names, host, verb, path, apiKey), BlockTail(code, schema), DescribePre, DescribePost);
  }

  lemma OpenRestWithoutDecl()
    ensures Extract(OpenRest, DeclPre, DeclPost) == []
  {
    forall i | 0 <= i < |OpenRest|
      ensures Middle(OpenRest[i], DeclPre, DeclPost) == []
    {
      if i == 0 {
        NotPrefixAt(OpenRest[0], DeclPre, DeclPost, 0);
      } else if i == 1 {
        NotPrefixAt(OpenRest[1], DeclPre, DeclPost, 4);
      } else {
        NotSuffixAt(OpenRest[2], DeclPre, DeclPost, 1);
      }
    }
    ExtractNone(OpenRest, DeclPre, DeclPost);
  }

  lemma BeforeAllWithoutDecl()
    ensures Extract(BeforeAll, DeclPre, DeclPost) == []
  {
    forall i | 0 <= i < |BeforeAll|
      ensures Middle(BeforeAll[i], DeclPre, DeclPost) == []
    {
      if i == 0 {
        NotPrefixAt(BeforeAll[0], DeclPre, DeclPost, 0);
      } else {
        NotPrefixAt(BeforeAll[1], DeclPre, DeclPost, 4);
      }
    }
    ExtractNone(BeforeAll, DeclPre, DeclPost);
  }

  lemma RequestTailWithoutDecl()
    ensures Extract(RequestTail, DeclPre, DeclPost) == []
  {
    forall i | 0 <= i < |RequestTail|
      ensures Middle(RequestTail[i], DeclPre, DeclPost) == []
    {
      if i == 0 {
        NotPrefixAt(RequestTail[0], DeclPre, DeclPost, 4);
      } else {
        NotPrefixAt(RequestTail[1], DeclPre, DeclPost, 0);
      }
    }
    ExtractNone(RequestTail, DeclPre, DeclPost);
  }

  lemma ChecksTailWithoutDecl()
    ensures Extract(ChecksTail, DeclPre, DeclPost) == []
  {
    forall i | 0 <= i < |ChecksTail|
      ensures Middle(ChecksTail[i], DeclPre, DeclPost) == []
    {
      if i == 0 {
        NotPrefixAt(ChecksTail[0], DeclPre, DeclPost, 4);
      } else if i == 1 {
        NotPrefixAt(ChecksTail[1], DeclPre, DeclPost, 0);
      } else if i == 2 {
        NotPrefixAt(ChecksTail[2], DeclPre, DeclPost, 4);
      } else if i == 3 {
        NotPrefixAt(ChecksTail[3], DeclPre, DeclPost, 4);
      } else if i == 4 {
        NotPrefixAt(ChecksTail[4], DeclPre, DeclPost, 4);
      } else if i == 5 {
        NotPrefixAt(ChecksTail[5], DeclPre, DeclPost, 0);
      } else if i == 6 {
        NotPrefixAt(ChecksTail[6], DeclPre, DeclPost, 4);
      } else {
        NotPrefixAt(ChecksTail[7], DeclPre, DeclPost, 4);
      }
    }
    ExtractNone(ChecksTail, DeclPre, DeclPost);
  }

  lemma BlockCloseWithoutDecl()
    ensures Extract(BlockClose, DeclPre, DeclPost) == []
  {
    forall i | 0 <= i < |BlockClose|
      ensures Middle(BlockClose[i], DeclPre, DeclPost) == []
    {
      if i == 0 {
        NotPrefixAt(BlockClose[0], DeclPre, DeclPost, 4);
      } else if i == 1 {
        NotPrefixAt(BlockClose[1], DeclPre, DeclPost, 0);
      } else if i == 2 {
        NotPrefixAt(BlockClose[2], DeclPre, DeclPost, 2);
      } else {
        NotPrefixAt(BlockClose[3], DeclPre, DeclPost, 0);
      }
    }
    ExtractNone(BlockClose, DeclPre, DeclPost);
  }

  lemma ForLineForDecl()
    ensures Extract([ForLine], DeclPre, DeclPost) == []
  {
    NotPrefixAt(ForLine, DeclPre, DeclPost, 4);
    ExtractSingle(ForLine, DeclPre, DeclPost);
  }

  lemma EachLineForDecl(name: string)
    ensures Extract([EachLine(name)], DeclPre, DeclPost) == []
  {
    NotPrefixAt(EachLine(name), DeclPre, DeclPost, 4);
    ExtractSingle(EachLine(name), DeclPre, DeclPost);
  }

  lemma ForEndForDecl()
    ensures Extract([ForEnd], DeclPre, DeclPost) == []
  {
    NotPrefixAt(ForEnd, DeclPre, DeclPost, 4);
    ExtractSingle(ForEnd, DeclPre, DeclPost);
  }

  lemma BodyLineForDecl(name: string)
    ensures Extract([BodyLine(name)], DeclPre, DeclPost) == []
  {
    NotPrefixAt(BodyLine(name), DeclPre, DeclPost, 4);
    ExtractSingle(BodyLine(name), DeclPre, DeclPost);
  }

  lemma SchemaCheckForDecl(schema: Schema)
    ensures Extract(SchemaCheck(schema), DeclPre, DeclPost) == []
  {
    if schema.kind == Array {
      ExtractAppend3([ForLine], [EachLine(schema.name)], [ForEnd], DeclPre, DeclPost);
      ForLineForDecl();
      EachLineForDecl(schema.name);
      ForEndForDecl();
    } else {
      BodyLineForDecl(schema.name);
    }
  }

  lemma DescribeLineForDecl(title: string)
    ensures Extract([DescribeLine(title)], DeclPre, DeclPost) == []
  {
    NotPrefixAt(DescribeLine(title), DeclPre, DeclPost, 2);
    ExtractSingle(DescribeLine(title), DeclPre, DeclPost);
  }

  lemma HostLineForDecl(host: Value)
    ensures Extract([HostLine(host)], DeclPre, DeclPost) == []
  {
    NotPrefixAt(HostLine(host), DeclPre, DeclPost, 4);
    ExtractSingle(HostLine(host), DeclPre, DeclPost);
  }

  lemma VerbLineForDecl(verb: string, path: string)
    ensures Extract([VerbLine(verb, path)], DeclPre, DeclPost) == []
  {
    NotPrefixAt(VerbLine(verb, path), DeclPre, DeclPost, 4);
    ExtractSingle(VerbLine(verb, path), DeclPre, DeclPost);
  }

  lemma KeyLineForDecl(apiKey: string)
    ensures Extract([KeyLine(apiKey)], DeclPre, DeclPost) == []
  {
    NotPrefixAt(KeyLine(apiKey), DeclPre, DeclPost, 4);
    ExtractSingle(KeyLine(apiKey), DeclPre, DeclPost);
  }

  lemma TitleLineForDecl(code: string)
    ensures Extract([TitleLine(code)], DeclPre, DeclPost) == []
  {
    NotSuffixAt(TitleLine(code), DeclPre, DeclPost, 0);
    ExtractSingle(TitleLine(code), DeclPre, DeclPost);
  }

  lemma StatusLineForDecl(code: string)
    ensures Extract([StatusLine(code)], DeclPre, DeclPost) == []
  {
    NotPrefixAt(StatusLine(code), DeclPre, DeclPost, 4);
    ExtractSingle(StatusLine(code), DeclPre, DeclPost);
  }

  lemma DeclarationsInHead(title: string, names: seq<string>, host: Value, verb: string, path: string, apiKey: string)
    ensures Extract(BlockHead(title, names, host, verb, path, apiKey), DeclPre, DeclPost) == names
  {
    DescribeLineForDecl(title);
    OpenRestWithoutDecl();
    ExtractAll(names, DeclPre, DeclPost);
    BeforeAllWithoutDecl();
    HostLineForDecl(host);
    VerbLineForDecl(verb, path);
    KeyLineForDecl(apiKey);
    ExtractSeven([DescribeLine(title)], OpenRest, DeclLines(names), BeforeAll, [HostLine(host)], [VerbLine(verb, path)], [KeyLine(apiKey)], DeclPre, DeclPost, [], [], names, [], [], [], []);
  }

  lemma DeclarationsInTail(code: string, schema: Schema)
    ensures Extract(BlockTail(code, schema), DeclPre, DeclPost) == []
  {
    RequestTailWithoutDecl();
    TitleLineForDecl(code);
    StatusLineForDecl(code);
    ChecksTailWithoutDecl();
    SchemaCheckForDecl(schema);
    BlockCloseWithoutDecl();
    ExtractSix(RequestTail, [TitleLine(code)], [StatusLine(code)], ChecksTail, SchemaCheck(schema), BlockClose, DeclPre, DeclPost, [], [], [], [], [], []);
  }

  /** Each block declares one constant per name, in order. */
  lemma DeclarationsInBlock(code: string, title: string, names: seq<string>, host: Value, verb: string, path: string, apiKey: string, schema: Schema)
    ensures Extract(Block(code, title, names, host, verb, path, apiKey, schema), DeclPre, DeclPost) == names
  {
    DeclarationsInHead(title, names, host, verb, path, apiKey);
    DeclarationsInTail(code, schema);
    ExtractAppend(BlockHead(title, names, host, verb, path, apiKey), BlockTail(code, schema), DeclPre, DeclPost);
  }

  lemma OpenRestWithoutKey()
    ensures Extract(OpenRest, KeyPre, KeyPost) == []
  {
    forall i | 0 <= i < |OpenRest|
      ensures Middle(OpenRest[i], KeyPre, KeyPost) == []
    {
      if i == 0 {
        NotSuffixAt(OpenRest[0], KeyPre, KeyPost, 0);
      } else if i == 1 {
        NotPrefixAt(OpenRest[1], KeyPre, KeyPost, 4);
      } else {
        NotPrefixAt(OpenRest[2], KeyPre, KeyPost, 4);
      }
    }
    ExtractNone(OpenRest, KeyPre, KeyPost);
  }

  lemma BeforeAllWithoutKey()
    ensures Extract(BeforeAll, KeyPre, KeyPost) == []
  {
    forall i | 0 <= i < |BeforeAll|
      ensures Middle(BeforeAll[i], KeyPre, KeyPost) == []
    {
      if i == 0 {
        NotSuffixAt(BeforeAll[0], KeyPre, KeyPost, 0);
      } else {
        NotPrefixAt(BeforeAll[1], KeyPre, KeyPost, 4);
      }
    }
    ExtractNone(BeforeAll, KeyPre, KeyPost);
  }

  lemma RequestTailWithoutKey()
    ensures Extract(RequestTail, KeyPre, KeyPost) == []
  {
    forall i | 0 <= i < |RequestTail|
      ensures Middle(RequestTail[i], KeyPre, KeyPost) == []
    {
      if i == 0 {
        NotSuffixAt(RequestTail[0], KeyPre, KeyPost, 2);
      } else {
        NotSuffixAt(RequestTail[1], KeyPre, KeyPost, 0);
      }
    }
    ExtractNone(RequestTail, KeyPre, KeyPost);
  }

  lemma ChecksTailWithoutKey()
    ensures Extract(ChecksTail, KeyPre, KeyPost) == []
  {
    forall i | 0 <= i < |ChecksTail|
      ensures Middle(ChecksTail[i], KeyPre, KeyPost) == []
    {
      if i == 0 {
        NotSuffixAt(ChecksTail[0], KeyPre, KeyPost, 2);
      } else if i == 1 {
        NotSuffixAt(ChecksTail[1], KeyPre, KeyPost, 0);
      } else if i == 2 {
        NotPrefixAt(ChecksTail[2], KeyPre, KeyPost, 4);
      } else if i == 3 {
        NotPrefixAt(ChecksTail[3], KeyPre, KeyPost, 6);
      } else if i == 4 {
        NotSuffixAt(ChecksTail[4], KeyPre, KeyPost, 2);
      } else if i == 5 {
        NotSuffixAt(ChecksTail[5], KeyPre, KeyPost, 0);
      } else if i == 6 {
        NotPrefixAt(ChecksTail[6], KeyPre, KeyPost, 4);
      } else {
        NotPrefixAt(ChecksTail[7], KeyPre, KeyPost, 6);
      }
    }
    ExtractNone(ChecksTail, KeyPre, KeyPost);
  }

  lemma BlockCloseWithoutKey()
    ensures Extract(BlockClose, KeyPre, KeyPost) == []
  {
    forall i | 0 <= i < |BlockClose|
      ensures Middle(BlockClose[i], KeyPre, KeyPost) == []
    {
      if i == 0 {
        NotSuffixAt(BlockClose[0], KeyPre, KeyPost, 2);
      } else if i == 1 {
        NotSuffixAt(BlockClose[1], KeyPre, KeyPost, 0);
      } else if i == 2 {
        NotSuffixAt(BlockClose[2], KeyPre, KeyPost, 2);
      } else {
        NotSuffixAt(BlockClose[3], KeyPre, KeyPost, 0);
      }
    }
    ExtractNone(BlockClose, KeyPre, KeyPost);
  }

  lemma ForLineForKey()
    ensures Extract([ForLine], KeyPre, KeyPost) == []
  {
    NotPrefixAt(ForLine, KeyPre, KeyPost, 6);
    ExtractSingle(ForLine, KeyPre, KeyPost);
  }

  lemma EachLineForKey(name: string)
    ensures Extract([EachLine(name)], KeyPre, KeyPost) == []
  {
    NotSuffixAt(EachLine(name), KeyPre, KeyPost, 2);
    ExtractSingle(EachLine(name), KeyPre, KeyPost);
  }

  lemma ForEndForKey()
    ensures Extract([ForEnd], KeyPre, KeyPost) == []
  {
    NotSuffixAt(ForEnd, KeyPre, KeyPost, 0);
    ExtractSingle(ForEnd, KeyPre, KeyPost);
  }

  lemma BodyLineForKey(name: string)
    ensures Extract([BodyLine(name)], KeyPre, KeyPost) == []
  {
    NotSuffixAt(BodyLine(name), KeyPre, KeyPost, 2);
    ExtractSingle(BodyLine(name), KeyPre, KeyPost);
  }

  lemma SchemaCheckForKey(schema: Schema)
    ensures Extract(SchemaCheck(schema), KeyPre, KeyPost) == []
  {
    if schema.kind == Array {
      ExtractAppend3([ForLine], [EachLine(schema.name)], [ForEnd], KeyPre, KeyPost);
      ForLineForKey();
      EachLineForKey(schema.name);
      ForEndForKey();
    } else {
      BodyLineForKey(schema.name);
    }
  }

  lemma DescribeLineForKey(title: string)
    ensures Extract([DescribeLine(title)], KeyPre, KeyPost) == []
  {
    NotPrefixAt(DescribeLine(title), KeyPre, KeyPost, 2);
    ExtractSingle(DescribeLine(title), KeyPre, KeyPost);
  }

  lemma HostLineForKey(host: Value)
    ensures Extract([HostLine(host)], KeyPre, KeyPost) == []
  {
    NotSuffixAt(HostLine(host), KeyPre, KeyPost, 0);
    ExtractSingle(HostLine(host), KeyPre, KeyPost);
  }

  lemma VerbLineForKey(verb: string, path: string)
    ensures Extract([VerbLine(verb, path)], KeyPre, KeyPost) == []
  {
    NotSuffixAt(VerbLine(verb, path), KeyPre, KeyPost, 0);
    ExtractSingle(VerbLine(verb, path), KeyPre, KeyPost);
  }

  lemma KeyLineForKey(apiKey: string)
    ensures Extract([KeyLine(apiKey)], KeyPre, KeyPost) == [apiKey]
  {
    MiddleOf(KeyPre, apiKey, KeyPost);
    ExtractSingle(KeyLine(apiKey), KeyPre, KeyPost);
  }

  lemma TitleLineForKey(code: string)
    ensures Extract([TitleLine(code)], KeyPre, KeyPost) == []
  {
    NotSuffixAt(TitleLine(code), KeyPre, KeyPost, 0);
    ExtractSingle(TitleLine(code), KeyPre, KeyPost);
  }

  lemma StatusLineForKey(code: string)
    ensures Extract([StatusLine(code)], KeyPre, KeyPost) == []
  {
    NotPrefixAt(StatusLine(code), KeyPre, KeyPost, 6);
    ExtractSingle(StatusLine(code), KeyPre, KeyPost);
  }

  lemma DeclLinesWithoutKey(names: seq<string>)
    ensures Extract(DeclLines(names), KeyPre, KeyPost) == []
  {
    DeclLinesNone(names, KeyPre, KeyPost, 4);
  }

  lemma KeyInHead(title: string, names: seq<string>, host: Value, verb: string, path: string, apiKey: string)
    ensures Extract(BlockHead(title, names, host, verb, path, apiKey), KeyPre, KeyPost) == [apiKey]
  {
    DescribeLineForKey(title);
    OpenRestWithoutKey();
    DeclLinesWithoutKey(names);
    BeforeAllWithoutKey();
    HostLineForKey(host);
    VerbLineForKey(verb, path);
    KeyLineForKey(apiKey);
    ExtractSeven([DescribeLine(title)], OpenRest, DeclLines(names), BeforeAll, [HostLine(host)], [VerbLine(verb, path)], [KeyLine(apiKey)], KeyPre, KeyPost, [], [], [], [], [], [], [apiKey]);
  }

  lemma KeyInTail(code: string, schema: Schema)
    ensures Extract(BlockTail(code, schema), KeyPre, KeyPost) == []
  {
    RequestTailWithoutKey();
    TitleLineForKey(code);
    StatusLineForKey(code);
    ChecksTailWithoutKey();
    SchemaCheckForKey(schema);
    BlockCloseWithoutKey();
    ExtractSix(RequestTail, [TitleLine(code)], [StatusLine(code)], ChecksTail, SchemaCheck(schema), BlockClose, KeyPre, KeyPost, [], [], [], [], [], []);
  }

  /** Each block sends one API key. */
  lemma KeyInBlock(code: string, title: string, names: seq<string>, host: Value, verb: string, path: string, apiKey: string, schema: Schema)
    ensures Extract(Block(code, title, names, host, verb, path, apiKey, schema), KeyPre, KeyPost) == [apiKey]
  {
    KeyInHead(title, names, host, verb, path, apiKey);
    KeyInTail(code, schema);
    ExtractAppend(BlockHead(title, names, host, verb, path, apiKey), BlockTail(code, schema), KeyPre, KeyPost);
  }

  lemma OpenRestWithoutStatus()
    ensures Extract(OpenRest, StatusPre, StatusPost) == []
  {
    forall i | 0 <= i < |OpenRest|
      ensures Middle(OpenRest[i], StatusPre, StatusPost) == []
    {
      if i == 0 {
        NotSuffixAt(OpenRest[0], StatusPre, StatusPost, 0);
      } else if i == 1 {
        NotPrefixAt(OpenRest[1], StatusPre, StatusPost, 4);
      } else {
        NotPrefixAt(OpenRest[2], StatusPre, StatusPost, 4);
      }
    }
    ExtractNone(OpenRest, StatusPre, StatusPost);
  }

  lemma BeforeAllWithoutStatus()
    ensures Extract(BeforeAll, StatusPre, StatusPost) == []
  {
    forall i | 0 <= i < |BeforeAll|
      ensures Middle(BeforeAll[i], StatusPre, StatusPost) == []
    {
      if i == 0 {
        NotSuffixAt(BeforeAll[0], StatusPre, StatusPost, 0);
      } else {
        NotPrefixAt(BeforeAll[1], StatusPre, StatusPost, 4);
      }
    }
    ExtractNone(BeforeAll, StatusPre, StatusPost);
  }

  lemma RequestTailWithoutStatus()
    ensures Extract(RequestTail, StatusPre, StatusPost) == []
  {
    forall i | 0 <= i < |RequestTail|
      ensures Middle(RequestTail[i], StatusPre, StatusPost) == []
    {
      if i == 0 {
        NotPrefixAt(RequestTail[0], StatusPre, StatusPost, 4);
      } else {
        NotSuffixAt(RequestTail[1], StatusPre, StatusPost, 0);
      }
    }
    ExtractNone(RequestTail, StatusPre, StatusPost);
  }

  lemma ChecksTailWithoutStatus()
    ensures Extract(ChecksTail, StatusPre, StatusPost) == []
  {
    forall i | 0 <= i < |ChecksTail|
      ensures Middle(ChecksTail[i], StatusPre, StatusPost) == []
    {
      if i == 0 {
        NotPrefixAt(ChecksTail[0], StatusPre, StatusPost, 4);
      } else if i == 1 {
        NotSuffixAt(ChecksTail[1], StatusPre, StatusPost, 0);
      } else if i == 2 {
        NotPrefixAt(ChecksTail[2], StatusPre, StatusPost, 4);
      } else if i == 3 {
        NotPrefixAt(ChecksTail[3], StatusPre, StatusPost, 20);
      } else if i == 4 {
        NotPrefixAt(ChecksTail[4], StatusPre, StatusPost, 4);
      } else if i == 5 {
        NotSuffixAt(ChecksTail[5], StatusPre, StatusPost, 0);
      } else if i == 6 {
        NotPrefixAt(ChecksTail[6], StatusPre, StatusPost, 4);
      } else {
        NotPrefixAt(ChecksTail[7], StatusPre, StatusPost, 19);
      }
    }
    ExtractNone(ChecksTail, StatusPre, StatusPost);
  }

  lemma BlockCloseWithoutStatus()
    ensures Extract(BlockClose, StatusPre, StatusPost) == []
  {
    forall i | 0 <= i < |BlockClose|
      ensures Middle(BlockClose[i], StatusPre, StatusPost) == []
    {
      if i == 0 {
        NotPrefixAt(BlockClose[0], StatusPre, StatusPost, 4);
      } else if i == 1 {
        NotSuffixAt(BlockClose[1], StatusPre, StatusPost, 0);
      } else if i == 2 {
        NotPrefixAt(BlockClose[2], StatusPre, StatusPost, 2);
      } else {
        NotSuffixAt(BlockClose[3], StatusPre, StatusPost, 0);
      }
    }
    ExtractNone(BlockClose, StatusPre, StatusPost);
  }

  lemma ForLineForStatus()
    ensures Extract([ForLine], StatusPre, StatusPost) == []
  {
    NotPrefixAt(ForLine, StatusPre, StatusPost, 6);
    ExtractSingle(ForLine, StatusPre, StatusPost);
  }

  lemma EachLineForStatus(name: string)
    ensures Extract([EachLine(name)], StatusPre, StatusPost) == []
  {
    NotPrefixAt(EachLine(name), StatusPre, StatusPost, 6);
    ExtractSingle(EachLine(name), StatusPre, StatusPost);
  }

  lemma ForEndForStatus()
    ensures Extract([ForEnd], StatusPre, StatusPost) == []
  {
    NotSuffixAt(ForEnd, StatusPre, StatusPost, 0);
    ExtractSingle(ForEnd, StatusPre, StatusPost);
  }

  lemma BodyLineForStatus(name: string)
    ensures Extract([BodyLine(name)], StatusPre, StatusPost) == []
  {
    NotPrefixAt(BodyLine(name), StatusPre, StatusPost, 20);
    ExtractSingle(BodyLine(name), StatusPre, StatusPost);
  }

  lemma SchemaCheckForStatus(schema: Schema)
    ensures Extract(SchemaCheck(schema), StatusPre, StatusPost) == []
  {
    if schema.kind == Array {
      ExtractAppend3([ForLine], [EachLine(schema.name)], [ForEnd], StatusPre, StatusPost);
      ForLineForStatus();
      EachLineForStatus(schema.name);
      ForEndForStatus();
    } else {
      BodyLineForStatus(schema.name);
    }
  }

  lemma DescribeLineForStatus(title: string)
    ensures Extract([DescribeLine(title)], StatusPre, StatusPost) == []
  {
    NotPrefixAt(DescribeLine(title), StatusPre, StatusPost, 2);
    ExtractSingle(DescribeLine(title), StatusPre, StatusPost);
  }

  lemma HostLineForStatus(host: Value)
    ensures Extract([HostLine(host)], StatusPre, StatusPost) == []
  {
    NotSuffixAt(HostLine(host), StatusPre, StatusPost, 0);
    ExtractSingle(HostLine(host), StatusPre, StatusPost);
  }

  lemma VerbLineForStatus(verb: string, path: string)
    ensures Extract([VerbLine(verb, path)], StatusPre, StatusPost) == []
  {
    NotSuffixAt(VerbLine(verb, path), StatusPre, StatusPost, 0);
    ExtractSingle(VerbLine(verb, path), StatusPre, StatusPost);
  }

  lemma KeyLineForStatus(apiKey: string)
    ensures Extract([KeyLine(apiKey)], StatusPre, StatusPost) == []
  {
    NotPrefixAt(KeyLine(apiKey), StatusPre, StatusPost, 6);
    ExtractSingle(KeyLine(apiKey), StatusPre, StatusPost);
  }

  lemma TitleLineForStatus(code: string)
    ensures Extract([TitleLine(code)], StatusPre, StatusPost) == []
  {
    NotSuffixAt(TitleLine(code), StatusPre, StatusPost, 0);
    ExtractSingle(TitleLine(code), StatusPre, StatusPost);
  }

  lemma StatusLineForStatus(code: string)
    ensures Extract([StatusLine(code)], StatusPre, StatusPost) == [code]
  {
    MiddleOf(StatusPre, code, StatusPost);
    ExtractSingle(StatusLine(code), StatusPre, StatusPost);
  }

  lemma DeclLinesWithoutStatus(names: seq<string>)
    ensures Extract(DeclLines(names), StatusPre, StatusPost) == []
  {
    DeclLinesNone(names, StatusPre, StatusPost, 4);
  }

  lemma StatusInHead(title: string, names: seq<string>, host: Value, verb: string, path: string, apiKey: string)
    ensures Extract(BlockHead(title, names, host, verb, path, apiKey), StatusPre, StatusPost) == []
  {
    DescribeLineForStatus(title);
    OpenRestWithoutStatus();
    DeclLinesWithoutStatus(names);
    BeforeAllWithoutStatus();
    HostLineForStatus(host);
    VerbLineForStatus(verb, path);
    KeyLineForStatus(apiKey);
    ExtractSeven([DescribeLine(title)], OpenRest, DeclLines(names), BeforeAll, [HostLine(host)], [VerbLine(verb, path)], [KeyLine(apiKey)], StatusPre, StatusPost, [], [], [], [], [], [], []);
  }

  lemma StatusInTail(code: string, schema: Schema)
    ensures Extract(BlockTail(code, schema), StatusPre, StatusPost) == [code]
  {
    RequestTailWithoutStatus();
    TitleLineForStatus(code);
    StatusLineForStatus(code);
    ChecksTailWithoutStatus();
    SchemaCheckForStatus(schema);
    BlockCloseWithoutStatus();
    ExtractSix(RequestTail, [TitleLine(code)], [StatusLine(code)], ChecksTail, SchemaCheck(schema), BlockClose, StatusPre, StatusPost, [], [], [code], [], [], []);
  }

  /** Each block asserts one status code: its own. */
  lemma StatusInBlock(code: string, title: string, names: seq<string>, host: Value, verb: string, path: string, apiKey: string, schema: Schema)
    ensures Extract(Block(code, title, names, host, verb, path, apiKey, schema), StatusPre, StatusPost) == [code]
  {
    StatusInHead(title, names, host, verb, path, apiKey);
    StatusInTail(code, schema);
    ExtractAppend(BlockHead(title, names, host, verb, path, apiKey), BlockTail(code, schema), StatusPre, StatusPost);
  }

  lemma OpenRestWithoutEach()
    ensures Extract(OpenRest, EachPre, SchemaPost) == []
  {
    forall i | 0 <= i < |OpenRest|
      ensures Middle(OpenRest[i], EachPre, SchemaPost) == []
    {
      if i == 0 {
        NotSuffixAt(OpenRest[0], EachPre, SchemaPost, 0);
      } else if i == 1 {
        NotPrefixAt(OpenRest[1], EachPre, SchemaPost, 4);
      } else {
        NotPrefixAt(OpenRest[2], EachPre, SchemaPost, 4);
      }
    }
    ExtractNone(OpenRest, EachPre, SchemaPost);
  }

  lemma BeforeAllWithoutEach()
    ensures Extract(BeforeAll, EachPre, SchemaPost) == []
  {
    forall i | 0 <= i < |BeforeAll|
      ensures Middle(BeforeAll[i], EachPre, SchemaPost) == []
    {
      if i == 0 {
        NotSuffixAt(BeforeAll[0], EachPre, SchemaPost, 0);
      } else {
        NotPrefixAt(BeforeAll[1], EachPre, SchemaPost, 4);
      }
    }
    ExtractNone(BeforeAll, EachPre, SchemaPost);
  }

  lemma RequestTailWithoutEach()
    ensures Extract(RequestTail, EachPre, SchemaPost) == []
  {
    forall i | 0 <= i < |RequestTail|
      ensures Middle(RequestTail[i], EachPre, SchemaPost) == []
    {
      if i == 0 {
        NotSuffixAt(RequestTail[0], EachPre, SchemaPost, 2);
      } else {
        NotSuffixAt(RequestTail[1], EachPre, SchemaPost, 0);
      }
    }
    ExtractNone(RequestTail, EachPre, SchemaPost);
  }

  lemma ChecksTailWithoutEach()
    ensures Extract(ChecksTail, EachPre, SchemaPost) == []
  {
    forall i | 0 <= i < |ChecksTail|
      ensures Middle(ChecksTail[i], EachPre, SchemaPost) == []
    {
      if i == 0 {
        NotSuffixAt(ChecksTail[0], EachPre, SchemaPost, 2);
      } else if i == 1 {
        NotSuffixAt(ChecksTail[1], EachPre, SchemaPost, 0);
      } else if i == 2 {
        NotPrefixAt(ChecksTail[2], EachPre, SchemaPost, 4);
      } else if i == 3 {
        NotPrefixAt(ChecksTail[3], EachPre, SchemaPost, 6);
      } else if i == 4 {
        NotSuffixAt(ChecksTail[4], EachPre, SchemaPost, 2);
      } else if i == 5 {
        NotSuffixAt(ChecksTail[5], EachPre, SchemaPost, 0);
      } else if i == 6 {
        NotPrefixAt(ChecksTail[6], EachPre, SchemaPost, 4);
      } else {
        NotPrefixAt(ChecksTail[7], EachPre, SchemaPost, 6);
      }
    }
    ExtractNone(ChecksTail, EachPre, SchemaPost);
  }

  lemma BlockCloseWithoutEach()
    ensures Extract(BlockClose, EachPre, SchemaPost) == []
  {
    forall i | 0 <= i < |BlockClose|
      ensures Middle(BlockClose[i], EachPre, SchemaPost) == []
    {
      if i == 0 {
        NotSuffixAt(BlockClose[0], EachPre, SchemaPost, 2);
      } else if i == 1 {
        NotSuffixAt(BlockClose[1], EachPre, SchemaPost, 0);
      } else if i == 2 {
        NotSuffixAt(BlockClose[2], EachPre, SchemaPost, 2);
      } else {
        NotSuffixAt(BlockClose[3], EachPre, SchemaPost, 0);
      }
    }
    ExtractNone(BlockClose, EachPre, SchemaPost);
  }

  lemma ForLineForEach()
    ensures Extract([ForLine], EachPre, SchemaPost) == []
  {
    NotPrefixAt(ForLine, EachPre, SchemaPost, 6);
    ExtractSingle(ForLine, EachPre, SchemaPost);
  }

  lemma EachLineForEach(name: string)
    ensures Extract([EachLine(name)], EachPre, SchemaPost) == [name]
  {
    MiddleOf(EachPre, name, SchemaPost);
    ExtractSingle(EachLine(name), EachPre, SchemaPost);
  }

  lemma ForEndForEach()
    ensures Extract([ForEnd], EachPre, SchemaPost) == []
  {
    NotSuffixAt(ForEnd, EachPre, SchemaPost, 0);
    ExtractSingle(ForEnd, EachPre, SchemaPost);
  }

  lemma BodyLineForEach(name: string)
    ensures Extract([BodyLine(name)], EachPre, SchemaPost) == []
  {
    NotPrefixAt(BodyLine(name), EachPre, SchemaPost, 6);
    ExtractSingle(BodyLine(name), EachPre, SchemaPost);
  }

  lemma SchemaCheckForEach(schema: Schema)
    ensures Extract(SchemaCheck(schema), EachPre, SchemaPost) == (if schema.kind == Array then [schema.name] else [])
  {
    if schema.kind == Array {
      ExtractAppend3([ForLine], [EachLine(schema.name)], [ForEnd], EachPre, SchemaPost);
      ForLineForEach();
      EachLineForEach(schema.name);
      ForEndForEach();
    } else {
      BodyLineForEach(schema.name);
    }
  }

  lemma DescribeLineForEach(title: string)
    ensures Extract([DescribeLine(title)], EachPre, SchemaPost) == []
  {
    NotPrefixAt(DescribeLine(title), EachPre, SchemaPost, 2);
    ExtractSingle(DescribeLine(title), EachPre, SchemaPost);
  }

  lemma HostLineForEach(host: Value)
    ensures Extract([HostLine(host)], EachPre, SchemaPost) == []
  {
    NotSuffixAt(HostLine(host), EachPre, SchemaPost, 0);
    ExtractSingle(HostLine(host), EachPre, SchemaPost);
  }

  lemma VerbLineForEach(verb: string, path: string)
    ensures Extract([VerbLine(verb, path)], EachPre, SchemaPost) == []
  {
    NotSuffixAt(VerbLine(verb, path), EachPre, SchemaPost, 0);
    ExtractSingle(VerbLine(verb, path), EachPre, SchemaPost);
  }

  lemma KeyLineForEach(apiKey: string)
    ensures Extract([KeyLine(apiKey)], EachPre, SchemaPost) == []
  {
    NotSuffixAt(KeyLine(apiKey), EachPre, SchemaPost, 2);
    ExtractSingle(KeyLine(apiKey), EachPre, SchemaPost);
  }

  lemma TitleLineForEach(code: string)
    ensures Extract([TitleLine(code)], EachPre, SchemaPost) == []
  {
    NotSuffixAt(TitleLine(code), EachPre, SchemaPost, 0);
    ExtractSingle(TitleLine(code), EachPre, SchemaPost);
  }

  lemma StatusLineForEach(code: string)
    ensures Extract([StatusLine(code)], EachPre, SchemaPost) == []
  {
    NotPrefixAt(StatusLine(code), EachPre, SchemaPost, 6);
    ExtractSingle(StatusLine(code), EachPre, SchemaPost);
  }

  lemma DeclLinesWithoutEach(names: seq<string>)
    ensures Extract(DeclLines(names), EachPre, SchemaPost) == []
  {
    DeclLinesNone(names, EachPre, SchemaPost, 4);
  }

  lemma EachCheckInHead(title: string, names: seq<string>, host: Value, verb: string, path: string, apiKey: string)
    ensures Extract(BlockHead(title, names, host, verb, path, apiKey), EachPre, SchemaPost) == []
  {
    DescribeLineForEach(title);
    OpenRestWithoutEach();
    DeclLinesWithoutEach(names);
    BeforeAllWithoutEach();
    HostLineForEach(host);
    VerbLineForEach(verb, path);
    KeyLineForEach(apiKey);
    ExtractSeven([DescribeLine(title)], OpenRest, DeclLines(names), BeforeAll, [HostLine(host)], [VerbLine(verb, path)], [KeyLine(apiKey)], EachPre, SchemaPost, [], [], [], [], [], [], []);
  }

  lemma EachCheckInTail(code: string, schema: Schema)
    ensures Extract(BlockTail(code, schema), EachPre, SchemaPost) == (if schema.kind == Array then [schema.name] else [])
  {
    RequestTailWithoutEach();
    TitleLineForEach(code);
    StatusLineForEach(code);
    ChecksTailWithoutEach();
    SchemaCheckForEach(schema);
    BlockCloseWithoutEach();
    ExtractSix(RequestTail, [TitleLine(code)], [StatusLine(code)], ChecksTail, SchemaCheck(schema), BlockClose, EachPre, SchemaPost, [], [], [], [], (if schema.kind == Array then [schema.name] else []), []);
  }

  /** An array schema is checked element by element, and only an array schema. */
  lemma EachCheckInBlock(code: string, title: string, names: seq<string>, host: Value, verb: string, path: string, apiKey: string, schema: Schema)
    ensures Extract(Block(code, title, names, host, verb, path, apiKey, schema), EachPre, SchemaPost) == (if schema.kind == Array then [schema.name] else [])
  {
    EachCheckInHead(title, names, host, verb, path, apiKey);
    EachCheckInTail(code, schema);
    ExtractAppend(BlockHead(title, names, host, verb, path, apiKey), BlockTail(code, schema), EachPre, SchemaPost);
  }

  lemma OpenRestWithoutBody()
    ensures Extract(OpenRest, BodyPre, SchemaPost) == []
  {
    forall i | 0 <= i < |OpenRest|
      ensures Middle(OpenRest[i], BodyPre, SchemaPost) == []
    {
      if i == 0 {
        NotSuffixAt(OpenRest[0], BodyPre, SchemaPost, 0);
      } else if i == 1 {
        NotPrefixAt(OpenRest[1], BodyPre, SchemaPost, 4);
      } else {
        NotPrefixAt(OpenRest[2], BodyPre, SchemaPost, 4);
      }
    }
    ExtractNone(OpenRest, BodyPre, SchemaPost);
  }

  lemma BeforeAllWithoutBody()
    ensures Extract(BeforeAll, BodyPre, SchemaPost) == []
  {
    forall i | 0 <= i < |BeforeAll|
      ensures Middle(BeforeAll[i], BodyPre, SchemaPost) == []
    {
      if i == 0 {
        NotSuffixAt(BeforeAll[0], BodyPre, SchemaPost, 0);
      } else {
        NotPrefixAt(BeforeAll[1], BodyPre, SchemaPost, 4);
      }
    }
    ExtractNone(BeforeAll, BodyPre, SchemaPost);
  }

  lemma RequestTailWithoutBody()
    ensures Extract(RequestTail, BodyPre, SchemaPost) == []
  {
    forall i | 0 <= i < |RequestTail|
      ensures Middle(RequestTail[i], BodyPre, SchemaPost) == []
    {
      if i == 0 {
        NotSuffixAt(RequestTail[0], BodyPre, SchemaPost, 2);
      } else {
        NotSuffixAt(RequestTail[1], BodyPre, SchemaPost, 0);
      }
    }
    ExtractNone(RequestTail, BodyPre, SchemaPost);
  }

  lemma ChecksTailWithoutBody()
    ensures Extract(ChecksTail, BodyPre, SchemaPost) == []
  {
    forall i | 0 <= i < |ChecksTail|
      ensures Middle(ChecksTail[i], BodyPre, SchemaPost) == []
    {
      if i == 0 {
        NotSuffixAt(ChecksTail[0], BodyPre, SchemaPost, 2);
      } else if i == 1 {
        NotSuffixAt(ChecksTail[1], BodyPre, SchemaPost, 0);
      } else if i == 2 {
        NotPrefixAt(ChecksTail[2], BodyPre, SchemaPost, 4);
      } else if i == 3 {
        NotPrefixAt(ChecksTail[3], BodyPre, SchemaPost, 28);
      } else if i == 4 {
        NotSuffixAt(ChecksTail[4], BodyPre, SchemaPost, 2);
      } else if i == 5 {
        NotSuffixAt(ChecksTail[5], BodyPre, SchemaPost, 0);
      } else if i == 6 {
        NotPrefixAt(ChecksTail[6], BodyPre, SchemaPost, 4);
      } else {
        NotPrefixAt(ChecksTail[7], BodyPre, SchemaPost, 19);
      }
    }
    ExtractNone(ChecksTail, BodyPre, SchemaPost);
  }

  lemma BlockCloseWithoutBody()
    ensures Extract(BlockClose, BodyPre, SchemaPost) == []
  {
    forall i | 0 <= i < |BlockClose|
      ensures Middle(BlockClose[i], BodyPre, SchemaPost) == []
    {
      if i == 0 {
        NotSuffixAt(BlockClose[0], BodyPre, SchemaPost, 2);
      } else if i == 1 {
        NotSuffixAt(BlockClose[1], BodyPre, SchemaPost, 0);
      } else if i == 2 {
        NotSuffixAt(BlockClose[2], BodyPre, SchemaPost, 2);
      } else {
        NotSuffixAt(BlockClose[3], BodyPre, SchemaPost, 0);
      }
    }
    ExtractNone(BlockClose, BodyPre, SchemaPost);
  }

  lemma ForLineForBody()
    ensures Extract([ForLine], BodyPre, SchemaPost) == []
  {
    NotPrefixAt(ForLine, BodyPre, SchemaPost, 6);
    ExtractSingle(ForLine, BodyPre, SchemaPost);
  }

  lemma EachLineForBody(name: string)
    ensures Extract([EachLine(name)], BodyPre, SchemaPost) == []
  {
    NotPrefixAt(EachLine(name), BodyPre, SchemaPost, 6);
    ExtractSingle(EachLine(name), BodyPre, SchemaPost);
  }

  lemma ForEndForBody()
    ensures Extract([ForEnd], BodyPre, SchemaPost) == []
  {
    NotSuffixAt(ForEnd, BodyPre, SchemaPost, 0);
    ExtractSingle(ForEnd, BodyPre, SchemaPost);
  }

  lemma BodyLineForBody(name: string)
    ensures Extract([BodyLine(name)], BodyPre, SchemaPost) == [name]
  {
    MiddleOf(BodyPre, name, SchemaPost);
    ExtractSingle(BodyLine(name), BodyPre, SchemaPost);
  }

  lemma SchemaCheckForBody(schema: Schema)
    ensures Extract(SchemaCheck(schema), BodyPre, SchemaPost) == (if schema.kind == Array then [] else [schema.name])
  {
    if schema.kind == Array {
      ExtractAppend3([ForLine], [EachLine(schema.name)], [ForEnd], BodyPre, SchemaPost);
      ForLineForBody();
      EachLineForBody(schema.name);
      ForEndForBody();
    } else {
      BodyLineForBody(schema.name);
    }
  }

  lemma DescribeLineForBody(title: string)
    ensures Extract([DescribeLine(title)], BodyPre, SchemaPost) == []
  {
    NotPrefixAt(DescribeLine(title), BodyPre, SchemaPost, 2);
    ExtractSingle(DescribeLine(title), BodyPre, SchemaPost);
  }

  lemma HostLineForBody(host: Value)
    ensures Extract([HostLine(host)], BodyPre, SchemaPost) == []
  {
    NotSuffixAt(HostLine(host), BodyPre, SchemaPost, 0);
    ExtractSingle(HostLine(host), BodyPre, SchemaPost);
  }

  lemma VerbLineForBody(verb: string, path: string)
    ensures Extract([VerbLine(verb, path)], BodyPre, SchemaPost) == []
  {
    NotSuffixAt(VerbLine(verb, path), BodyPre, SchemaPost, 0);
    ExtractSingle(VerbLine(verb, path), BodyPre, SchemaPost);
  }

  lemma KeyLineForBody(apiKey: string)
    ensures Extract([KeyLine(apiKey)], BodyPre, SchemaPost) == []
  {
    NotSuffixAt(KeyLine(apiKey), BodyPre, SchemaPost, 2);
    ExtractSingle(KeyLine(apiKey), BodyPre, SchemaPost);
  }

  lemma TitleLineForBody(code: string)
    ensures Extract([TitleLine(code)], BodyPre, SchemaPost) == []
  {
    NotSuffixAt(TitleLine(code), BodyPre, SchemaPost, 0);
    ExtractSingle(TitleLine(code), BodyPre, SchemaPost);
  }

  lemma StatusLineForBody(code: string)
    ensures Extract([StatusLine(code)], BodyPre, SchemaPost) == []
  {
    NotPrefixAt(StatusLine(code), BodyPre, SchemaPost, 20);
    ExtractSingle(StatusLine(code), BodyPre, SchemaPost);
  }

  lemma DeclLinesWithoutBody(names: seq<string>)
    ensures Extract(DeclLines(names), BodyPre, SchemaPost) == []
  {
    DeclLinesNone(names, BodyPre, SchemaPost, 4);
  }

  lemma BodyCheckInHead(title: string, names: seq<string>, host: Value, verb: string, path: string, apiKey: string)
    ensures Extract(BlockHead(title, names, host, verb, path, apiKey), BodyPre, SchemaPost) == []
  {
    DescribeLineForBody(title);
    OpenRestWithoutBody();
    DeclLinesWithoutBody(names);
    BeforeAllWithoutBody();
    HostLineForBody(host);
    VerbLineForBody(verb, path);
    KeyLineForBody(apiKey);
    ExtractSeven([DescribeLine(title)], OpenRest, DeclLines(names), BeforeAll, [HostLine(host)], [VerbLine(verb, path)], [KeyLine(apiKey)], BodyPre, SchemaPost, [], [], [], [], [], [], []);
  }

  lemma BodyCheckInTail(code: string, schema: Schema)
    ensures Extract(BlockTail(code, schema), BodyPre, SchemaPost) == (if schema.kind == Array then [] else [schema.name])
  {
    RequestTailWithoutBody();
    TitleLineForBody(code);
    StatusLineForBody(code);
    ChecksTailWithoutBody();
    SchemaCheckForBody(schema);
    BlockCloseWithoutBody();
    ExtractSix(RequestTail, [TitleLine(code)], [StatusLine(code)], ChecksTail, SchemaCheck(schema), BlockClose, BodyPre, SchemaPost, [], [], [], [], (if schema.kind == Array then [] else [schema.name]), []);
  }

  /** Any other schema is checked against the whole body. */
  lemma BodyCheckInBlock(code: string, title: string, names: seq<string>, host: Value, verb: string, path: string, apiKey: string, schema: Schema)
    ensures Extract(Block(code, title, names, host, verb, path, apiKey, schema), BodyPre, SchemaPost) == (if schema.kind == Array then [] else [schema.name])
  {
    BodyCheckInHead(title, names, host, verb, path, apiKey);
    BodyCheckInTail(code, schema);
    ExtractAppend(BlockHead(title, names, host, verb, path, apiKey), BlockTail(code, schema), BodyPre, SchemaPost);
  }

  /** The request line, with the path as a template literal, is in every block. */
  lemma VerbLineInBlock(code: string, title: string, names: seq<string>, host: Value, verb: string, path: string, apiKey: string, schema: Schema)
    ensures VerbLine(verb, path) in Block(code, title, names, host, verb, path, apiKey, schema)
  {
    var front := [DescribeLine(title)] + OpenRest + DeclLines(names) + BeforeAll + [HostLine(host)];
    var block := Block(code, title, names, host, verb, path, apiKey, schema);
    assert block[|front|] == VerbLine(verb, path);
  }

  /** Everything a block says, read back from its lines. */
  lemma BlockReading(code: string, title: string, names: seq<string>, host: Value, verb: string, path: string, apiKey: string, schema: Schema)
    ensures var block := Block(code, title, names, host, verb, path, apiKey, schema);
      && Extract(block, DescribePre, DescribePost) == [title]
      && Extract(block, StatusPre, StatusPost) == [code]
      && Extract(block, DeclPre, DeclPost) == names
      && Extract(block, KeyPre, KeyPost) == [apiKey]
      && VerbLine(verb, path) in block
      && Extract(block, EachPre, SchemaPost) == (if schema.kind == Array then [schema.name] else [])
      && Extract(block, BodyPre, SchemaPost) == (if schema.kind == Array then [] else [schema.name])
  {
    DescribeInBlock(code, title, names, host, verb, path, apiKey, schema);
    StatusInBlock(code, title, names, host, verb, path, apiKey, schema);
    DeclarationsInBlock(code, title, names, host, verb, path, apiKey, schema);
    KeyInBlock(code, title, names, host, verb, path, apiKey, schema);
    VerbLineInBlock(code, title, names, host, verb, path, apiKey, schema);
    EachCheckInBlock(code, title, names, host, verb, path, apiKey, schema);
    BodyCheckInBlock(code, title, names, host, verb, path, apiKey, schema);
  }


  /** The header holds no status assertion. */
  lemma HeaderWithoutStatus(apiDocPath: string, verb: string, path: string, operationId: string)
    ensures Extract(Header(apiDocPath, verb, path, operationId), StatusPre, StatusPost) == []
  {
    var h := Header(apiDocPath, verb, path, operationId);
    forall i | 0 <= i < |h|
      ensures Middle(h[i], StatusPre, StatusPost) == []
    {
      if i == 0 {
        NotPrefixAt(h[0], StatusPre, StatusPost, 0);
      } else if i == 1 {
        NotPrefixAt(h[1], StatusPre, StatusPost, 0);
      } else if i == 2 {
        NotPrefixAt(h[2], StatusPre, StatusPost, 0);
      } else if i == 3 {
        NotPrefixAt(h[3], StatusPre, StatusPost, 0);
      } else if i == 4 {
        NotSuffixAt(h[4], StatusPre, StatusPost, 0);
      } else if i == 5 {
        NotPrefixAt(h[5], StatusPre, StatusPost, 0);
      } else if i == 6 {
        NotSuffixAt(h[6], StatusPre, StatusPost, 0);
      } else if i == 7 {
        NotPrefixAt(h[7], StatusPre, StatusPost, 0);
      } else if i == 8 {
        NotSuffixAt(h[8], StatusPre, StatusPost, 0);
      } else if i == 9 {
        NotPrefixAt(h[9], StatusPre, StatusPost, 0);
      } else {
        NotSuffixAt(h[10], StatusPre, StatusPost, 0);
      }
    }
    ExtractNone(h, StatusPre, StatusPost);
  }

  lemma ClosingWithoutStatus()
    ensures Extract([Closing], StatusPre, StatusPost) == []
  {
    NotPrefixAt(Closing, StatusPre, StatusPost, 0);
    ExtractSingle(Closing, StatusPre, StatusPost);
  }
}
