/** The text of a generated test in the earlier generator (api/generateTests.js,
    lines 30-83): every line of a block is indented by one space and the
    request path is written as it stands. A line "of the form" `pre + x + post`
    is picked out by `Extract`; each reading lemma shows that exactly the
    intended lines have that form. Long literals are written in short pieces
    joined by `+`; the pieces join to the exact line. */
module LegacyText {
  import opened JsStrings
  import opened JsValues
  import opened EmittedLines

  const DescribePre := " " + "describe(\""
  const DescribePost := "\", () => {"
  const StatusPre := " " + "expect(result.statusCode)" + ".toEqual("
  const StatusPost := ");"
  const EachPre := " " + "expect(object)" + ".toSatisfySchemaInApiSpec(\""
  const SchemaPost := "\");"
  const BodyPre := " " + "expect(result.body)" + ".toSatisfySchemaInApiSpec(\""

  /** Lines 30-40: the imports, the OpenAPI document and the opening `describe`. */
  function Header(apiDocPath: string, verb: string, path: string, operationId: string): seq<string> {
    [ "import {" + " APIGatewayProxyResult }" + " from \"aws-lambda\";",
      "import jestOpenAPI from" + " \"jest-openapi\";",
      "import request from" + " \"supertest\";",
      "import path from \"path\";",
      "",
      "const openApiDocs = path" + ".resolve(__dirname, \"" + apiDocPath + "\");",
      "jestOpenAPI(openApiDocs);",
      "",
      "describe(\"" + AsciiUpper(verb) + " " + path + " - " + operationId + "\", () => {",
      "" ]
  }

  /** Line 51: the block title is the response code and its description. */
  function DescribeLine(title: string): string {
    DescribePre + title + DescribePost
  }

  /** Line 57. */
  function HostLine(host: Value): string {
    " " + "result = await request(\"" + Text(host) + "\")"
  }

  /** Line 58: the method, and the path in double quotes, braces and all. */
  function VerbLine(verb: string, path: string): string {
    " " + "." + verb + "(\"" + path + "\")"
  }

  /** Line 61. */
  function TitleLine(code: string): string {
    " " + "it(\"returns with status code" + " " + code + "\", () => {"
  }

  /** Line 62: the one assertion on the status code. */
  function StatusLine(code: string): string {
    StatusPre + code + StatusPost
  }

  /** Line 73: an array schema is checked element by element. */
  function EachLine(name: string): string {
    EachPre + name + SchemaPost
  }

  /** Line 76: any other schema is checked against the whole body. */
  function BodyLine(name: string): string {
    BodyPre + name + SchemaPost
  }

  /** Lines 52-56. */
  const OpenRest: seq<string> := [ "",
    " " + "let result:" + " APIGatewayProxyResult;",
    " " + "const expectedResponse = {" + " };",
    "",
    " " + "beforeAll(async () => {" ]

  /** Lines 59-60. */
  const RequestTail: seq<string> := [ " " + "});",
    "" ]

  /** Lines 63-70. */
  const ChecksTail: seq<string> := [ " " + "});",
    "",
    " " + "it(\"returns the expected" + " body\", () => {",
    " " + "expect(result.body).toEqual" + "(expectedResponse);",
    " " + "});",
    "",
    " " + "it(\"matches OpenAPI spec\", " + "() => {",
    " " + "expect(result)" + ".toSatisfyApiSpec();" ]

  /** Lines 78-81. */
  const BlockClose: seq<string> := [ " " + "});",
    "",
    " " + "});",
    "" ]

  const ForLine := " " + "for (const object of result" + ".body) {"
  const ForEnd := " " + "}"
  const Closing := "});"

  /** Lines 71-77: `schema[0] == "array"` checks each element of the body
      against `schema[1]`, anything else the whole body. */
  function SchemaCheck(isArray: bool, name: string): seq<string> {
    if isArray then [ForLine] + [EachLine(name)] + [ForEnd]
    else [BodyLine(name)]
  }

  /** Lines 51-58: a block's title and request. */
  function BlockHead(title: string, host: Value, verb: string, path: string): seq<string> {
    [DescribeLine(title)] + OpenRest + [HostLine(host)] + [VerbLine(verb, path)]
  }

  /** Lines 59-81: a block's checks and its closing lines. */
  function BlockTail(code: string, isArray: bool, name: string): seq<string> {
    RequestTail + [TitleLine(code)] + [StatusLine(code)] + ChecksTail + SchemaCheck(isArray, name) + BlockClose
  }

  /** Lines 51-81: the lines written for one response code. */
  function Block(code: string, title: string, host: Value, verb: string, path: string, isArray: bool, name: string): seq<string> {
    BlockHead(title, host, verb, path) + BlockTail(code, isArray, name)
  }

  // ---------------------------------------------------------------------------
  // Reading the lines back

  lemma OpenRestWithoutDescribe()
    ensures Extract(OpenRest, DescribePre, DescribePost) == []
  {
    forall i | 0 <= i < |OpenRest|
      ensures Middle(OpenRest[i], DescribePre, DescribePost) == []
    {
      if i == 0 {
        NotPrefixAt(OpenRest[0], DescribePre, DescribePost, 0);
      } else if i == 1 {
        NotPrefixAt(OpenRest[1], DescribePre, DescribePost, 1);
      } else if i == 2 {
        NotPrefixAt(OpenRest[2], DescribePre, DescribePost, 1);
      } else if i == 3 {
        NotPrefixAt(OpenRest[3], DescribePre, DescribePost, 0);
      } else {
        NotPrefixAt(OpenRest[4], DescribePre, DescribePost, 1);
      }
    }
    ExtractNone(OpenRest, DescribePre, DescribePost);
  }

  lemma RequestTailWithoutDescribe()
    ensures Extract(RequestTail, DescribePre, DescribePost) == []
  {
    forall i | 0 <= i < |RequestTail|
      ensures Middle(RequestTail[i], DescribePre, DescribePost) == []
    {
      if i == 0 {
        NotPrefixAt(RequestTail[0], DescribePre, DescribePost, 1);
      } else {
        NotPrefixAt(RequestTail[1], DescribePre, DescribePost, 0);
      }
    }
    ExtractNone(RequestTail, DescribePre, DescribePost);
  }

  lemma ChecksTailWithoutDescribe()
    ensures Extract(ChecksTail, DescribePre, DescribePost) == []
  {
    forall i | 0 <= i < |ChecksTail|
      ensures Middle(ChecksTail[i], DescribePre, DescribePost) == []
    {
      if i == 0 {
        NotPrefixAt(ChecksTail[0], DescribePre, DescribePost, 1);
      } else if i == 1 {
        NotPrefixAt(ChecksTail[1], DescribePre, DescribePost, 0);
      } else if i == 2 {
        NotPrefixAt(ChecksTail[2], DescribePre, DescribePost, 1);
      } else if i == 3 {
        NotPrefixAt(ChecksTail[3], DescribePre, DescribePost, 1);
      } else if i == 4 {
        NotPrefixAt(ChecksTail[4], DescribePre, DescribePost, 1);
      } else if i == 5 {
        NotPrefixAt(ChecksTail[5], DescribePre, DescribePost, 0);
      } else if i == 6 {
        NotPrefixAt(ChecksTail[6], DescribePre, DescribePost, 1);
      } else {
        NotPrefixAt(ChecksTail[7], DescribePre, DescribePost, 1);
      }
    }
    ExtractNone(ChecksTail, DescribePre, DescribePost);
  }

  lemma BlockCloseWithoutDescribe()
    ensures Extract(BlockClose, DescribePre, DescribePost) == []
  {
    forall i | 0 <= i < |BlockClose|
      ensures Middle(BlockClose[i], DescribePre, DescribePost) == []
    {
      if i == 0 {
        NotPrefixAt(BlockClose[0], DescribePre, DescribePost, 1);
      } else if i == 1 {
        NotPrefixAt(BlockClose[1], DescribePre, DescribePost, 0);
      } else if i == 2 {
        NotPrefixAt(BlockClose[2], DescribePre, DescribePost, 1);
      } else {
        NotPrefixAt(BlockClose[3], DescribePre, DescribePost, 0);
      }
    }
    ExtractNone(BlockClose, DescribePre, DescribePost);
  }

  lemma ForLineForDescribe()
    ensures Extract([ForLine], DescribePre, DescribePost) == []
  {
    NotPrefixAt(ForLine, DescribePre, DescribePost, 1);
    ExtractSingle(ForLine, DescribePre, DescribePost);
  }

  lemma EachLineForDescribe(name: string)
    ensures Extract([EachLine(name)], DescribePre, DescribePost) == []
  {
    NotSuffixAt(EachLine(name), DescribePre, DescribePost, 0);
    ExtractSingle(EachLine(name), DescribePre, DescribePost);
  }

  lemma ForEndForDescribe()
    ensures Extract([ForEnd], DescribePre, DescribePost) == []
  {
    NotPrefixAt(ForEnd, DescribePre, DescribePost, 1);
    ExtractSingle(ForEnd, DescribePre, DescribePost);
  }

  lemma BodyLineForDescribe(name: string)
    ensures Extract([BodyLine(name)], DescribePre, DescribePost) == []
  {
    NotSuffixAt(BodyLine(name), DescribePre, DescribePost, 0);
    ExtractSingle(BodyLine(name), DescribePre, DescribePost);
  }

  lemma SchemaCheckForDescribe(isArray: bool, name: string)
    ensures Extract(SchemaCheck(isArray, name), DescribePre, DescribePost) == []
  {
    if isArray {
      ExtractAppend3([ForLine], [EachLine(name)], [ForEnd], DescribePre, DescribePost);
      ForLineForDescribe();
      EachLineForDescribe(name);
      ForEndForDescribe();
    } else {
      BodyLineForDescribe(name);
    }
  }

  lemma DescribeLineForDescribe(title: string)
    ensures Extract([DescribeLine(title)], DescribePre, DescribePost) == [title]
  {
    MiddleOf(DescribePre, title, DescribePost);
    ExtractSingle(DescribeLine(title), DescribePre, DescribePost);
  }

  lemma HostLineForDescribe(host: Value)
    ensures Extract([HostLine(host)], DescribePre, DescribePost) == []
  {
    NotSuffixAt(HostLine(host), DescribePre, DescribePost, 0);
    ExtractSingle(HostLine(host), DescribePre, DescribePost);
  }

  lemma VerbLineForDescribe(verb: string, path: string)
    ensures Extract([VerbLine(verb, path)], DescribePre, DescribePost) == []
  {
    NotPrefixAt(VerbLine(verb, path), DescribePre, DescribePost, 1);
    ExtractSingle(VerbLine(verb, path), DescribePre, DescribePost);
  }

  lemma TitleLineForDescribe(code: string)
    ensures Extract([TitleLine(code)], DescribePre, DescribePost) == []
  {
    NotPrefixAt(TitleLine(code), DescribePre, DescribePost, 1);
    ExtractSingle(TitleLine(code), DescribePre, DescribePost);
  }

  lemma StatusLineForDescribe(code: string)
    ensures Extract([StatusLine(code)], DescribePre, DescribePost) == []
  {
    NotSuffixAt(StatusLine(code), DescribePre, DescribePost, 0);
    ExtractSingle(StatusLine(code), DescribePre, DescribePost);
  }

  lemma DescribeInHead(title: string, host: Value, verb: string, path: string)
    ensures Extract(BlockHead(title, host, verb, path), DescribePre, DescribePost) == [title]
  {
    DescribeLineForDescribe(title);
    OpenRestWithoutDescribe();
    HostLineForDescribe(host);
    VerbLineForDescribe(verb, path);
    ExtractFour([DescribeLine(title)], OpenRest, [HostLine(host)], [VerbLine(verb, path)], DescribePre, DescribePost, [title], [], [], []);
  }

  lemma DescribeInTail(code: string, isArray: bool, name: string)
    ensures Extract(BlockTail(code, isArray, name), DescribePre, DescribePost) == []
  {
    RequestTailWithoutDescribe();
    TitleLineForDescribe(code);
    StatusLineForDescribe(code);
    ChecksTailWithoutDescribe();
    SchemaCheckForDescribe(isArray, name);
    BlockCloseWithoutDescribe();
    ExtractSix(RequestTail, [TitleLine(code)], [StatusLine(code)], ChecksTail, SchemaCheck(isArray, name), BlockClose, DescribePre, DescribePost, [], [], [], [], [], []);
  }

  /** Each block opens one `describe`, titled by its code and description. */
  lemma DescribeInBlock(code: string, title: string, host: Value, verb: string, path: string, isArray: bool, name: string)
    ensures Extract(Block(code, title, host, verb, path, isArray, name), DescribePre, DescribePost) == [title]
  {
    DescribeInHead(title, host, verb, path);
    DescribeInTail(code, isArray, name);
    ExtractAppend(BlockHead(title, host, verb, path), BlockTail(code, isArray, name), DescribePre, DescribePost);
  }

  lemma OpenRestWithoutStatus()
    ensures Extract(OpenRest, StatusPre, StatusPost) == []
  {
    forall i | 0 <= i < |OpenRest|
      ensures Middle(OpenRest[i], StatusPre, StatusPost) == []
    {
      if i == 0 {
        NotPrefixAt(OpenRest[0], StatusPre, StatusPost, 0);
      } else if i == 1 {
        NotSuffixAt(OpenRest[1], StatusPre, StatusPost, 1);
      } else if i == 2 {
        NotPrefixAt(OpenRest[2], StatusPre, StatusPost, 1);
      } else if i == 3 {
        NotPrefixAt(OpenRest[3], StatusPre, StatusPost, 0);
      } else {
        NotSuffixAt(OpenRest[4], StatusPre, StatusPost, 0);
      }
    }
    ExtractNone(OpenRest, StatusPre, StatusPost);
  }

  lemma RequestTailWithoutStatus()
    ensures Extract(RequestTail, StatusPre, StatusPost) == []
  {
    forall i | 0 <= i < |RequestTail|
      ensures Middle(RequestTail[i], StatusPre, StatusPost) == []
    {
      if i == 0 {
        NotPrefixAt(RequestTail[0], StatusPre, StatusPost, 1);
      } else {
        NotPrefixAt(RequestTail[1], StatusPre, StatusPost, 0);
      }
    }
    ExtractNone(RequestTail, StatusPre, StatusPost);
  }

  lemma ChecksTailWithoutStatus()
    ensures Extract(ChecksTail, StatusPre, StatusPost) == []
  {
    forall i | 0 <= i < |ChecksTail|
      ensures Middle(ChecksTail[i], StatusPre, StatusPost) == []
    {
      if i == 0 {
        NotPrefixAt(ChecksTail[0], StatusPre, StatusPost, 1);
      } else if i == 1 {
        NotPrefixAt(ChecksTail[1], StatusPre, StatusPost, 0);
      } else if i == 2 {
        NotSuffixAt(ChecksTail[2], StatusPre, StatusPost, 0);
      } else if i == 3 {
        NotPrefixAt(ChecksTail[3], StatusPre, StatusPost, 15);
      } else if i == 4 {
        NotPrefixAt(ChecksTail[4], StatusPre, StatusPost, 1);
      } else if i == 5 {
        NotPrefixAt(ChecksTail[5], StatusPre, StatusPost, 0);
      } else if i == 6 {
        NotPrefixAt(ChecksTail[6], StatusPre, StatusPost, 1);
      } else {
        NotPrefixAt(ChecksTail[7], StatusPre, StatusPost, 14);
      }
    }
    ExtractNone(ChecksTail, StatusPre, StatusPost);
  }

  lemma BlockCloseWithoutStatus()
    ensures Extract(BlockClose, StatusPre, StatusPost) == []
  {
    forall i | 0 <= i < |BlockClose|
      ensures Middle(BlockClose[i], StatusPre, StatusPost) == []
    {
      if i == 0 {
        NotPrefixAt(BlockClose[0], StatusPre, StatusPost, 1);
      } else if i == 1 {
        NotPrefixAt(BlockClose[1], StatusPre, StatusPost, 0);
      } else if i == 2 {
        NotPrefixAt(BlockClose[2], StatusPre, StatusPost, 1);
      } else {
        NotPrefixAt(BlockClose[3], StatusPre, StatusPost, 0);
      }
    }
    ExtractNone(BlockClose, StatusPre, StatusPost);
  }

  lemma ForLineForStatus()
    ensures Extract([ForLine], StatusPre, StatusPost) == []
  {
    NotPrefixAt(ForLine, StatusPre, StatusPost, 1);
    ExtractSingle(ForLine, StatusPre, StatusPost);
  }

  lemma EachLineForStatus(name: string)
    ensures Extract([EachLine(name)], StatusPre, StatusPost) == []
  {
    NotPrefixAt(EachLine(name), StatusPre, StatusPost, 8);
    ExtractSingle(EachLine(name), StatusPre, StatusPost);
  }

  lemma ForEndForStatus()
    ensures Extract([ForEnd], StatusPre, StatusPost) == []
  {
    NotSuffixAt(ForEnd, StatusPre, StatusPost, 0);
    ExtractSingle(ForEnd, StatusPre, StatusPost);
  }

  lemma BodyLineForStatus(name: string)
    ensures Extract([BodyLine(name)], StatusPre, StatusPost) == []
  {
    NotPrefixAt(BodyLine(name), StatusPre, StatusPost, 15);
    ExtractSingle(BodyLine(name), StatusPre, StatusPost);
  }

  lemma SchemaCheckForStatus(isArray: bool, name: string)
    ensures Extract(SchemaCheck(isArray, name), StatusPre, StatusPost) == []
  {
    if isArray {
      ExtractAppend3([ForLine], [EachLine(name)], [ForEnd], StatusPre, StatusPost);
      ForLineForStatus();
      EachLineForStatus(name);
      ForEndForStatus();
    } else {
      BodyLineForStatus(name);
    }
  }

  lemma DescribeLineForStatus(title: string)
    ensures Extract([DescribeLine(title)], StatusPre, StatusPost) == []
  {
    NotSuffixAt(DescribeLine(title), StatusPre, StatusPost, 0);
    ExtractSingle(DescribeLine(title), StatusPre, StatusPost);
  }

  lemma HostLineForStatus(host: Value)
    ensures Extract([HostLine(host)], StatusPre, StatusPost) == []
  {
    NotSuffixAt(HostLine(host), StatusPre, StatusPost, 0);
    ExtractSingle(HostLine(host), StatusPre, StatusPost);
  }

  lemma VerbLineForStatus(verb: string, path: string)
    ensures Extract([VerbLine(verb, path)], StatusPre, StatusPost) == []
  {
    NotSuffixAt(VerbLine(verb, path), StatusPre, StatusPost, 0);
    ExtractSingle(VerbLine(verb, path), StatusPre, StatusPost);
  }

  lemma TitleLineForStatus(code: string)
    ensures Extract([TitleLine(code)], StatusPre, StatusPost) == []
  {
    NotSuffixAt(TitleLine(code), StatusPre, StatusPost, 0);
    ExtractSingle(TitleLine(code), StatusPre, StatusPost);
  }

  lemma StatusLineForStatus(code: string)
    ensures Extract([StatusLine(code)], StatusPre, StatusPost) == [code]
  {
    MiddleOf(StatusPre, code, StatusPost);
    ExtractSingle(StatusLine(code), StatusPre, StatusPost);
  }

  lemma StatusInHead(title: string, host: Value, verb: string, path: string)
    ensures Extract(BlockHead(title, host, verb, path), StatusPre, StatusPost) == []
  {
    DescribeLineForStatus(title);
    OpenRestWithoutStatus();
    HostLineForStatus(host);
    VerbLineForStatus(verb, path);
    ExtractFour([DescribeLine(title)], OpenRest, [HostLine(host)], [VerbLine(verb, path)], StatusPre, StatusPost, [], [], [], []);
  }

  lemma StatusInTail(code: string, isArray: bool, name: string)
    ensures Extract(BlockTail(code, isArray, name), StatusPre, StatusPost) == [code]
  {
    RequestTailWithoutStatus();
    TitleLineForStatus(code);
    StatusLineForStatus(code);
    ChecksTailWithoutStatus();
    SchemaCheckForStatus(isArray, name);
    BlockCloseWithoutStatus();
    ExtractSix(RequestTail, [TitleLine(code)], [StatusLine(code)], ChecksTail, SchemaCheck(isArray, name), BlockClose, StatusPre, StatusPost, [], [], [code], [], [], []);
  }

  /** Each block asserts one status code: its own. */
  lemma StatusInBlock(code: string, title: string, host: Value, verb: string, path: string, isArray: bool, name: string)
    ensures Extract(Block(code, title, host, verb, path, isArray, name), StatusPre, StatusPost) == [code]
  {
    StatusInHead(title, host, verb, path);
    StatusInTail(code, isArray, name);
    ExtractAppend(BlockHead(title, host, verb, path), BlockTail(code, isArray, name), StatusPre, StatusPost);
  }

  lemma OpenRestWithoutEach()
    ensures Extract(OpenRest, EachPre, SchemaPost) == []
  {
    forall i | 0 <= i < |OpenRest|
      ensures Middle(OpenRest[i], EachPre, SchemaPost) == []
    {
      if i == 0 {
        NotPrefixAt(OpenRest[0], EachPre, SchemaPost, 0);
      } else if i == 1 {
        NotPrefixAt(OpenRest[1], EachPre, SchemaPost, 1);
      } else if i == 2 {
        NotPrefixAt(OpenRest[2], EachPre, SchemaPost, 1);
      } else if i == 3 {
        NotPrefixAt(OpenRest[3], EachPre, SchemaPost, 0);
      } else {
        NotPrefixAt(OpenRest[4], EachPre, SchemaPost, 1);
      }
    }
    ExtractNone(OpenRest, EachPre, SchemaPost);
  }

  lemma RequestTailWithoutEach()
    ensures Extract(RequestTail, EachPre, SchemaPost) == []
  {
    forall i | 0 <= i < |RequestTail|
      ensures Middle(RequestTail[i], EachPre, SchemaPost) == []
    {
      if i == 0 {
        NotSuffixAt(RequestTail[0], EachPre, SchemaPost, 2);
      } else {
        NotPrefixAt(RequestTail[1], EachPre, SchemaPost, 0);
      }
    }
    ExtractNone(RequestTail, EachPre, SchemaPost);
  }

  lemma ChecksTailWithoutEach()
    ensures Extract(ChecksTail, EachPre, SchemaPost) == []
  {
    forall i | 0 <= i < |ChecksTail|
      ensures Middle(ChecksTail[i], EachPre, SchemaPost) == []
    {
      if i == 0 {
        NotSuffixAt(ChecksTail[0], EachPre, SchemaPost, 2);
      } else if i == 1 {
        NotPrefixAt(ChecksTail[1], EachPre, SchemaPost, 0);
      } else if i == 2 {
        NotPrefixAt(ChecksTail[2], EachPre, SchemaPost, 1);
      } else if i == 3 {
        NotPrefixAt(ChecksTail[3], EachPre, SchemaPost, 8);
      } else if i == 4 {
        NotSuffixAt(ChecksTail[4], EachPre, SchemaPost, 2);
      } else if i == 5 {
        NotPrefixAt(ChecksTail[5], EachPre, SchemaPost, 0);
      } else if i == 6 {
        NotPrefixAt(ChecksTail[6], EachPre, SchemaPost, 1);
      } else {
        NotPrefixAt(ChecksTail[7], EachPre, SchemaPost, 8);
      }
    }
    ExtractNone(ChecksTail, EachPre, SchemaPost);
  }

  lemma BlockCloseWithoutEach()
    ensures Extract(BlockClose, EachPre, SchemaPost) == []
  {
    forall i | 0 <= i < |BlockClose|
      ensures Middle(BlockClose[i], EachPre, SchemaPost) == []
    {
      if i == 0 {
        NotSuffixAt(BlockClose[0], EachPre, SchemaPost, 2);
      } else if i == 1 {
        NotPrefixAt(BlockClose[1], EachPre, SchemaPost, 0);
      } else if i == 2 {
        NotSuffixAt(BlockClose[2], EachPre, SchemaPost, 2);
      } else {
        NotPrefixAt(BlockClose[3], EachPre, SchemaPost, 0);
      }
    }
    ExtractNone(BlockClose, EachPre, SchemaPost);
  }

  lemma ForLineForEach()
    ensures Extract([ForLine], EachPre, SchemaPost) == []
  {
    NotPrefixAt(ForLine, EachPre, SchemaPost, 1);
    ExtractSingle(ForLine, EachPre, SchemaPost);
  }

  lemma EachLineForEach(name: string)
    ensures Extract([EachLine(name)], EachPre, SchemaPost) == [name]
  {
    MiddleOf(EachPre, name, SchemaPost);
    ExtractSingle(EachLine(name), EachPre, SchemaPost);
  }

  lemma ForEndForEach()
    ensures Extract([ForEnd], EachPre, SchemaPost) == []
  {
    NotSuffixAt(ForEnd, EachPre, SchemaPost, 0);
    ExtractSingle(ForEnd, EachPre, SchemaPost);
  }

  lemma BodyLineForEach(name: string)
    ensures Extract([BodyLine(name)], EachPre, SchemaPost) == []
  {
    NotPrefixAt(BodyLine(name), EachPre, SchemaPost, 8);
    ExtractSingle(BodyLine(name), EachPre, SchemaPost);
  }

  lemma SchemaCheckForEach(isArray: bool, name: string)
    ensures Extract(SchemaCheck(isArray, name), EachPre, SchemaPost) == (if isArray then [name] else [])
  {
    if isArray {
      ExtractAppend3([ForLine], [EachLine(name)], [ForEnd], EachPre, SchemaPost);
      ForLineForEach();
      EachLineForEach(name);
      ForEndForEach();
    } else {
      BodyLineForEach(name);
    }
  }

  lemma DescribeLineForEach(title: string)
    ensures Extract([DescribeLine(title)], EachPre, SchemaPost) == []
  {
    NotSuffixAt(DescribeLine(title), EachPre, SchemaPost, 0);
    ExtractSingle(DescribeLine(title), EachPre, SchemaPost);
  }

  lemma HostLineForEach(host: Value)
    ensures Extract([HostLine(host)], EachPre, SchemaPost) == []
  {
    NotSuffixAt(HostLine(host), EachPre, SchemaPost, 0);
    ExtractSingle(HostLine(host), EachPre, SchemaPost);
  }

  lemma VerbLineForEach(verb: string, path: string)
    ensures Extract([VerbLine(verb, path)], EachPre, SchemaPost) == []
  {
    NotSuffixAt(VerbLine(verb, path), EachPre, SchemaPost, 0);
    ExtractSingle(VerbLine(verb, path), EachPre, SchemaPost);
  }

  lemma TitleLineForEach(code: string)
    ensures Extract([TitleLine(code)], EachPre, SchemaPost) == []
  {
    NotSuffixAt(TitleLine(code), EachPre, SchemaPost, 0);
    ExtractSingle(TitleLine(code), EachPre, SchemaPost);
  }

  lemma StatusLineForEach(code: string)
    ensures Extract([StatusLine(code)], EachPre, SchemaPost) == []
  {
    NotPrefixAt(StatusLine(code), EachPre, SchemaPost, 8);
    ExtractSingle(StatusLine(code), EachPre, SchemaPost);
  }

  lemma EachCheckInHead(title: string, host: Value, verb: string, path: string)
    ensures Extract(BlockHead(title, host, verb, path), EachPre, SchemaPost) == []
  {
    DescribeLineForEach(title);
    OpenRestWithoutEach();
    HostLineForEach(host);
    VerbLineForEach(verb, path);
    ExtractFour([DescribeLine(title)], OpenRest, [HostLine(host)], [VerbLine(verb, path)], EachPre, SchemaPost, [], [], [], []);
  }

  lemma EachCheckInTail(code: string, isArray: bool, name: string)
    ensures Extract(BlockTail(code, isArray, name), EachPre, SchemaPost) == (if isArray then [name] else [])
  {
    RequestTailWithoutEach();
    TitleLineForEach(code);
    StatusLineForEach(code);
    ChecksTailWithoutEach();
    SchemaCheckForEach(isArray, name);
    BlockCloseWithoutEach();
    ExtractSix(RequestTail, [TitleLine(code)], [StatusLine(code)], ChecksTail, SchemaCheck(isArray, name), BlockClose, EachPre, SchemaPost, [], [], [], [], (if isArray then [name] else []), []);
  }

  /** An array schema is checked element by element, and only an array schema. */
  lemma EachCheckInBlock(code: string, title: string, host: Value, verb: string, path: string, isArray: bool, name: string)
    ensures Extract(Block(code, title, host, verb, path, isArray, name), EachPre, SchemaPost) == (if isArray then [name] else [])
  {
    EachCheckInHead(title, host, verb, path);
    EachCheckInTail(code, isArray, name);
    ExtractAppend(BlockHead(title, host, verb, path), BlockTail(code, isArray, name), EachPre, SchemaPost);
  }

  lemma OpenRestWithoutBody()
    ensures Extract(OpenRest, BodyPre, SchemaPost) == []
  {
    forall i | 0 <= i < |OpenRest|
      ensures Middle(OpenRest[i], BodyPre, SchemaPost) == []
    {
      if i == 0 {
        NotPrefixAt(OpenRest[0], BodyPre, SchemaPost, 0);
      } else if i == 1 {
        NotPrefixAt(OpenRest[1], BodyPre, SchemaPost, 1);
      } else if i == 2 {
        NotPrefixAt(OpenRest[2], BodyPre, SchemaPost, 1);
      } else if i == 3 {
        NotPrefixAt(OpenRest[3], BodyPre, SchemaPost, 0);
      } else {
        NotPrefixAt(OpenRest[4], BodyPre, SchemaPost, 1);
      }
    }
    ExtractNone(OpenRest, BodyPre, SchemaPost);
  }

  lemma RequestTailWithoutBody()
    ensures Extract(RequestTail, BodyPre, SchemaPost) == []
  {
    forall i | 0 <= i < |RequestTail|
      ensures Middle(RequestTail[i], BodyPre, SchemaPost) == []
    {
      if i == 0 {
        NotSuffixAt(RequestTail[0], BodyPre, SchemaPost, 2);
      } else {
        NotPrefixAt(RequestTail[1], BodyPre, SchemaPost, 0);
      }
    }
    ExtractNone(RequestTail, BodyPre, SchemaPost);
  }

  lemma ChecksTailWithoutBody()
    ensures Extract(ChecksTail, BodyPre, SchemaPost) == []
  {
    forall i | 0 <= i < |ChecksTail|
      ensures Middle(ChecksTail[i], BodyPre, SchemaPost) == []
    {
      if i == 0 {
        NotSuffixAt(ChecksTail[0], BodyPre, SchemaPost, 2);
      } else if i == 1 {
        NotPrefixAt(ChecksTail[1], BodyPre, SchemaPost, 0);
      } else if i == 2 {
        NotPrefixAt(ChecksTail[2], BodyPre, SchemaPost, 1);
      } else if i == 3 {
        NotPrefixAt(ChecksTail[3], BodyPre, SchemaPost, 23);
      } else if i == 4 {
        NotSuffixAt(ChecksTail[4], BodyPre, SchemaPost, 2);
      } else if i == 5 {
        NotPrefixAt(ChecksTail[5], BodyPre, SchemaPost, 0);
      } else if i == 6 {
        NotPrefixAt(ChecksTail[6], BodyPre, SchemaPost, 1);
      } else {
        NotPrefixAt(ChecksTail[7], BodyPre, SchemaPost, 14);
      }
    }
    ExtractNone(ChecksTail, BodyPre, SchemaPost);
  }

  lemma BlockCloseWithoutBody()
    ensures Extract(BlockClose, BodyPre, SchemaPost) == []
  {
    forall i | 0 <= i < |BlockClose|
      ensures Middle(BlockClose[i], BodyPre, SchemaPost) == []
    {
      if i == 0 {
        NotSuffixAt(BlockClose[0], BodyPre, SchemaPost, 2);
      } else if i == 1 {
        NotPrefixAt(BlockClose[1], BodyPre, SchemaPost, 0);
      } else if i == 2 {
        NotSuffixAt(BlockClose[2], BodyPre, SchemaPost, 2);
      } else {
        NotPrefixAt(BlockClose[3], BodyPre, SchemaPost, 0);
      }
    }
    ExtractNone(BlockClose, BodyPre, SchemaPost);
  }

  lemma ForLineForBody()
    ensures Extract([ForLine], BodyPre, SchemaPost) == []
  {
    NotPrefixAt(ForLine, BodyPre, SchemaPost, 1);
    ExtractSingle(ForLine, BodyPre, SchemaPost);
  }

  lemma EachLineForBody(name: string)
    ensures Extract([EachLine(name)], BodyPre, SchemaPost) == []
  {
    NotPrefixAt(EachLine(name), BodyPre, SchemaPost, 8);
    ExtractSingle(EachLine(name), BodyPre, SchemaPost);
  }

  lemma ForEndForBody()
    ensures Extract([ForEnd], BodyPre, SchemaPost) == []
  {
    NotSuffixAt(ForEnd, BodyPre, SchemaPost, 0);
    ExtractSingle(ForEnd, BodyPre, SchemaPost);
  }

  lemma BodyLineForBody(name: string)
    ensures Extract([BodyLine(name)], BodyPre, SchemaPost) == [name]
  {
    MiddleOf(BodyPre, name, SchemaPost);
    ExtractSingle(BodyLine(name), BodyPre, SchemaPost);
  }

  lemma SchemaCheckForBody(isArray: bool, name: string)
    ensures Extract(SchemaCheck(isArray, name), BodyPre, SchemaPost) == (if isArray then [] else [name])
  {
    if isArray {
      ExtractAppend3([ForLine], [EachLine(name)], [ForEnd], BodyPre, SchemaPost);
      ForLineForBody();
      EachLineForBody(name);
      ForEndForBody();
    } else {
      BodyLineForBody(name);
    }
  }

  lemma DescribeLineForBody(title: string)
    ensures Extract([DescribeLine(title)], BodyPre, SchemaPost) == []
  {
    NotSuffixAt(DescribeLine(title), BodyPre, SchemaPost, 0);
    ExtractSingle(DescribeLine(title), BodyPre, SchemaPost);
  }

  lemma HostLineForBody(host: Value)
    ensures Extract([HostLine(host)], BodyPre, SchemaPost) == []
  {
    NotSuffixAt(HostLine(host), BodyPre, SchemaPost, 0);
    ExtractSingle(HostLine(host), BodyPre, SchemaPost);
  }

  lemma VerbLineForBody(verb: string, path: string)
    ensures Extract([VerbLine(verb, path)], BodyPre, SchemaPost) == []
  {
    NotSuffixAt(VerbLine(verb, path), BodyPre, SchemaPost, 0);
    ExtractSingle(VerbLine(verb, path), BodyPre, SchemaPost);
  }

  lemma TitleLineForBody(code: string)
    ensures Extract([TitleLine(code)], BodyPre, SchemaPost) == []
  {
    NotSuffixAt(TitleLine(code), BodyPre, SchemaPost, 0);
    ExtractSingle(TitleLine(code), BodyPre, SchemaPost);
  }

  lemma StatusLineForBody(code: string)
    ensures Extract([StatusLine(code)], BodyPre, SchemaPost) == []
  {
    NotPrefixAt(StatusLine(code), BodyPre, SchemaPost, 15);
    ExtractSingle(StatusLine(code), BodyPre, SchemaPost);
  }

  lemma BodyCheckInHead(title: string, host: Value, verb: string, path: string)
    ensures Extract(BlockHead(title, host, verb, path), BodyPre, SchemaPost) == []
  {
    DescribeLineForBody(title);
    OpenRestWithoutBody();
    HostLineForBody(host);
    VerbLineForBody(verb, path);
    ExtractFour([DescribeLine(title)], OpenRest, [HostLine(host)], [VerbLine(verb, path)], BodyPre, SchemaPost, [], [], [], []);
  }

  lemma BodyCheckInTail(code: string, isArray: bool, name: string)
    ensures Extract(BlockTail(code, isArray, name), BodyPre, SchemaPost) == (if isArray then [] else [name])
  {
    RequestTailWithoutBody();
    TitleLineForBody(code);
    StatusLineForBody(code);
    ChecksTailWithoutBody();
    SchemaCheckForBody(isArray, name);
    BlockCloseWithoutBody();
    ExtractSix(RequestTail, [TitleLine(code)], [StatusLine(code)], ChecksTail, SchemaCheck(isArray, name), BlockClose, BodyPre, SchemaPost, [], [], [], [], (if isArray then [] else [name]), []);
  }

  /** Any other schema is checked against the whole body. */
  lemma BodyCheckInBlock(code: string, title: string, host: Value, verb: string, path: string, isArray: bool, name: string)
    ensures Extract(Block(code, title, host, verb, path, isArray, name), BodyPre, SchemaPost) == (if isArray then [] else [name])
  {
    BodyCheckInHead(title, host, verb, path);
    BodyCheckInTail(code, isArray, name);
    ExtractAppend(BlockHead(title, host, verb, path), BlockTail(code, isArray, name), BodyPre, SchemaPost);
  }

  /** The request line, with the path as written in the document, is in every block. */
  lemma VerbLineInBlock(code: string, title: string, host: Value, verb: string, path: string, isArray: bool, name: string)
    ensures VerbLine(verb, path) in Block(code, title, host, verb, path, isArray, name)
  {
    var front := [DescribeLine(title)] + OpenRest + [HostLine(host)];
    var block := Block(code, title, host, verb, path, isArray, name);
    assert block[|front|] == VerbLine(verb, path);
  }

  /** Everything a block says, read back from its lines. */
  lemma BlockReading(code: string, title: string, host: Value, verb: string, path: string, isArray: bool, name: string)
    ensures var block := Block(code, title, host, verb, path, isArray, name);
      && Extract(block, DescribePre, DescribePost) == [title]
      && Extract(block, StatusPre, StatusPost) == [code]
      && VerbLine(verb, path) in block
      && Extract(block, EachPre, SchemaPost) == (if isArray then [name] else [])
      && Extract(block, BodyPre, SchemaPost) == (if isArray then [] else [name])
  {
    DescribeInBlock(code, title, host, verb, path, isArray, name);
    StatusInBlock(code, title, host, verb, path, isArray, name);
    VerbLineInBlock(code, title, host, verb, path, isArray, name);
    EachCheckInBlock(code, title, host, verb, path, isArray, name);
    BodyCheckInBlock(code, title, host, verb, path, isArray, name);
  }

  /** The header holds no status assertion. */
  lemma HeaderWithoutStatus(apiDocPath: string, verb: string, path: string, operationId: string)
    ensures Extract(Header(apiDocPath, verb, path, operationId), StatusPre, StatusPost) == []
  {
    var h := Header(apiDocPath, verb, path, operationId);
    forall i | 0 <= i < |h|
      ensures Middle(h[i], StatusPre, StatusPost) == []
    {
      if i == 0 {
        NotPrefixAt(h[0], StatusPre, StatusPost, 0);
      } else if i == 1 {
        NotPrefixAt(h[1], StatusPre, StatusPost, 0);
      } else if i == 2 {
        NotPrefixAt(h[2], StatusPre, StatusPost, 0);
      } else if i == 3 {
        NotPrefixAt(h[3], StatusPre, StatusPost, 0);
      } else if i == 4 {
        NotPrefixAt(h[4], StatusPre, StatusPost, 0);
      } else if i == 5 {
        NotPrefixAt(h[5], StatusPre, StatusPost, 0);
      } else if i == 6 {
        NotPrefixAt(h[6], StatusPre, StatusPost, 0);
      } else if i == 7 {
        NotPrefixAt(h[7], StatusPre, StatusPost, 0);
      } else if i == 8 {
        NotPrefixAt(h[8], StatusPre, StatusPost, 0);
      } else {
        NotPrefixAt(h[9], StatusPre, StatusPost, 0);
      }
    }
    ExtractNone(h, StatusPre, StatusPost);
  }

  lemma ClosingWithoutStatus()
    ensures Extract([Closing], StatusPre, StatusPost) == []
  {
    NotPrefixAt(Closing, StatusPre, StatusPost, 0);
    ExtractSingle(Closing, StatusPre, StatusPost);
  }
}
