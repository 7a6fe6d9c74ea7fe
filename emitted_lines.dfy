/** The lines a contract generator writes, and how to read them back: every
    `writeToFile(stream, line)` writes `line` followed by a newline, and a line of
    a given form (a fixed prefix, then a value, then a fixed suffix) can be picked
    out of the written lines again. */
module EmittedLines {

  /** `[x]` when `line` is `pre + x + post`, and nothing otherwise. */
  function Middle(line: string, pre: string, post: string): seq<string> {
    if |line| >= |pre| + |post| && pre <= line && line[|line| - |post|..] == post
    then [line[|pre|..|line| - |post|]]
    else []
  }

  /** The values of every line of the form `pre + x + post`, in order. */
  function Extract(lines: seq<string>, pre: string, post: string): seq<string> {
    if lines == [] then []
    else Extract(lines[..|lines| - 1], pre, post) + Middle(lines[|lines| - 1], pre, post)
  }

  /** The text `writeToFile` puts in the file: each line and a newline. */
  function FileText(lines: seq<string>): string {
    if lines == [] then []
    else FileText(lines[..|lines| - 1]) + lines[|lines| - 1] + "\n"
  }

  /** What one generated test file receives: its name and the lines written to it. */
  datatype Written = Written(file: string, lines: seq<string>)

  /** The files after a run whose streams are opened with the `"a"` (append)
      flag on files that did not exist before: a later write to the same name
      goes after the earlier ones. */
  function Appended(ws: seq<Written>): map<string, string> {
    if ws == [] then map[]
    else
      var before := Appended(ws[..|ws| - 1]);
      var w := ws[|ws| - 1];
      before[w.file := (if w.file in before then before[w.file] else []) + FileText(w.lines)]
  }

  /** Every line written to `file`, in the order of the writes. */
  function LinesFor(ws: seq<Written>, file: string): seq<string> {
    if ws == [] then []
    else LinesFor(ws[..|ws| - 1], file) + (if ws[|ws| - 1].file == file then ws[|ws| - 1].lines else [])
  }

  // ---------------------------------------------------------------------------
  // Lemmas

  lemma MiddleOf(pre: string, x: string, post: string)
    ensures Middle(pre + x + post, pre, post) == [x]
  {
    var line := pre + x + post;
    assert pre <= line;
    assert line[|line| - |post|..] == post;
    assert line[|pre|..|line| - |post|] == x;
  }

  /** A line that differs from `pre` at position `k` is not of the form. */
  lemma NotPrefixAt(line: string, pre: string, post: string, k: nat)
    requires k < |pre| && (k >= |line| || line[k] != pre[k])
    ensures Middle(line, pre, post) == []
  {
  }

  /** A line that differs from `post` at the `k`-th position from the end is not
      of the form. */
  lemma NotSuffixAt(line: string, pre: string, post: string, k: nat)
    requires k < |post| && (k >= |line| || line[|line| - 1 - k] != post[|post| - 1 - k])
    ensures Middle(line, pre, post) == []
  {
  }

  lemma {:induction false} ExtractAppend(a: seq<string>, b: seq<string>, pre: string, post: string)
    ensures Extract(a + b, pre, post) == Extract(a, pre, post) + Extract(b, pre, post)
    decreases |b|
  {
    if b == [] {
      assert a + b == a;
    } else {
      var n := |b| - 1;
      ExtractAppend(a, b[..n], pre, post);
      assert (a + b)[..|a + b| - 1] == a + b[..n];
      assert (a + b)[|a + b| - 1] == b[n];
    }
  }

  lemma ExtractAppend3(a: seq<string>, b: seq<string>, c: seq<string>, pre: string, post: string)
    ensures Extract(a + b + c, pre, post) == Extract(a, pre, post) + Extract(b, pre, post) + Extract(c, pre, post)
  {
    ExtractAppend(a + b, c, pre, post);
    ExtractAppend(a, b, pre, post);
  }

  /** Reading back a text assembled from four parts. */
  lemma ExtractFour(a: seq<string>, b: seq<string>, c: seq<string>, d: seq<string>, pre: string, post: string,
                    ra: seq<string>, rb: seq<string>, rc: seq<string>, rd: seq<string>)
    requires Extract(a, pre, post) == ra && Extract(b, pre, post) == rb && Extract(c, pre, post) == rc && Extract(d, pre, post) == rd
    ensures Extract(a + b + c + d, pre, post) == ra + rb + rc + rd
  {
    ExtractAppend3(a, b, c, pre, post);
    ExtractAppend(a + b + c, d, pre, post);
  }

  /** Reading back a text assembled from six parts. */
  lemma ExtractSix(a: seq<string>, b: seq<string>, c: seq<string>, d: seq<string>, e: seq<string>, f: seq<string>, pre: string, post: string,
                   ra: seq<string>, rb: seq<string>, rc: seq<string>, rd: seq<string>, re: seq<string>, rf: seq<string>)
    requires Extract(a, pre, post) == ra && Extract(b, pre, post) == rb && Extract(c, pre, post) == rc
    requires Extract(d, pre, post) == rd && Extract(e, pre, post) == re && Extract(f, pre, post) == rf
    ensures Extract(a + b + c + d + e + f, pre, post) == ra + rb + rc + rd + re + rf
  {
    ExtractAppend3(a, b, c, pre, post);
    ExtractAppend3(a + b + c, d, e, pre, post);
    ExtractAppend(a + b + c + d + e, f, pre, post);
  }

  /** Reading back a text assembled from seven parts. */
  lemma ExtractSeven(a: seq<string>, b: seq<string>, c: seq<string>, d: seq<string>, e: seq<string>, f: seq<string>, g: seq<string>, pre: string, post: string,
                     ra: seq<string>, rb: seq<string>, rc: seq<string>, rd: seq<string>, re: seq<string>, rf: seq<string>, rg: seq<string>)
    requires Extract(a, pre, post) == ra && Extract(b, pre, post) == rb && Extract(c, pre, post) == rc
    requires Extract(d, pre, post) == rd && Extract(e, pre, post) == re && Extract(f, pre, post) == rf && Extract(g, pre, post) == rg
    ensures Extract(a + b + c + d + e + f + g, pre, post) == ra + rb + rc + rd + re + rf + rg
  {
    ExtractSix(a, b, c, d, e, f, pre, post, ra, rb, rc, rd, re, rf);
    ExtractAppend(a + b + c + d + e + f, g, pre, post);
  }

  lemma ExtractSingle(line: string, pre: string, post: string)
    ensures Extract([line], pre, post) == Middle(line, pre, post)
  {
    assert [line][..0] == [];
  }

  /** Lines none of which has the form contribute nothing. */
  lemma {:induction false} ExtractNone(lines: seq<string>, pre: string, post: string)
    requires forall i :: 0 <= i < |lines| ==> Middle(lines[i], pre, post) == []
    ensures Extract(lines, pre, post) == []
  {
    if lines != [] {
      ExtractNone(lines[..|lines| - 1], pre, post);
    }
  }

  /** Lines that are all of the form give back their values in order. */
  lemma {:induction false} ExtractAll(values: seq<string>, pre: string, post: string)
    ensures Extract(seq(|values|, i requires 0 <= i < |values| => pre + values[i] + post), pre, post) == values
  {
    if values != [] {
      var n := |values| - 1;
      var lines := seq(|values|, i requires 0 <= i < |values| => pre + values[i] + post);
      assert lines[..n] == seq(n, i requires 0 <= i < n => pre + values[..n][i] + post);
      ExtractAll(values[..n], pre, post);
      MiddleOf(pre, values[n], post);
      assert values[..n] + [values[n]] == values;
    }
  }

  /** Writing two runs of lines to the same stream writes the two texts in turn. */
  lemma {:induction false} FileTextAppend(a: seq<string>, b: seq<string>)
    ensures FileText(a + b) == FileText(a) + FileText(b)
    decreases |b|
  {
    if b == [] {
      assert a + b == a;
    } else {
      var n := |b| - 1;
      FileTextAppend(a, b[..n]);
      assert (a + b)[..|a + b| - 1] == a + b[..n];
      assert (a + b)[|a + b| - 1] == b[n];
    }
  }

  /** The file holds the characters of every written line and one newline each. */
  lemma {:induction false} FileTextLength(lines: seq<string>)
    ensures |FileText(lines)| == |lines| + SumOfLengths(lines)
  {
    if lines != [] {
      FileTextLength(lines[..|lines| - 1]);
    }
  }

  function SumOfLengths(lines: seq<string>): nat {
    if lines == [] then 0 else SumOfLengths(lines[..|lines| - 1]) + |lines[|lines| - 1]|
  }

  /** A file exists exactly when some write names it, and it holds the lines of
      every write to it, in order. */
  lemma {:induction false} AppendedFiles(ws: seq<Written>, file: string)
    ensures file in Appended(ws) <==> exists i :: 0 <= i < |ws| && ws[i].file == file
    ensures file in Appended(ws) ==> Appended(ws)[file] == FileText(LinesFor(ws, file))
    ensures file !in Appended(ws) ==> LinesFor(ws, file) == []
  {
    if ws != [] {
      var n := |ws| - 1;
      var w := ws[n];
      AppendedFiles(ws[..n], file);
      assert forall i :: 0 <= i < n ==> ws[..n][i] == ws[i];
      var before := Appended(ws[..n]);
      if w.file == file {
        FileTextAppend(LinesFor(ws[..n], file), w.lines);
        assert LinesFor(ws, file) == LinesFor(ws[..n], file) + w.lines;
        assert Appended(ws)[file] == (if file in before then before[file] else []) + FileText(w.lines);
        if file !in before {
          assert LinesFor(ws[..n], file) + w.lines == w.lines;
        }
      } else {
        assert LinesFor(ws, file) == LinesFor(ws[..n], file) + [];
        assert LinesFor(ws[..n], file) + [] == LinesFor(ws[..n], file);
        assert Appended(ws) == before[w.file := (if w.file in before then before[w.file] else []) + FileText(w.lines)];
      }
    }
  }
}
