/** `readArgs` (src/utils/readArgs.js): the process arguments after the runtime
    and script paths, filtered to the tokens that start with `--`, each split on
    every `=`, and folded left to right into a plain object. */
module CliArgs {
  import opened JsStrings

  /** The object `readArgs` returns. A key whose token had no `=` is present with
      the value undefined (`None`). */
  type Args = map<string, Option<string>>

  predicate IsFlag(token: string) {
    "--" <= token
  }

  /** `value.substring(2)` of `const [value, key] = token.split('=')`: the text
      before the first `=`, without the leading `--`. */
  function KeyOf(token: string): string
    requires IsFlag(token)
  {
    var parts := Split(token, "=");
    FirstSegmentKeepsDashes(token);
    parts[0][2..]
  }

  /** `key` of `const [value, key] = token.split('=')`: the text between the first
      and the second `=`, undefined when there is no `=`. */
  function ValueOf(token: string): Option<string> {
    var parts := Split(token, "=");
    if |parts| >= 2 then Some(parts[1]) else None
  }

  /** `args[k] = v` on a plain object: `__proto__` is an inherited accessor whose
      setter ignores strings and undefined, so that key is never stored. */
  function Assign(args: Args, k: string, v: Option<string>): Args {
    if k == "__proto__" then args else args[k := v]
  }

  /** `.filter(arg => arg.startsWith("--"))`, keeping the order. */
  function Flags(tokens: seq<string>): (fs: seq<string>)
    ensures forall i :: 0 <= i < |fs| ==> IsFlag(fs[i])
  {
    if tokens == [] then []
    else
      var last := tokens[|tokens| - 1];
      Flags(tokens[..|tokens| - 1]) + (if IsFlag(last) then [last] else [])
  }

  /** `.reduce((args, [value, key]) => …, {})` over the flag tokens. */
  function Fold(flags: seq<string>): Args
    requires forall i :: 0 <= i < |flags| ==> IsFlag(flags[i])
  {
    if flags == [] then map[]
    else
      var last := flags[|flags| - 1];
      Assign(Fold(flags[..|flags| - 1]), KeyOf(last), ValueOf(last))
  }

  /** `process.argv.slice(2)`. */
  function UserTokens(argv: seq<string>): seq<string> {
    if |argv| <= 2 then [] else argv[2..]
  }

  function ReadArgs(argv: seq<string>): Args {
    Fold(Flags(UserTokens(argv)))
  }

  /** The last flag token of `tokens` whose key is `k`, or -1. */
  function LastFlagWithKey(tokens: seq<string>, k: string): (i: int)
    ensures -1 <= i < |tokens|
    ensures i >= 0 ==> IsFlag(tokens[i]) && KeyOf(tokens[i]) == k
    ensures i >= 0 ==> forall j :: i < j < |tokens| && IsFlag(tokens[j]) ==> KeyOf(tokens[j]) != k
    ensures i < 0 ==> forall j :: 0 <= j < |tokens| && IsFlag(tokens[j]) ==> KeyOf(tokens[j]) != k
  {
    if tokens == [] then -1
    else
      var n := |tokens| - 1;
      if IsFlag(tokens[n]) && KeyOf(tokens[n]) == k then n
      else
        var i := LastFlagWithKey(tokens[..n], k);
        assert forall j :: 0 <= j < n ==> tokens[..n][j] == tokens[j];
        i
  }

  /** `(args.method) ? [args.method] : ["get", "post", "put", "delete"]`
      (src/openAPI/api-contract/generateTests.js and
      src/openAPI/api-performance/generateTests.js, line 14). */
  function DesiredMethods(args: Args): (ms: seq<string>)
    ensures |ms| >= 1
  {
    if "method" in args && args["method"].Some? && args["method"].value != [] then [args["method"].value]
    else ["get", "post", "put", "delete"]
  }

  // ---------------------------------------------------------------------------
  // Lemmas

  lemma FirstSegmentKeepsDashes(token: string)
    requires IsFlag(token)
    ensures |Split(token, "=")[0]| >= 2
  {
    FirstSegmentShape(token, '=');
    assert token[0] == '-' && token[1] == '-';
  }

  /** Appending one token folds it in last. */
  lemma ReadFlagsSnoc(tokens: seq<string>, t: string)
    ensures Fold(Flags(tokens + [t])) ==
      if IsFlag(t) then Assign(Fold(Flags(tokens)), KeyOf(t), ValueOf(t)) else Fold(Flags(tokens))
  {
    assert (tokens + [t])[..|tokens|] == tokens;
    if IsFlag(t) {
      var fs := Flags(tokens) + [t];
      assert fs[..|fs| - 1] == Flags(tokens);
    } else {
      assert Flags(tokens) + [] == Flags(tokens);
    }
  }

  /** Which keys the fold stores and what it stores for them: a key is present
      exactly when some flag token has it (and it is not `__proto__`), and its value
      is the one of the last such token. */
  lemma {:induction false} ReadFlagsKey(tokens: seq<string>, k: string)
    ensures k in Fold(Flags(tokens)) <==> k != "__proto__" && LastFlagWithKey(tokens, k) >= 0
    ensures k in Fold(Flags(tokens)) ==> Fold(Flags(tokens))[k] == ValueOf(tokens[LastFlagWithKey(tokens, k)])
  {
    if tokens != [] {
      var n := |tokens| - 1;
      var init, t := tokens[..n], tokens[n];
      assert tokens == init + [t];
      ReadFlagsSnoc(init, t);
      ReadFlagsKey(init, k);
    }
  }

  /** The runtime and script paths never contribute; every other token is read as
      `ReadFlagsKey` says. */
  lemma ReadArgsKey(argv: seq<string>, k: string)
    ensures var toks := UserTokens(argv);
      && (k in ReadArgs(argv) <==> k != "__proto__" && LastFlagWithKey(toks, k) >= 0)
      && (k in ReadArgs(argv) ==> ReadArgs(argv)[k] == ValueOf(toks[LastFlagWithKey(toks, k)]))
  {
    ReadFlagsKey(UserTokens(argv), k);
  }

  /** Tokens that do not start with `--` leave the result unchanged. */
  lemma NonFlagIgnored(argv: seq<string>, t: string)
    requires |argv| >= 2 && !IsFlag(t)
    ensures ReadArgs(argv + [t]) == ReadArgs(argv)
  {
    assert UserTokens(argv + [t]) == UserTokens(argv) + [t];
    ReadFlagsSnoc(UserTokens(argv), t);
  }

  /** A later `--k=…` wins over every earlier token with the same key. */
  lemma LastOccurrenceWins(argv: seq<string>, t: string)
    requires |argv| >= 2 && IsFlag(t) && KeyOf(t) != "__proto__"
    ensures KeyOf(t) in ReadArgs(argv + [t]) && ReadArgs(argv + [t])[KeyOf(t)] == ValueOf(t)
  {
    assert UserTokens(argv + [t]) == UserTokens(argv) + [t];
    ReadFlagsSnoc(UserTokens(argv), t);
  }

  lemma {:induction false} SplitWithoutSeparator(a: string, c: char, cur: string)
    requires NoChar(a, c)
    ensures SplitFrom(a, [c], cur) == [cur + a]
    decreases |a|
  {
    if a == [] {
      assert cur + a == cur;
    } else {
      assert a[0] != c;
      assert !([c] <= a);
      SplitWithoutSeparator(a[1..], c, cur + [a[0]]);
      assert cur + [a[0]] + a[1..] == cur + a;
    }
  }

  lemma {:induction false} SplitAtSeparator(a: string, c: char, rest: string, cur: string)
    requires NoChar(a, c)
    ensures SplitFrom(a + [c] + rest, [c], cur) == [cur + a] + SplitFrom(rest, [c], [])
    decreases |a|
  {
    if a == [] {
      assert a + [c] + rest == [c] + rest;
      assert [c] <= [c] + rest;
      assert ([c] + rest)[1..] == rest;
      assert cur + a == cur;
    } else {
      var s := a + [c] + rest;
      assert s[0] == a[0] != c;
      assert !([c] <= s);
      assert s[1..] == a[1..] + [c] + rest;
      SplitAtSeparator(a[1..], c, rest, cur + [a[0]]);
      assert cur + [a[0]] + a[1..] == cur + a;
    }
  }

  /** `--k=v` with no `=` in `k` or `v` stores `v` under `k`. */
  lemma DashesNoEquals(k: string)
    requires NoChar(k, '=')
    ensures NoChar("--" + k, '=') && ("--" + k)[2..] == k && IsFlag("--" + k)
  {
    assert forall i :: 2 <= i < |"--" + k| ==> ("--" + k)[i] == k[i - 2];
    assert "--" <= "--" + k;
  }

  /** `--k=v` with no `=` in `k` or `v` stores `v` under `k`. */
  lemma KeyValueToken(k: string, v: string)
    requires NoChar(k, '=') && NoChar(v, '=')
    ensures IsFlag("--" + k + "=" + v)
    ensures KeyOf("--" + k + "=" + v) == k && ValueOf("--" + k + "=" + v) == Some(v)
  {
    var t := "--" + k + "=" + v;
    assert t == ("--" + k) + ['='] + v;
    assert "--" <= t;
    assert "=" == ['='];
    DashesNoEquals(k);
    SplitAtSeparator("--" + k, '=', v, []);
    SplitWithoutSeparator(v, '=', []);
    assert [] + ("--" + k) == "--" + k;
    assert [] + v == v;
    assert Split(t, "=") == ["--" + k, v];
  }

  /** `--k=v1=v2` stores only `v1`: the value is cut at its first `=`. */
  lemma ValueCutAtEquals(k: string, v1: string, v2: string)
    requires NoChar(k, '=') && NoChar(v1, '=') && NoChar(v2, '=')
    ensures IsFlag("--" + k + "=" + v1 + "=" + v2)
    ensures KeyOf("--" + k + "=" + v1 + "=" + v2) == k
    ensures ValueOf("--" + k + "=" + v1 + "=" + v2) == Some(v1)
  {
    var t := "--" + k + "=" + v1 + "=" + v2;
    assert t == ("--" + k) + ['='] + (v1 + "=" + v2);
    assert v1 + "=" + v2 == v1 + ['='] + v2;
    assert "--" <= t;
    assert "=" == ['='];
    DashesNoEquals(k);
    SplitAtSeparator("--" + k, '=', v1 + "=" + v2, []);
    SplitAtSeparator(v1, '=', v2, []);
    SplitWithoutSeparator(v2, '=', []);
    assert [] + ("--" + k) == "--" + k;
    assert [] + v1 == v1;
    assert [] + v2 == v2;
    assert Split(t, "=") == ["--" + k, v1, v2];
  }

  /** `--k` with no `=` stores `k` with the value undefined. */
  lemma BareFlagToken(k: string)
    requires NoChar(k, '=')
    ensures IsFlag("--" + k)
    ensures KeyOf("--" + k) == k && ValueOf("--" + k) == None
  {
    DashesNoEquals(k);
    assert "=" == ['='];
    SplitWithoutSeparator("--" + k, '=', []);
    assert [] + ("--" + k) == "--" + k;
  }

  /** An empty `--method=` and a bare `--method` both fall back to the four
      default methods, because the empty string and undefined are falsy. */
  lemma MethodFlagFallback(argv: seq<string>, v: string)
    requires |argv| >= 2 && NoChar(v, '=')
    ensures v != [] ==> DesiredMethods(ReadArgs(argv + ["--method=" + v])) == [v]
    ensures DesiredMethods(ReadArgs(argv + ["--method="])) == ["get", "post", "put", "delete"]
    ensures DesiredMethods(ReadArgs(argv + ["--method"])) == ["get", "post", "put", "delete"]
  {
    KeyValueToken("method", v);
    assert "--method=" + v == "--" + "method" + "=" + v;
    LastOccurrenceWins(argv, "--method=" + v);
    KeyValueToken("method", "");
    assert "--method=" == "--" + "method" + "=" + "";
    LastOccurrenceWins(argv, "--method=");
    BareFlagToken("method");
    assert "--method" == "--" + "method";
    LastOccurrenceWins(argv, "--method");
  }
}
