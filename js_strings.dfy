/** The JavaScript string operations the generators use (`startsWith`, `indexOf`,
    `split`, `join`, `replace` with a literal pattern, `pop` of a split, decimal
    number rendering), on strings as sequences of characters. */
module JsStrings {

  /** `p` occurs in `s` at position `i`. */
  predicate OccursAt(s: string, p: string, i: nat) {
    i + |p| <= |s| && s[i..i + |p|] == p
  }

  /** `s.indexOf(p)`: the first position at which `p` occurs, or -1. */
  function IndexOf(s: string, p: string): (r: int)
    ensures -1 <= r <= |s|
    ensures r >= 0 ==> OccursAt(s, p, r)
    ensures r >= 0 ==> forall j: nat :: j < r ==> !OccursAt(s, p, j)
    ensures r < 0 ==> forall j: nat :: !OccursAt(s, p, j)
    decreases |s|
  {
    if p <= s then 0
    else if s == [] then -1
    else
      var k := IndexOf(s[1..], p);
      OccursAtTail(s, p);
      if k < 0 then -1 else k + 1
  }

  /** An occurrence past the first character is an occurrence in the tail. */
  lemma OccursAtTail(s: string, p: string)
    requires s != []
    ensures OccursAt(s, p, 0) <==> p <= s
    ensures forall j: nat :: j >= 1 ==> (OccursAt(s, p, j) <==> OccursAt(s[1..], p, j - 1))
  {
    forall j: nat | j >= 1 ensures OccursAt(s, p, j) <==> OccursAt(s[1..], p, j - 1) {
      if j + |p| <= |s| {
        assert s[1..][j - 1..j - 1 + |p|] == s[j..j + |p|];
      }
    }
  }

  /** `s.includes(p)`. */
  predicate Occurs(s: string, p: string) {
    IndexOf(s, p) >= 0
  }

  /** `s.replace(/p/g, r)` for a literal, non-empty pattern: a left-to-right scan
      that replaces every non-overlapping occurrence. */
  function ReplaceAll(s: string, p: string, r: string): string
    requires p != []
    decreases |s|
  {
    if s == [] then []
    else if p <= s then r + ReplaceAll(s[|p|..], p, r)
    else [s[0]] + ReplaceAll(s[1..], p, r)
  }

  /** `s.replace(/p/, r)` for a literal, non-empty pattern: only the first
      occurrence is replaced. */
  function ReplaceFirst(s: string, p: string, r: string): (t: string)
    requires p != []
    ensures !Occurs(s, p) ==> t == s
    ensures Occurs(s, p) ==> t == s[..IndexOf(s, p)] + r + s[IndexOf(s, p) + |p|..]
  {
    var i := IndexOf(s, p);
    if i < 0 then s else s[..i] + r + s[i + |p|..]
  }

  /** `s.split(sep)` for a non-empty separator; `cur` is the part being built. */
  function SplitFrom(s: string, sep: string, cur: string): (parts: seq<string>)
    requires sep != []
    ensures |parts| >= 1
    decreases |s|
  {
    if s == [] then [cur]
    else if sep <= s then [cur] + SplitFrom(s[|sep|..], sep, [])
    else SplitFrom(s[1..], sep, cur + [s[0]])
  }

  function Split(s: string, sep: string): (parts: seq<string>)
    requires sep != []
    ensures |parts| >= 1
  {
    SplitFrom(s, sep, [])
  }

  /** `parts.join(sep)`. */
  function Join(parts: seq<string>, sep: string): string {
    if parts == [] then []
    else if |parts| == 1 then parts[0]
    else parts[0] + sep + Join(parts[1..], sep)
  }

  /** `s.split(sep).pop()`: the text after the last separator. */
  function LastSegment(s: string, sep: string): string
    requires sep != []
  {
    var parts := Split(s, sep);
    parts[|parts| - 1]
  }

  /** `s.split(sep)[0]`: the text before the first separator. */
  function FirstSegment(s: string, sep: string): string
    requires sep != []
  {
    Split(s, sep)[0]
  }

  /** `path.replace(/{/g, "${")`, which turns an OpenAPI path template into the
      body of a JavaScript template literal. */
  function Interpolated(path: string): string {
    ReplaceAll(path, "{", "${")
  }

  /** The same rewrite stated character by character. */
  function BraceToDollar(path: string): string {
    if path == [] then []
    else (if path[0] == '{' then "${" else [path[0]]) + BraceToDollar(path[1..])
  }

  function CountChar(s: string, c: char): nat {
    if s == [] then 0 else (if s[0] == c then 1 else 0) + CountChar(s[1..], c)
  }

  predicate IsDigit(c: char) { '0' <= c <= '9' }

  predicate IsDigits(s: string) { forall i :: 0 <= i < |s| ==> IsDigit(s[i]) }

  function DigitChar(d: nat): char
    requires d < 10
  {
    "0123456789"[d]
  }

  /** Decimal rendering of a natural number, as `String(n)` prints it. */
  function NatToString(n: nat): (s: string)
    ensures |s| >= 1 && IsDigits(s)
    ensures |s| > 1 ==> s[0] != '0'
  {
    if n < 10 then [DigitChar(n)] else NatToString(n / 10) + [DigitChar(n % 10)]
  }

  /** Decimal rendering of an integer, as `String(n)` prints it. */
  function IntToString(n: int): string {
    if n < 0 then "-" + NatToString(-n) else NatToString(n)
  }

  function DigitsValue(s: string): nat
    requires IsDigits(s)
  {
    if s == [] then 0 else DigitsValue(s[..|s| - 1]) * 10 + (s[|s| - 1] as int - '0' as int)
  }

  /** The array index a property key denotes: a canonical decimal numeral. */
  function CanonicalIndex(k: string): Option<nat> {
    if |k| >= 1 && IsDigits(k) && (|k| == 1 || k[0] != '0') then Some(DigitsValue(k)) else None
  }

  datatype Option<+T> = None | Some(value: T)

  /** `s.toUpperCase()` on the ASCII letters. */
  function AsciiUpper(s: string): (t: string)
    ensures |t| == |s|
    ensures forall i :: 0 <= i < |s| ==> t[i] == if 'a' <= s[i] <= 'z' then (s[i] as int - 32) as char else s[i]
  {
    if s == [] then []
    else [if 'a' <= s[0] <= 'z' then (s[0] as int - 32) as char else s[0]] + AsciiUpper(s[1..])
  }

  /** No `$` except at position 0: the shape of every `$NAME` template placeholder. */
  predicate DollarHeaded(p: string) {
    |p| >= 1 && p[0] == '$' && forall i :: 1 <= i < |p| ==> p[i] != '$'
  }

  predicate NoChar(s: string, c: char) {
    forall i :: 0 <= i < |s| ==> s[i] != c
  }

  // ---------------------------------------------------------------------------
  // Lemmas about replacement, splitting and joining

  lemma {:induction false} ReplaceAllNoOccurrence(s: string, p: string, r: string)
    requires p != [] && !Occurs(s, p)
    ensures ReplaceAll(s, p, r) == s
    decreases |s|
  {
    if s != [] {
      assert !OccursAt(s, p, 0);
      assert !(p <= s);
      NotOccursTail(s, p);
      ReplaceAllNoOccurrence(s[1..], p, r);
    }
  }

  lemma NotOccursTail(s: string, p: string)
    requires s != [] && !Occurs(s, p)
    ensures !Occurs(s[1..], p)
  {
    OccursAtTail(s, p);
  }

  /** Replacing every occurrence is the same as splitting on the pattern and
      joining with the replacement (`s.split(p).join(r)`). */
  lemma {:induction false} ReplaceAllIsSplitJoin(s: string, p: string, r: string)
    requires p != []
    ensures ReplaceAll(s, p, r) == Join(Split(s, p), r)
  {
    SplitFromJoin(s, p, r, []);
  }

  lemma {:induction false} SplitFromJoin(s: string, p: string, r: string, cur: string)
    requires p != []
    ensures Join(SplitFrom(s, p, cur), r) == cur + ReplaceAll(s, p, r)
    decreases |s|
  {
    if s == [] {
    } else if p <= s {
      SplitFromJoin(s[|p|..], p, r, []);
      JoinCons(cur, SplitFrom(s[|p|..], p, []), r);
    } else {
      SplitFromJoin(s[1..], p, r, cur + [s[0]]);
    }
  }

  lemma JoinCons(x: string, rest: seq<string>, sep: string)
    requires |rest| >= 1
    ensures Join([x] + rest, sep) == x + sep + Join(rest, sep)
  {
    assert ([x] + rest)[1..] == rest;
  }

  /** Splitting and joining with the same separator gives back the string. */
  lemma {:induction false} SplitJoinRoundTrip(s: string, p: string)
    requires p != []
    ensures Join(Split(s, p), p) == s
  {
    ReplaceAllIsSplitJoin(s, p, p);
    ReplaceAllSelf(s, p);
  }

  lemma {:induction false} ReplaceAllSelf(s: string, p: string)
    requires p != []
    ensures ReplaceAll(s, p, p) == s
    decreases |s|
  {
    if s == [] {
    } else if p <= s {
      ReplaceAllSelf(s[|p|..], p);
      assert s == p + s[|p|..];
    } else {
      ReplaceAllSelf(s[1..], p);
      assert s == [s[0]] + s[1..];
    }
  }

  /** The brace rewrite replaces each `{` by `${` and leaves every other
      character where it was. */
  lemma {:induction false} InterpolatedIsBraceToDollar(path: string)
    ensures Interpolated(path) == BraceToDollar(path)
    ensures |Interpolated(path)| == |path| + CountChar(path, '{')
    decreases |path|
  {
    if path != [] {
      InterpolatedIsBraceToDollar(path[1..]);
      if path[0] == '{' {
        assert "{" <= path;
      } else {
        assert !("{" <= path);
      }
    }
  }

  /** A string without `{` is left as it is. */
  lemma InterpolatedWithoutBraces(path: string)
    requires NoChar(path, '{')
    ensures Interpolated(path) == path
  {
    InterpolatedIsBraceToDollar(path);
    BraceToDollarIdentity(path);
  }

  lemma {:induction false} BraceToDollarIdentity(path: string)
    requires NoChar(path, '{')
    ensures BraceToDollar(path) == path
    decreases |path|
  {
    if path != [] {
      BraceToDollarIdentity(path[1..]);
      assert path == [path[0]] + path[1..];
    }
  }

  /** `t` is a suffix of `w`. */
  predicate IsSuffix(t: string, w: string) {
    |t| <= |w| && w[|w| - |t|..] == t
  }

  /** The last segment of a split contains no separator character and is a suffix
      of the string, preceded by the separator when it is not the whole string. */
  lemma LastSegmentShape(s: string, c: char)
    ensures NoChar(LastSegment(s, [c]), c)
    ensures IsSuffix(LastSegment(s, [c]), s)
    ensures var t := LastSegment(s, [c]); |t| < |s| ==> s[|s| - |t| - 1] == c
    ensures NoChar(s, c) ==> LastSegment(s, [c]) == s
  {
    assert LastSegment(s, [c]) == LastPart(s, c, []);
    assert [] + s == s;
    LastPartNoChar(s, c, []);
    var u := LastPartSuffix(s, c, []);
    ConcatSuffix(u, LastPart(s, c, []), s);
    if NoChar(s, c) {
      LastPartWhole(s, c, []);
    }
  }

  /** The last segment of a string whose final separator comes just before `y`
      is `y`. */
  lemma LastSegmentAfter(x: string, c: char, y: string)
    requires NoChar(y, c)
    ensures LastSegment(x + [c] + y, [c]) == y
  {
    LastPartAfter(x, c, y, []);
  }

  lemma {:induction false} LastPartAfter(x: string, c: char, y: string, cur: string)
    requires NoChar(y, c)
    ensures LastPart(x + [c] + y, c, cur) == y
    decreases |x|
  {
    var s := x + [c] + y;
    if x == [] {
      assert s == [c] + y && [c] <= s && s[1..] == y;
      LastPartWhole(y, c, []);
      assert [] + y == y;
    } else {
      assert s[1..] == x[1..] + [c] + y;
      if x[0] == c {
        assert [c] <= s;
        LastPartAfter(x[1..], c, y, []);
      } else {
        assert s[0] == x[0];
        assert !([c] <= s);
        LastPartAfter(x[1..], c, y, cur + [x[0]]);
      }
    }
  }

  /** The first segment of a string whose first separator comes just after `x`
      is `x`. */
  lemma FirstSegmentBefore(x: string, c: char, y: string)
    requires NoChar(x, c)
    ensures FirstSegment(x + [c] + y, [c]) == x
  {
    FirstPartBefore(x, c, y, []);
    assert [] + x == x;
  }

  lemma {:induction false} FirstPartBefore(x: string, c: char, y: string, cur: string)
    requires NoChar(x, c)
    ensures SplitFrom(x + [c] + y, [c], cur)[0] == cur + x
    decreases |x|
  {
    var s := x + [c] + y;
    if x == [] {
      assert [c] <= s;
      assert cur + x == cur;
    } else {
      assert s[0] == x[0] != c;
      assert !([c] <= s);
      assert s[1..] == x[1..] + [c] + y;
      FirstPartBefore(x[1..], c, y, cur + [x[0]]);
      assert cur + [x[0]] + x[1..] == cur + x;
    }
  }

  function LastPart(s: string, c: char, cur: string): string {
    var ps := SplitFrom(s, [c], cur);
    ps[|ps| - 1]
  }

  lemma {:induction false} LastPartNoChar(s: string, c: char, cur: string)
    requires NoChar(cur, c)
    ensures NoChar(LastPart(s, c, cur), c)
    decreases |s|
  {
    if s == [] {
    } else if [c] <= s {
      LastPartNoChar(s[1..], c, []);
    } else {
      LastPartNoChar(s[1..], c, cur + [s[0]]);
    }
  }

  lemma LastPartStep(s: string, c: char, cur: string)
    requires s != []
    ensures [c] <= s ==> LastPart(s, c, cur) == LastPart(s[1..], c, [])
    ensures !([c] <= s) ==> LastPart(s, c, cur) == LastPart(s[1..], c, cur + [s[0]])
  {
    if [c] <= s {
      assert |[c]| == 1;
      var rest := SplitFrom(s[1..], [c], []);
      assert SplitFrom(s, [c], cur) == [cur] + rest;
    }
  }

  /** What comes before the last part: `cur + s` is `u` followed by the last
      part, and `u`, when not empty, ends with the separator. */
  lemma {:induction false} LastPartSuffix(s: string, c: char, cur: string) returns (u: string)
    ensures u + LastPart(s, c, cur) == cur + s
    ensures u != [] ==> u[|u| - 1] == c
    decreases |s|
  {
    if s == [] {
      u := [];
      assert u + cur == cur + s;
    } else if [c] <= s {
      LastPartStep(s, c, cur);
      var v := LastPartSuffix(s[1..], c, []);
      u := cur + [c] + v;
      SeparatorBefore(cur, c, v, LastPart(s[1..], c, []), s);
    } else {
      LastPartStep(s, c, cur);
      u := LastPartSuffix(s[1..], c, cur + [s[0]]);
      ConsTail(cur, s);
    }
  }

  lemma SeparatorBefore(cur: string, c: char, v: string, t: string, s: string)
    requires [c] <= s && [] + s[1..] == v + t && (v != [] ==> v[|v| - 1] == c)
    ensures (cur + [c] + v) + t == cur + s
    ensures (cur + [c] + v)[|cur + [c] + v| - 1] == c
  {
    assert s[1..] == v + t;
    assert s == [c] + (v + t);
    assert (cur + [c] + v) + t == cur + ([c] + (v + t));
  }

  lemma ConsTail(cur: string, s: string)
    requires s != []
    ensures cur + [s[0]] + s[1..] == cur + s
  {
  }

  /** A string ending in `t` after a non-empty `u` has `u`'s last character just
      before `t`. */
  lemma ConcatSuffix(u: string, t: string, w: string)
    requires u + t == w
    ensures IsSuffix(t, w)
    ensures u != [] ==> w[|w| - |t| - 1] == u[|u| - 1]
  {
    assert w[|u|..] == t;
  }

  lemma {:induction false} LastPartWhole(s: string, c: char, cur: string)
    requires NoChar(s, c)
    ensures LastPart(s, c, cur) == cur + s
    decreases |s|
  {
    if s != [] {
      assert s[0] != c;
      assert !([c] <= s);
      LastPartWhole(s[1..], c, cur + [s[0]]);
      assert cur + [s[0]] + s[1..] == cur + s;
    }
  }

  /** The first segment of a split is a prefix of the string that holds no
      separator character. */
  lemma {:induction false} FirstSegmentShape(s: string, c: char)
    ensures var t := FirstSegment(s, [c]);
      NoChar(t, c) && t <= s && (|t| < |s| ==> s[|t|] == c)
  {
    FirstSegmentFrom(s, c, []);
  }

  lemma {:induction false} FirstSegmentFrom(s: string, c: char, cur: string)
    requires NoChar(cur, c)
    ensures var t := SplitFrom(s, [c], cur)[0];
      NoChar(t, c) && t <= cur + s && (|t| < |cur| + |s| ==> (cur + s)[|t|] == c)
    decreases |s|
  {
    if s == [] {
    } else if [c] <= s {
    } else {
      FirstSegmentFrom(s[1..], c, cur + [s[0]]);
      assert cur + [s[0]] + s[1..] == cur + s;
    }
  }

  // ---------------------------------------------------------------------------
  // Placeholders: `$NAME` patterns whose only `$` is the first character

  lemma {:induction false} ReplaceAllNoDollarPrefix(z: string, w: string, p: string, r: string)
    requires DollarHeaded(p) && NoChar(z, '$')
    ensures ReplaceAll(z + w, p, r) == z + ReplaceAll(w, p, r)
    decreases |z|
  {
    if z == [] {
      assert z + w == w;
    } else {
      assert (z + w)[0] == z[0] != '$';
      assert !(p <= z + w);
      assert (z + w)[1..] == z[1..] + w;
      ReplaceAllNoDollarPrefix(z[1..], w, p, r);
      assert z == [z[0]] + z[1..];
    }
  }

  /** No occurrence of a placeholder spans a point where a `$` begins, so the
      replacement can be done on either side separately. */
  lemma {:induction false} ReplaceAllSplitsAtDollar(x: string, y: string, p: string, r: string)
    requires DollarHeaded(p) && (y == [] || y[0] == '$')
    ensures ReplaceAll(x + y, p, r) == ReplaceAll(x, p, r) + ReplaceAll(y, p, r)
    decreases |x|
  {
    if x == [] {
      assert x + y == y;
    } else if p <= x + y {
      if y != [] {
        assert (x + y)[|x|] == '$';
      }
      assert |p| <= |x|;
      assert (x + y)[..|p|] == x[..|p|];
      assert p <= x;
      assert (x + y)[|p|..] == x[|p|..] + y;
      ReplaceAllSplitsAtDollar(x[|p|..], y, p, r);
    } else {
      assert !(p <= x);
      assert (x + y)[1..] == x[1..] + y;
      ReplaceAllSplitsAtDollar(x[1..], y, p, r);
    }
  }

  /** Replacing one placeholder leaves an occurrence of a different one intact. */
  lemma ReplaceAllKeepsOtherPlaceholder(a: string, q: string, b: string, p: string, r: string)
    requires DollarHeaded(p) && DollarHeaded(q) && !(p <= q) && !(q <= p)
    ensures ReplaceAll(a + q + b, p, r) == ReplaceAll(a, p, r) + q + ReplaceAll(b, p, r)
  {
    assert a + q + b == a + (q + b);
    ReplaceAllSplitsAtDollar(a, q + b, p, r);
    assert !(p <= q + b);
    assert (q + b)[1..] == q[1..] + b;
    assert NoChar(q[1..], '$');
    ReplaceAllNoDollarPrefix(q[1..], b, p, r);
    assert [q[0]] + q[1..] == q;
  }

  lemma OccursInMiddle(a: string, q: string, b: string)
    ensures Occurs(a + q + b, q)
  {
    assert OccursAt(a + q + b, q, |a|) by {
      assert (a + q + b)[|a|..|a| + |q|] == q;
    }
  }

  lemma OccursSplit(s: string, q: string) returns (a: string, b: string)
    requires Occurs(s, q)
    ensures s == a + q + b
  {
    var i := IndexOf(s, q);
    a, b := s[..i], s[i + |q|..];
    assert s == s[..i] + s[i..i + |q|] + s[i + |q|..];
  }

  /** A placeholder present before replacing a different placeholder is present after it. */
  lemma ReplaceAllPreservesPlaceholder(s: string, q: string, p: string, r: string)
    requires DollarHeaded(p) && DollarHeaded(q) && !(p <= q) && !(q <= p)
    requires Occurs(s, q)
    ensures Occurs(ReplaceAll(s, p, r), q)
  {
    var a, b := OccursSplit(s, q);
    ReplaceAllKeepsOtherPlaceholder(a, q, b, p, r);
    OccursInMiddle(ReplaceAll(a, p, r), q, ReplaceAll(b, p, r));
  }

  /** A first-only replacement of a pattern made of character `c` keeps every
      occurrence of a string that does not contain `c`. */
  lemma ReplaceFirstPreservesDisjoint(s: string, q: string, p: string, r: string, c: char)
    requires p != [] && (forall i :: 0 <= i < |p| ==> p[i] == c) && NoChar(q, c) && q != []
    requires Occurs(s, q)
    ensures Occurs(ReplaceFirst(s, p, r), q)
  {
    var a, b := OccursSplit(s, q);
    if Occurs(s, p) {
      var i := IndexOf(s, p);
      MatchAvoidsOccurrence(a, q, b, i, p, c);
      assert ReplaceFirst(s, p, r) == s[..i] + r + s[i + |p|..];
      if i + |p| <= |a| {
        ReplaceBeforeOccurrence(a, q, b, i, p, r);
      } else {
        ReplaceAfterOccurrence(a, q, b, i, p, r);
      }
    } else {
      OccursInMiddle(a, q, b);
    }
  }

  lemma MatchAvoidsOccurrence(a: string, q: string, b: string, i: nat, p: string, c: char)
    requires p != [] && (forall k :: 0 <= k < |p| ==> p[k] == c) && NoChar(q, c) && q != []
    requires OccursAt(a + q + b, p, i)
    ensures i + |p| <= |a| || |a| + |q| <= i
  {
    var s := a + q + b;
    var j := if i >= |a| then i else |a|;
    assert forall k :: |a| <= k < |a| + |q| ==> s[k] == q[k - |a|];
    assert forall k :: i <= k < i + |p| ==> s[k] == p[k - i];
    var atJ := s[j];
  }

  lemma ReplaceBeforeOccurrence(a: string, q: string, b: string, i: nat, p: string, r: string)
    requires i + |p| <= |a|
    ensures var s := a + q + b; Occurs(s[..i] + r + s[i + |p|..], q)
  {
    var s := a + q + b;
    assert s[..i] == a[..i];
    assert s[i + |p|..] == a[i + |p|..] + q + b;
    OccursInMiddle(a[..i] + r + a[i + |p|..], q, b);
    assert a[..i] + r + a[i + |p|..] + q + b == s[..i] + r + s[i + |p|..];
  }

  lemma ReplaceAfterOccurrence(a: string, q: string, b: string, i: nat, p: string, r: string)
    requires |a| + |q| <= i && i + |p| <= |a| + |q| + |b|
    ensures var s := a + q + b; Occurs(s[..i] + r + s[i + |p|..], q)
  {
    var s := a + q + b;
    var mid := s[|a| + |q|..i];
    assert s[..i] == a + q + mid;
    OccursInMiddle(a, q, mid + r + s[i + |p|..]);
    assert a + q + (mid + r + s[i + |p|..]) == s[..i] + r + s[i + |p|..];
  }

  /** Replacing a placeholder that separates pieces without it puts the value
      between the same pieces. */
  lemma {:induction false} ReplaceAllJoin(parts: seq<string>, p: string, r: string)
    requires DollarHeaded(p)
    requires forall i :: 0 <= i < |parts| ==> !Occurs(parts[i], p)
    ensures ReplaceAll(Join(parts, p), p, r) == Join(parts, r)
  {
    if parts == [] {
    } else if |parts| == 1 {
      ReplaceAllNoOccurrence(parts[0], p, r);
    } else {
      var head, rest := parts[0], Join(parts[1..], p);
      assert Join(parts, p) == head + (p + rest);
      ReplaceAllSplitsAtDollar(head, p + rest, p, r);
      ReplaceAllNoOccurrence(head, p, r);
      ReplaceAllPlaceholderFirst(rest, p, r);
      ReplaceAllJoin(parts[1..], p, r);
      assert Join(parts, r) == head + r + Join(parts[1..], r);
    }
  }

  lemma ReplaceAllPlaceholderFirst(rest: string, p: string, r: string)
    requires p != []
    ensures ReplaceAll(p + rest, p, r) == r + ReplaceAll(rest, p, r)
  {
    assert p <= p + rest;
    assert (p + rest)[|p|..] == rest;
  }

  /** A replacement made while the pattern occurs puts the replacement text in
      the result: the scan replaces at least the first occurrence. */
  lemma {:induction false} ReplaceAllInserts(s: string, p: string, r: string)
    requires p != [] && Occurs(s, p)
    ensures Occurs(ReplaceAll(s, p, r), r)
    decreases |s|
  {
    if p <= s {
      OccursInMiddle([], r, ReplaceAll(s[|p|..], p, r));
      assert [] + r + ReplaceAll(s[|p|..], p, r) == ReplaceAll(s, p, r);
    } else {
      assert IndexOf(s[1..], p) >= 0;
      ReplaceAllInserts(s[1..], p, r);
      OccursCons(s[0], ReplaceAll(s[1..], p, r), r);
    }
  }

  lemma OccursCons(x: char, t: string, q: string)
    requires Occurs(t, q)
    ensures Occurs([x] + t, q)
  {
    var i := IndexOf(t, q);
    assert ([x] + t)[i + 1..i + 1 + |q|] == t[i..i + |q|];
    assert OccursAt([x] + t, q, i + 1);
  }

  /** A pattern made of one character `c` cannot match across a point where a
      character other than `c` begins. */
  lemma {:induction false} ReplaceAllSplitsAtOther(x: string, y: string, p: string, r: string, c: char)
    requires p != [] && (forall i :: 0 <= i < |p| ==> p[i] == c) && (y == [] || y[0] != c)
    ensures ReplaceAll(x + y, p, r) == ReplaceAll(x, p, r) + ReplaceAll(y, p, r)
    decreases |x|
  {
    if x == [] {
      assert x + y == y;
    } else if p <= x + y {
      AllCharPrefixWithin(x, y, p, c);
      PrefixWithin(x, y, p);
      ReplaceAllSplitsAtOther(x[|p|..], y, p, r, c);
    } else {
      HeadOutside(x, y, p);
      ReplaceAllSplitsAtOther(x[1..], y, p, r, c);
    }
  }

  lemma PrefixWithin(x: string, y: string, p: string)
    requires |p| <= |x| && p <= x + y
    ensures p <= x && (x + y)[|p|..] == x[|p|..] + y
  {
    assert (x + y)[..|p|] == x[..|p|];
  }

  lemma HeadOutside(x: string, y: string, p: string)
    requires x != [] && !(p <= x + y)
    ensures !(p <= x) && (x + y)[0] == x[0] && (x + y)[1..] == x[1..] + y
  {
  }

  lemma AllCharPrefixWithin(x: string, y: string, p: string, c: char)
    requires (forall i :: 0 <= i < |p| ==> p[i] == c) && (y == [] || y[0] != c) && p <= x + y
    ensures |p| <= |x|
  {
    assert forall i :: 0 <= i < |p| ==> (x + y)[i] == c;
    assert y != [] ==> (x + y)[|x|] == y[0];
  }

  /** Text without the pattern's first character is copied unchanged. */
  lemma {:induction false} ReplaceAllNoCharPrefix(z: string, w: string, p: string, r: string, c: char)
    requires p != [] && p[0] == c && NoChar(z, c)
    ensures ReplaceAll(z + w, p, r) == z + ReplaceAll(w, p, r)
    decreases |z|
  {
    if z == [] {
      assert z + w == w;
    } else {
      assert (z + w)[0] == z[0] != c;
      assert !(p <= z + w);
      assert (z + w)[1..] == z[1..] + w;
      ReplaceAllNoCharPrefix(z[1..], w, p, r, c);
      assert z == [z[0]] + z[1..];
    }
  }

  /** Replacing every run of a pattern made of character `c` keeps every
      occurrence of a string that does not contain `c`. */
  lemma ReplaceAllPreservesDisjoint(s: string, q: string, p: string, r: string, c: char)
    requires p != [] && (forall i :: 0 <= i < |p| ==> p[i] == c) && NoChar(q, c) && q != []
    requires Occurs(s, q)
    ensures Occurs(ReplaceAll(s, p, r), q)
  {
    var a, b := OccursSplit(s, q);
    ReplaceAllAround(a, q, b, p, r, c);
    OccursInMiddle(ReplaceAll(a, p, r), q, ReplaceAll(b, p, r));
  }

  /** Text without `c` between two stretches is copied unchanged by a
      replacement of a pattern made of `c`. */
  lemma ReplaceAllAround(a: string, q: string, b: string, p: string, r: string, c: char)
    requires p != [] && (forall i :: 0 <= i < |p| ==> p[i] == c) && NoChar(q, c) && q != []
    ensures ReplaceAll(a + q + b, p, r) == ReplaceAll(a, p, r) + q + ReplaceAll(b, p, r)
  {
    assert a + q + b == a + (q + b);
    assert (q + b)[0] == q[0] != c;
    ReplaceAllSplitsAtOther(a, q + b, p, r, c);
    ReplaceAllNoCharPrefix(q, b, p, r, c);
    var ra, rb := ReplaceAll(a, p, r), ReplaceAll(b, p, r);
    assert ra + (q + rb) == ra + q + rb;
  }

  lemma {:induction false} NatToStringRoundTrip(n: nat)
    ensures CanonicalIndex(NatToString(n)) == Some(n)
  {
    NatToStringValue(n);
  }

  lemma {:induction false} NatToStringValue(n: nat)
    ensures DigitsValue(NatToString(n)) == n
  {
    if n >= 10 {
      NatToStringValue(n / 10);
      var s := NatToString(n);
      assert s[..|s| - 1] == NatToString(n / 10);
    }
  }
}
