/** The parsed OpenAPI document as the generators see it after YAML parsing, and
    the JavaScript operations they apply to it: property access, truthiness,
    `for…in` and `Object.keys`, `Object.entries(…)[0][1]`, template-literal
    rendering, loose equality with a word, `JSON.stringify` and `parseInt`. */
module JsValues {
  import opened JsStrings

  /** A JSON-like value. An object keeps its entries in document order, which is
      the order `for…in`, `Object.keys` and `Object.entries` report. */
  datatype Json =
    | JNull
    | JBool(b: bool)
    | JNum(n: int)
    | JStr(s: string)
    | JArr(items: seq<Json>)
    | JObj(fields: seq<(string, Json)>)

  /** A JavaScript value that may be `undefined` (`None`). */
  type Value = Option<Json>

  /** The outcome of an expression that may throw a `TypeError`; usable with `:-`. */
  datatype Result<+T> = Ok(value: T) | TypeError {
    predicate IsFailure() { TypeError? }

    function PropagateFailure<U>(): Result<U>
      requires TypeError?
    {
      TypeError
    }

    function Extract(): T
      requires Ok?
    {
      value
    }
  }

  /** `if (v)` and `v || d`: the falsy values are undefined, null, false, 0 and "". */
  predicate Truthy(v: Value) {
    match v
    case None => false
    case Some(j) =>
      match j
      case JNull => false
      case JBool(b) => b
      case JNum(n) => n != 0
      case JStr(s) => s != []
      case _ => true
  }

  /** `v || d`. */
  function Or(v: Value, d: Json): (r: Json)
    ensures Truthy(v) ==> Some(r) == v
    ensures !Truthy(v) ==> r == d
  {
    if Truthy(v) then v.value else d
  }

  /** The first entry with key `k`. */
  function Lookup(fields: seq<(string, Json)>, k: string): (r: Value)
    ensures r.Some? ==> exists i :: 0 <= i < |fields| && fields[i] == (k, r.value)
    ensures r.None? ==> forall i :: 0 <= i < |fields| ==> fields[i].0 != k
  {
    if fields == [] then None
    else if fields[0].0 == k then Some(fields[0].1)
    else
      var r := Lookup(fields[1..], k);
      assert forall i :: 1 <= i < |fields| ==> fields[i] == fields[1..][i - 1];
      r
  }

  /** `j[k]` for a value that is neither null nor undefined: an object's own entry,
      an array element or a character of a string at a canonical index, or the
      length of an array or string. */
  function Get(j: Json, k: string): Value {
    match j
    case JObj(fields) => Lookup(fields, k)
    case JArr(items) =>
      if k == "length" then Some(JNum(|items|))
      else (match CanonicalIndex(k)
            case Some(i) => if i < |items| then Some(items[i]) else None
            case None => None)
    case JStr(s) =>
      if k == "length" then Some(JNum(|s|))
      else (match CanonicalIndex(k)
            case Some(i) => if i < |s| then Some(JStr([s[i]])) else None
            case None => None)
    case _ => None
  }

  /** `v.k` / `v[k]`: reading a property of undefined or null throws. */
  function Prop(v: Value, k: string): (r: Result<Value>)
    ensures r.TypeError? <==> (v.None? || v == Some(JNull))
  {
    match v
    case None => TypeError
    case Some(j) => if j == JNull then TypeError else Ok(Get(j, k))
  }

  /** The keys `for (k in v)` visits, which are also `Object.keys(v)` for a value
      that is not null or undefined: the entries of an object, the indices of an
      array or string, nothing for any other value. */
  function ForInKeys(v: Value): (ks: seq<string>) {
    match v
    case Some(JObj(fields)) => seq(|fields|, i requires 0 <= i < |fields| => fields[i].0)
    case Some(JArr(items)) => seq(|items|, i requires 0 <= i < |items| => NatToString(i))
    case Some(JStr(s)) => seq(|s|, i requires 0 <= i < |s| => NatToString(i))
    case _ => []
  }

  /** `Object.entries(v)[0][1]`: the value of the first entry, or a TypeError when
      `v` is null or undefined or has no entries. */
  function FirstEntryValue(v: Value): Result<Json> {
    match v
    case Some(JObj(fields)) => if fields == [] then TypeError else Ok(fields[0].1)
    case Some(JArr(items)) => if items == [] then TypeError else Ok(items[0])
    case Some(JStr(s)) => if s == [] then TypeError else Ok(JStr([s[0]]))
    case _ => TypeError
  }

  /** `String(j)`, as a template literal `${j}` renders a defined value. */
  function JsonText(j: Json): string {
    match j
    case JNull => "null"
    case JBool(b) => if b then "true" else "false"
    case JNum(n) => IntToString(n)
    case JStr(s) => s
    case JArr(items) =>
      Join(seq(|items|, i requires 0 <= i < |items| => if items[i] == JNull then "" else JsonText(items[i])), ",")
    case JObj(_) => "[object Object]"
  }

  /** `${v}` for a value that may be undefined. */
  function Text(v: Value): string {
    match v
    case None => "undefined"
    case Some(j) => JsonText(j)
  }

  /** An element of an array joined by `Array.prototype.join`: null and undefined
      become the empty string. */
  function JoinedText(v: Value): string {
    match v
    case None => ""
    case Some(j) => if j == JNull then "" else JsonText(j)
  }

  predicate IsWord(w: string) {
    w != [] && forall i :: 0 <= i < |w| ==> 'a' <= w[i] <= 'z'
  }

  /** `v == w` for a lower-case word `w`: numbers, booleans, null and undefined
      never equal it (the word is not numeric); objects and arrays compare their
      string form. */
  function LooseEqualsWord(v: Value, w: string): bool
    requires IsWord(w)
  {
    match v
    case Some(JStr(s)) => s == w
    case Some(JArr(_)) => JsonText(v.value) == w
    case Some(JObj(_)) => JsonText(v.value) == w
    case _ => false
  }

  /** `v === w`. */
  predicate StrictEqualsString(v: Value, w: string) {
    v == Some(JStr(w))
  }

  // ---------------------------------------------------------------------------
  // JSON.stringify

  function HexDigit(d: nat): char
    requires d < 16
  {
    "0123456789abcdef"[d]
  }

  /** The escape `JSON.stringify` writes for one character of a string. */
  function EscapeChar(c: char): string {
    if c == '"' then "\\\""
    else if c == '\\' then "\\\\"
    else if c as int == 0x08 then "\\b"
    else if c as int == 0x0C then "\\f"
    else if c == '\n' then "\\n"
    else if c == '\r' then "\\r"
    else if c == '\t' then "\\t"
    else if c < ' ' then "\\u00" + [HexDigit(c as int / 16), HexDigit(c as int % 16)]
    else [c]
  }

  function Escape(s: string): string {
    if s == [] then [] else EscapeChar(s[0]) + Escape(s[1..])
  }

  function Quote(s: string): string {
    "\"" + Escape(s) + "\""
  }

  /** `JSON.stringify(j)` for a defined value (no indentation). */
  function Stringify(j: Json): string {
    match j
    case JNull => "null"
    case JBool(b) => if b then "true" else "false"
    case JNum(n) => IntToString(n)
    case JStr(s) => Quote(s)
    case JArr(items) =>
      "[" + Join(seq(|items|, i requires 0 <= i < |items| => Stringify(items[i])), ",") + "]"
    case JObj(fields) =>
      "{" + Join(seq(|fields|, i requires 0 <= i < |fields| => Quote(fields[i].0) + ":" + Stringify(fields[i].1)), ",") + "}"
  }

  /** `JSON.stringify(v)` returns undefined for undefined, and the generators then
      call `.split` on it, which throws. */
  function StringifyValue(v: Value): Result<string> {
    match v
    case None => TypeError
    case Some(j) => Ok(Stringify(j))
  }

  // ---------------------------------------------------------------------------
  // parseInt (one argument)

  /** The characters `parseInt` skips before the number (WhiteSpace and
      LineTerminator of ECMAScript). */
  predicate IsJsSpace(c: char) {
    var n := c as int;
    n == 0x09 || n == 0x0A || n == 0x0B || n == 0x0C || n == 0x0D || n == 0x20 || n == 0xA0
    || n == 0x1680 || (0x2000 <= n <= 0x200A) || n == 0x2028 || n == 0x2029 || n == 0x202F
    || n == 0x205F || n == 0x3000 || n == 0xFEFF
  }

  function TrimStart(s: string): string {
    if s != [] && IsJsSpace(s[0]) then TrimStart(s[1..]) else s
  }

  /** The value of `c` as a digit in base 10 or 16, if it is one. */
  function DigitValue(c: char, hex: bool): Option<nat> {
    if '0' <= c <= '9' then Some(c as int - '0' as int)
    else if hex && 'a' <= c <= 'f' then Some(c as int - 'a' as int + 10)
    else if hex && 'A' <= c <= 'F' then Some(c as int - 'A' as int + 10)
    else None
  }

  /** The longest prefix of digits. */
  function LeadingDigits(s: string, hex: bool): (d: string)
    ensures d <= s
    ensures forall i :: 0 <= i < |d| ==> DigitValue(d[i], hex).Some?
    ensures |d| < |s| ==> DigitValue(s[|d|], hex).None?
  {
    if s != [] && DigitValue(s[0], hex).Some? then [s[0]] + LeadingDigits(s[1..], hex) else []
  }

  function RadixValue(d: string, hex: bool): nat
    requires forall i :: 0 <= i < |d| ==> DigitValue(d[i], hex).Some?
  {
    if d == [] then 0
    else RadixValue(d[..|d| - 1], hex) * (if hex then 16 else 10) + DigitValue(d[|d| - 1], hex).value
  }

  /** `parseInt(s)`: `None` is NaN. Leading white space and one sign are skipped; a
      `0x` or `0X` prefix selects base 16; the longest run of digits that follows
      is the number, and no digits at all give NaN. */
  function ParseInt(s: string): Option<int> {
    var t := TrimStart(s);
    var negative := t != [] && t[0] == '-';
    var u := if t != [] && (t[0] == '-' || t[0] == '+') then t[1..] else t;
    var hex := |u| >= 2 && u[0] == '0' && (u[1] == 'x' || u[1] == 'X');
    var d := LeadingDigits(if hex then u[2..] else u, hex);
    var n: int := RadixValue(d, hex);
    if d == [] then None else Some(if negative then -n else n)
  }

  /** `if (parseInt(s))`: NaN and zero are falsy. */
  predicate ParseIntTruthy(s: string) {
    var n := ParseInt(s);
    n.Some? && n.value != 0
  }

  // ---------------------------------------------------------------------------
  // Lemmas

  /** Array and string keys visited by `for…in` read back the element. */
  lemma ForInArrayKeys(items: seq<Json>, i: nat)
    requires i < |items|
    ensures ForInKeys(Some(JArr(items)))[i] == NatToString(i)
    ensures Get(JArr(items), NatToString(i)) == Some(items[i])
  {
    NatToStringRoundTrip(i);
    assert NatToString(i) != "length" by {
      assert IsDigits(NatToString(i));
      assert !IsDigit('l');
    }
  }

  /** A key no entry has is not found. */
  lemma {:induction false} LookupMiss(fields: seq<(string, Json)>, k: string)
    requires forall i :: 0 <= i < |fields| ==> fields[i].0 != k
    ensures Lookup(fields, k) == None
  {
    if fields != [] {
      assert forall i :: 0 <= i < |fields[1..]| ==> fields[1..][i] == fields[i + 1];
      LookupMiss(fields[1..], k);
    }
  }

  /** The first entry with the key is found, whatever follows it. */
  lemma {:induction false} LookupHit(before: seq<(string, Json)>, k: string, v: Json, after: seq<(string, Json)>)
    requires forall i :: 0 <= i < |before| ==> before[i].0 != k
    ensures Lookup(before + [(k, v)] + after, k) == Some(v)
  {
    var fields := before + [(k, v)] + after;
    if before == [] {
      assert fields[0] == (k, v);
    } else {
      assert fields[0] == before[0];
      assert fields[1..] == before[1..] + [(k, v)] + after;
      LookupHit(before[1..], k, v, after);
    }
  }

  /** A number is falsy for parseInt exactly when its digits are all zeros. */
  lemma {:induction false} RadixValueZero(d: string, hex: bool)
    requires forall i :: 0 <= i < |d| ==> DigitValue(d[i], hex).Some?
    ensures RadixValue(d, hex) == 0 <==> forall i :: 0 <= i < |d| ==> d[i] == '0'
  {
    if d != [] {
      var init := d[..|d| - 1];
      RadixValueZero(init, hex);
      assert forall i :: 0 <= i < |init| ==> init[i] == d[i];
    }
  }
}
