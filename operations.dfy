/** The walk every generator makes over the parsed document: the host
    `doc.servers[0].url`, then each `path` of `for (const path in doc.paths)` and
    each `method` of `for (const method in operations)`, in document order,
    keeping the methods the generator asks for. */
module Operations {
  import opened JsStrings
  import opened JsValues
  import opened EmittedLines

  /** `doc.servers[0].url`, read before the loops; it throws when the document,
      its `servers` or the first server is missing. */
  function Host(doc: Value): Result<Value> {
    var servers :- Prop(doc, "servers");
    var first :- Prop(servers, "0");
    Prop(first, "url")
  }

  /** `v[k]` where `v` is known not to throw: a missing container has no members. */
  function Member(v: Value, k: string): Value {
    if v.Some? then Get(v.value, k) else None
  }

  /** One operation the loops reach: its path, its method and `operations[method]` (`verb` is the method key). */
  datatype Selected = Selected(path: string, verb: string, operation: Value)

  /** `desiredMethods.includes(method)`; `None` is a generator without the filter. */
  predicate Wanted(desired: Option<seq<string>>, verb: string) {
    desired.None? || verb in desired.value
  }

  /** The operations the inner loop reaches for the method keys `keys` of `path`. */
  function MethodsOf(path: string, operations: Value, keys: seq<string>, desired: Option<seq<string>>): seq<Selected> {
    if keys == [] then []
    else
      var verb := keys[|keys| - 1];
      MethodsOf(path, operations, keys[..|keys| - 1], desired)
        + (if Wanted(desired, verb) then [Selected(path, verb, Member(operations, verb))] else [])
  }

  /** The operations the two loops reach for the path keys `keys`. */
  function PathsOf(paths: Value, keys: seq<string>, desired: Option<seq<string>>): seq<Selected> {
    if keys == [] then []
    else
      var path := keys[|keys| - 1];
      var operations := Member(paths, path);
      PathsOf(paths, keys[..|keys| - 1], desired) + MethodsOf(path, operations, ForInKeys(operations), desired)
  }

  /** Every operation the loops reach, in the order they reach them. */
  function SelectedOperations(paths: Value, desired: Option<seq<string>>): seq<Selected> {
    PathsOf(paths, ForInKeys(paths), desired)
  }

  /** Applying a step that may throw to every selected operation in turn: the
      first throw ends the run. */
  function Each<T>(step: Selected -> Result<T>, ops: seq<Selected>): Result<seq<T>> {
    if ops == [] then Ok([])
    else
      var done :- Each(step, ops[..|ops| - 1]);
      var last :- step(ops[|ops| - 1]);
      Ok(done + [last])
  }

  // ---------------------------------------------------------------------------
  // Lemmas

  lemma {:induction false} MethodsOfMembers(path: string, operations: Value, keys: seq<string>, desired: Option<seq<string>>, s: Selected)
    ensures s in MethodsOf(path, operations, keys, desired) <==>
      s.path == path && s.verb in keys && Wanted(desired, s.verb) && s.operation == Member(operations, s.verb)
  {
    if keys != [] {
      var n := |keys| - 1;
      MethodsOfMembers(path, operations, keys[..n], desired, s);
      assert keys == keys[..n] + [keys[n]];
    }
  }

  lemma {:induction false} PathsOfMembers(paths: Value, keys: seq<string>, desired: Option<seq<string>>, s: Selected)
    ensures s in PathsOf(paths, keys, desired) <==>
      && s.path in keys
      && s.verb in ForInKeys(Member(paths, s.path))
      && Wanted(desired, s.verb)
      && s.operation == Member(Member(paths, s.path), s.verb)
  {
    if keys != [] {
      var n := |keys| - 1;
      PathsOfMembers(paths, keys[..n], desired, s);
      var path := keys[n];
      var operations := Member(paths, path);
      MethodsOfMembers(path, operations, ForInKeys(operations), desired, s);
      var init, last := PathsOf(paths, keys[..n], desired), MethodsOf(path, operations, ForInKeys(operations), desired);
      assert PathsOf(paths, keys, desired) == init + last;
      assert s in init + last <==> s in init || s in last;
      assert keys == keys[..n] + [path];
      assert s.path in keys <==> s.path in keys[..n] || s.path == path;
    }
  }

  /** The loops reach exactly the operations under a path of the document whose
      method the generator wants. */
  lemma SelectedOperationsMembers(paths: Value, desired: Option<seq<string>>, s: Selected)
    ensures s in SelectedOperations(paths, desired) <==>
      && s.path in ForInKeys(paths)
      && s.verb in ForInKeys(Member(paths, s.path))
      && Wanted(desired, s.verb)
      && s.operation == Member(Member(paths, s.path), s.verb)
  {
    PathsOfMembers(paths, ForInKeys(paths), desired, s);
  }

  /** A run that does not throw produces one result per operation, in order; it
      throws exactly when some operation's step throws. */
  lemma {:induction false} EachResults<T>(step: Selected -> Result<T>, ops: seq<Selected>)
    ensures Each(step, ops).Ok? <==> forall i :: 0 <= i < |ops| ==> step(ops[i]).Ok?
    ensures Each(step, ops).Ok? ==>
      |Each(step, ops).value| == |ops| && forall i :: 0 <= i < |ops| ==> Each(step, ops).value[i] == step(ops[i]).value
  {
    if ops != [] {
      var n := |ops| - 1;
      EachResults(step, ops[..n]);
      assert forall i :: 0 <= i < n ==> ops[..n][i] == ops[i];
    }
  }

  /** Running the steps of one more operation extends the results by one. */
  lemma EachSnoc<T>(step: Selected -> Result<T>, ops: seq<Selected>, op: Selected)
    ensures Each(step, ops + [op]) ==
      if Each(step, ops).TypeError? || step(op).TypeError? then TypeError
      else Ok(Each(step, ops).value + [step(op).value])
  {
    assert (ops + [op])[..|ops|] == ops;
  }

  /** Once a step has thrown, running further operations does not recover. */
  lemma {:induction false} EachPrefixFails<T>(step: Selected -> Result<T>, ops: seq<Selected>, more: seq<Selected>)
    requires ops <= more && Each(step, ops).TypeError?
    ensures Each(step, more).TypeError?
    decreases |more|
  {
    if |more| > |ops| {
      var n := |more| - 1;
      assert ops <= more[..n];
      EachPrefixFails(step, ops, more[..n]);
    } else {
      assert ops == more;
    }
  }

  lemma {:induction false} MethodsOfPrefix(path: string, operations: Value, keys: seq<string>, j: nat, desired: Option<seq<string>>)
    requires j <= |keys|
    ensures MethodsOf(path, operations, keys[..j], desired) <= MethodsOf(path, operations, keys, desired)
    decreases |keys|
  {
    if j < |keys| {
      var n := |keys| - 1;
      assert keys[..n][..j] == keys[..j];
      MethodsOfPrefix(path, operations, keys[..n], j, desired);
    } else {
      assert keys[..j] == keys;
    }
  }

  lemma {:induction false} PathsOfPrefix(paths: Value, keys: seq<string>, i: nat, desired: Option<seq<string>>)
    requires i <= |keys|
    ensures PathsOf(paths, keys[..i], desired) <= PathsOf(paths, keys, desired)
    decreases |keys|
  {
    if i < |keys| {
      var n := |keys| - 1;
      assert keys[..n][..i] == keys[..i];
      PathsOfPrefix(paths, keys[..n], i, desired);
    } else {
      assert keys[..i] == keys;
    }
  }

  /** The operations the two loops have reached after the first `j` methods of
      the `i`-th path. */
  function Reached(paths: Value, keys: seq<string>, i: nat, j: nat, desired: Option<seq<string>>): seq<Selected>
    requires i < |keys| && j <= |ForInKeys(Member(paths, keys[i]))|
  {
    var operations := Member(paths, keys[i]);
    PathsOf(paths, keys[..i], desired) + MethodsOf(keys[i], operations, ForInKeys(operations)[..j], desired)
  }

  lemma ReachedStart(paths: Value, keys: seq<string>, i: nat, desired: Option<seq<string>>)
    requires i < |keys|
    ensures Reached(paths, keys, i, 0, desired) == PathsOf(paths, keys[..i], desired)
  {
    var operations := Member(paths, keys[i]);
    assert ForInKeys(operations)[..0] == [];
  }

  /** The inner loop reaches one more method: the operation is added when wanted. */
  lemma ReachedNext(paths: Value, keys: seq<string>, i: nat, j: nat, desired: Option<seq<string>>)
    requires i < |keys| && j < |ForInKeys(Member(paths, keys[i]))|
    ensures var operations := Member(paths, keys[i]);
      var verb := ForInKeys(operations)[j];
      Reached(paths, keys, i, j + 1, desired) == Reached(paths, keys, i, j, desired)
        + (if Wanted(desired, verb) then [Selected(keys[i], verb, Member(operations, verb))] else [])
  {
    var operations := Member(paths, keys[i]);
    var mkeys := ForInKeys(operations);
    assert mkeys[..j + 1][..j] == mkeys[..j];
  }

  /** The inner loop is done: the path's operations are all reached. */
  lemma ReachedEnd(paths: Value, keys: seq<string>, i: nat, desired: Option<seq<string>>)
    requires i < |keys|
    ensures Reached(paths, keys, i, |ForInKeys(Member(paths, keys[i]))|, desired) == PathsOf(paths, keys[..i + 1], desired)
  {
    var operations := Member(paths, keys[i]);
    var mkeys := ForInKeys(operations);
    assert mkeys[..|mkeys|] == mkeys;
    assert keys[..i + 1][..i] == keys[..i];
  }

  /** Where the two loops stand after the first `j` methods of the `i`-th path:
      the operations reached so far are a prefix of all the operations. */
  lemma LoopPrefix(paths: Value, keys: seq<string>, i: nat, j: nat, desired: Option<seq<string>>)
    requires i < |keys| && j <= |ForInKeys(Member(paths, keys[i]))|
    ensures Reached(paths, keys, i, j, desired) <= PathsOf(paths, keys, desired)
  {
    var operations := Member(paths, keys[i]);
    var mkeys := ForInKeys(operations);
    MethodsOfPrefix(keys[i], operations, mkeys, j, desired);
    PathsOfPrefix(paths, keys, i + 1, desired);
    assert keys[..i + 1][..i] == keys[..i];
    assert PathsOf(paths, keys[..i + 1], desired) == PathsOf(paths, keys[..i], desired) + MethodsOf(keys[i], operations, mkeys, desired);
  }

  /** The inner loop visits a wanted method: its step's result is appended, or
      its throw fails the whole walk. */
  lemma WalkVisit<T>(step: Selected -> Result<T>, paths: Value, keys: seq<string>, i: nat, j: nat, desired: Option<seq<string>>, done: seq<T>)
    requires i < |keys| && j < |ForInKeys(Member(paths, keys[i]))|
    requires Each(step, Reached(paths, keys, i, j, desired)) == Ok(done)
    requires Wanted(desired, ForInKeys(Member(paths, keys[i]))[j])
    ensures var operations := Member(paths, keys[i]);
      var verb := ForInKeys(operations)[j];
      var out := step(Selected(keys[i], verb, Member(operations, verb)));
      && (out.Ok? ==> Each(step, Reached(paths, keys, i, j + 1, desired)) == Ok(done + [out.value]))
      && (out.TypeError? ==> Each(step, PathsOf(paths, keys, desired)).TypeError?)
  {
    var operations := Member(paths, keys[i]);
    var verb := ForInKeys(operations)[j];
    var sel := Selected(keys[i], verb, Member(operations, verb));
    ReachedNext(paths, keys, i, j, desired);
    EachSnoc(step, Reached(paths, keys, i, j, desired), sel);
    if step(sel).TypeError? {
      LoopPrefix(paths, keys, i, j + 1, desired);
      EachPrefixFails(step, Reached(paths, keys, i, j + 1, desired), PathsOf(paths, keys, desired));
    }
  }

  /** The inner loop passes over a method that is not wanted. */
  lemma WalkSkip(paths: Value, keys: seq<string>, i: nat, j: nat, desired: Option<seq<string>>)
    requires i < |keys| && j < |ForInKeys(Member(paths, keys[i]))|
    requires !Wanted(desired, ForInKeys(Member(paths, keys[i]))[j])
    ensures Reached(paths, keys, i, j + 1, desired) == Reached(paths, keys, i, j, desired)
  {
    ReachedNext(paths, keys, i, j, desired);
  }

  // ---------------------------------------------------------------------------
  // The loops

  /** The two `for…in` loops over paths and methods, running `step` on every
      operation whose method is wanted; a step that throws ends the run. */
  method Walk<T>(step: Selected -> Result<T>, paths: Value, desired: Option<seq<string>>) returns (r: Result<seq<T>>)
    ensures r == Each(step, SelectedOperations(paths, desired))
  {
    var pathKeys := ForInKeys(paths);
    var done: seq<T> := [];
    var i := 0;
    assert pathKeys[..0] == [];
    while i < |pathKeys|
      invariant 0 <= i <= |pathKeys|
      invariant Each(step, PathsOf(paths, pathKeys[..i], desired)) == Ok(done)
    {
      var path := pathKeys[i];
      var operations := Member(paths, path);
      var methodKeys := ForInKeys(operations);
      ReachedStart(paths, pathKeys, i, desired);
      var j := 0;
      while j < |methodKeys|
        invariant 0 <= j <= |methodKeys|
        invariant Each(step, Reached(paths, pathKeys, i, j, desired)) == Ok(done)
      {
        var verb := methodKeys[j];
        if Wanted(desired, verb) {
          var out := step(Selected(path, verb, Member(operations, verb)));
          WalkVisit(step, paths, pathKeys, i, j, desired, done);
          if out.TypeError? {
            return TypeError;
          }
          done := done + [out.value];
        } else {
          WalkSkip(paths, pathKeys, i, j, desired);
        }
        j := j + 1;
      }
      ReachedEnd(paths, pathKeys, i, desired);
      i := i + 1;
    }
    assert pathKeys[..i] == pathKeys;
    return Ok(done);
  }

  // ---------------------------------------------------------------------------
  // The response loop

  /** The response codes that get a block: every `for (const responseCode in
      responses)` key except `default`, which both test generators skip. */
  function NonDefault(codes: seq<string>): seq<string> {
    if codes == [] then []
    else NonDefault(codes[..|codes| - 1]) + (if codes[|codes| - 1] == "default" then [] else [codes[|codes| - 1]])
  }

  lemma {:induction false} NonDefaultMembers(codes: seq<string>, c: string)
    ensures c in NonDefault(codes) <==> c in codes && c != "default"
  {
    if codes != [] {
      var n := |codes| - 1;
      NonDefaultMembers(codes[..n], c);
      assert codes == codes[..n] + [codes[n]];
    }
  }

  /** The `for (const responseCode in responses)` loop of both test generators:
      the lines `block` writes for every code except `default`, in order; a code
      whose lines throw ends the loop, and nothing catches it. */
  function ResponseLoop(block: string -> Result<seq<string>>, codes: seq<string>): Result<seq<string>> {
    if codes == [] then Ok([])
    else
      var n := |codes| - 1;
      var done :- ResponseLoop(block, codes[..n]);
      if codes[n] == "default" then Ok(done)
      else
        var lines :- block(codes[n]);
        Ok(done + lines)
  }

  /** One more response code: skipped if `default`, else its lines or its throw. */
  lemma ResponseLoopStep(block: string -> Result<seq<string>>, codes: seq<string>, i: nat)
    requires i < |codes| && ResponseLoop(block, codes[..i]).Ok?
    ensures ResponseLoop(block, codes[..i + 1]) ==
      if codes[i] == "default" then ResponseLoop(block, codes[..i])
      else if block(codes[i]).TypeError? then TypeError
      else Ok(ResponseLoop(block, codes[..i]).value + block(codes[i]).value)
  {
    assert codes[..i + 1][..i] == codes[..i];
  }

  /** Once a code's lines have thrown, the remaining codes do not recover. */
  lemma {:induction false} ResponseLoopPrefixFails(block: string -> Result<seq<string>>, codes: seq<string>, i: nat)
    requires i <= |codes| && ResponseLoop(block, codes[..i]).TypeError?
    ensures ResponseLoop(block, codes).TypeError?
    decreases |codes|
  {
    if i < |codes| {
      var n := |codes| - 1;
      assert codes[..n][..i] == codes[..i];
      ResponseLoopPrefixFails(block, codes[..n], i);
    } else {
      assert codes[..i] == codes;
    }
  }

  /** When every code's lines read back, through `pre` and `post`, as that code
      alone, the loop's lines read back as the codes other than `default`, in
      order, one each. */
  lemma {:induction false} ResponseLoopReadBack(block: string -> Result<seq<string>>, codes: seq<string>, pre: string, post: string)
    requires forall c :: c != "default" && block(c).Ok? ==> Extract(block(c).value, pre, post) == [c]
    ensures ResponseLoop(block, codes).Ok? ==> Extract(ResponseLoop(block, codes).value, pre, post) == NonDefault(codes)
  {
    if codes != [] {
      var n := |codes| - 1;
      ResponseLoopReadBack(block, codes[..n], pre, post);
      if ResponseLoop(block, codes).Ok? && codes[n] != "default" {
        ExtractAppend(ResponseLoop(block, codes[..n]).value, block(codes[n]).value, pre, post);
      }
    }
  }
}
