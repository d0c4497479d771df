/**
 * src/Validation/Validation.ts: the shape of a validation error, looking an
 * error up by key, and running a list of keyed validators.
 */
module Validation {
  import opened Base

  datatype ValidationError = ValidationError(key: string, message: string)

  /**
   * A validator: the key its error is filed under and the callback that
   * checks it. The callback's (awaited) result is a message or nothing.
   */
  datatype Validator = Validator(key: string, run: () -> Option<string>)

  /** A validator after its callback ran: its key and what the callback returned. */
  datatype Invocation = Invocation(key: string, message: Option<string>)

  /** JavaScript truthiness of a nullable message: present and not the empty string. */
  predicate Truthy(m: Option<string>) {
    m.Some? && m.value != ""
  }

  /** `i` is the first position of `errors` whose key is `key`. */
  predicate FirstWithKey(errors: seq<ValidationError>, key: string, i: nat) {
    i < |errors| && errors[i].key == key && forall j :: 0 <= j < i ==> errors[j].key != key
  }

  /**
   * `getError`: the message of the first error filed under `key`, or nothing
   * when no error has that key (in particular for an empty list).
   */
  function GetError(key: string, errors: seq<ValidationError>): (r: Option<string>)
    ensures r.None? <==> forall i :: 0 <= i < |errors| ==> errors[i].key != key
    ensures r.Some? ==> exists i: nat :: FirstWithKey(errors, key, i) && errors[i].message == r.value
  {
    match FindFirst(errors, (e: ValidationError) => e.key == key)
    case None => None
    case Some(i) => Some(errors[i].message)
  }

  /** An error in front of a list shadows any later error with the same key. */
  lemma GetErrorAppend(key: string, front: seq<ValidationError>, back: seq<ValidationError>)
    ensures GetError(key, front + back) == if GetError(key, front).Some? then GetError(key, front) else GetError(key, back)
  {
    var all := front + back;
    if GetError(key, front).None? {
      assert forall i :: 0 <= i < |front| ==> all[i] == front[i];
      if GetError(key, back).Some? {
        var i: nat :| FirstWithKey(back, key, i) && back[i].message == GetError(key, back).value;
        assert all[|front| + i] == back[i];
        UniqueFirst(key, all, |front| + i);
      } else {
        assert forall i :: |front| <= i < |all| ==> all[i] == back[i - |front|];
      }
    } else {
      var i: nat :| FirstWithKey(front, key, i) && front[i].message == GetError(key, front).value;
      assert all[i] == front[i];
      UniqueFirst(key, all, i);
    }
  }

  /** An index holding `key` with no earlier index holding it determines `GetError`. */
  lemma UniqueFirst(key: string, errors: seq<ValidationError>, i: nat)
    requires FirstWithKey(errors, key, i)
    ensures GetError(key, errors) == Some(errors[i].message)
  {
    var r := GetError(key, errors);
    var k: nat :| FirstWithKey(errors, key, k) && errors[k].message == r.value;
    assert k == i;
  }

  /** The error a validator contributes: one entry for a truthy message, none otherwise. */
  function Contribution(v: Validator): (r: seq<ValidationError>)
    ensures |r| <= 1
    ensures r != [] <==> Truthy(v.run())
    ensures r != [] ==> r[0].key == v.key && Some(r[0].message) == v.run()
  {
    var m := v.run();
    if Truthy(m) then [ValidationError(v.key, m.value)] else []
  }

  /**
   * What running `vs` in order collects: the contributions of the validators,
   * concatenated in validator order.
   */
  function Collected(vs: seq<Validator>): (r: seq<ValidationError>)
    ensures |r| <= |vs|
    ensures vs == [] ==> r == []
  {
    if |vs| == 0 then [] else Collected(vs[..|vs| - 1]) + Contribution(vs[|vs| - 1])
  }

  /**
   * `runValidation`: awaits every validator exactly once, in argument order
   * (`calls` records each call with the key and the awaited result), and
   * pushes `{key, message}` for each truthy message.
   */
  method RunValidation(vs: seq<Validator>) returns (errors: seq<ValidationError>, calls: seq<Invocation>)
    ensures errors == Collected(vs)
    ensures |calls| == |vs| && forall k :: 0 <= k < |vs| ==> calls[k] == Invocation(vs[k].key, vs[k].run())
  {
    errors, calls := [], [];
    var i := 0;
    while i < |vs|
      invariant 0 <= i <= |vs|
      invariant errors == Collected(vs[..i])
      invariant |calls| == i && forall k :: 0 <= k < i ==> calls[k] == Invocation(vs[k].key, vs[k].run())
    {
      var key, validatorFunc := vs[i].key, vs[i].run;
      var message := validatorFunc();
      calls := calls + [Invocation(key, message)];
      if Truthy(message) {
        errors := errors + [ValidationError(key, message.value)];
      }
      assert vs[..i + 1][..i] == vs[..i];
      i := i + 1;
    }
    assert vs[..|vs|] == vs;
  }
}
