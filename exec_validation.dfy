/**
 * src/Validation.ts: the synchronous validation helpers. `getError` there is
 * the same lookup as in src/Validation/Validation.ts and is `Validation.GetError`
 * here; `execValidators` is a `map` that calls every validator followed by a
 * `filter` that keeps the truthy messages.
 */
module ExecValidation {
  import opened Base
  import opened Validation

  /** The `map` step: every validator called once, in order, giving the `{key, message}` record. */
  function Invoke(vs: seq<Validator>): (r: seq<Invocation>)
    ensures |r| == |vs|
    ensures forall i :: 0 <= i < |vs| ==> r[i].key == vs[i].key && r[i].message == vs[i].run()
  {
    if |vs| == 0 then [] else [Invocation(vs[0].key, vs[0].run())] + Invoke(vs[1..])
  }

  /** The truthiness test the `filter` step applies. */
  predicate HasMessage(c: Invocation) {
    Truthy(c.message)
  }

  /** The kept records, read as validation errors (the source's type assertion). */
  function AsErrors(cs: seq<Invocation>): (r: seq<ValidationError>)
    requires forall i :: 0 <= i < |cs| ==> HasMessage(cs[i])
    ensures |r| == |cs|
    ensures forall i :: 0 <= i < |cs| ==> r[i].key == cs[i].key && Some(r[i].message) == cs[i].message
  {
    if |cs| == 0 then []
    else
      assert HasMessage(cs[0]);
      [ValidationError(cs[0].key, cs[0].message.value)] + AsErrors(cs[1..])
  }

  /** A validation error read back as the record it was kept from. */
  function AsInvocation(e: ValidationError): Invocation {
    Invocation(e.key, Some(e.message))
  }

  /** `execValidators`: call every validator, keep the pairs whose message is truthy. */
  function ExecValidators(vs: seq<Validator>): (r: seq<ValidationError>)
    ensures |r| <= |vs|
    ensures vs == [] ==> r == []
  {
    AsErrors(Filter(Invoke(vs), HasMessage))
  }

  /**
   * What `execValidators` keeps, stated against the validators: exactly the
   * pairs with a truthy message, one error per such pair, each with a
   * non-empty message, in input order.
   */
  lemma ExecValidatorsKeepsTruthyInOrder(vs: seq<Validator>)
    ensures Lift(ExecValidators(vs)) == Filter(Invoke(vs), HasMessage)
    ensures forall k :: 0 <= k < |ExecValidators(vs)| ==> ExecValidators(vs)[k].message != ""
    ensures forall k :: 0 <= k < |ExecValidators(vs)| ==> AsInvocation(ExecValidators(vs)[k]) in Invoke(vs)
    ensures forall i :: 0 <= i < |vs| && Truthy(vs[i].run()) ==> Invocation(vs[i].key, vs[i].run()) in Lift(ExecValidators(vs))
    ensures IsSubsequence(Lift(ExecValidators(vs)), Invoke(vs))
  {
    var kept := Filter(Invoke(vs), HasMessage);
    LiftAsErrors(kept);
    forall k | 0 <= k < |ExecValidators(vs)|
      ensures ExecValidators(vs)[k].message != "" && AsInvocation(ExecValidators(vs)[k]) in Invoke(vs)
    {
      assert AsInvocation(ExecValidators(vs)[k]) == kept[k];
    }
    forall i | 0 <= i < |vs| && Truthy(vs[i].run())
      ensures Invocation(vs[i].key, vs[i].run()) in Lift(ExecValidators(vs))
    {
      assert Invoke(vs)[i] == Invocation(vs[i].key, vs[i].run());
    }
  }

  /** The kept errors read back as records. */
  function Lift(es: seq<ValidationError>): (r: seq<Invocation>)
    ensures |r| == |es|
    ensures forall i :: 0 <= i < |es| ==> r[i] == AsInvocation(es[i])
  {
    if |es| == 0 then [] else [AsInvocation(es[0])] + Lift(es[1..])
  }

  /** Reading kept records as errors and back loses nothing. */
  lemma LiftAsErrors(cs: seq<Invocation>)
    requires forall i :: 0 <= i < |cs| ==> HasMessage(cs[i])
    ensures Lift(AsErrors(cs)) == cs
  {
  }

  /**
   * The `map`/`filter` chain of src/Validation.ts collects the same errors as
   * the `for`/`push` loop of src/Validation/Validation.ts.
   */
  lemma {:induction false} ExecValidatorsIsCollected(vs: seq<Validator>)
    ensures ExecValidators(vs) == Collected(vs)
  {
    if |vs| > 0 {
      var init, last := vs[..|vs| - 1], vs[|vs| - 1];
      var c := Invocation(last.key, last.run());
      var tail := if HasMessage(c) then [c] else [];
      assert vs == init + [last];
      ExecValidatorsIsCollected(init);
      InvokeAppend(init, last);
      FilterAppend(Invoke(init), c, HasMessage);
      AsErrorsAppend(Filter(Invoke(init), HasMessage), tail);
      assert AsErrors(tail) == Contribution(last);
      calc {
        ExecValidators(vs);
        AsErrors(Filter(Invoke(init) + [c], HasMessage));
        AsErrors(Filter(Invoke(init), HasMessage) + tail);
        AsErrors(Filter(Invoke(init), HasMessage)) + AsErrors(tail);
        Collected(init) + Contribution(last);
        Collected(vs);
      }
    }
  }

  /**
   * What `runValidation` of src/Validation/Validation.ts collects, by the
   * same token: exactly a `{key, message}` per validator with a truthy
   * message, one per such validator, each message non-empty, in validator
   * order.
   */
  lemma RunValidationKeepsTruthyInOrder(vs: seq<Validator>)
    ensures Lift(Collected(vs)) == Filter(Invoke(vs), HasMessage)
    ensures forall k :: 0 <= k < |Collected(vs)| ==> Collected(vs)[k].message != ""
    ensures forall i :: 0 <= i < |vs| && Truthy(vs[i].run()) ==> Invocation(vs[i].key, vs[i].run()) in Lift(Collected(vs))
    ensures IsSubsequence(Lift(Collected(vs)), Invoke(vs))
  {
    ExecValidatorsIsCollected(vs);
    ExecValidatorsKeepsTruthyInOrder(vs);
  }

  lemma {:induction false} InvokeAppend(vs: seq<Validator>, v: Validator)
    ensures Invoke(vs + [v]) == Invoke(vs) + [Invocation(v.key, v.run())]
  {
    if |vs| > 0 {
      assert (vs + [v])[1..] == vs[1..] + [v];
      InvokeAppend(vs[1..], v);
    }
  }

  lemma {:induction false} AsErrorsAppend(a: seq<Invocation>, b: seq<Invocation>)
    requires forall i :: 0 <= i < |a| ==> HasMessage(a[i])
    requires forall i :: 0 <= i < |b| ==> HasMessage(b[i])
    ensures AsErrors(a + b) == AsErrors(a) + AsErrors(b)
  {
    if |a| > 0 {
      assert (a + b)[1..] == a[1..] + b;
      AsErrorsAppend(a[1..], b);
    } else {
      assert a + b == b;
    }
  }
}
