/**
 * src/Form/Form.ts: the form reducer written as one `switch`. A form keeps
 * its values, the current validation errors and whether validation has been
 * engaged; accepting always validates first, and edits re-validate only a
 * form that has been validated before.
 *
 * The hooks of the options are caller code. `initValues`, `validate` and
 * `onValueChanged` are total functions of what the source passes them;
 * `onAccept` and `onCancel` return nothing, so only whether they are given
 * matters, and a call of one is recorded as an `Effect`. `validate` returns a
 * promise in the source; here it returns the errors the promise resolves to,
 * delivered later through `Validated` by the host.
 */
module Form {
  import opened Base
  import opened Elmish
  import opened Validation

  datatype Model<V> = Model(values: map<string, V>, errors: seq<ValidationError>, validated: bool)

  /** `Validate` and `Validated` carry the message to continue with once validation succeeds. */
  datatype Message<V> =
    | ValueChanged(value: map<string, V>)
    | AcceptRequest
    | Accept
    | CancelRequest
    | Cancel
    | Validate(msg: Option<Message<V>>)
    | Validated(errors: seq<ValidationError>, msg: Option<Message<V>>)
    | ReValidate

  /** A partial model as the reducer returns it; `None` leaves the field out. */
  datatype Partial<V> = Partial(values: Option<map<string, V>>, errors: Option<seq<ValidationError>>, validated: Option<bool>)

  datatype Options<!V, !P> = Options(
    initValues: P -> map<string, V>,
    validate: Option<(Model<V>, P) -> seq<ValidationError>>,
    onValueChanged: Option<(map<string, V>, Model<V>, P) -> map<string, V>>,
    hasOnCancel: bool,
    hasOnAccept: bool)

  /** A call of `onAccept` or `onCancel`, with the arguments it received. */
  datatype Effect<V, P> = AcceptCalled(model: Model<V>, props: P) | CancelCalled(model: Model<V>, props: P)

  /** `Perform` holds the model and props the validation runs on. */
  type FormCmd<V, P> = Cmd<Message<V>, (Model<V>, P)>

  /** What one call of the reducer produces: the partial model, the command, the hook calls. */
  datatype Step<V, P> = Step(update: Partial<V>, cmd: FormCmd<V, P>, effects: seq<Effect<V, P>>)

  function NoChange<V>(): Partial<V> {
    Partial(None, None, None)
  }

  /** How the host merges a partial model into the model (`{...model, ...partial}`). */
  function Apply<V>(m: Model<V>, p: Partial<V>): Model<V> {
    Model(
      if p.values.Some? then p.values.value else m.values,
      if p.errors.Some? then p.errors.value else m.errors,
      if p.validated.Some? then p.validated.value else m.validated)
  }

  /** `init`: no errors, not validated, and the values `initValues` gives for the props. */
  function Init<V, P>(options: Options<V, P>, props: P): (m: Model<V>)
    ensures m.errors == [] && !m.validated && m.values == options.initValues(props)
  {
    Model(options.initValues(props), [], false)
  }

  /** The internal `validate`: the caller's `validate`, or no errors when there is none. */
  function RunValidate<V, P>(options: Options<V, P>, m: Model<V>, props: P): (r: seq<ValidationError>)
    ensures options.validate.None? ==> r == []
  {
    if options.validate.Some? then options.validate.value(m, props) else []
  }

  /** The partial `ValueChanged` applies: the `onValueChanged` result when that hook is given. */
  function ChangedValues<V, P>(options: Options<V, P>, value: map<string, V>, m: Model<V>, props: P): map<string, V> {
    if options.onValueChanged.Some? then options.onValueChanged.value(value, m, props) else value
  }

  /**
   * `update`. Whatever the message, `validated` is afterwards what it was,
   * or true after `Validate`: it never reverts, and only `Validate` writes
   * it. `Accept` is dispatched only by a validation that found no errors, and
   * hooks run only for `Accept` and `Cancel`.
   */
  function Update<V, P>(options: Options<V, P>, m: Model<V>, msg: Message<V>, props: P): (r: Step<V, P>)
    ensures Apply(m, r.update).validated == (m.validated || msg.Validate?)
    ensures r.cmd == OfMsg(Accept) ==> msg.Validated? && msg.errors == [] && msg.msg == Some(Accept)
    ensures r.effects != [] ==> msg.Accept? || msg.Cancel?
  {
    match msg
    case ValueChanged(value) =>
      var changed := ChangedValues(options, value, m, props);
      Step(Partial(Some(m.values + changed), None, None), OfMsg(ReValidate), [])
    case AcceptRequest =>
      Step(NoChange(), OfMsg(Validate(Some(Accept))), [])
    case Accept =>
      Step(NoChange(), NoCmd, if options.hasOnAccept then [AcceptCalled(m, props)] else [])
    case CancelRequest =>
      Step(NoChange(), OfMsg(Cancel), [])
    case Cancel =>
      Step(NoChange(), NoCmd, if options.hasOnCancel then [CancelCalled(m, props)] else [])
    case Validate(k) =>
      Step(Partial(None, Some([]), Some(true)), Perform((m, props), k), [])
    case Validated(errors, k) =>
      if |errors| > 0 then Step(Partial(None, Some(errors), None), NoCmd, [])
      else if k.Some? then Step(NoChange(), OfMsg(k.value), [])
      else Step(NoChange(), NoCmd, [])
    case ReValidate =>
      if m.validated then Step(NoChange(), OfMsg(Validate(None)), [])
      else Step(NoChange(), NoCmd, [])
  }

  /**
   * `ValueChanged`: the values become the old values overridden by the
   * applied partial (a right-biased union: keys of the partial take its
   * value, other keys keep theirs); nothing else changes; `ReValidate` is
   * dispatched.
   */
  lemma ValueChangedMerges<V, P>(options: Options<V, P>, m: Model<V>, value: map<string, V>, props: P)
    ensures var r := Update(options, m, ValueChanged(value), props);
      var changed := ChangedValues(options, value, m, props);
      var after := Apply(m, r.update);
      && after.errors == m.errors && after.validated == m.validated
      && after.values.Keys == m.values.Keys + changed.Keys
      && (forall k :: k in changed ==> after.values[k] == changed[k])
      && (forall k :: k in m.values && k !in changed ==> after.values[k] == m.values[k])
      && r.cmd == OfMsg(ReValidate) && r.effects == []
  {
  }

  /** `AcceptRequest` changes nothing and asks for a validation that continues with `Accept`; `CancelRequest` changes nothing and dispatches `Cancel`. */
  lemma RequestsChangeNothing<V, P>(options: Options<V, P>, m: Model<V>, props: P)
    ensures var r := Update(options, m, AcceptRequest, props);
      Apply(m, r.update) == m && r.cmd == OfMsg(Validate(Some(Accept))) && r.effects == []
    ensures var r := Update(options, m, CancelRequest, props);
      Apply(m, r.update) == m && r.cmd == OfMsg(Cancel) && r.effects == []
  {
  }

  /** `Accept` and `Cancel` change nothing, issue no command, and call their hook exactly when it is given. */
  lemma AcceptAndCancelOnlyCallHooks<V, P>(options: Options<V, P>, m: Model<V>, props: P)
    ensures var r := Update(options, m, Accept, props);
      Apply(m, r.update) == m && r.cmd == NoCmd &&
      r.effects == if options.hasOnAccept then [AcceptCalled(m, props)] else []
    ensures var r := Update(options, m, Cancel, props);
      Apply(m, r.update) == m && r.cmd == NoCmd &&
      r.effects == if options.hasOnCancel then [CancelCalled(m, props)] else []
  {
  }

  /**
   * `Validate`: clears the errors, marks the form validated, and runs the
   * validation on the model as it was before this update, continuing with the
   * same message.
   */
  lemma ValidateClearsAndValidates<V, P>(options: Options<V, P>, m: Model<V>, k: Option<Message<V>>, props: P)
    ensures var r := Update(options, m, Validate(k), props);
      Apply(m, r.update) == m.(errors := [], validated := true) && r.cmd == Perform((m, props), k) && r.effects == []
  {
  }

  /**
   * `Validated`: errors are shown and the continuation is dropped; no errors
   * and a continuation dispatches it; otherwise nothing happens. The model
   * changes only in the first case, and then only its errors.
   */
  lemma ValidatedOutcomes<V, P>(options: Options<V, P>, m: Model<V>, errors: seq<ValidationError>, k: Option<Message<V>>, props: P)
    ensures var r := Update(options, m, Validated(errors, k), props);
      && r.effects == []
      && (errors != [] ==> Apply(m, r.update) == m.(errors := errors) && r.cmd == NoCmd)
      && (errors == [] ==> Apply(m, r.update) == m && r.cmd == if k.Some? then OfMsg(k.value) else NoCmd)
  {
  }

  /** `ReValidate` validates anew, without continuation, exactly when the form was validated; otherwise it does nothing. */
  lemma ReValidateOnlyWhenValidated<V, P>(options: Options<V, P>, m: Model<V>, props: P)
    ensures var r := Update(options, m, ReValidate, props);
      Apply(m, r.update) == m && r.effects == [] &&
      r.cmd == if m.validated then OfMsg(Validate(None)) else NoCmd
  {
  }

  /** A freshly initialised form does not validate on an edit's `ReValidate`. */
  lemma NoPrematureValidation<V, P>(options: Options<V, P>, props: P)
    ensures var m := Init(options, props);
      var r := Update(options, m, ReValidate, props);
      Apply(m, r.update) == m && r.cmd == NoCmd
  {
  }

  /** The host running a command: the message it re-enters the reducer with, if any. */
  function Execute<V, P>(options: Options<V, P>, c: FormCmd<V, P>): Option<Message<V>> {
    match c
    case NoCmd => None
    case OfMsg(msg) => Some(msg)
    case Perform(args, k) => Some(Validated(RunValidate(options, args.0, args.1), k))
  }

  /** A measure that every step of a run decreases, so that a run ends. */
  function Potential<V>(msg: Message<V>): nat {
    match msg
    case ValueChanged(_) => 10
    case AcceptRequest => 9
    case ReValidate => 8
    case CancelRequest => 2
    case Accept => 1
    case Cancel => 1
    case Validate(k) => 3 + (if k.Some? then Potential(k.value) else 0)
    case Validated(_, k) => 2 + (if k.Some? then Potential(k.value) else 0)
  }

  lemma StepDecreases<V, P>(options: Options<V, P>, m: Model<V>, msg: Message<V>, props: P)
    ensures var next := Execute(options, Update(options, m, msg, props).cmd);
      next.Some? ==> Potential(next.value) < Potential(msg)
  {
  }

  /** What a run leaves: the final model, the hook calls in order, and the messages processed. */
  datatype Outcome<V, P> = Outcome(model: Model<V>, effects: seq<Effect<V, P>>, trace: seq<Message<V>>)

  /**
   * The host dispatching `msg` and every message its commands lead to, one
   * after the other, until a step issues no command. A validated form stays
   * validated for the whole run.
   */
  function Run<V, P>(options: Options<V, P>, props: P, m: Model<V>, msg: Message<V>): (r: Outcome<V, P>)
    ensures |r.trace| > 0 && r.trace[0] == msg
    ensures m.validated ==> r.model.validated
    decreases Potential(msg)
  {
    var step := Update(options, m, msg, props);
    var after := Apply(m, step.update);
    StepDecreases(options, m, msg, props);
    match Execute(options, step.cmd)
    case None => Outcome(after, step.effects, [msg])
    case Some(next) =>
      var rest := Run(options, props, after, next);
      Outcome(rest.model, step.effects + rest.effects, [msg] + rest.trace)
  }

  /** The host dispatches `Accept` after a step only when that step handled `Validated([], Accept)`. */
  lemma AcceptFollowsCleanValidation<V, P>(options: Options<V, P>, m: Model<V>, msg: Message<V>, props: P)
    ensures Execute(options, Update(options, m, msg, props).cmd) == Some(Accept) ==> msg == Validated([], Some(Accept))
  {
    var c := Update(options, m, msg, props).cmd;
    if c.Perform? {
      assert Execute(options, c).value.Validated?;
    }
  }

  /** Every `Accept` in a trace follows `Validated([], Accept)` directly. */
  ghost predicate AcceptsFollowCleanValidation<V>(t: seq<Message<V>>) {
    forall i :: 0 < i < |t| && t[i].Accept? ==> t[i - 1] == Validated([], Some(Accept))
  }

  lemma TraceCons<V>(msg: Message<V>, rest: seq<Message<V>>)
    requires |rest| > 0 && AcceptsFollowCleanValidation(rest)
    requires rest[0].Accept? ==> msg == Validated([], Some(Accept))
    ensures AcceptsFollowCleanValidation([msg] + rest)
  {
    var t := [msg] + rest;
    forall i | 0 < i < |t| && t[i].Accept? ensures t[i - 1] == Validated([], Some(Accept)) {
      if i > 1 {
        assert t[i] == rest[i - 1] && t[i - 1] == rest[i - 2];
      }
    }
  }

  /**
   * In every run, the form stays validated once it was, and every `Accept`
   * the host dispatches follows directly on a validation that ended without
   * errors and was to continue with `Accept`.
   */
  lemma {:induction false} RunAcceptsOnlyAfterCleanValidation<V, P>(options: Options<V, P>, props: P, m: Model<V>, msg: Message<V>)
    ensures m.validated ==> Run(options, props, m, msg).model.validated
    ensures AcceptsFollowCleanValidation(Run(options, props, m, msg).trace)
    decreases Potential(msg)
  {
    var step := Update(options, m, msg, props);
    var after := Apply(m, step.update);
    StepDecreases(options, m, msg, props);
    var next := Execute(options, step.cmd);
    if next.Some? {
      RunAcceptsOnlyAfterCleanValidation(options, props, after, next.value);
      var rest := Run(options, props, after, next.value);
      assert Run(options, props, m, msg) == Outcome(rest.model, step.effects + rest.effects, [msg] + rest.trace);
      if next.value.Accept? {
        AcceptFollowsCleanValidation(options, m, msg, props);
      }
      TraceCons(msg, rest.trace);
    } else {
      assert Run(options, props, m, msg) == Outcome(after, step.effects, [msg]);
    }
  }

  /**
   * The accept workflow end to end: `AcceptRequest` validates the model as
   * it stands; `onAccept` runs, once, exactly when that found no errors (and
   * the hook is given); otherwise the errors are shown.
   */
  lemma AcceptRequestRun<V, P>(options: Options<V, P>, props: P, m: Model<V>)
    ensures var out := Run(options, props, m, AcceptRequest);
      var errors := RunValidate(options, m, props);
      var cleared := m.(errors := [], validated := true);
      && out.model == (if errors == [] then cleared else cleared.(errors := errors))
      && out.effects == (if errors == [] && options.hasOnAccept then [AcceptCalled(cleared, props)] else [])
  {
    var cleared := m.(errors := [], validated := true);
    var errors := RunValidate(options, m, props);
    assert Run(options, props, m, AcceptRequest) == Run(options, props, m, Validate(Some(Accept))).(
      effects := [] + Run(options, props, m, Validate(Some(Accept))).effects,
      trace := [AcceptRequest] + Run(options, props, m, Validate(Some(Accept))).trace);
    assert Run(options, props, m, Validate(Some(Accept))).model == Run(options, props, cleared, Validated(errors, Some(Accept))).model;
    assert Run(options, props, m, Validate(Some(Accept))).effects == Run(options, props, cleared, Validated(errors, Some(Accept))).effects;
    if errors == [] {
      assert Run(options, props, cleared, Validated(errors, Some(Accept))).model == Run(options, props, cleared, Accept).model;
      assert Run(options, props, cleared, Validated(errors, Some(Accept))).effects == Run(options, props, cleared, Accept).effects;
    }
  }
}
