/**
 * src/LegacyForm/Form.ts: the older form. Its own model holds only the
 * errors and whether validation was engaged; the rest of the consumer's
 * model (the form's inputs) travels along untouched. Accepting converts the
 * whole model with `getData` and hands the result to the mandatory
 * `onAccept` callback of the props; cancelling calls the mandatory
 * `onCancel`. A call of either is recorded as an `Effect`.
 */
module LegacyForm {
  import opened Base
  import opened Elmish
  import opened Validation

  datatype Message =
    | AcceptRequest
    | Accept
    | CancelRequest
    | Cancel
    | Validate(msg: Option<Message>)
    | Validated(errors: seq<ValidationError>, msg: Option<Message>)
    | ReValidate

  /** The form's own part of the model. */
  datatype Model = Model(errors: seq<ValidationError>, validated: bool)

  /** The consumer's model: the form's part and everything else (`rest`). */
  datatype State<X> = State(errors: seq<ValidationError>, validated: bool, rest: X)

  datatype Options<!X, !P, D> = Options(
    getData: (State<X>, P) -> D,
    validate: Option<(State<X>, P) -> seq<ValidationError>>)

  /** A call of `props.onAccept` with the data, or of `props.onCancel`. */
  datatype Effect<D> = AcceptedWith(data: D) | Cancelled

  type LegacyCmd<X, P> = Cmd<Message, (State<X>, P)>

  /**
   * One call of `update`. The partial model it returns is either empty
   * (`None`) or a copy of the whole model with some fields replaced.
   */
  datatype Step<X, P, D> = Step(update: Option<State<X>>, cmd: LegacyCmd<X, P>, effects: seq<Effect<D>>)

  function Apply<X>(s: State<X>, u: Option<State<X>>): State<X> {
    if u.Some? then u.value else s
  }

  /** `init`: no errors, not validated. */
  function Init(): (m: Model)
    ensures m.errors == [] && !m.validated
  {
    Model([], false)
  }

  /** The internal `validate`: the caller's `validate`, or no errors when there is none. */
  function RunValidate<X, P, D>(options: Options<X, P, D>, s: State<X>, props: P): (r: seq<ValidationError>)
    ensures options.validate.None? ==> r == []
  {
    if options.validate.Some? then options.validate.value(s, props) else []
  }

  /**
   * `update`. The consumer's part of the model never changes; `validated`
   * never reverts and only `Validate` writes it; `Accept` is dispatched only
   * by a clean validation with an `Accept` continuation; `onAccept` is called
   * exactly once for `Accept`, with the data of the current model, and
   * `onCancel` exactly once for `Cancel`.
   */
  function Update<X, P, D>(options: Options<X, P, D>, s: State<X>, msg: Message, props: P): (r: Step<X, P, D>)
    ensures Apply(s, r.update).rest == s.rest
    ensures Apply(s, r.update).validated == (s.validated || msg.Validate?)
    ensures r.cmd == OfMsg(Accept) ==> msg == Validated([], Some(Accept))
    ensures r.effects == if msg.Accept? then [AcceptedWith(options.getData(s, props))] else if msg.Cancel? then [Cancelled] else []
  {
    match msg
    case AcceptRequest => Step(None, OfMsg(Validate(Some(Accept))), [])
    case Accept => Step(None, NoCmd, [AcceptedWith(options.getData(s, props))])
    case CancelRequest => Step(None, OfMsg(Cancel), [])
    case Cancel => Step(None, NoCmd, [Cancelled])
    case Validate(k) => Step(Some(s.(errors := [], validated := true)), Perform((s, props), k), [])
    case Validated(errors, k) =>
      if |errors| > 0 then Step(Some(s.(errors := errors)), NoCmd, [])
      else if k.Some? then Step(None, OfMsg(k.value), [])
      else Step(None, NoCmd, [])
    case ReValidate =>
      if s.validated then Step(None, OfMsg(Validate(None)), []) else Step(None, NoCmd, [])
  }

  /** `Validate` clears the errors and marks the model validated, and validates the model as it was; `Validated` with errors shows them and stops. */
  lemma ValidationSteps<X, P, D>(options: Options<X, P, D>, s: State<X>, errors: seq<ValidationError>, k: Option<Message>, props: P)
    ensures var r := Update(options, s, Validate(k), props);
      Apply(s, r.update) == s.(errors := [], validated := true) && r.cmd == Perform((s, props), k)
    ensures var r := Update(options, s, Validated(errors, k), props);
      && (errors != [] ==> Apply(s, r.update) == s.(errors := errors) && r.cmd == NoCmd)
      && (errors == [] ==> Apply(s, r.update) == s && r.cmd == if k.Some? then OfMsg(k.value) else NoCmd)
  {
  }

  /**
   * `AcceptRequest` and `CancelRequest` change nothing and dispatch
   * `Validate(Accept)` and `Cancel`; `Accept` and `Cancel` change nothing and
   * issue no command.
   */
  lemma RequestSteps<X, P, D>(options: Options<X, P, D>, s: State<X>, props: P)
    ensures var r := Update(options, s, AcceptRequest, props);
      Apply(s, r.update) == s && r.cmd == OfMsg(Validate(Some(Accept))) && r.effects == []
    ensures var r := Update(options, s, CancelRequest, props);
      Apply(s, r.update) == s && r.cmd == OfMsg(Cancel) && r.effects == []
    ensures var r := Update(options, s, Accept, props);
      Apply(s, r.update) == s && r.cmd == NoCmd
    ensures var r := Update(options, s, Cancel, props);
      Apply(s, r.update) == s && r.cmd == NoCmd
  {
  }

  /** `ReValidate` validates anew exactly when the model was validated, and changes nothing. */
  lemma ReValidateOnlyWhenValidated<X, P, D>(options: Options<X, P, D>, s: State<X>, props: P)
    ensures var r := Update(options, s, ReValidate, props);
      Apply(s, r.update) == s && r.cmd == if s.validated then OfMsg(Validate(None)) else NoCmd
  {
  }

  /** The host running a command: the message it re-enters `update` with, if any. */
  function Execute<X, P, D>(options: Options<X, P, D>, c: LegacyCmd<X, P>): Option<Message> {
    match c
    case NoCmd => None
    case OfMsg(msg) => Some(msg)
    case Perform(args, k) => Some(Validated(RunValidate(options, args.0, args.1), k))
  }

  /** A measure that every step of a run decreases, so that a run ends. */
  function Potential(msg: Message): nat {
    match msg
    case AcceptRequest => 9
    case ReValidate => 8
    case CancelRequest => 2
    case Accept => 1
    case Cancel => 1
    case Validate(k) => 3 + (if k.Some? then Potential(k.value) else 0)
    case Validated(_, k) => 2 + (if k.Some? then Potential(k.value) else 0)
  }

  lemma StepDecreases<X, P, D>(options: Options<X, P, D>, s: State<X>, msg: Message, props: P)
    ensures var next := Execute(options, Update(options, s, msg, props).cmd);
      next.Some? ==> Potential(next.value) < Potential(msg)
  {
  }

  /**
   * The host dispatching `msg` and every message its commands lead to: the
   * final model and the callbacks made, in order. The consumer's part of the
   * model is never touched, a validated form stays validated, and at most one
   * callback is made.
   */
  function Run<X, P, D>(options: Options<X, P, D>, props: P, s: State<X>, msg: Message): (r: (State<X>, seq<Effect<D>>))
    ensures r.0.rest == s.rest
    ensures s.validated ==> r.0.validated
    ensures |r.1| <= 1
    decreases Potential(msg)
  {
    var step := Update(options, s, msg, props);
    var after := Apply(s, step.update);
    StepDecreases(options, s, msg, props);
    match Execute(options, step.cmd)
    case None => (after, step.effects)
    case Some(next) =>
      var (final, later) := Run(options, props, after, next);
      (final, step.effects + later)
  }

  /**
   * The accept workflow end to end: the model as it stands is validated;
   * when that finds no errors `onAccept` is called exactly once, with the
   * data of the validated model; otherwise it is not called and the errors
   * are shown. The consumer's part of the model is never touched.
   */
  lemma AcceptRequestRun<X, P, D>(options: Options<X, P, D>, props: P, s: State<X>)
    ensures var (final, effects) := Run(options, props, s, AcceptRequest);
      var errors := RunValidate(options, s, props);
      var cleared := s.(errors := [], validated := true);
      && final == (if errors == [] then cleared else cleared.(errors := errors))
      && effects == (if errors == [] then [AcceptedWith(options.getData(cleared, props))] else [])
  {
    var cleared := s.(errors := [], validated := true);
    var errors := RunValidate(options, s, props);
    assert Run(options, props, s, AcceptRequest).0 == Run(options, props, s, Validate(Some(Accept))).0;
    assert Run(options, props, s, AcceptRequest).1 == [] + Run(options, props, s, Validate(Some(Accept))).1;
    assert Run(options, props, s, Validate(Some(Accept))).0 == Run(options, props, cleared, Validated(errors, Some(Accept))).0;
    assert Run(options, props, s, Validate(Some(Accept))).1 == [] + Run(options, props, cleared, Validated(errors, Some(Accept))).1;
    if errors == [] {
      assert Run(options, props, cleared, Validated(errors, Some(Accept))).0 == Run(options, props, cleared, Accept).0;
      assert Run(options, props, cleared, Validated(errors, Some(Accept))).1 == [] + Run(options, props, cleared, Accept).1;
    }
  }

  /** Cancelling calls `onCancel` exactly once and changes nothing. */
  lemma CancelRequestRun<X, P, D>(options: Options<X, P, D>, props: P, s: State<X>)
    ensures Run(options, props, s, CancelRequest) == (s, [Cancelled])
  {
    var cancel := Run(options, props, s, Cancel);
    assert cancel == (s, [Cancelled]);
    var r := Run(options, props, s, CancelRequest);
    assert r == (cancel.0, [] + cancel.1);
    assert [] + cancel.1 == [Cancelled];
  }
}
