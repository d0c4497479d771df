/**
 * src/Form/FormMap.ts: the same form as src/Form/Form.ts, written as an
 * update map, one handler per message name over the messages, model and
 * options of src/Form/Form.ts. The host looks up the handler by the
 * message's name and hands it the message's payload, the model and the props.
 */
module FormUpdateMap {
  import opened Base
  import opened Elmish
  import opened Validation
  import opened Form

  /** `init`: the same initial model as the reducer's. */
  function InitMap<V, P>(options: Options<V, P>, props: P): (m: Model<V>)
    ensures m == Form.Init(options, props)
  {
    Model(options.initValues(props), [], false)
  }

  /** `ValueChanged`: agrees with the reducer's `ValueChanged` case. */
  function ValueChangedHandler<V, P>(options: Options<V, P>, value: map<string, V>, m: Model<V>, props: P): (r: Step<V, P>)
    ensures r == Update(options, m, ValueChanged(value), props)
  {
    var updatedValue := if options.onValueChanged.Some? then options.onValueChanged.value(value, m, props) else value;
    Step(Partial(Some(m.values + updatedValue), None, None), OfMsg(ReValidate), [])
  }

  /** `AcceptRequest`: agrees with the reducer's `AcceptRequest` case. */
  function AcceptRequestHandler<V, P>(options: Options<V, P>, m: Model<V>, props: P): (r: Step<V, P>)
    ensures r == Update(options, m, AcceptRequest, props)
  {
    Step(NoChange(), OfMsg(Validate(Some(Accept))), [])
  }

  /** `Accept`: agrees with the reducer's `Accept` case. */
  function AcceptHandler<V, P>(options: Options<V, P>, m: Model<V>, props: P): (r: Step<V, P>)
    ensures r == Update(options, m, Accept, props)
  {
    Step(NoChange(), NoCmd, if options.hasOnAccept then [AcceptCalled(m, props)] else [])
  }

  /** `CancelRequest`: agrees with the reducer's `CancelRequest` case. */
  function CancelRequestHandler<V, P>(options: Options<V, P>, m: Model<V>, props: P): (r: Step<V, P>)
    ensures r == Update(options, m, CancelRequest, props)
  {
    Step(NoChange(), OfMsg(Cancel), [])
  }

  /** `Cancel`: agrees with the reducer's `Cancel` case. */
  function CancelHandler<V, P>(options: Options<V, P>, m: Model<V>, props: P): (r: Step<V, P>)
    ensures r == Update(options, m, Cancel, props)
  {
    Step(NoChange(), NoCmd, if options.hasOnCancel then [CancelCalled(m, props)] else [])
  }

  /** `Validate`: agrees with the reducer's `Validate` case. */
  function ValidateHandler<V, P>(options: Options<V, P>, msg: Option<Message<V>>, m: Model<V>, props: P): (r: Step<V, P>)
    ensures r == Update(options, m, Validate(msg), props)
  {
    var noErrors: seq<ValidationError> := [];
    Step(Partial(None, Some(noErrors), Some(true)), Perform((m, props), msg), [])
  }

  /** `Validated`: agrees with the reducer's `Validated` case. */
  function ValidatedHandler<V, P>(options: Options<V, P>, errors: seq<ValidationError>, msg: Option<Message<V>>, m: Model<V>, props: P): (r: Step<V, P>)
    ensures r == Update(options, m, Validated(errors, msg), props)
  {
    if |errors| > 0 then Step(Partial(None, Some(errors), None), NoCmd, [])
    else if msg.Some? then Step(NoChange(), OfMsg(msg.value), [])
    else Step(NoChange(), NoCmd, [])
  }

  /** `ReValidate`: agrees with the reducer's `ReValidate` case. */
  function ReValidateHandler<V, P>(options: Options<V, P>, m: Model<V>, props: P): (r: Step<V, P>)
    ensures r == Update(options, m, ReValidate, props)
  {
    if m.validated then Step(NoChange(), OfMsg(Validate(None)), []) else Step(NoChange(), NoCmd, [])
  }

  /**
   * The host's lookup of the handler by the message's name. Whatever the
   * message, the update map does what the `switch` reducer does.
   */
  function UpdateMap<V, P>(options: Options<V, P>, m: Model<V>, msg: Message<V>, props: P): (r: Step<V, P>)
    ensures r == Update(options, m, msg, props)
  {
    match msg
    case ValueChanged(value) => ValueChangedHandler(options, value, m, props)
    case AcceptRequest => AcceptRequestHandler(options, m, props)
    case Accept => AcceptHandler(options, m, props)
    case CancelRequest => CancelRequestHandler(options, m, props)
    case Cancel => CancelHandler(options, m, props)
    case Validate(k) => ValidateHandler(options, k, m, props)
    case Validated(errors, k) => ValidatedHandler(options, errors, k, m, props)
    case ReValidate => ReValidateHandler(options, m, props)
  }
}
