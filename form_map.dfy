/**
 * src/FormMap/FormMap.ts: a form written as an update map with messages of
 * its own (lower-case names, no message source), over the model and options
 * of src/Form/Form.ts. Message for message it behaves as the reducer of
 * src/Form/Form.ts does.
 */
module FormMap {
  import opened Base
  import opened Elmish
  import Form
  import opened Validation

  datatype Message<V> =
    | ValueChanged(value: map<string, V>)
    | AcceptRequest
    | Accept
    | CancelRequest
    | Cancel
    | Validate(msg: Option<Message<V>>)
    | Validated(errors: seq<ValidationError>, msg: Option<Message<V>>)
    | ReValidate

  type MapCmd<V, P> = Cmd<Message<V>, (Form.Model<V>, P)>

  datatype Step<V, P> = Step(update: Form.Partial<V>, cmd: MapCmd<V, P>, effects: seq<Form.Effect<V, P>>)

  /** The message of src/Form/Form.ts with the same name and payload. */
  function ToForm<V>(msg: Message<V>): Form.Message<V> {
    match msg
    case ValueChanged(value) => Form.ValueChanged(value)
    case AcceptRequest => Form.AcceptRequest
    case Accept => Form.Accept
    case CancelRequest => Form.CancelRequest
    case Cancel => Form.Cancel
    case Validate(k) => Form.Validate(if k.Some? then Some(ToForm(k.value)) else None)
    case Validated(errors, k) => Form.Validated(errors, if k.Some? then Some(ToForm(k.value)) else None)
    case ReValidate => Form.ReValidate
  }

  /** The message of this map with the same name and payload as a message of src/Form/Form.ts. */
  function FromForm<V>(msg: Form.Message<V>): Message<V> {
    match msg
    case ValueChanged(value) => ValueChanged(value)
    case AcceptRequest => AcceptRequest
    case Accept => Accept
    case CancelRequest => CancelRequest
    case Cancel => Cancel
    case Validate(k) => Validate(if k.Some? then Some(FromForm(k.value)) else None)
    case Validated(errors, k) => Validated(errors, if k.Some? then Some(FromForm(k.value)) else None)
    case ReValidate => ReValidate
  }

  /** The two message sets are the same messages under different names. */
  lemma {:induction false} FromFormToForm<V>(msg: Message<V>)
    ensures FromForm(ToForm(msg)) == msg
  {
    match msg
    case Validate(k) =>
      if k.Some? { FromFormToForm(k.value); }
    case Validated(_, k) =>
      if k.Some? { FromFormToForm(k.value); }
    case _ =>
  }

  lemma {:induction false} ToFormFromForm<V>(msg: Form.Message<V>)
    ensures ToForm(FromForm(msg)) == msg
  {
    match msg
    case Validate(k) =>
      if k.Some? { ToFormFromForm(k.value); }
    case Validated(_, k) =>
      if k.Some? { ToFormFromForm(k.value); }
    case _ =>
  }

  /** A command of this map read as a command of src/Form/Form.ts. */
  function CmdToForm<V, P>(c: MapCmd<V, P>): Form.FormCmd<V, P> {
    match c
    case NoCmd => NoCmd
    case OfMsg(msg) => OfMsg(ToForm(msg))
    case Perform(args, k) => Perform(args, if k.Some? then Some(ToForm(k.value)) else None)
  }

  function InitMap<V, P>(options: Form.Options<V, P>, props: P): (m: Form.Model<V>)
    ensures m == Form.Init(options, props)
  {
    Form.Model(options.initValues(props), [], false)
  }

  /**
   * The `updateMap`, with the host's lookup of the handler by the message's
   * name. Only `valueChanged` writes the values; only `validate` starts a
   * validation, and it validates the model as it stands; errors are written
   * only by `validate`, which clears them, and by `validated`, which shows
   * the errors it was given when there are any.
   */
  function UpdateMap<V, P>(options: Form.Options<V, P>, m: Form.Model<V>, msg: Message<V>, props: P): (r: Step<V, P>)
    ensures r.update.values.Some? <==> msg.ValueChanged?
    ensures r.cmd.Perform? <==> msg.Validate?
    ensures r.cmd.Perform? ==> r.cmd.args == (m, props) && r.cmd.continuation == msg.msg
    ensures r.update.errors.Some? <==> msg.Validate? || (msg.Validated? && msg.errors != [])
    ensures r.update.errors.Some? ==> r.update.errors.value == (if msg.Validate? then [] else msg.errors)
  {
    match msg
    case ValueChanged(value) =>
      var updatedValue := if options.onValueChanged.Some? then options.onValueChanged.value(value, m, props) else value;
      Step(Form.Partial(Some(m.values + updatedValue), None, None), OfMsg(ReValidate), [])
    case AcceptRequest =>
      Step(Form.NoChange(), OfMsg(Validate(Some(Accept))), [])
    case Accept =>
      Step(Form.NoChange(), NoCmd, if options.hasOnAccept then [Form.AcceptCalled(m, props)] else [])
    case CancelRequest =>
      Step(Form.NoChange(), OfMsg(Cancel), [])
    case Cancel =>
      Step(Form.NoChange(), NoCmd, if options.hasOnCancel then [Form.CancelCalled(m, props)] else [])
    case Validate(k) =>
      var noErrors: seq<ValidationError> := [];
      Step(Form.Partial(None, Some(noErrors), Some(true)), Perform((m, props), k), [])
    case Validated(errors, k) =>
      if |errors| > 0 then Step(Form.Partial(None, Some(errors), None), NoCmd, [])
      else if k.Some? then Step(Form.NoChange(), OfMsg(k.value), [])
      else Step(Form.NoChange(), NoCmd, [])
    case ReValidate =>
      if m.validated then Step(Form.NoChange(), OfMsg(Validate(None)), [])
      else Step(Form.NoChange(), NoCmd, [])
  }

  /**
   * Message for message, this map changes the model as the reducer of
   * src/Form/Form.ts does, calls the same hooks, and issues the same command
   * up to the renaming of messages.
   */
  lemma UpdateMapAgreesWithForm<V, P>(options: Form.Options<V, P>, m: Form.Model<V>, msg: Message<V>, props: P)
    ensures var r, f := UpdateMap(options, m, msg, props), Form.Update(options, m, ToForm(msg), props);
      r.update == f.update && r.effects == f.effects && CmdToForm(r.cmd) == f.cmd
  {
  }

  /**
   * The properties of src/Form/Form.ts carry over: `validated` never reverts
   * and only `validate` sets it, only a clean `validated` with an `accept`
   * continuation dispatches `accept`, and hooks run only for `accept` and
   * `cancel`.
   */
  lemma UpdateMapKeepsFormGuarantees<V, P>(options: Form.Options<V, P>, m: Form.Model<V>, msg: Message<V>, props: P)
    ensures var r := UpdateMap(options, m, msg, props);
      && Form.Apply(m, r.update).validated == (m.validated || msg.Validate?)
      && (r.cmd == OfMsg(Accept) ==> msg.Validated? && msg.errors == [] && msg.msg == Some(Accept))
      && (r.effects != [] ==> msg.Accept? || msg.Cancel?)
  {
    UpdateMapAgreesWithForm(options, m, msg, props);
    var r := UpdateMap(options, m, msg, props);
    if r.cmd == OfMsg(Accept) {
      assert CmdToForm(r.cmd) == OfMsg(Form.Accept);
      FromFormToForm(msg);
      assert msg == FromForm(ToForm(msg));
    }
  }

  /**
   * The accept chain: `acceptRequest` asks for a validation continuing with
   * `accept`; `validate` runs it on the model as it stands and passes the
   * continuation on; `validated` dispatches `accept` exactly when the
   * validation found no errors.
   */
  lemma AcceptChain<V, P>(options: Form.Options<V, P>, m: Form.Model<V>, errors: seq<ValidationError>, props: P)
    ensures UpdateMap(options, m, AcceptRequest, props).cmd == OfMsg(Validate(Some(Accept)))
    ensures UpdateMap(options, m, Validate(Some(Accept)), props).cmd == Perform((m, props), Some(Accept))
    ensures UpdateMap(options, m, Validated(errors, Some(Accept)), props).cmd == OfMsg(Accept) <==> errors == []
  {
  }
}
