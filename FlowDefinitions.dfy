/** The records the flow engine registers and hands around: actions, flows and
    their steps, configuration schemas and model classes. */
module FlowDefinitions {
  import opened JsValues
  import opened OrderedMaps

  /** An async handler `(ctx, model, params) => ...`, known only by identity. */
  datatype Handler = Handler(id: nat)

  /** One field of a `uiSchema`: a flat schema object (`type`, `title`,
      `x-component`, ...), keys in declaration order. */
  type FieldSchema = OrderedMap<Value>

  /** A `uiSchema`: field key to field schema, in declaration order. */
  type UiSchema = OrderedMap<FieldSchema>

  /** Both levels of a configuration schema are well-formed ordered objects. */
  ghost predicate WellFormedSchema(s: UiSchema) {
    s.Valid() && forall k | k in s.values :: s.values[k].Valid()
  }

  /** The options object of `registerAction(name, options)`. */
  datatype ActionOptions = ActionOptions(
    title: Option<string>,
    handler: Handler,
    uiSchema: Option<UiSchema>,
    defaultParams: Option<Record>)

  /** A named, reusable operation. */
  datatype ActionDefinition = ActionDefinition(
    name: string,
    title: Option<string>,
    handler: Handler,
    uiSchema: Option<UiSchema>,
    defaultParams: Option<Record>)

  /** One step of a flow: it either `use`s a registered action or carries its
      own `handler`. */
  datatype StepDefinition = StepDefinition(
    use: Option<string>,
    handler: Option<Handler>,
    title: Option<string>,
    uiSchema: Option<UiSchema>,
    defaultParams: Option<Record>)

  /** A flow: its steps keyed by step key in declaration order, and the event
      name in `on.eventName` when the flow is event-triggered. */
  datatype FlowDefinition = FlowDefinition(
    key: string,
    title: Option<string>,
    on: Option<string>,
    steps: OrderedMap<StepDefinition>)

  /** A model class (a constructor), known by its name and by whether it has
      the static `registerFlow` the engine delegates to. */
  datatype ModelConstructor = ModelConstructor(name: string, hasStaticRegisterFlow: bool)
}
