/** The data logic of the flows context menu
    (packages/core/client/docs/zh-CN/core/event-and-filter/demos/settings/wrappers/contextual/FlowsContextMenu.tsx):
    which props address a model by id, how a step's configuration schema is
    merged from its action's schema and its own, and which flows have any
    configurable step. */
module FlowsContextMenu {
  import opened JsValues
  import opened OrderedMaps
  import opened FlowDefinitions

  /** The props are of the by-id kind: both `uid` and `modelClassName` are
      present and truthy. A missing prop reads as undefined, which is falsy,
      so the two `in` tests add nothing to the truthiness tests. */
  function IsModelByIdProps(props: Record): (r: bool)
    ensures r <==> Truthy(Get(props, "uid")) && Truthy(Get(props, "modelClassName"))
  {
    "uid" in props && "modelClassName" in props && Truthy(props["uid"]) && Truthy(props["modelClassName"])
  }

  /** The base layer of a step's schema: the `uiSchema` of the action the step
      `use`s, when `use` is truthy, the model has an engine, the action is
      registered there and it has a `uiSchema`; otherwise `{}`. The engine's
      action registry is `None` when the model has no engine. */
  function ActionUiSchema(step: StepDefinition, engineActions: Option<map<string, ActionDefinition>>): (r: UiSchema)
    ensures r != Empty() ==>
      && step.use.Some? && step.use.value != ""
      && engineActions.Some? && step.use.value in engineActions.value
      && engineActions.value[step.use.value].uiSchema == Some(r)
    ensures step.use.Some? && step.use.value != "" && engineActions.Some? && step.use.value in engineActions.value ==>
      match engineActions.value[step.use.value].uiSchema
      case Some(s) => r == s
      case None => r == Empty()
  {
    if step.use.Some? && step.use.value != "" && engineActions.Some? && step.use.value in engineActions.value
      && engineActions.value[step.use.value].uiSchema.Some?
    then engineActions.value[step.use.value].uiSchema.value
    else Empty()
  }

  /** The step's own layer: its `uiSchema`, or `{}`. */
  function StepUiSchema(step: StepDefinition): UiSchema {
    step.uiSchema.GetOr(Empty())
  }

  /** One field of the step layer written into the merged schema: spread over
      the field already there, or added as it is. */
  function MergeField(merged: UiSchema, fieldKey: string, schema: FieldSchema): UiSchema {
    if fieldKey in merged.values then merged.Set(fieldKey, Spread(merged.values[fieldKey], schema))
    else merged.Set(fieldKey, schema)
  }

  function MergeFields(merged: UiSchema, fieldKeys: seq<string>, step: map<string, FieldSchema>): UiSchema
    decreases |fieldKeys|
  {
    if fieldKeys == [] then merged
    else
      var next := if fieldKeys[0] in step then MergeField(merged, fieldKeys[0], step[fieldKeys[0]]) else merged;
      MergeFields(next, fieldKeys[1..], step)
  }

  /** The merged schema of a step: a copy of the action layer with every field
      of the step layer merged in, in the step layer's order. */
  function MergedUiSchema(actionUiSchema: UiSchema, stepUiSchema: UiSchema): (r: UiSchema)
    ensures actionUiSchema.Valid() && stepUiSchema.Valid() ==> r.Valid()
    ensures stepUiSchema.Valid() ==>
      forall k :: k in r.values <==> k in actionUiSchema.values || k in stepUiSchema.values
  {
    var r := MergeFields(actionUiSchema, stepUiSchema.keys, stepUiSchema.values);
    assert stepUiSchema.Valid() ==>
      && (actionUiSchema.Valid() ==> r.Valid())
      && (forall k :: k in r.values <==> k in actionUiSchema.values || k in stepUiSchema.values) by {
      if stepUiSchema.Valid() {
        MergeFieldsFacts(actionUiSchema, stepUiSchema.keys, stepUiSchema.values);
      }
    }
    r
  }

  /** The merge as the component runs it: copy the action layer, then assign
      the step layer's fields one by one. */
  method MergeUiSchema(actionUiSchema: UiSchema, stepUiSchema: UiSchema) returns (merged: UiSchema)
    ensures merged == MergedUiSchema(actionUiSchema, stepUiSchema)
  {
    merged := actionUiSchema;
    var fieldKeys := stepUiSchema.keys;
    for i := 0 to |fieldKeys|
      invariant MergeFields(merged, fieldKeys[i..], stepUiSchema.values) == MergedUiSchema(actionUiSchema, stepUiSchema)
    {
      assert fieldKeys[i..][0] == fieldKeys[i] && fieldKeys[i..][1..] == fieldKeys[i + 1..];
      var fieldKey := fieldKeys[i];
      if fieldKey in stepUiSchema.values {
        var schema := stepUiSchema.values[fieldKey];
        if fieldKey in merged.values {
          merged := merged.Set(fieldKey, Spread(merged.values[fieldKey], schema));
        } else {
          merged := merged.Set(fieldKey, schema);
        }
      }
    }
  }

  lemma {:induction false} MergeFieldsFacts(merged: UiSchema, fieldKeys: seq<string>, step: map<string, FieldSchema>)
    requires Distinct(fieldKeys)
    ensures var r := MergeFields(merged, fieldKeys, step);
      && (merged.Valid() ==> r.Valid())
      && (forall k :: k in r.values <==> k in merged.values || (k in fieldKeys && k in step))
    ensures var r := MergeFields(merged, fieldKeys, step);
      forall k :: k in fieldKeys && k in step ==>
        r.values[k] == if k in merged.values then Spread(merged.values[k], step[k]) else step[k]
    ensures var r := MergeFields(merged, fieldKeys, step);
      forall k :: k in merged.values && !(k in fieldKeys && k in step) ==> r.values[k] == merged.values[k]
    decreases |fieldKeys|
  {
    if fieldKeys != [] {
      var k0 := fieldKeys[0];
      var rest := fieldKeys[1..];
      assert Distinct(rest) by {
        forall i, j | 0 <= i < j < |rest| ensures rest[i] != rest[j] {
          assert rest[i] == fieldKeys[i + 1] && rest[j] == fieldKeys[j + 1];
        }
      }
      assert k0 !in rest by {
        forall j | 0 <= j < |rest| ensures rest[j] != k0 {
          assert rest[j] == fieldKeys[j + 1];
        }
      }
      assert forall k :: k in fieldKeys <==> k == k0 || k in rest;
      var next := if k0 in step then MergeField(merged, k0, step[k0]) else merged;
      MergeFieldsFacts(next, rest, step);
    }
  }

  /** The merged schema holds exactly the fields of both layers. A field in
      both is the action's field overlaid by the step's, the step winning on
      every sub-key; a field only in the step layer is the step's field; a
      field only in the action layer is the action's field, unchanged. */
  lemma MergedUiSchemaFacts(actionUiSchema: UiSchema, stepUiSchema: UiSchema)
    requires WellFormedSchema(actionUiSchema) && WellFormedSchema(stepUiSchema)
    ensures var r := MergedUiSchema(actionUiSchema, stepUiSchema);
      && WellFormedSchema(r)
      && r.values.Keys == actionUiSchema.values.Keys + stepUiSchema.values.Keys
    ensures var r := MergedUiSchema(actionUiSchema, stepUiSchema);
      forall k :: k in actionUiSchema.values && k in stepUiSchema.values ==>
        r.values[k].values == actionUiSchema.values[k].values + stepUiSchema.values[k].values
    ensures var r := MergedUiSchema(actionUiSchema, stepUiSchema);
      forall k :: k !in actionUiSchema.values && k in stepUiSchema.values ==>
        r.values[k] == stepUiSchema.values[k]
    ensures var r := MergedUiSchema(actionUiSchema, stepUiSchema);
      forall k :: k in actionUiSchema.values && k !in stepUiSchema.values ==>
        r.values[k] == actionUiSchema.values[k]
  {
    var r := MergedUiSchema(actionUiSchema, stepUiSchema);
    MergeFieldsFacts(actionUiSchema, stepUiSchema.keys, stepUiSchema.values);
    forall k | k in actionUiSchema.values && k in stepUiSchema.values
      ensures r.values[k].Valid()
      ensures r.values[k].values == actionUiSchema.values[k].values + stepUiSchema.values[k].values
    {
      assert r.values[k] == Spread(actionUiSchema.values[k], stepUiSchema.values[k]);
    }
    assert WellFormedSchema(r);
  }

  /** The merged schema is empty exactly when neither layer has a field: a
      step is configurable iff its action or the step itself declares one. */
  lemma MergedUiSchemaEmptyIff(actionUiSchema: UiSchema, stepUiSchema: UiSchema)
    requires WellFormedSchema(actionUiSchema) && WellFormedSchema(stepUiSchema)
    ensures |MergedUiSchema(actionUiSchema, stepUiSchema).keys| == 0 <==>
      actionUiSchema.values == map[] && stepUiSchema.values == map[]
  {
    var r := MergedUiSchema(actionUiSchema, stepUiSchema);
    MergedUiSchemaFacts(actionUiSchema, stepUiSchema);
    if |r.keys| == 0 {
      assert r.values.Keys == {};
    } else {
      assert r.keys[0] in r.values;
    }
  }

  /** The merged schema of one step. */
  function StepSchema(step: StepDefinition, engineActions: Option<map<string, ActionDefinition>>): UiSchema {
    MergedUiSchema(ActionUiSchema(step, engineActions), StepUiSchema(step))
  }

  datatype ConfigurableStep = ConfigurableStep(stepKey: string, step: StepDefinition, uiSchema: UiSchema)

  function ConfigurableStepsOf(stepKeys: seq<string>, steps: map<string, StepDefinition>,
                               engineActions: Option<map<string, ActionDefinition>>): seq<ConfigurableStep>
    decreases |stepKeys|
  {
    if stepKeys == [] then []
    else
      var rest := ConfigurableStepsOf(stepKeys[1..], steps, engineActions);
      var k := stepKeys[0];
      if k in steps && |StepSchema(steps[k], engineActions).keys| != 0
      then [ConfigurableStep(k, steps[k], StepSchema(steps[k], engineActions))] + rest
      else rest
  }

  /** The steps of a flow, in declaration order, whose merged schema has a
      field, each with that merged schema. */
  function ConfigurableSteps(flow: FlowDefinition, engineActions: Option<map<string, ActionDefinition>>): seq<ConfigurableStep> {
    ConfigurableStepsOf(flow.steps.keys, flow.steps.values, engineActions)
  }

  /** `Array.prototype.filter`: the flows that `keep` accepts, in their order. */
  function Filter(flows: seq<FlowDefinition>, keep: FlowDefinition -> bool): seq<FlowDefinition>
    decreases |flows|
  {
    if flows == [] then []
    else
      var rest := Filter(flows[1..], keep);
      if keep(flows[0]) then [flows[0]] + rest else rest
  }

  /** A flow has at least one configurable step. */
  predicate HasConfigurableStep(flow: FlowDefinition, engineActions: Option<map<string, ActionDefinition>>) {
    |ConfigurableSteps(flow, engineActions)| > 0
  }

  /** `getConfigurableFlows`: the flows, in the order given, that have at
      least one configurable step. */
  function ConfigurableFlows(flows: seq<FlowDefinition>, engineActions: Option<map<string, ActionDefinition>>): (r: seq<FlowDefinition>)
    ensures forall f :: f in r <==> f in flows && |ConfigurableSteps(f, engineActions)| > 0
  {
    FilterMembers(flows, flow => HasConfigurableStep(flow, engineActions));
    Filter(flows, flow => HasConfigurableStep(flow, engineActions))
  }

  lemma {:induction false} ConfigurableStepsOfFacts(stepKeys: seq<string>, steps: map<string, StepDefinition>,
                                                   engineActions: Option<map<string, ActionDefinition>>)
    ensures var r := ConfigurableStepsOf(stepKeys, steps, engineActions);
      forall i :: 0 <= i < |r| ==>
        && r[i].stepKey in stepKeys && r[i].stepKey in steps
        && r[i].step == steps[r[i].stepKey]
        && r[i].uiSchema == StepSchema(r[i].step, engineActions)
        && |r[i].uiSchema.keys| != 0
    ensures |ConfigurableStepsOf(stepKeys, steps, engineActions)| > 0 <==>
      exists k :: k in stepKeys && k in steps && |StepSchema(steps[k], engineActions).keys| != 0
    decreases |stepKeys|
  {
    if stepKeys != [] {
      ConfigurableStepsOfFacts(stepKeys[1..], steps, engineActions);
      assert forall k :: k in stepKeys <==> k == stepKeys[0] || k in stepKeys[1..];
    }
  }

  /** Every configurable step is a step of the flow, listed with its merged
      schema, which is not empty; a flow has a configurable step iff some
      step's action layer or own layer declares a field. */
  lemma ConfigurableStepsFacts(flow: FlowDefinition, engineActions: Option<map<string, ActionDefinition>>)
    requires flow.steps.Valid()
    requires forall k | k in flow.steps.values :: WellFormedSchema(StepUiSchema(flow.steps.values[k]))
    requires forall k | k in flow.steps.values :: WellFormedSchema(ActionUiSchema(flow.steps.values[k], engineActions))
    ensures var r := ConfigurableSteps(flow, engineActions);
      forall i :: 0 <= i < |r| ==>
        && r[i].stepKey in flow.steps.values
        && r[i].step == flow.steps.values[r[i].stepKey]
        && r[i].uiSchema == StepSchema(r[i].step, engineActions)
        && |r[i].uiSchema.keys| != 0
    ensures |ConfigurableSteps(flow, engineActions)| > 0 <==>
      exists k :: k in flow.steps.values &&
        (ActionUiSchema(flow.steps.values[k], engineActions).values != map[] ||
         StepUiSchema(flow.steps.values[k]).values != map[])
  {
    ConfigurableStepsOfFacts(flow.steps.keys, flow.steps.values, engineActions);
    forall k | k in flow.steps.values
      ensures |StepSchema(flow.steps.values[k], engineActions).keys| != 0 <==>
        (ActionUiSchema(flow.steps.values[k], engineActions).values != map[] ||
         StepUiSchema(flow.steps.values[k]).values != map[])
    {
      MergedUiSchemaEmptyIff(ActionUiSchema(flow.steps.values[k], engineActions), StepUiSchema(flow.steps.values[k]));
    }
  }

  lemma {:induction false} FilterMembers(flows: seq<FlowDefinition>, keep: FlowDefinition -> bool)
    ensures forall f :: f in Filter(flows, keep) <==> f in flows && keep(f)
    decreases |flows|
  {
    if flows != [] {
      FilterMembers(flows[1..], keep);
      assert forall f :: f in flows <==> f == flows[0] || f in flows[1..];
    }
  }

  lemma {:induction false} FilterConcat(a: seq<FlowDefinition>, b: seq<FlowDefinition>, keep: FlowDefinition -> bool)
    ensures Filter(a + b, keep) == Filter(a, keep) + Filter(b, keep)
    decreases |a|
  {
    if a != [] {
      var ab := a + b;
      assert ab != [] && ab[0] == a[0] && ab[1..] == a[1..] + b;
      FilterConcat(a[1..], b, keep);
    } else {
      assert a + b == b;
    }
  }

  /** Filtering keeps the relative order: the kept flows of a concatenation
      are the kept flows of the first part followed by those of the second. */
  lemma ConfigurableFlowsConcat(a: seq<FlowDefinition>, b: seq<FlowDefinition>,
                                engineActions: Option<map<string, ActionDefinition>>)
    ensures ConfigurableFlows(a + b, engineActions) == ConfigurableFlows(a, engineActions) + ConfigurableFlows(b, engineActions)
  {
    FilterConcat(a, b, flow => HasConfigurableStep(flow, engineActions));
  }
}
