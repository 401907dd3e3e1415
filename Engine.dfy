/** The flow engine's registries (packages/core/client/src/flow-engine/flowEngine.ts):
    actions by name, model classes by name and model instances by uid, each a
    map the engine updates in place. */
module Engine {
  import opened JsValues
  import opened FlowDefinitions

  /** The first argument of `registerAction`: an action name, a whole
      definition object, or a value of any other type. */
  datatype ActionArgument =
    | ActionName(name: string)
    | Definition(definition: ActionDefinition)
    | OtherValue

  /** The options object of `createModel`. */
  datatype CreateOptions = CreateOptions(uid: Option<string>, use: string, stepsParams: Option<Record>)

  /** What the engine reports through `console.warn`. */
  datatype Warning =
    | ActionOverwritten(actionName: string)
    | ModelClassOverwritten(className: string)
    | FlowClassNotFound(className: string, flowKey: string)
    | FlowRegistrationUnsupported(className: string, flowKey: string)

  const InvalidRegisterActionArguments: string := "Invalid arguments for registerAction"

  function ModelClassNotFound(className: string): string {
    "Model class '" + className + "' not found. Please register it first."
  }

  /** The definition `registerAction` stores for its arguments, or the error
      it raises: a name needs an options object, and then the stored
      definition is the options carrying that name; a definition object is
      stored as it is; anything else is rejected. */
  function ActionDefinitionFrom(nameOrDefinition: ActionArgument, options: Option<ActionOptions>): (r: Result<ActionDefinition>)
    ensures r.Ok? <==> nameOrDefinition.Definition? || (nameOrDefinition.ActionName? && options.Some?)
    ensures r.Throws? ==> r.message == InvalidRegisterActionArguments
    ensures nameOrDefinition.Definition? ==> r == Ok(nameOrDefinition.definition)
    ensures nameOrDefinition.ActionName? && options.Some? ==>
      && r.value.name == nameOrDefinition.name
      && r.value.title == options.value.title
      && r.value.handler == options.value.handler
      && r.value.uiSchema == options.value.uiSchema
      && r.value.defaultParams == options.value.defaultParams
  {
    match nameOrDefinition
    case ActionName(name) =>
      if options.Some? then
        var o := options.value;
        Ok(ActionDefinition(name, o.title, o.handler, o.uiSchema, o.defaultParams))
      else
        Throws(InvalidRegisterActionArguments)
    case Definition(d) => Ok(d)
    case OtherValue => Throws(InvalidRegisterActionArguments)
  }

  /** A live model instance: what the engine passes to the model class's
      constructor, and the engine it attaches afterwards. */
  class FlowModel {
    const uid: string
    const modelClass: ModelConstructor
    const stepParams: Option<Record>
    var flowEngine: FlowEngine?

    constructor (uid: string, modelClass: ModelConstructor, stepParams: Option<Record>)
      ensures this.uid == uid && this.modelClass == modelClass && this.stepParams == stepParams
      ensures flowEngine == null
    {
      this.uid := uid;
      this.modelClass := modelClass;
      this.stepParams := stepParams;
      flowEngine := null;
    }

    method SetFlowEngine(engine: FlowEngine)
      modifies this
      ensures flowEngine == engine
    {
      flowEngine := engine;
    }
  }

  class FlowEngine {
    var actions: map<string, ActionDefinition>
    var modelClasses: map<string, ModelConstructor>
    var modelInstances: map<string, FlowModel>
    /** The warnings logged so far, oldest first. */
    ghost var warnings: seq<Warning>
    /** The flows handed to a model class's static `registerFlow`, oldest first;
        what that static method does with them is not part of this model. */
    ghost var delegatedFlows: seq<(ModelConstructor, FlowDefinition)>

    /** Every instance is stored under its own uid. */
    ghost predicate Valid()
      reads this
    {
      forall u | u in modelInstances :: modelInstances[u].uid == u
    }

    constructor ()
      ensures Valid()
      ensures actions == map[] && modelClasses == map[] && modelInstances == map[]
      ensures warnings == [] && delegatedFlows == []
    {
      actions, modelClasses, modelInstances := map[], map[], map[];
      warnings, delegatedFlows := [], [];
    }

    /** `registerAction`: stores the definition under its name, overwriting
        (with a warning) an action of the same name, or raises on invalid
        arguments without changing anything. */
    method RegisterAction(nameOrDefinition: ActionArgument, options: Option<ActionOptions>) returns (c: Completion)
      modifies this`actions, this`warnings
      ensures var d := ActionDefinitionFrom(nameOrDefinition, options);
        if d.Throws? then
          c == Threw(d.message) && actions == old(actions) && warnings == old(warnings)
        else
          && c == Returned
          && actions == old(actions)[d.value.name := d.value]
          && warnings == old(warnings) + (if d.value.name in old(actions) then [ActionOverwritten(d.value.name)] else [])
      ensures c.Returned? ==>
        var d := ActionDefinitionFrom(nameOrDefinition, options).value;
        && GetAction(d.name) == Some(d)
        && forall n :: n != d.name ==> GetAction(n) == old(GetAction(n))
    {
      var d := ActionDefinitionFrom(nameOrDefinition, options);
      if d.Throws? {
        return Threw(d.message);
      }
      var definition := d.value;
      if definition.name in actions {
        warnings := warnings + [ActionOverwritten(definition.name)];
      }
      actions := actions[definition.name := definition];
      c := Returned;
    }

    /** `getAction`: the registered definition, or undefined. */
    function GetAction(name: string): (r: Option<ActionDefinition>)
      reads this
      ensures r.Some? <==> name in actions
      ensures r.Some? ==> r.value == actions[name] && r.value in actions.Values
    {
      if name in actions then Some(actions[name]) else None
    }

    /** `registerModelClass`: stores the class under `name`, overwriting (with
        a warning) a class of the same name. */
    method RegisterModelClass(name: string, modelClass: ModelConstructor)
      modifies this`modelClasses, this`warnings
      ensures modelClasses == old(modelClasses)[name := modelClass]
      ensures warnings == old(warnings) + (if name in old(modelClasses) then [ModelClassOverwritten(name)] else [])
      ensures GetModelClass(name) == Some(modelClass)
      ensures forall n :: n != name ==> GetModelClass(n) == old(GetModelClass(n))
    {
      if name in modelClasses {
        warnings := warnings + [ModelClassOverwritten(name)];
      }
      modelClasses := modelClasses[name := modelClass];
    }

    /** `getModelClass`: the registered class, or undefined. */
    function GetModelClass(name: string): (r: Option<ModelConstructor>)
      reads this
      ensures r.Some? <==> name in modelClasses
      ensures r.Some? ==> r.value == modelClasses[name]
    {
      if name in modelClasses then Some(modelClasses[name]) else None
    }

    /** `createModel`: raises when the class is not registered (checked before
        the uid, so even for a uid already in use); returns the stored
        instance when the uid is in use, whatever class it was created from;
        otherwise constructs a new instance, attaches this engine to it and
        stores it under its uid. A missing uid is replaced by `generatedUid`. */
    method CreateModel(options: CreateOptions, generatedUid: string) returns (r: Result<FlowModel>)
      requires Valid()
      modifies this`modelInstances
      ensures Valid()
      ensures var uid := options.uid.GetOr(generatedUid);
        if options.use !in modelClasses then
          r == Throws(ModelClassNotFound(options.use)) && modelInstances == old(modelInstances)
        else if uid in old(modelInstances) then
          r == Ok(old(modelInstances)[uid]) && modelInstances == old(modelInstances)
        else
          && r.Ok? && fresh(r.value)
          && r.value.uid == uid
          && r.value.modelClass == modelClasses[options.use]
          && r.value.stepParams == options.stepsParams
          && r.value.flowEngine == this
          && modelInstances == old(modelInstances)[uid := r.value]
      ensures r.Ok? ==> r.value.uid == options.uid.GetOr(generatedUid)
      ensures r.Ok? ==> GetModel(r.value.uid) == Some(r.value)
    {
      var uid := if options.uid.Some? then options.uid.value else generatedUid;
      var modelClass := GetModelClass(options.use);
      if modelClass.None? {
        return Throws(ModelClassNotFound(options.use));
      }
      if uid in modelInstances {
        return Ok(modelInstances[uid]);
      }
      var modelInstance := new FlowModel(uid, modelClass.value, options.stepsParams);
      modelInstance.SetFlowEngine(this);
      modelInstances := modelInstances[uid := modelInstance];
      r := Ok(modelInstance);
    }

    /** `getModel`: the instance stored under `uid`, or undefined. */
    function GetModel(uid: string): (r: Option<FlowModel>)
      reads this
      ensures r.Some? <==> uid in modelInstances
      ensures r.Some? ==> r.value == modelInstances[uid]
    {
      if uid in modelInstances then Some(modelInstances[uid]) else None
    }

    /** `destroyModel`: removes the instance and returns true when `uid` was
        in use; otherwise returns false and changes nothing. */
    method DestroyModel(uid: string) returns (destroyed: bool)
      requires Valid()
      modifies this`modelInstances
      ensures Valid()
      ensures destroyed == (uid in old(modelInstances))
      ensures modelInstances == old(modelInstances) - {uid}
      ensures !destroyed ==> modelInstances == old(modelInstances)
      ensures GetModel(uid) == None
    {
      if uid in modelInstances {
        modelInstances := modelInstances - {uid};
        return true;
      }
      return false;
    }

    /** `registerFlow`: hands the flow to the class's static `registerFlow`;
        warns and does nothing else, without raising, when the class is not
        registered or has no such static method. */
    method RegisterFlow(modelClassName: string, flowDefinition: FlowDefinition)
      modifies this`warnings, this`delegatedFlows
      ensures modelClassName !in modelClasses ==>
        && warnings == old(warnings) + [FlowClassNotFound(modelClassName, flowDefinition.key)]
        && delegatedFlows == old(delegatedFlows)
      ensures modelClassName in modelClasses && !modelClasses[modelClassName].hasStaticRegisterFlow ==>
        && warnings == old(warnings) + [FlowRegistrationUnsupported(modelClassName, flowDefinition.key)]
        && delegatedFlows == old(delegatedFlows)
      ensures modelClassName in modelClasses && modelClasses[modelClassName].hasStaticRegisterFlow ==>
        && warnings == old(warnings)
        && delegatedFlows == old(delegatedFlows) + [(modelClasses[modelClassName], flowDefinition)]
    {
      var modelClass := GetModelClass(modelClassName);
      if modelClass.None? {
        warnings := warnings + [FlowClassNotFound(modelClassName, flowDefinition.key)];
        return;
      }
      if !modelClass.value.hasStaticRegisterFlow {
        warnings := warnings + [FlowRegistrationUnsupported(modelClassName, flowDefinition.key)];
        return;
      }
      delegatedFlows := delegatedFlows + [(modelClass.value, flowDefinition)];
    }
  }

  /** Idempotent creation: a second `createModel` with the same uid returns
      the very instance the first one returned (or raises the same error) and
      stores nothing new. */
  method CreateModelTwice(engine: FlowEngine, options: CreateOptions, generatedUid: string)
    returns (first: Result<FlowModel>, second: Result<FlowModel>)
    requires engine.Valid() && options.uid.Some?
    modifies engine`modelInstances
    ensures engine.Valid()
    ensures second == first
    ensures first.Ok? ==> engine.GetModel(options.uid.value) == Some(first.value)
  {
    first := engine.CreateModel(options, generatedUid);
    ghost var afterFirst := engine.modelInstances;
    second := engine.CreateModel(options, generatedUid);
    assert engine.modelInstances == afterFirst;
  }
}
