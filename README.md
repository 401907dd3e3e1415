# NocoBase flow engine core, modelled in Dafny

This project models the core of NocoBase's client-side flow engine, together
with the flow-driven pieces built on it:

- **the flow engine** (`FlowEngine`). It has three registries, each updated in
  place: actions by name, model classes by name, and model instances by uid.
  Registering a name again overwrites it with a warning. `createModel` is
  idempotent per uid. `registerFlow` hands a flow to the model class's own
  static `registerFlow`, or warns and does nothing.
- **the flows context menu's data logic**:
  - which props address a model by uid;
  - how a step's configuration schema is merged: the `uiSchema` of the step's
    action is the base layer, the step's own `uiSchema` is on top, and the two
    are spread field by field;
  - which flows of a model have at least one configurable step.
- **the table block model**. Its row actions are an insertion-ordered map keyed
  by uid, and it sets the query state on its array resource before each load.
- **the demo table's data logic**: the mock data source, the conversion from
  fields to columns, and the pagination updates done by its flows.
- **the "link to" relation field's `initialize`**. For a `belongsToMany`
  field it fills in a generated junction table, generated foreign keys, and
  default source and target keys.

How JavaScript is modelled:

- Values are the `JsValues.Value` datatype. `Truthy`, `||`, and the
  truncating `%` are written out.
- A `Map`, or an object whose key order is observed, is an
  `OrderedMaps.OrderedMap`: a key list plus a map.
- Objects whose key order plays no part are `map<string, Value>`.
- Objects the source mutates are Dafny classes (`FlowEngine`, `FlowModel`,
  `TableBlockModel`, `ArrayResource`, `FieldValues`), and their methods state
  the whole new state.
- `console.warn` is a ghost log of `Warning`s.
- Calls to a model class's static `registerFlow` are a ghost log, `delegatedFlows`.
- The uid generator is a parameter:
  - `createModel` takes a `generatedUid`;
  - `initialize` takes a sequence of uids, used in call order.

## Model

| member | source | states |
|---|---|---|
| JsValues.Or | packages/core/client/docs/zh-CN/core/event-and-filter/demos/models/table.tsx:199-200 | `a \|\| b` is `a` when `a` is truthy and `b` otherwise |
| JsValues.Get | packages/core/client/docs/zh-CN/core/event-and-filter/demos/models/table.tsx:194-195 | reading a missing key gives undefined, a present key its value |
| JsValues.JsRem | packages/core/client/docs/zh-CN/core/event-and-filter/demos/models/table.tsx:271-273 | JavaScript's `%`: the Euclidean remainder for a non-negative dividend; for a negative one, a non-positive remainder that differs from the dividend by a multiple of the divisor and is smaller than the divisor in magnitude (so `-3 % 8` is `-3`) |
| JsValues.IntToString | packages/core/client/docs/zh-CN/core/event-and-filter/demos/models/table.tsx:270-272 | `${id}` is never empty and starts with a minus sign exactly for a negative number |
| JsValues.IntToStringRoundTrip | packages/core/client/docs/zh-CN/core/event-and-filter/demos/models/table.tsx:270-272 | the decimal rendering reads back as the number it renders, so distinct ids render as distinct strings |
| OrderedMaps.OrderedMap.Set | packages/core/client/src/flow-model/models/tableBlockModel.ts:25 | `Map.set` keeps the map well-formed and maps `k` to `v`; an existing key keeps its place and a new key goes last |
| OrderedMaps.OrderedMap.Get | packages/core/client/src/flow-model/models/tableBlockModel.ts:29 | `Map.get` gives the stored value, or undefined exactly when the key is absent |
| OrderedMaps.OrderedMap.Delete | packages/core/client/src/flow-model/models/tableBlockModel.ts:33 | `Map.delete` drops the key and keeps the map well-formed; in a well-formed map the key list loses exactly that key's position, the keys before and after it staying in order |
| OrderedMaps.OrderedMap.Values | packages/core/client/src/flow-model/models/tableBlockModel.ts:37 | `Array.from(m.values())` lists the values in key order |
| OrderedMaps.Without | packages/core/client/src/flow-model/models/tableBlockModel.ts:33 | removing a key from the key list keeps exactly the other keys, without repeats, and changes nothing when the key is absent |
| OrderedMaps.WithoutClosesGap | packages/core/client/src/flow-model/models/tableBlockModel.ts:33 | removing a key that sits once at position `p` gives the keys before `p` followed by the keys after it |
| OrderedMaps.SpreadKeysValid | packages/core/client/docs/zh-CN/core/event-and-filter/demos/settings/wrappers/contextual/FlowsContextMenu.tsx:115 | writing keys over a well-formed object keeps it well-formed |
| OrderedMaps.SpreadKeysValues | packages/core/client/docs/zh-CN/core/event-and-filter/demos/settings/wrappers/contextual/FlowsContextMenu.tsx:115 | after writing the keys of one object over another, the result has the keys of both; a written key has the written value, every other key its old value |
| OrderedMaps.Spread | packages/core/client/docs/zh-CN/core/event-and-filter/demos/settings/wrappers/contextual/FlowsContextMenu.tsx:115 | `{ ...base, ...top }` holds the keys of both, `top` winning on a shared key, and is well-formed when `base` is |
| Engine.ActionDefinitionFrom | packages/core/client/src/flow-engine/flowEngine.ts:43-54 | `registerAction` accepts a name with options, or a definition object; anything else raises "Invalid arguments for registerAction"; a name with options becomes the options carrying that name |
| Engine.FlowEngine.constructor | packages/core/client/src/flow-engine/flowEngine.ts:18-22 | every registry starts empty |
| Engine.FlowEngine.RegisterAction | packages/core/client/src/flow-engine/flowEngine.ts:39-60 | an invalid call raises and changes nothing; a valid one stores the definition under its name, warns iff that name was taken, and leaves every other name alone |
| Engine.FlowEngine.GetAction | packages/core/client/src/flow-engine/flowEngine.ts:68-70 | the registered definition for the name, or undefined when none is registered |
| Engine.FlowEngine.RegisterModelClass | packages/core/client/src/flow-engine/flowEngine.ts:82-87 | stores the class under its name, warns iff the name was taken, and leaves every other name alone |
| Engine.FlowEngine.GetModelClass | packages/core/client/src/flow-engine/flowEngine.ts:94-96 | the registered class, or undefined |
| Engine.FlowEngine.CreateModel | packages/core/client/src/flow-engine/flowEngine.ts:109-135 | an unregistered class raises "Model class '…' not found", even for a uid already in use; a uid in use returns the instance stored under it; otherwise a fresh instance with that uid, class and step parameters, attached to this engine, is added under its uid and nothing else changes; instances stay stored under their own uids |
| Engine.FlowModel.constructor | packages/core/client/src/flow-engine/flowEngine.ts:127-130 | the instance carries the uid and step parameters it was built with |
| Engine.FlowModel.SetFlowEngine | packages/core/client/src/flow-engine/flowEngine.ts:131 | the instance is attached to the engine |
| Engine.CreateModelTwice | packages/core/client/src/flow-engine/flowEngine.ts:123-125 | two `createModel` calls with the same uid give the same instance, or the same error |
| Engine.FlowEngine.GetModel | packages/core/client/src/flow-engine/flowEngine.ts:143-145 | the instance stored under the uid, or undefined |
| Engine.FlowEngine.DestroyModel | packages/core/client/src/flow-engine/flowEngine.ts:152-157 | returns true iff the uid was in use; the uid is gone afterwards and nothing else changes |
| Engine.FlowEngine.RegisterFlow | packages/core/client/src/flow-engine/flowEngine.ts:167-185 | an unregistered class, or a class without a static `registerFlow`, gets its own warning and nothing else happens; otherwise the flow is handed to that class and nothing is logged |
| FlowsContextMenu.IsModelByIdProps | packages/core/client/docs/zh-CN/core/event-and-filter/demos/settings/wrappers/contextual/FlowsContextMenu.tsx:28-30 | the props address a model by uid iff `uid` and `modelClassName` are both truthy |
| FlowsContextMenu.ActionUiSchema | packages/core/client/docs/zh-CN/core/event-and-filter/demos/settings/wrappers/contextual/FlowsContextMenu.tsx:98-107 | a non-empty action layer comes only from a truthy `use` naming an action registered on the model's engine, whose `uiSchema` it is; such an action's `uiSchema` is the layer, and `{}` when it has none |
| FlowsContextMenu.MergeUiSchema | packages/core/client/docs/zh-CN/core/event-and-filter/demos/settings/wrappers/contextual/FlowsContextMenu.tsx:110-119 | the copy-then-assign loop computes the merged schema |
| FlowsContextMenu.MergeFieldsFacts | packages/core/client/docs/zh-CN/core/event-and-filter/demos/settings/wrappers/contextual/FlowsContextMenu.tsx:113-119 | merging a list of distinct fields adds exactly those fields; each merged field is spread over the one already there, if any; all other fields are untouched |
| FlowsContextMenu.MergedUiSchema | packages/core/client/docs/zh-CN/core/event-and-filter/demos/settings/wrappers/contextual/FlowsContextMenu.tsx:110-119 | the merged schema's fields are exactly those of the two layers, and it is well-formed when both layers are |
| FlowsContextMenu.MergedUiSchemaFacts | packages/core/client/docs/zh-CN/core/event-and-filter/demos/settings/wrappers/contextual/FlowsContextMenu.tsx:110-119 | the merged schema holds the fields of both layers; a field in both is the action's field overlaid by the step's; a field in only one layer is that layer's field, unchanged |
| FlowsContextMenu.MergedUiSchemaEmptyIff | packages/core/client/docs/zh-CN/core/event-and-filter/demos/settings/wrappers/contextual/FlowsContextMenu.tsx:122-124 | a step is left out iff neither its action layer nor its own layer has a field |
| FlowsContextMenu.ConfigurableStepsOfFacts | packages/core/client/docs/zh-CN/core/event-and-filter/demos/settings/wrappers/contextual/FlowsContextMenu.tsx:93-128 | each listed step is a step of the flow with its non-empty merged schema; the list is non-empty iff some step is configurable |
| FlowsContextMenu.ConfigurableStepsFacts | packages/core/client/docs/zh-CN/core/event-and-filter/demos/settings/wrappers/contextual/FlowsContextMenu.tsx:93-130 | a flow has a configurable step iff one of its steps has a field in its action layer or in its own layer |
| FlowsContextMenu.FilterMembers | packages/core/client/docs/zh-CN/core/event-and-filter/demos/settings/wrappers/contextual/FlowsContextMenu.tsx:92 | `filter` keeps exactly the elements its predicate accepts |
| FlowsContextMenu.FilterConcat | packages/core/client/docs/zh-CN/core/event-and-filter/demos/settings/wrappers/contextual/FlowsContextMenu.tsx:92 | `filter` distributes over concatenation, so it keeps the elements' order |
| FlowsContextMenu.ConfigurableFlows | packages/core/client/docs/zh-CN/core/event-and-filter/demos/settings/wrappers/contextual/FlowsContextMenu.tsx:85-131 | `getConfigurableFlows` keeps a flow iff it is one of the model's flows and has a configurable step |
| FlowsContextMenu.ConfigurableFlowsConcat | packages/core/client/docs/zh-CN/core/event-and-filter/demos/settings/wrappers/contextual/FlowsContextMenu.tsx:90-92 | the filter keeps the flows' order: filtering `a + b` is filtering `a` followed by filtering `b` |
| TableBlock.RowActionsFromKeys | packages/core/client/src/flow-model/models/tableBlockModel.ts:19-22 | after `setRowActions`, the map holds exactly the uids of the given actions |
| TableBlock.RowActionsFrom | packages/core/client/src/flow-model/models/tableBlockModel.ts:19-22 | the map `setRowActions` builds is well-formed, keyed by uid, and has no more keys than actions given |
| TableBlock.RowActionsFromLastWins | packages/core/client/src/flow-model/models/tableBlockModel.ts:21 | the last action given for a uid is the one stored |
| TableBlock.RowActionsFromOrder | packages/core/client/src/flow-model/models/tableBlockModel.ts:21 | uids are listed in the order they first appear |
| TableBlock.TableBlockModel.constructor | packages/core/client/src/flow-model/models/tableBlockModel.ts:14-17 | the row-action map starts empty |
| TableBlock.TableBlockModel.SetRowActions | packages/core/client/src/flow-model/models/tableBlockModel.ts:19-22 | the `forEach` loop builds the cleared-then-filled map |
| TableBlock.TableBlockModel.AddRowAction | packages/core/client/src/flow-model/models/tableBlockModel.ts:24-26 | maps the action's uid to it; other entries stay; an existing uid keeps its place and a new one goes last |
| TableBlock.TableBlockModel.GetRowAction | packages/core/client/src/flow-model/models/tableBlockModel.ts:28-30 | the action stored under the uid, whose uid it is, or undefined |
| TableBlock.TableBlockModel.RemoveRowAction | packages/core/client/src/flow-model/models/tableBlockModel.ts:32-34 | returns whether the uid was present; only that entry is removed, and the other uids keep their order around the gap |
| TableBlock.ArrayResource.SetFilter | packages/core/client/src/flow-model/models/tableBlockModel.ts:52 | (assumed behaviour) the filter becomes the argument; the rest of the query state stays |
| TableBlock.ArrayResource.SetSort | packages/core/client/src/flow-model/models/tableBlockModel.ts:57-60 | (assumed behaviour) the sort becomes the argument; the rest of the query state stays |
| TableBlock.ArrayResource.Load | packages/core/client/src/flow-model/models/tableBlockModel.ts:48 | (assumed behaviour) one load is recorded with the current query state, which stays |
| TableBlock.TableBlockModel.GetRowActions | packages/core/client/src/flow-model/models/tableBlockModel.ts:36-38 | the stored actions in key order, each under its own uid |
| TableBlock.TableBlockModel.Reset | packages/core/client/src/flow-model/models/tableBlockModel.ts:44-49 | page 1, an empty filter, an empty sort list, then one load from that state |
| TableBlock.TableBlockModel.ApplyFilter | packages/core/client/src/flow-model/models/tableBlockModel.ts:51-54 | only the filter changes, then one load with the new filter |
| TableBlock.TableBlockModel.ApplySort | packages/core/client/src/flow-model/models/tableBlockModel.ts:56-62 | the sort becomes exactly `{ field, direction }`, then one load with it |
| DemoTable.MockRowRanges | packages/core/client/docs/zh-CN/core/event-and-filter/demos/models/table.tsx:271-273 | for a non-negative id the age is in [20, 59] and the city is entry `id % 8` |
| DemoTable.MockRowFor | packages/core/client/docs/zh-CN/core/event-and-filter/demos/models/table.tsx:267-274 | the row for an id: that id, the name `用户` and the email `user…@example.com` around its decimal rendering, age `20 + id % 40`, and city entry `id % 8` (undefined for a negative remainder), `%` being JavaScript's |
| DemoTable.MockRowTextEncodesId | packages/core/client/docs/zh-CN/core/event-and-filter/demos/models/table.tsx:270-272 | a row's name and its email each give back its id |
| DemoTable.RowsAfterAt | packages/core/client/docs/zh-CN/core/event-and-filter/demos/models/table.tsx:266-267 | the rows built after a start index are one per id, in id order |
| DemoTable.AppendRows | packages/core/client/docs/zh-CN/core/event-and-filter/demos/models/table.tsx:264-276 | the `for` loop builds one row per id after the start index, until the page is full or the data ends |
| DemoTable.MockPageFacts | packages/core/client/docs/zh-CN/core/event-and-filter/demos/models/table.tsx:261-278 | a generated page has the cut-off page size, its rows in id order, ids in [1, total] from page 1 on, and ages and cities in range |
| DemoTable.MockPageIds | packages/core/client/docs/zh-CN/core/event-and-filter/demos/models/table.tsx:263-267 | from page 1 on, every generated id lies in [1, total] |
| DemoTable.GenerateMockData | packages/core/client/docs/zh-CN/core/event-and-filter/demos/models/table.tsx:261-278 | the total is 256; the page holds `pageSize` rows, cut short at the end of the data and never negative; row `k` is the mock row for id `startIndex + k + 1`; from page 1 on, ids lie in [1, total] |
| DemoTable.ConvertToColumns | packages/core/client/docs/zh-CN/core/event-and-filter/demos/models/table.tsx:129-143 | one column per field, in order; the key and data index are the field; the title is the field's label, or the field itself; the width is 80 iff `id`, 200 iff `email`, 120 otherwise |
| DemoTable.UpdatePagination | packages/core/client/docs/zh-CN/core/event-and-filter/demos/models/table.tsx:194-201 | the previous pagination, plus `current` and `pageSize`, each from the parameters when truthy and else kept; every other key is kept |
| DemoTable.UpdatePaginationKeepsPrevious | packages/core/client/docs/zh-CN/core/event-and-filter/demos/models/table.tsx:194-201 | an update with no parameters keeps the page and page size of the previous update |
| DemoTable.FetchData | packages/core/client/docs/zh-CN/core/event-and-filter/demos/models/table.tsx:223-237 | starts from the default `{ current: 1, pageSize: 10 }`; gives the generated page, or no rows when an operand is not a number; returns the pagination with `total` set to 256 and nothing else changed |
| LinkTo.Initialized | packages/client/src/collection-manager/interfaces/linkTo.ts:22-44 | the data type and the target are never changed |
| LinkTo.Initialize | packages/client/src/collection-manager/interfaces/linkTo.ts:22-44 | the in-place updates leave the values as defined by `Initialized` |
| LinkTo.OtherTypesUnchanged | packages/client/src/collection-manager/interfaces/linkTo.ts:23 | a field that is not `belongsToMany` is left as it is |
| LinkTo.BelongsToManyDefaults | packages/client/src/collection-manager/interfaces/linkTo.ts:23-42 | keys already set are kept. `through` becomes `t_` plus a fresh uid. Each foreign key becomes `f_` plus the next fresh uid. `sourceKey` becomes `id`. `targetKey` becomes `name` for the `roles` target and `id` otherwise |
| LinkTo.GeneratedForeignKeysDiffer | packages/client/src/collection-manager/interfaces/linkTo.ts:27-32 | with distinct generated uids, the two generated foreign keys differ |
| LinkTo.InitializeIdempotent | packages/client/src/collection-manager/interfaces/linkTo.ts:22-44 | every key that is filled in is truthy afterwards, so a second call draws no uid and changes nothing |

## Left out

- The React components, their state, hooks, modals and menus are not
  modelled; only the data logic they compute is. The same goes for the rest of
  table.tsx: the table rendering, the resource objects, and the registration
  of the demo plugin.
- markdown.tsx is not part of this model.
- `FlowModel` internals are left out, because flowModel.ts is not part of this model:
  - `applyFlow`;
  - `dispatchEvent`;
  - the static `registerFlow`/`getFlows` registry;
  - step parameter handling;
  - what a model class constructor does beyond storing uid and step parameters.
- The flows a model class holds are given to `ConfigurableFlows` as a list.
- The `DataBlockModel` superclass constructor and `TableBlockModel.reload` are left
  out, because they only delegate to code that is not part of this model.
- `ArrayResource` is modelled as a record of its query state:
  - `setFilter` and `setSort` are taken to store their argument;
  - `load` is recorded together with the state it loads from;
  - what it fetches is not modelled.
- Errors and timing:
  - the 500 ms delay in `fetchData` is left out;
  - the un-awaited `applyFlow('loadData')` after a pagination change is left out;
  - so is the `try`/`catch` whose only error source is code that is not modelled.
- The `try`/`catch` in `getConfigurableFlows` (FlowsContextMenu.tsx:86,
  132-135) is left out. It turns any exception into an empty list. That includes
  one from `getFlows`, which is opaque here, and the `TypeError` that
  `Object.entries` raises for a flow with no `steps` (FlowsContextMenu.tsx:93).
  It also covers reading `uiSchema` from a `null` step (FlowsContextMenu.tsx:98).
  In the model a `FlowDefinition` always has a step map and every step is a
  record, so those failures cannot arise.
- JavaScript numbers are doubles, and `Num` carries an unbounded integer.
  Fractional values are therefore not modelled: `generateMockData(1, 2.5)`
  builds three rows in the source. `NaN` and `Infinity` as numbers are not
  modelled either, nor rounding beyond 2^53.
- The `TableBlockModel` constructor takes an optional `resource`
  (tableBlockModel.ts:14). The model's constructor requires one, so it does not
  model the `TypeError` that `reset`, `applyFilter` or `applySort` would raise
  when no resource was given.
- The engine a model reaches through `model.flowEngine?.getAction?.(…)` is
  given as its action registry, `None` when the model has no engine.
- Uid generation (`generateUid`, formily's `uid`) is a parameter.
- `console.warn` text is replaced by the `Warning` datatype. The message
  wording is not modelled.
- The merge assumes every field of a `uiSchema` is an object, so a present
  field is truthy. A falsy field value in the action layer would be replaced,
  not spread.
- Aliasing is not modelled: a merged field shares its object with the action's
  `uiSchema` when the step does not override it. Schemas are values here.
- `registerAction(null)` is not modelled: `typeof null` is `'object'`, so
  the source then fails reading `name`. Any other non-string, non-object
  argument is `OtherValue` and raises the documented error.
- The order in which JavaScript lists integer-like object keys first is not modelled;
  object keys keep insertion order here.
- The label lookup `fieldLabels[field] || field` is modelled by own keys only.
  Inherited properties such as `constructor` are not modelled.
- DemoTable.FetchData: only numbers take part in the page arithmetic. A `null`,
  boolean or numeric-string `current`/`pageSize`, which JavaScript would coerce,
  gives an empty page here, as `undefined` (NaN) does in the source.
- The `linkTo` field's static properties and default schema are not modelled.
  They are constants, not behaviour.
