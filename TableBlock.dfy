/** The table block model (packages/core/client/src/flow-model/models/tableBlockModel.ts):
    an insertion-ordered map of row actions keyed by uid, and the query state
    it sets on its array resource before asking it to load. */
module TableBlock {
  import opened JsValues
  import opened OrderedMaps

  /** A row action model; only its uid matters here. */
  class ActionModel {
    const uid: string

    constructor (uid: string)
      ensures this.uid == uid
    {
      this.uid := uid;
    }
  }

  datatype Direction = Asc | Desc

  /** The sort state: `[]` after a reset, or the `{ field, direction }` object
      that `applySort` sets. */
  datatype Sort = SortList(items: seq<SortKey>) | SortObject(key: SortKey)
  datatype SortKey = SortKey(field: string, direction: Direction)

  /** The query state at the moment the resource is asked to load. */
  datatype Query = Query(pagination: Record, filter: Record, sort: Sort)

  /** The resource's query state. Its `setFilter` and `setSort` are taken to
      store their argument; `load` is recorded in `loads` with the state it
      loads from, the loading itself is not part of this model. */
  class ArrayResource {
    var pagination: Record
    var filter: Record
    var sort: Sort
    ghost var loads: seq<Query>

    constructor (pagination: Record, filter: Record, sort: Sort)
      ensures this.pagination == pagination && this.filter == filter && this.sort == sort
      ensures loads == []
    {
      this.pagination, this.filter, this.sort := pagination, filter, sort;
      loads := [];
    }

    function State(): Query
      reads this
    {
      Query(pagination, filter, sort)
    }

    method SetFilter(filter: Record)
      modifies this
      ensures this.filter == filter
      ensures pagination == old(pagination) && sort == old(sort) && loads == old(loads)
    {
      this.filter := filter;
    }

    method SetSort(sort: Sort)
      modifies this
      ensures this.sort == sort
      ensures pagination == old(pagination) && filter == old(filter) && loads == old(loads)
    {
      this.sort := sort;
    }

    method Load()
      modifies this
      ensures loads == old(loads) + [State()]
      ensures pagination == old(pagination) && filter == old(filter) && sort == old(sort)
    {
      loads := loads + [State()];
    }
  }

  /** The row-action map after `setRowActions(actions)`: cleared, then every
      action set under its uid in list order. */
  function RowActionsFrom(actions: seq<ActionModel>): (r: OrderedMap<ActionModel>)
    ensures KeyedByUid(r)
    ensures |r.keys| <= |actions|
    decreases |actions|
  {
    if actions == [] then Empty()
    else
      var last := actions[|actions| - 1];
      RowActionsFrom(actions[..|actions| - 1]).Set(last.uid, last)
  }

  /** Every action is stored under its own uid. */
  ghost predicate KeyedByUid(m: OrderedMap<ActionModel>) {
    m.Valid() && forall u | u in m.values :: m.values[u].uid == u
  }

  /** After `setRowActions(actions)` the map holds exactly the uids of `actions`. */
  lemma {:induction false} RowActionsFromKeys(actions: seq<ActionModel>)
    ensures forall u :: u in RowActionsFrom(actions).values <==> exists a :: a in actions && a.uid == u
    decreases |actions|
  {
    if actions != [] {
      var init := actions[..|actions| - 1];
      RowActionsFromKeys(init);
      assert actions == init + [actions[|actions| - 1]];
      assert forall a :: a in actions <==> a in init || a == actions[|actions| - 1];
    }
  }

  /** For a uid given more than once, the last action with it wins. */
  lemma {:induction false} RowActionsFromLastWins(actions: seq<ActionModel>, i: nat)
    requires i < |actions|
    requires forall j :: i < j < |actions| ==> actions[j].uid != actions[i].uid
    ensures actions[i].uid in RowActionsFrom(actions).values
    ensures RowActionsFrom(actions).values[actions[i].uid] == actions[i]
    decreases |actions|
  {
    if i < |actions| - 1 {
      RowActionsFromLastWins(actions[..|actions| - 1], i);
    }
  }

  /** The uids of `actions` in the order in which each first appears. */
  function FirstOccurrences(actions: seq<ActionModel>): seq<string>
    decreases |actions|
  {
    if actions == [] then []
    else
      var init := FirstOccurrences(actions[..|actions| - 1]);
      var u := actions[|actions| - 1].uid;
      if u in init then init else init + [u]
  }

  /** The map lists its uids in first-occurrence order: setting a uid again
      does not move it. */
  lemma {:induction false} RowActionsFromOrder(actions: seq<ActionModel>)
    ensures RowActionsFrom(actions).keys == FirstOccurrences(actions)
    decreases |actions|
  {
    if actions != [] {
      var init := actions[..|actions| - 1];
      RowActionsFromOrder(init);
      RowActionsFromKeys(init);
    }
  }

  class TableBlockModel {
    var rowActions: OrderedMap<ActionModel>
    var resource: ArrayResource

    ghost predicate Valid()
      reads this
    {
      KeyedByUid(rowActions)
    }

    constructor (resource: ArrayResource)
      ensures Valid() && rowActions == Empty() && this.resource == resource
    {
      rowActions := Empty();
      this.resource := resource;
    }

    /** `setRowActions`: clears the map and sets every action under its uid. */
    method SetRowActions(actions: seq<ActionModel>)
      modifies this`rowActions
      ensures Valid()
      ensures rowActions == RowActionsFrom(actions)
    {
      rowActions := Empty();
      for i := 0 to |actions|
        invariant rowActions == RowActionsFrom(actions[..i])
      {
        assert actions[..i + 1][..i] == actions[..i];
        rowActions := rowActions.Set(actions[i].uid, actions[i]);
      }
      assert actions[..|actions|] == actions;
      RowActionsFromKeys(actions);
    }

    /** `addRowAction`: maps the action's uid to it; every other entry stays,
        and an existing uid keeps its place. */
    method AddRowAction(action: ActionModel)
      requires Valid()
      modifies this`rowActions
      ensures Valid()
      ensures rowActions.values == old(rowActions.values)[action.uid := action]
      ensures rowActions.keys == if action.uid in old(rowActions.values) then old(rowActions.keys) else old(rowActions.keys) + [action.uid]
    {
      rowActions := rowActions.Set(action.uid, action);
    }

    /** `getRowAction`: the action stored under `uid`, or undefined. */
    function GetRowAction(uid: string): (r: Option<ActionModel>)
      reads this
      requires Valid()
      ensures r.Some? <==> uid in rowActions.values
      ensures r.Some? ==> r.value == rowActions.values[uid] && r.value.uid == uid
    {
      rowActions.Get(uid)
    }

    /** `removeRowAction`: removes `uid`, returning whether it was present. */
    method RemoveRowAction(uid: string) returns (removed: bool)
      requires Valid()
      modifies this`rowActions
      ensures Valid()
      ensures removed == (uid in old(rowActions.values))
      ensures uid !in rowActions.values
      ensures rowActions.values == old(rowActions.values) - {uid}
      ensures rowActions.keys == Without(old(rowActions.keys), uid)
      ensures forall p :: 0 <= p < |old(rowActions.keys)| && old(rowActions.keys)[p] == uid ==>
        rowActions.keys == old(rowActions.keys)[..p] + old(rowActions.keys)[p + 1..]
    {
      removed := uid in rowActions.values;
      rowActions := rowActions.Delete(uid);
    }

    /** `getRowActions`: the stored actions in insertion order. */
    function GetRowActions(): (r: seq<ActionModel>)
      reads this
      requires Valid()
      ensures |r| == |rowActions.keys|
      ensures forall i :: 0 <= i < |r| ==> r[i] == rowActions.values[rowActions.keys[i]] && r[i].uid == rowActions.keys[i]
    {
      rowActions.Values()
    }

    /** `reset`: page 1, no filter and no sort, then load. */
    method Reset()
      modifies resource
      ensures resource.pagination == old(resource.pagination)["page" := Num(1)]
      ensures resource.filter == map[] && resource.sort == SortList([])
      ensures resource.loads == old(resource.loads) + [resource.State()]
    {
      resource.pagination := resource.pagination["page" := Num(1)];
      resource.filter := map[];
      resource.sort := SortList([]);
      resource.Load();
    }

    /** `applyFilter`: sets the filter, then loads. */
    method ApplyFilter(filter: Record)
      modifies resource
      ensures resource.filter == filter
      ensures resource.pagination == old(resource.pagination) && resource.sort == old(resource.sort)
      ensures resource.loads == old(resource.loads) + [Query(old(resource.pagination), filter, old(resource.sort))]
    {
      resource.SetFilter(filter);
      resource.Load();
    }

    /** `applySort`: sets the sort to exactly `{ field, direction }`, then loads. */
    method ApplySort(field: string, direction: Direction)
      modifies resource
      ensures resource.sort == SortObject(SortKey(field, direction))
      ensures resource.pagination == old(resource.pagination) && resource.filter == old(resource.filter)
      ensures resource.loads == old(resource.loads) + [Query(old(resource.pagination), old(resource.filter), SortObject(SortKey(field, direction)))]
    {
      resource.SetSort(SortObject(SortKey(field, direction)));
      resource.Load();
    }
  }
}
