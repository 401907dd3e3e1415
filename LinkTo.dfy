/** The defaulting step of the "link to" relation field interface
    (packages/client/src/collection-manager/interfaces/linkTo.ts): a
    `belongsToMany` field gets a generated junction table and foreign keys
    and default source and target keys for whatever the author left unset. */
module LinkTo {
  import opened JsValues

  /** The keys of a field's form values that `initialize` reads or fills in. */
  datatype RelationValues = RelationValues(
    dataType: Value,
    target: Value,
    through: Value,
    foreignKey: Value,
    otherKey: Value,
    sourceKey: Value,
    targetKey: Value)

  /** The form values object `initialize` receives and fills in place. */
  class FieldValues {
    var dataType: Value
    var target: Value
    var through: Value
    var foreignKey: Value
    var otherKey: Value
    var sourceKey: Value
    var targetKey: Value

    constructor (v: RelationValues)
      ensures Snapshot() == v
    {
      dataType, target, through := v.dataType, v.target, v.through;
      foreignKey, otherKey := v.foreignKey, v.otherKey;
      sourceKey, targetKey := v.sourceKey, v.targetKey;
    }

    function Snapshot(): RelationValues
      reads this
    {
      RelationValues(dataType, target, through, foreignKey, otherKey, sourceKey, targetKey)
    }
  }

  /** The generated uids a call may draw, in the order it draws them: one for
      each of `through`, `foreignKey` and `otherKey` that is unset. */
  function UidsNeeded(v: RelationValues): nat {
    if v.dataType != Str("belongsToMany") then 0
    else (if Truthy(v.through) then 0 else 1) + (if Truthy(v.foreignKey) then 0 else 1) + (if Truthy(v.otherKey) then 0 else 1)
  }

  /** The values after `initialize`, drawing generated uids from `uids` in
      call order. */
  function Initialized(v: RelationValues, uids: seq<string>): (r: RelationValues)
    requires |uids| >= UidsNeeded(v)
    ensures r.dataType == v.dataType && r.target == v.target
  {
    if v.dataType != Str("belongsToMany") then v
    else
      var n0 := 0;
      var through := if Truthy(v.through) then v.through else Str("t_" + uids[n0]);
      var n1 := if Truthy(v.through) then n0 else n0 + 1;
      var foreignKey := if Truthy(v.foreignKey) then v.foreignKey else Str("f_" + uids[n1]);
      var n2 := if Truthy(v.foreignKey) then n1 else n1 + 1;
      var otherKey := if Truthy(v.otherKey) then v.otherKey else Str("f_" + uids[n2]);
      var sourceKey := if Truthy(v.sourceKey) then v.sourceKey else Str("id");
      var targetKey :=
        if Truthy(v.targetKey) then v.targetKey
        else if v.target == Str("roles") then Str("name") else Str("id");
      RelationValues(v.dataType, v.target, through, foreignKey, otherKey, sourceKey, targetKey)
  }

  /** `initialize`: fills the unset keys of a `belongsToMany` field in place;
      `nextUid` plays the uid generator, one element per call. */
  method Initialize(values: FieldValues, nextUid: seq<string>)
    requires |nextUid| >= UidsNeeded(values.Snapshot())
    modifies values
    ensures values.Snapshot() == Initialized(old(values.Snapshot()), nextUid)
  {
    if values.dataType == Str("belongsToMany") {
      var drawn := 0;
      if !Truthy(values.through) {
        values.through := Str("t_" + nextUid[drawn]);
        drawn := drawn + 1;
      }
      if !Truthy(values.foreignKey) {
        values.foreignKey := Str("f_" + nextUid[drawn]);
        drawn := drawn + 1;
      }
      if !Truthy(values.otherKey) {
        values.otherKey := Str("f_" + nextUid[drawn]);
        drawn := drawn + 1;
      }
      if !Truthy(values.sourceKey) {
        values.sourceKey := Str("id");
      }
      if !Truthy(values.targetKey) {
        if values.target == Str("roles") {
          values.targetKey := Str("name");
        } else {
          values.targetKey := Str("id");
        }
      }
    }
  }

  /** A field of another type is left as it is. */
  lemma OtherTypesUnchanged(v: RelationValues, uids: seq<string>)
    requires v.dataType != Str("belongsToMany")
    ensures Initialized(v, uids) == v
  {
  }

  /** The number of generated uids a key draws: one when it is unset. */
  function Draws(key: Value): nat {
    if Truthy(key) then 0 else 1
  }

  /** Of a `belongsToMany` field, every key already set is kept, and every key
      left unset gets its default: a `t_` uid for the junction table, `f_`
      uids for the two foreign keys, each drawn in turn after those of the keys
      before it, `id` for the source key, and `name` for
      the target key when the target is `roles`, `id` otherwise. */
  lemma BelongsToManyDefaults(v: RelationValues, uids: seq<string>)
    requires v.dataType == Str("belongsToMany")
    requires |uids| >= UidsNeeded(v)
    ensures var r := Initialized(v, uids);
      && (Truthy(v.through) ==> r.through == v.through)
      && (Truthy(v.foreignKey) ==> r.foreignKey == v.foreignKey)
      && (Truthy(v.otherKey) ==> r.otherKey == v.otherKey)
      && (Truthy(v.sourceKey) ==> r.sourceKey == v.sourceKey)
      && (Truthy(v.targetKey) ==> r.targetKey == v.targetKey)
      && (!Truthy(v.through) ==> r.through == Str("t_" + uids[0]))
      && (!Truthy(v.foreignKey) ==> r.foreignKey == Str("f_" + uids[Draws(v.through)]))
      && (!Truthy(v.otherKey) ==> r.otherKey == Str("f_" + uids[Draws(v.through) + Draws(v.foreignKey)]))
      && (!Truthy(v.sourceKey) ==> r.sourceKey == Str("id"))
      && (!Truthy(v.targetKey) ==> r.targetKey == (if v.target == Str("roles") then Str("name") else Str("id")))
  {
  }

  /** Each generated key takes its own draw from the generator, so with
      distinct generated uids the two foreign keys generated in one call
      differ. */
  lemma GeneratedForeignKeysDiffer(v: RelationValues, uids: seq<string>)
    requires v.dataType == Str("belongsToMany")
    requires |uids| >= UidsNeeded(v)
    requires forall i, j :: 0 <= i < j < |uids| ==> uids[i] != uids[j]
    requires !Truthy(v.foreignKey) && !Truthy(v.otherKey)
    ensures Initialized(v, uids).foreignKey != Initialized(v, uids).otherKey
  {
    var n1 := Draws(v.through);
    var r := Initialized(v, uids);
    assert r.foreignKey == Str("f_" + uids[n1]) && r.otherKey == Str("f_" + uids[n1 + 1]);
    assert uids[n1] != uids[n1 + 1];
    assert ("f_" + uids[n1])[2..] == uids[n1] && ("f_" + uids[n1 + 1])[2..] == uids[n1 + 1];
  }

  /** Every key `initialize` fills in is truthy afterwards (the prefixes keep
      even an empty uid truthy), so a second call needs no uid and changes
      nothing. */
  lemma InitializeIdempotent(v: RelationValues, uids: seq<string>, moreUids: seq<string>)
    requires |uids| >= UidsNeeded(v)
    ensures UidsNeeded(Initialized(v, uids)) == 0
    ensures Initialized(Initialized(v, uids), moreUids) == Initialized(v, uids)
  {
  }
}
