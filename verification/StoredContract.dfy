/** The whole stored-projection contract, and what an accepted dataset guarantees. */
module StoredContract {
  import opened Common
  import opened SchemaContract
  import opened ControlColumns
  import opened Projection

  predicate IsVersion(column: Column) {
    column.systemRole == Some(SOURCE_VERSION)
  }

  ghost predicate IsChangelog(system: seq<SystemColumn>) {
    exists s :: s in system && s.kind == ChangeOperation
  }

  /** At most one logical source version, and then a non-null unsigned one of a changelog. */
  ghost predicate VersionSound(incoming: seq<Column>, changelog: bool) {
    && (forall c :: c in incoming && IsVersion(c) ==> changelog && c.dataType == UInt64 && !c.nullable)
    && (forall i, j :: 0 <= i < j < |incoming| ==> !(IsVersion(incoming[i]) && IsVersion(incoming[j])))
  }

  ghost predicate HasOldPair(incoming: seq<Column>, name: string) {
    exists c :: c in incoming && (c.oldValueOf == Some(name) || c.oldKeyOf == Some(name))
  }

  /** A full-image upsert has a key, and carries the old value of every key column. */
  ghost predicate PolicySound(d: Dataset, changelog: bool) {
    d.policy == FullImageUpsert ==>
      && changelog
      && (exists k :: k in d.stored && k.primaryKey)
      && (forall k :: k in d.stored && k.primaryKey ==> HasOldPair(d.incoming, k.name))
  }

  /** Everything `validate_stored_projection` promises. */
  ghost predicate ContractHolds(d: Dataset, keepSystem: bool) {
    var systemNames := Elements(SystemNames(d.system));
    && NamesSound(d)
    && ControlSound(d.incoming, IsChangelog(d.system), systemNames)
    && PolicySound(d, IsChangelog(d.system))
    && VersionSound(d.incoming, IsChangelog(d.system))
    && ExactProjection(d.stored, d.incoming, ByContract(d.system, systemNames, keepSystem))
  }

  method ChangelogInput(system: seq<SystemColumn>) returns (changelog: bool)
    ensures changelog == IsChangelog(system)
  {
    for i := 0 to |system|
      invariant forall j :: 0 <= j < i ==> system[j].kind != ChangeOperation
    {
      if system[i].kind == ChangeOperation {
        return true;
      }
    }
    return false;
  }

  method FindOldPair(incoming: seq<Column>, name: string) returns (found: bool)
    ensures found == HasOldPair(incoming, name)
  {
    for i := 0 to |incoming|
      invariant forall j :: 0 <= j < i ==> incoming[j].oldValueOf != Some(name) && incoming[j].oldKeyOf != Some(name)
    {
      if incoming[i].oldValueOf == Some(name) || incoming[i].oldKeyOf == Some(name) {
        return true;
      }
    }
    return false;
  }

  method ValidatePolicy(d: Dataset, changelog: bool) returns (r: Result<(), ContractError>)
    ensures r.Ok? <==> PolicySound(d, changelog)
  {
    if d.policy != FullImageUpsert {
      return Ok(());
    }
    var keyed := false;
    for i := 0 to |d.stored|
      invariant keyed <==> exists j :: 0 <= j < i && d.stored[j].primaryKey
    {
      keyed := keyed || d.stored[i].primaryKey;
    }
    if !changelog || !keyed {
      return Err(UpsertWithoutKeyedChangelog);
    }
    for i := 0 to |d.stored|
      invariant forall j :: 0 <= j < i && d.stored[j].primaryKey ==> HasOldPair(d.incoming, d.stored[j].name)
    {
      if d.stored[i].primaryKey {
        var found := FindOldPair(d.incoming, d.stored[i].name);
        if !found {
          return Err(UpsertWithoutOldKey(d.stored[i].name));
        }
      }
    }
    return Ok(());
  }

  method ValidateVersion(incoming: seq<Column>, changelog: bool) returns (r: Result<(), ContractError>)
    ensures r.Ok? <==> VersionSound(incoming, changelog)
  {
    var first: nat := |incoming|;
    for i := 0 to |incoming|
      invariant first == |incoming| || first < i
      invariant forall j :: 0 <= j < i && j != first ==> !IsVersion(incoming[j])
      invariant first < |incoming| ==>
                  IsVersion(incoming[first]) && changelog && incoming[first].dataType == UInt64 && !incoming[first].nullable
    {
      if IsVersion(incoming[i]) {
        if first < |incoming| {
          return Err(RepeatedSourceVersion);
        }
        if !changelog || incoming[i].dataType != UInt64 || incoming[i].nullable {
          assert incoming[i] in incoming;
          return Err(BadSourceVersion);
        }
        first := i;
      }
    }
    return Ok(());
  }

  /** `validate_stored_projection`: accepts exactly the datasets that keep the contract. */
  method ValidateStoredProjection(d: Dataset, keepSystem: bool) returns (r: Result<(), ContractError>)
    ensures r.Ok? <==> ContractHolds(d, keepSystem)
  {
    var names := ValidateNames(d);
    if names.Err? {
      return Err(names.error);
    }
    var systemNames := names.value;
    var changelog := ChangelogInput(d.system);
    r := ValidateControlColumns(d.incoming, changelog, systemNames);
    if r.Err? {
      return;
    }
    r := ValidatePolicy(d, changelog);
    if r.Err? {
      return;
    }
    r := ValidateVersion(d.incoming, changelog);
    if r.Err? {
      return;
    }
    var expected := Select(d.incoming, ByContract(d.system, systemNames, keepSystem));
    if |d.stored| != |expected| {
      return Err(NotExactProjection);
    }
    for k := 0 to |d.stored|
      invariant forall j :: 0 <= j < k ==> StoredColumnMatches(d.stored[j], expected[j])
    {
      if !StoredColumnMatches(d.stored[k], expected[k]) {
        return Err(NotExactProjection);
      }
    }
    return Ok(());
  }

  // What acceptance guarantees.

  /** The control columns of an accepted dataset: as many as targets; each the only one for its target,
      with the target's type; never itself a system column; and of one kind only. */
  lemma AcceptedControlsAreBijection(d: Dataset, keepSystem: bool, kind: ControlKind)
    requires ContractHolds(d, keepSystem) && Has(d.incoming, kind)
    ensures |Controls(d.incoming, kind)| == |TargetNames(d.incoming, Elements(SystemNames(d.system)), kind)|
    ensures forall c :: c in d.incoming && IsTarget(c, Elements(SystemNames(d.system)), kind) ==>
              exists o :: o in d.incoming && RefersTo(o, c, kind) && o.dataType == c.dataType
                          && forall p :: p in d.incoming && RefersTo(p, c, kind) ==> p == o
    ensures forall o :: o in d.incoming && Ref(o, kind).Some? ==> o.name !in Elements(SystemNames(d.system))
    ensures !Has(d.incoming, if kind == OldValue then OldKey else OldValue)
  {
    var systemNames := Elements(SystemNames(d.system));
    assert Paired(d.incoming, systemNames, kind);
    CountedPairs(d.incoming, systemNames, kind);
    forall c | c in d.incoming && IsTarget(c, systemNames, kind)
      ensures exists o :: o in d.incoming && RefersTo(o, c, kind) && o.dataType == c.dataType
                          && forall p :: p in d.incoming && RefersTo(p, c, kind) ==> p == o
    {
      assert IsDescribed(c, d.incoming, kind);
      var o :| o in d.incoming && RefersTo(o, c, kind);
      PairedTypesAreEqual(d.incoming, systemNames, kind, o, c);
    }
    forall o | o in d.incoming && Ref(o, kind).Some?
      ensures o.name !in systemNames
    {
      assert HasTarget(o, d.incoming, systemNames, kind);
      ControlIsNotSystem(d, o);
    }
  }

  lemma PairedTypesAreEqual(incoming: seq<Column>, systemNames: set<string>, kind: ControlKind, o: Column, c: Column)
    requires Distinct(NamesOf(incoming)) && Paired(incoming, systemNames, kind)
    requires o in incoming && c in incoming && RefersTo(o, c, kind)
    ensures o.dataType == c.dataType
  {
    assert HasTarget(o, incoming, systemNames, kind);
    var t :| t in incoming && IsTarget(t, systemNames, kind) && RefersTo(o, t, kind) && ControlFits(o, t, t.name);
    NameDetermines(incoming, t, c);
  }

  lemma CountedPairs(incoming: seq<Column>, systemNames: set<string>, kind: ControlKind)
    requires Distinct(NamesOf(incoming)) && Paired(incoming, systemNames, kind)
    ensures |Controls(incoming, kind)| == |TargetNames(incoming, systemNames, kind)|
  {
    var refs := Refs(Controls(incoming, kind), kind);
    DistinctRefsIff(incoming, kind);
    TargetsListedIff(incoming, systemNames, kind);
    forall name | name in Elements(refs)
      ensures name in TargetNames(incoming, systemNames, kind)
    {
      RefIsListed(incoming, kind, name);
      var o :| o in incoming && Ref(o, kind) == Some(name);
      assert HasTarget(o, incoming, systemNames, kind);
    }
    assert Elements(refs) == TargetNames(incoming, systemNames, kind);
    ElementsSize(refs);
  }

  /** System columns are never nullable, control columns always are. */
  lemma ControlIsNotSystem(d: Dataset, o: Column)
    requires NamesSound(d) && o in d.incoming && o.nullable
    ensures o.name !in Elements(SystemNames(d.system))
  {
    forall i | 0 <= i < |d.system|
      ensures d.system[i].name != o.name
    {
      assert Described(d.system[i], d.incoming);
      var j :| 0 <= j < |d.incoming| && d.incoming[j].name == d.system[i].name && !d.incoming[j].nullable;
      if d.incoming[j].name == o.name {
        NameDetermines(d.incoming, d.incoming[j], o);
      }
    }
  }

  /** In an accepted full-image upsert, every stored key column is described by exactly one control column. */
  lemma AcceptedUpsertKnowsOldKeys(d: Dataset, keepSystem: bool, key: Column)
    requires ContractHolds(d, keepSystem) && d.policy == FullImageUpsert && key in d.stored && key.primaryKey
    ensures exists kind :: OnlyControl(d.incoming, key.name, kind)
  {
    var systemNames := Elements(SystemNames(d.system));
    assert HasOldPair(d.incoming, key.name);
    var o :| o in d.incoming && (o.oldValueOf == Some(key.name) || o.oldKeyOf == Some(key.name));
    var kind := if o.oldValueOf == Some(key.name) then OldValue else OldKey;
    assert Ref(o, kind) == Some(key.name);
    assert Has(d.incoming, kind);
    assert Paired(d.incoming, systemNames, kind);
    assert OnlyControl(d.incoming, key.name, kind);
  }

  /** Exactly one control column describes the name, and no control column of the other kind exists. */
  ghost predicate OnlyControl(incoming: seq<Column>, name: string, kind: ControlKind) {
    && !Has(incoming, if kind == OldValue then OldKey else OldValue)
    && exists o :: o in incoming && Ref(o, kind) == Some(name)
                   && forall p :: p in incoming && Ref(p, kind) == Some(name) ==> p == o
  }

  // Batches.

  ghost predicate IncomingSound(schema: seq<Column>, system: seq<SystemColumn>) {
    && Distinct(NamesOf(schema))
    && Distinct(SystemNames(system))
    && Distinct(Kinds(system))
    && forall i :: 0 <= i < |system| ==> Described(system[i], schema)
  }

  lemma SelectedNamesAreDistinct(columns: seq<Column>, keep: Column -> bool)
    requires Distinct(NamesOf(columns))
    ensures Distinct(NamesOf(Select(columns, keep)))
  {
    var selected, at := Select(columns, keep), Positions(columns, keep, 0);
    PositionsLocate(columns, keep, 0);
    forall j, k | 0 <= j < k < |selected|
      ensures NamesOf(selected)[j] != NamesOf(selected)[k]
    {
      assert NamesOf(columns)[at[j]] != NamesOf(columns)[at[k]];
    }
  }

  /** What a sink derives from a batch is accepted exactly if the incoming side is sound: the stored side
      that was derived never fails the contract. */
  lemma BatchDatasetAcceptedIff(schema: seq<Column>, system: seq<SystemColumn>, keepSystem: bool)
    ensures ContractHolds(BatchDataset(schema, system, keepSystem), keepSystem) <==>
            && IncomingSound(schema, system)
            && ControlSound(schema, IsChangelog(system), Elements(SystemNames(system)))
            && VersionSound(schema, IsChangelog(system))
  {
    BatchProjectionIsExact(schema, system, keepSystem);
    if Distinct(NamesOf(schema)) {
      SelectedNamesAreDistinct(schema, ByBatch(system, keepSystem));
    }
  }
}
