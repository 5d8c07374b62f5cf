/** The change-log control columns: old values and old keys, and how they pair with current columns. */
module ControlColumns {
  import opened Common
  import opened SchemaContract

  datatype ControlKind = OldValue | OldKey

  function Ref(column: Column, kind: ControlKind): Option<string> {
    if kind == OldValue then column.oldValueOf else column.oldKeyOf
  }

  /** An ordinary column: no control data, no system role, not a system column. */
  predicate IsCurrent(column: Column, systemNames: set<string>) {
    && column.oldValueOf.None? && column.oldKeyOf.None? && column.systemRole.None?
    && column.name !in systemNames
  }

  /** Old values pair with all current columns, old keys only with primary keys. */
  predicate IsTarget(column: Column, systemNames: set<string>, kind: ControlKind) {
    IsCurrent(column, systemNames) && (kind == OldKey ==> column.primaryKey)
  }

  /** `validate_cdc_control_column`. */
  predicate ControlFits(control: Column, current: Column, currentName: string) {
    && control.oldValueOf.Some? != control.oldKeyOf.Some?
    && control.name != currentName
    && control.dataType == current.dataType
    && control.extensionName == current.extensionName
    && control.extensionMetadata == current.extensionMetadata
    && control.nullable
    && !control.primaryKey
    && !control.lowCardinality
    && control.maxLength.None?
    && control.systemRole.None?
  }

  // The contract, column by column.

  ghost predicate Has(incoming: seq<Column>, kind: ControlKind) {
    exists o :: o in incoming && Ref(o, kind).Some?
  }

  ghost predicate RefersTo(o: Column, c: Column, kind: ControlKind) {
    Ref(o, kind) == Some(c.name)
  }

  /** The control column describes a target, with its type. */
  ghost predicate HasTarget(o: Column, incoming: seq<Column>, systemNames: set<string>, kind: ControlKind) {
    exists c :: c in incoming && IsTarget(c, systemNames, kind) && RefersTo(o, c, kind) && ControlFits(o, c, c.name)
  }

  ghost predicate EachHasTarget(incoming: seq<Column>, systemNames: set<string>, kind: ControlKind) {
    forall o :: o in incoming && Ref(o, kind).Some? ==> HasTarget(o, incoming, systemNames, kind)
  }

  /** No two control columns describe the same target. */
  ghost predicate RefsDiffer(incoming: seq<Column>, kind: ControlKind) {
    forall o, p :: o in incoming && p in incoming && Ref(o, kind).Some? && Ref(o, kind) == Ref(p, kind) ==> o == p
  }

  ghost predicate IsDescribed(c: Column, incoming: seq<Column>, kind: ControlKind) {
    exists o :: o in incoming && RefersTo(o, c, kind)
  }

  /** Every target is described by a control column. */
  ghost predicate EachIsDescribed(incoming: seq<Column>, systemNames: set<string>, kind: ControlKind) {
    forall c :: c in incoming && IsTarget(c, systemNames, kind) ==> IsDescribed(c, incoming, kind)
  }

  /** Control columns and targets are in one-to-one correspondence. */
  ghost predicate Paired(incoming: seq<Column>, systemNames: set<string>, kind: ControlKind) {
    && EachHasTarget(incoming, systemNames, kind)
    && RefsDiffer(incoming, kind)
    && EachIsDescribed(incoming, systemNames, kind)
  }

  ghost predicate ControlSound(incoming: seq<Column>, changelog: bool, systemNames: set<string>) {
    && (Has(incoming, OldValue) ==> changelog && Paired(incoming, systemNames, OldValue))
    && (Has(incoming, OldKey) ==> changelog && !Has(incoming, OldValue) && Paired(incoming, systemNames, OldKey))
  }

  // The checks, list by list.

  /** The control columns of a kind, in schema order. */
  function Controls(incoming: seq<Column>, kind: ControlKind): (controls: seq<Column>)
    ensures forall k :: 0 <= k < |controls| ==> controls[k] in incoming && Ref(controls[k], kind).Some?
    ensures forall o :: o in incoming && Ref(o, kind).Some? ==> o in controls
  {
    if incoming == [] then []
    else
      var init, last := incoming[..|incoming| - 1], incoming[|incoming| - 1];
      assert incoming == init + [last];
      Controls(init, kind) + (if Ref(last, kind).Some? then [last] else [])
  }

  function Refs(controls: seq<Column>, kind: ControlKind): (refs: seq<string>)
    requires forall k :: 0 <= k < |controls| ==> Ref(controls[k], kind).Some?
    ensures |refs| == |controls|
    ensures forall k :: 0 <= k < |refs| ==> refs[k] == Ref(controls[k], kind).value
  {
    seq(|controls|, k requires 0 <= k < |controls| => Ref(controls[k], kind).value)
  }

  ghost function TargetNames(incoming: seq<Column>, systemNames: set<string>, kind: ControlKind): set<string> {
    set c | c in incoming && IsTarget(c, systemNames, kind) :: c.name
  }

  /** The current columns by name. */
  ghost predicate ByName(current: map<string, Column>, incoming: seq<Column>, systemNames: set<string>) {
    && (forall name :: name in current ==>
          current[name] in incoming && IsCurrent(current[name], systemNames) && current[name].name == name)
    && (forall c :: c in incoming && IsCurrent(c, systemNames) ==> c.name in current)
  }

  /** With distinct names, a column is determined by its name. */
  lemma NameDetermines(incoming: seq<Column>, c: Column, d: Column)
    requires Distinct(NamesOf(incoming)) && c in incoming && d in incoming && c.name == d.name
    ensures c == d
  {
    var i :| 0 <= i < |incoming| && incoming[i] == c;
    var j :| 0 <= j < |incoming| && incoming[j] == d;
    assert NamesOf(incoming)[i] == NamesOf(incoming)[j];
  }

  method CollectCurrent(incoming: seq<Column>, systemNames: set<string>) returns (current: map<string, Column>)
    ensures ByName(current, incoming, systemNames)
  {
    current := map[];
    for i := 0 to |incoming|
      invariant ByName(current, incoming[..i], systemNames)
    {
      var c := incoming[i];
      assert incoming[..i + 1] == incoming[..i] + [c];
      if IsCurrent(c, systemNames) {
        current := current[c.name := c];
      }
    }
    assert incoming[..|incoming|] == incoming;
  }

  method CollectControls(incoming: seq<Column>, kind: ControlKind) returns (controls: seq<Column>)
    ensures controls == Controls(incoming, kind)
  {
    controls := [];
    for i := 0 to |incoming|
      invariant controls == Controls(incoming[..i], kind)
    {
      assert incoming[..i + 1][..i] == incoming[..i];
      if Ref(incoming[i], kind).Some? {
        controls := controls + [incoming[i]];
      }
    }
    assert incoming[..|incoming|] == incoming;
  }

  /** What the pairing loop accepts, list by list: as many references as targets, all different, all to
      targets, each from a fitting control column. */
  ghost predicate ListsPair(
    controls: seq<Column>, refs: seq<string>, current: map<string, Column>, targets: set<string>)
    requires |refs| == |controls|
  {
    && Distinct(refs)
    && Elements(refs) == targets
    && forall k :: 0 <= k < |refs| ==> refs[k] in current && ControlFits(controls[k], current[refs[k]], refs[k])
  }

  /** The pairing loop, for either kind. */
  method PairControls(
    controls: seq<Column>, kind: ControlKind, current: map<string, Column>, targets: set<string>)
    returns (r: Result<(), ContractError>)
    requires forall k :: 0 <= k < |controls| ==> Ref(controls[k], kind).Some?
    requires targets <= current.Keys
    ensures r.Ok? <==> ListsPair(controls, Refs(controls, kind), current, targets)
  {
    ghost var refs := Refs(controls, kind);
    ElementsSize(refs);
    if |controls| != |targets| {
      return Err(OldColumnCount);
    }
    var paired: set<string> := {};
    for k := 0 to |controls|
      invariant paired == Elements(refs[..k]) && Distinct(refs[..k]) && paired <= targets
      invariant forall m :: 0 <= m < k ==> refs[m] in current && ControlFits(controls[m], current[refs[m]], refs[m])
    {
      var name := Ref(controls[k], kind).value;
      assert refs[k] == name && refs[..k + 1] == refs[..k] + [name];
      if name !in current {
        return Err(UnknownCurrentColumn(name));
      }
      if name !in targets || name in paired {
        assert name in targets ==> !Distinct(refs) by {
          if name in paired {
            var j :| 0 <= j < k && refs[..k][j] == name;
            assert refs[j] == refs[k];
          }
        }
        assert name in Elements(refs);
        return Err(RepeatedOldColumn(name));
      }
      paired := paired + {name};
      if !ControlFits(controls[k], current[name], name) {
        return Err(BadControlColumn(controls[k].name));
      }
    }
    assert refs[..|refs|] == refs;
    if paired != targets {
      return Err(UnpairedColumn);
    }
    return Ok(());
  }

  /** The last test of the pairing loop never fails: distinct references into the targets, as many as
      there are targets, already reach every target. */
  lemma CountingPairsEveryTarget(refs: seq<string>, targets: set<string>)
    requires Distinct(refs) && Elements(refs) <= targets && |refs| == |targets|
    ensures Elements(refs) == targets
  {
    ElementsSize(refs);
    SubsetOfSameSize(Elements(refs), targets);
  }

  lemma SubsetOfSameSize<T>(a: set<T>, b: set<T>)
    requires a <= b && |a| == |b|
    ensures a == b
  {
    assert |b - a| == |b| - |a|;
    assert b == a + (b - a);
  }

  lemma {:induction false} ControlsAreDistinct(incoming: seq<Column>, kind: ControlKind)
    requires Distinct(NamesOf(incoming))
    ensures Distinct(Controls(incoming, kind))
  {
    if incoming != [] {
      var n := |incoming| - 1;
      var init, last := incoming[..n], incoming[n];
      assert forall i :: 0 <= i < n ==> NamesOf(init)[i] == NamesOf(incoming)[i];
      ControlsAreDistinct(init, kind);
      assert last !in init by {
        assert forall i :: 0 <= i < n ==> NamesOf(incoming)[i] != NamesOf(incoming)[n];
      }
    }
  }

  lemma DistinctRefsIff(incoming: seq<Column>, kind: ControlKind)
    requires Distinct(NamesOf(incoming))
    ensures Distinct(Refs(Controls(incoming, kind), kind)) <==> RefsDiffer(incoming, kind)
  {
    var controls := Controls(incoming, kind);
    var refs := Refs(controls, kind);
    ControlsAreDistinct(incoming, kind);
    if Distinct(refs) {
      forall o, p | o in incoming && p in incoming && Ref(o, kind).Some? && Ref(o, kind) == Ref(p, kind)
        ensures o == p
      {
        var i :| 0 <= i < |controls| && controls[i] == o;
        var j :| 0 <= j < |controls| && controls[j] == p;
        assert refs[i] == refs[j];
      }
    }
    if RefsDiffer(incoming, kind) {
      forall i, j | 0 <= i < j < |refs|
        ensures refs[i] != refs[j]
      {
        assert controls[i] != controls[j];
      }
    }
  }

  lemma RefIsListed(incoming: seq<Column>, kind: ControlKind, name: string)
    ensures name in Elements(Refs(Controls(incoming, kind), kind)) <==>
            exists o :: o in incoming && Ref(o, kind) == Some(name)
  {
    var controls := Controls(incoming, kind);
    var refs := Refs(controls, kind);
    if name in Elements(refs) {
      var i :| 0 <= i < |refs| && refs[i] == name;
      assert controls[i] in incoming && Ref(controls[i], kind) == Some(name);
    }
    if o :| o in incoming && Ref(o, kind) == Some(name) {
      var i :| 0 <= i < |controls| && controls[i] == o;
      assert refs[i] == name;
    }
  }

  /** Every target name is listed exactly if every target is described. */
  lemma TargetsListedIff(incoming: seq<Column>, systemNames: set<string>, kind: ControlKind)
    ensures TargetNames(incoming, systemNames, kind) <= Elements(Refs(Controls(incoming, kind), kind)) <==>
            EachIsDescribed(incoming, systemNames, kind)
  {
    var listed, targets := Elements(Refs(Controls(incoming, kind), kind)), TargetNames(incoming, systemNames, kind);
    forall c | c in incoming && IsTarget(c, systemNames, kind)
      ensures c.name in targets && (c.name in listed <==> IsDescribed(c, incoming, kind))
    {
      RefIsListed(incoming, kind, c.name);
      if c.name in listed {
        var o :| o in incoming && Ref(o, kind) == Some(c.name);
        assert RefersTo(o, c, kind);
      }
    }
  }

  /** The control column describes a target, looked up by name. */
  ghost predicate FitsNamed(o: Column, current: map<string, Column>, targets: set<string>, kind: ControlKind)
    requires Ref(o, kind).Some?
  {
    var name := Ref(o, kind).value;
    name in targets && name in current && ControlFits(o, current[name], name)
  }

  lemma HasTargetIff(
    incoming: seq<Column>, systemNames: set<string>, kind: ControlKind, current: map<string, Column>, o: Column)
    requires Distinct(NamesOf(incoming)) && ByName(current, incoming, systemNames)
    requires o in incoming && Ref(o, kind).Some?
    ensures HasTarget(o, incoming, systemNames, kind) <==>
            FitsNamed(o, current, TargetNames(incoming, systemNames, kind), kind)
  {
    var name := Ref(o, kind).value;
    if HasTarget(o, incoming, systemNames, kind) {
      var c :| c in incoming && IsTarget(c, systemNames, kind) && RefersTo(o, c, kind) && ControlFits(o, c, c.name);
      NameDetermines(incoming, c, current[name]);
    }
    if FitsNamed(o, current, TargetNames(incoming, systemNames, kind), kind) {
      var c :| c in incoming && IsTarget(c, systemNames, kind) && c.name == name;
      NameDetermines(incoming, c, current[name]);
      assert RefersTo(o, c, kind);
    }
  }

  lemma ListsFitIff(controls: seq<Column>, kind: ControlKind, current: map<string, Column>, targets: set<string>)
    requires forall k :: 0 <= k < |controls| ==> Ref(controls[k], kind).Some?
    ensures ListsPair(controls, Refs(controls, kind), current, targets) <==>
            && Distinct(Refs(controls, kind)) && targets <= Elements(Refs(controls, kind))
            && forall k :: 0 <= k < |controls| ==> FitsNamed(controls[k], current, targets, kind)
  {
    var refs := Refs(controls, kind);
    assert forall k :: 0 <= k < |controls| ==> refs[k] in Elements(refs) && refs[k] == Ref(controls[k], kind).value;
    if Distinct(refs) && targets <= Elements(refs)
       && forall k :: 0 <= k < |controls| ==> FitsNamed(controls[k], current, targets, kind) {
      assert Elements(refs) == targets;
    }
  }

  /** The lists pair exactly if the columns are in one-to-one correspondence. */
  lemma ListsPairIffPaired(
    incoming: seq<Column>, systemNames: set<string>, kind: ControlKind, current: map<string, Column>)
    requires Distinct(NamesOf(incoming)) && ByName(current, incoming, systemNames)
    ensures ListsPair(Controls(incoming, kind), Refs(Controls(incoming, kind), kind), current,
                      TargetNames(incoming, systemNames, kind))
            <==> Paired(incoming, systemNames, kind)
  {
    var controls, targets := Controls(incoming, kind), TargetNames(incoming, systemNames, kind);
    DistinctRefsIff(incoming, kind);
    TargetsListedIff(incoming, systemNames, kind);
    ListsFitIff(controls, kind, current, targets);
    forall o | o in incoming && Ref(o, kind).Some?
      ensures o in controls
      ensures HasTarget(o, incoming, systemNames, kind) <==> FitsNamed(o, current, targets, kind)
    {
      HasTargetIff(incoming, systemNames, kind, current, o);
    }
  }

  /** `validate_cdc_control_columns`, after the name checks: accepts exactly the sound control columns. */
  method ValidateControlColumns(incoming: seq<Column>, changelog: bool, systemNames: set<string>)
    returns (r: Result<(), ContractError>)
    requires Distinct(NamesOf(incoming))
    ensures r.Ok? <==> ControlSound(incoming, changelog, systemNames)
  {
    var current := CollectCurrent(incoming, systemNames);
    var oldValues := CollectControls(incoming, OldValue);
    HasIff(incoming, OldValue);
    var hasOldValues := oldValues != [];
    if hasOldValues {
      if !changelog {
        return Err(OldColumnsWithoutChangelog);
      }
      TargetsAreKeys(incoming, systemNames, current);
      ListsPairIffPaired(incoming, systemNames, OldValue, current);
      r := PairControls(oldValues, OldValue, current, current.Keys);
      if r.Err? {
        return;
      }
    }
    var oldKeys := CollectControls(incoming, OldKey);
    HasIff(incoming, OldKey);
    if oldKeys != [] {
      if !changelog || hasOldValues {
        return Err(OldColumnsWithoutChangelog);
      }
      var primaryKeys := set name | name in current && current[name].primaryKey;
      TargetsArePrimaryKeys(incoming, systemNames, current, primaryKeys);
      ListsPairIffPaired(incoming, systemNames, OldKey, current);
      r := PairControls(oldKeys, OldKey, current, primaryKeys);
      return;
    }
    return Ok(());
  }

  lemma HasIff(incoming: seq<Column>, kind: ControlKind)
    ensures Has(incoming, kind) <==> Controls(incoming, kind) != []
  {
    var controls := Controls(incoming, kind);
    if controls != [] {
      assert controls[0] in incoming;
    }
  }

  lemma TargetsAreKeys(incoming: seq<Column>, systemNames: set<string>, current: map<string, Column>)
    requires ByName(current, incoming, systemNames)
    ensures TargetNames(incoming, systemNames, OldValue) == current.Keys
  {
    forall name | name in current
      ensures name in TargetNames(incoming, systemNames, OldValue)
    {
      assert IsTarget(current[name], systemNames, OldValue);
    }
  }

  lemma TargetsArePrimaryKeys(
    incoming: seq<Column>, systemNames: set<string>, current: map<string, Column>, primaryKeys: set<string>)
    requires Distinct(NamesOf(incoming)) && ByName(current, incoming, systemNames)
    requires primaryKeys == set name | name in current && current[name].primaryKey
    ensures TargetNames(incoming, systemNames, OldKey) == primaryKeys
  {
    forall name | name in primaryKeys
      ensures name in TargetNames(incoming, systemNames, OldKey)
    {
      assert IsTarget(current[name], systemNames, OldKey);
    }
    forall name | name in TargetNames(incoming, systemNames, OldKey)
      ensures name in primaryKeys
    {
      var c :| c in incoming && IsTarget(c, systemNames, OldKey) && c.name == name;
      NameDetermines(incoming, c, current[name]);
    }
  }
}
