/** The stored projection: which incoming columns a sink stores, decided in two places. */
module Projection {
  import opened Common
  import opened SchemaContract
  import opened ControlColumns

  /** The first system column of a name. */
  function SystemOf(system: seq<SystemColumn>, name: string): (found: Option<SystemColumn>)
    ensures found.Some? ==> found.value in system && found.value.name == name
    ensures found.None? ==> forall s :: s in system ==> s.name != name
  {
    if system == [] then None
    else if system[0].name == name then Some(system[0])
    else SystemOf(system[1..], name)
  }

  predicate IsChangeKind(kind: SystemKind) {
    kind == ChangeOperation || kind == ChangedColumns
  }

  /** The filter of `SinkBatch::dataset`. */
  predicate StoredByBatch(column: Column, system: seq<SystemColumn>, keepSystem: bool) {
    if column.systemRole.Some? || column.oldValueOf.Some? || column.oldKeyOf.Some? then false
    else
      match SystemOf(system, column.name)
      case Some(s) => keepSystem && !IsChangeKind(s.kind)
      case None => true
  }

  /** The filter of `validate_stored_projection`, which knows the system names as a set. */
  predicate StoredByContract(column: Column, system: seq<SystemColumn>, systemNames: set<string>, keepSystem: bool) {
    && column.oldValueOf.None?
    && column.oldKeyOf.None?
    && column.systemRole.None?
    && !(SystemOf(system, column.name).Some? && IsChangeKind(SystemOf(system, column.name).value.kind))
    && (keepSystem || column.name !in systemNames)
  }

  function Select(columns: seq<Column>, keep: Column -> bool): seq<Column> {
    if columns == [] then []
    else (if keep(columns[0]) then [columns[0]] else []) + Select(columns[1..], keep)
  }

  function ByBatch(system: seq<SystemColumn>, keepSystem: bool): Column -> bool {
    (column: Column) => StoredByBatch(column, system, keepSystem)
  }

  function ByContract(system: seq<SystemColumn>, systemNames: set<string>, keepSystem: bool): Column -> bool {
    (column: Column) => StoredByContract(column, system, systemNames, keepSystem)
  }

  /** `stored_column_matches`. */
  predicate StoredColumnMatches(stored: Column, incoming: Column) {
    && stored.name == incoming.name
    && stored.dataType == incoming.dataType
    && (stored.nullable == incoming.nullable || (!stored.nullable && incoming.nullable))
    && stored.primaryKey == incoming.primaryKey
    && stored.alwaysPresentOnUpdate == incoming.alwaysPresentOnUpdate
    && stored.updateValuePresence == incoming.updateValuePresence
    && stored.deleteValuePresence == incoming.deleteValuePresence
    && stored.lowCardinality == incoming.lowCardinality
    && stored.maxLength == incoming.maxLength
    && stored.extensionName == incoming.extensionName
    && stored.extensionMetadata == incoming.extensionMetadata
    && stored.oldValueOf.None?
    && stored.oldKeyOf.None?
    && stored.systemRole.None?
  }

  /** The exact-projection test. */
  predicate ExactProjection(stored: seq<Column>, incoming: seq<Column>, keep: Column -> bool) {
    && |stored| == |Select(incoming, keep)|
    && forall k :: 0 <= k < |stored| ==> StoredColumnMatches(stored[k], Select(incoming, keep)[k])
  }

  /** The dataset `SinkBatch::dataset` describes for a batch of this schema. */
  function BatchDataset(schema: seq<Column>, system: seq<SystemColumn>, keepSystem: bool): Dataset {
    Dataset(Strict, schema, Select(schema, ByBatch(system, keepSystem)), system)
  }

  /** The two filters agree on every column, whatever the system columns and the policy flag. */
  lemma FiltersAgree(column: Column, system: seq<SystemColumn>, keepSystem: bool)
    ensures StoredByBatch(column, system, keepSystem)
            <==> StoredByContract(column, system, Elements(SystemNames(system)), keepSystem)
  {
    NameIsListed(system, column.name);
  }

  lemma NameIsListed(system: seq<SystemColumn>, name: string)
    ensures name in Elements(SystemNames(system)) <==> SystemOf(system, name).Some?
  {
    var found, names := SystemOf(system, name), SystemNames(system);
    if found.Some? {
      var i :| 0 <= i < |system| && system[i] == found.value;
      assert names[i] == name;
    }
    forall i | 0 <= i < |names| && found.None?
      ensures names[i] != name
    {
      assert system[i] in system;
    }
  }

  lemma {:induction false} SelectAlike(columns: seq<Column>, keep: Column -> bool, also: Column -> bool)
    requires forall c :: keep(c) == also(c)
    ensures Select(columns, keep) == Select(columns, also)
  {
    if columns != [] {
      SelectAlike(columns[1..], keep, also);
    }
  }

  lemma {:induction false} SelectedAreKept(columns: seq<Column>, keep: Column -> bool)
    ensures forall k :: 0 <= k < |Select(columns, keep)| ==> keep(Select(columns, keep)[k]) && Select(columns, keep)[k] in columns
  {
    if columns != [] {
      SelectedAreKept(columns[1..], keep);
    }
  }

  /** The schema a batch stores always passes the exact-projection test, for every schema, system-column
      list and policy flag. */
  lemma BatchProjectionIsExact(schema: seq<Column>, system: seq<SystemColumn>, keepSystem: bool)
    ensures ExactProjection(BatchDataset(schema, system, keepSystem).stored, schema,
                            ByContract(system, Elements(SystemNames(system)), keepSystem))
  {
    var byBatch, byContract := ByBatch(system, keepSystem), ByContract(system, Elements(SystemNames(system)), keepSystem);
    forall c: Column
      ensures byBatch(c) == byContract(c)
    {
      FiltersAgree(c, system, keepSystem);
    }
    SelectAlike(schema, byBatch, byContract);
    SelectedAreKept(schema, byBatch);
  }

  // The converse.

  /** The positions of the kept columns, counted from `base`. */
  function Positions(columns: seq<Column>, keep: Column -> bool, base: nat): seq<nat> {
    if columns == [] then []
    else (if keep(columns[0]) then [base] else []) + Positions(columns[1..], keep, base + 1)
  }

  /** The kept columns stand at the positions, in order, and every kept column is at one of them. */
  ghost predicate Locates(positions: seq<nat>, columns: seq<Column>, selected: seq<Column>, keep: Column -> bool, base: nat) {
    && |positions| == |selected|
    && Increasing(positions)
    && (forall k :: 0 <= k < |positions| ==>
          base <= positions[k] < base + |columns| && columns[positions[k] - base] == selected[k] && keep(selected[k]))
    && (forall i :: base <= i < base + |columns| && keep(columns[i - base]) ==> i in positions)
  }

  /** What is located in a list is located, one further on, behind another column. */
  lemma LocatesBehind(positions: seq<nat>, first: Column, rest: seq<Column>, selected: seq<Column>, keep: Column -> bool, base: nat)
    requires Locates(positions, rest, selected, keep, base + 1)
    ensures keep(first) ==> Locates([base] + positions, [first] + rest, [first] + selected, keep, base)
    ensures !keep(first) ==> Locates(positions, [first] + rest, selected, keep, base)
  {
    var columns := [first] + rest;
    forall i | base <= i < base + |columns| && keep(columns[i - base])
      ensures i in [base] + positions && (i == base || i in positions)
    {
      if i > base {
        assert columns[i - base] == rest[i - (base + 1)];
      }
    }
  }

  lemma {:induction false} PositionsLocate(columns: seq<Column>, keep: Column -> bool, base: nat)
    ensures Locates(Positions(columns, keep, base), columns, Select(columns, keep), keep, base)
    decreases |columns|
  {
    if columns != [] {
      PositionsLocate(columns[1..], keep, base + 1);
      LocatesBehind(Positions(columns[1..], keep, base + 1), columns[0], columns[1..], Select(columns[1..], keep), keep, base);
      assert columns == [columns[0]] + columns[1..];
    }
  }

  /** The stored column is the incoming one, except that it may refuse nulls the incoming one allows,
      and that the source's own type text is not compared. */
  predicate Tightens(stored: Column, incoming: Column) {
    && stored == incoming.(nullable := stored.nullable, sourceType := stored.sourceType)
    && (stored.nullable ==> incoming.nullable)
  }

  lemma MatchesIffTightens(stored: Column, incoming: Column)
    requires incoming.oldValueOf.None? && incoming.oldKeyOf.None? && incoming.systemRole.None?
    ensures StoredColumnMatches(stored, incoming) <==> Tightens(stored, incoming)
  {
  }

  ghost predicate IsProjection(
    positions: seq<nat>, stored: seq<Column>, incoming: seq<Column>, keep: Column -> bool)
  {
    && |positions| == |stored| && Increasing(positions)
    && (forall k :: 0 <= k < |stored| ==> positions[k] < |incoming| && Tightens(stored[k], incoming[positions[k]]))
    && (forall i :: 0 <= i < |incoming| ==> (i in positions <==> keep(incoming[i])))
  }

  /** Conversely, an accepted stored schema is the incoming one filtered in order, column by column up
      to tightened nullability, and holds no control column. */
  lemma ExactProjectionIsFilter(
    stored: seq<Column>, incoming: seq<Column>, system: seq<SystemColumn>, keepSystem: bool)
    ensures var keep := ByContract(system, Elements(SystemNames(system)), keepSystem);
            ExactProjection(stored, incoming, keep) <==> exists positions :: IsProjection(positions, stored, incoming, keep)
    ensures ExactProjection(stored, incoming, ByContract(system, Elements(SystemNames(system)), keepSystem)) ==>
              forall k :: 0 <= k < |stored| ==>
                stored[k].oldValueOf.None? && stored[k].oldKeyOf.None? && stored[k].systemRole.None?
                && !IsChangeColumn(stored[k].name, system)
  {
    var keep := ByContract(system, Elements(SystemNames(system)), keepSystem);
    var selected, located := Select(incoming, keep), Positions(incoming, keep, 0);
    PositionsLocate(incoming, keep, 0);
    if ExactProjection(stored, incoming, keep) {
      ProjectionFromTest(stored, incoming, keep);
      forall k | 0 <= k < |stored|
        ensures !IsChangeColumn(stored[k].name, system)
      {
        assert keep(selected[k]);
      }
    }
    if positions :| IsProjection(positions, stored, incoming, keep) {
      PositionsAreUnique(positions, located, incoming, keep);
      assert forall k :: 0 <= k < |stored| ==> keep(selected[k]);
      assert forall k :: 0 <= k < |stored| ==> Tightens(stored[k], selected[k]);
    }
  }

  predicate IsChangeColumn(name: string, system: seq<SystemColumn>) {
    SystemOf(system, name).Some? && IsChangeKind(SystemOf(system, name).value.kind)
  }

  lemma ProjectionFromTest(stored: seq<Column>, incoming: seq<Column>, keep: Column -> bool)
    requires ExactProjection(stored, incoming, keep)
    requires forall c :: keep(c) ==> c.oldValueOf.None? && c.oldKeyOf.None? && c.systemRole.None?
    ensures IsProjection(Positions(incoming, keep, 0), stored, incoming, keep)
  {
    var located, selected := Positions(incoming, keep, 0), Select(incoming, keep);
    PositionsLocate(incoming, keep, 0);
    forall k | 0 <= k < |stored|
      ensures located[k] < |incoming| && Tightens(stored[k], incoming[located[k]])
    {
      assert keep(selected[k]);
    }
  }

  /** An increasing list with a given set of positions is determined. */
  lemma PositionsAreUnique(positions: seq<nat>, located: seq<nat>, incoming: seq<Column>, keep: Column -> bool)
    requires Increasing(positions) && Increasing(located)
    requires forall k :: 0 <= k < |positions| ==> positions[k] < |incoming|
    requires forall k :: 0 <= k < |located| ==> located[k] < |incoming|
    requires forall i :: 0 <= i < |incoming| ==> (i in positions <==> keep(incoming[i]))
    requires forall i :: 0 <= i < |incoming| ==> (i in located <==> keep(incoming[i]))
    ensures positions == located
  {
    SubsetOfMembers(positions, located, incoming, keep);
    SubsetOfMembers(located, positions, incoming, keep);
    SameMembersSameList(positions, located);
  }

  lemma SubsetOfMembers(a: seq<nat>, b: seq<nat>, incoming: seq<Column>, keep: Column -> bool)
    requires forall k :: 0 <= k < |a| ==> a[k] < |incoming|
    requires forall i :: 0 <= i < |incoming| ==> (i in a <==> keep(incoming[i]))
    requires forall i :: 0 <= i < |incoming| ==> (i in b <==> keep(incoming[i]))
    ensures Elements(a) <= Elements(b)
  {
    forall x | x in Elements(a)
      ensures x in Elements(b)
    {
      var k :| 0 <= k < |a| && a[k] == x;
      assert x in b;
    }
  }

  lemma {:induction false} SameMembersSameList(a: seq<nat>, b: seq<nat>)
    requires Increasing(a) && Increasing(b) && Elements(a) == Elements(b)
    ensures a == b
  {
    ElementsSize(a);
    ElementsSize(b);
    assert |a| == |b|;
    if a != [] {
      assert a[0] in Elements(a) && b[0] in Elements(b);
      assert a[0] == b[0];
      TailElements(a);
      TailElements(b);
      SameMembersSameList(a[1..], b[1..]);
    }
  }

  lemma TailElements(a: seq<nat>)
    requires Increasing(a) && a != []
    ensures Increasing(a[1..]) && Elements(a[1..]) == Elements(a) - {a[0]}
  {
    forall x | x in Elements(a) - {a[0]}
      ensures x in Elements(a[1..])
    {
      var i :| 0 <= i < |a| && a[i] == x;
      assert a[1..][i - 1] == x;
    }
    forall x | x in Elements(a[1..])
      ensures x in Elements(a) - {a[0]}
    {
      var i :| 0 <= i < |a[1..]| && a[1..][i] == x;
      assert a[i + 1] == x;
    }
  }
}
