/**
  The schema contract between a source and a sink: which incoming columns are stored, which carry
  change-log control data, and how the control columns pair with the columns they describe.
 */
module SchemaContract {
  import opened Common

  datatype DataType = Utf8 | Int64 | UInt64 | Binary | OtherType(id: nat)

  datatype ValuePresence = MayBeAbsent | Guaranteed

  datatype SystemKind =
    | Topic
    | Partition
    | Offset
    | MessageIndex
    | WriteTimestampMs
    | ChangeOperation
    | ChangedColumns

  datatype Column = Column(
    name: string,
    sourceType: Option<string>,
    dataType: DataType,
    nullable: bool,
    alwaysPresentOnUpdate: bool,
    updateValuePresence: ValuePresence,
    deleteValuePresence: ValuePresence,
    primaryKey: bool,
    lowCardinality: bool,
    maxLength: Option<nat>,
    extensionName: Option<string>,
    extensionMetadata: Option<string>,
    systemRole: Option<string>,
    oldValueOf: Option<string>,
    oldKeyOf: Option<string>
  )

  datatype SystemColumn = SystemColumn(kind: SystemKind, name: string)

  datatype UpdatePolicy = Strict | FullImageUpsert

  datatype Dataset = Dataset(
    policy: UpdatePolicy,
    incoming: seq<Column>,
    stored: seq<Column>,
    system: seq<SystemColumn>
  )

  datatype ContractError =
    | RepeatedIncomingName
    | RepeatedStoredName
    | RepeatedSystemName
    | RepeatedSystemKind(kind: SystemKind)
    | BadSystemColumn(name: string)
    | OldColumnsWithoutChangelog
    | OldColumnCount
    | UnknownCurrentColumn(name: string)
    | RepeatedOldColumn(name: string)
    | BadControlColumn(name: string)
    | UnpairedColumn
    | UpsertWithoutKeyedChangelog
    | UpsertWithoutOldKey(name: string)
    | BadSourceVersion
    | RepeatedSourceVersion
    | NotExactProjection

  const SOURCE_VERSION := "source.version"

  function DataTypeOf(kind: SystemKind): DataType {
    match kind
    case Topic => Utf8
    case ChangeOperation => Utf8
    case Partition => Int64
    case Offset => Int64
    case WriteTimestampMs => Int64
    case MessageIndex => UInt64
    case ChangedColumns => Binary
  }

  // Names.

  function NamesOf(columns: seq<Column>): (names: seq<string>)
    ensures |names| == |columns|
    ensures forall i :: 0 <= i < |columns| ==> names[i] == columns[i].name
  {
    seq(|columns|, i requires 0 <= i < |columns| => columns[i].name)
  }

  function SystemNames(system: seq<SystemColumn>): (names: seq<string>)
    ensures |names| == |system|
    ensures forall i :: 0 <= i < |system| ==> names[i] == system[i].name
  {
    seq(|system|, i requires 0 <= i < |system| => system[i].name)
  }

  function Kinds(system: seq<SystemColumn>): (kinds: seq<SystemKind>)
    ensures |kinds| == |system|
    ensures forall i :: 0 <= i < |system| ==> kinds[i] == system[i].kind
  {
    seq(|system|, i requires 0 <= i < |system| => system[i].kind)
  }

  /** The incoming column that a system column describes has its type and is not nullable. */
  ghost predicate Described(system: SystemColumn, incoming: seq<Column>) {
    exists i :: 0 <= i < |incoming| && incoming[i].name == system.name
                && incoming[i].dataType == DataTypeOf(system.kind) && !incoming[i].nullable
  }

  /** The contract of the name and system-column checks. */
  ghost predicate NamesSound(d: Dataset) {
    && Distinct(NamesOf(d.incoming))
    && Distinct(NamesOf(d.stored))
    && Distinct(SystemNames(d.system))
    && Distinct(Kinds(d.system))
    && forall i :: 0 <= i < |d.system| ==> Described(d.system[i], d.incoming)
  }

  lemma {:induction false} ElementsSize<T>(xs: seq<T>)
    ensures |Elements(xs)| <= |xs|
    ensures |Elements(xs)| == |xs| <==> Distinct(xs)
  {
    if xs == [] {
      assert Elements(xs) == {};
    } else {
      var init, last := xs[..|xs| - 1], xs[|xs| - 1];
      ElementsSize(init);
      assert xs == init + [last];
      assert Elements(xs) == Elements(init) + {last};
      if last in Elements(init) {
        assert Elements(xs) == Elements(init);
        assert |Elements(xs)| < |xs|;
        var i :| 0 <= i < |init| && init[i] == last;
        assert xs[i] == xs[|xs| - 1];
      } else {
        assert |Elements(xs)| == |Elements(init)| + 1;
        if Distinct(init) {
          assert Distinct(xs);
        }
        if Distinct(xs) {
          assert Distinct(init);
        }
      }
    }
  }

  /** `collect::<HashSet<_>>()`. */
  method Collect(names: seq<string>) returns (found: set<string>)
    ensures found == Elements(names)
  {
    found := {};
    for i := 0 to |names|
      invariant found == Elements(names[..i])
    {
      found := found + {names[i]};
      assert names[..i + 1] == names[..i] + [names[i]];
    }
    assert names[..|names|] == names;
  }

  /** The incoming columns of a given name. */
  method Matching(columns: seq<Column>, name: string) returns (matching: seq<Column>)
    ensures |matching| == 0 <==> name !in NamesOf(columns)
    ensures |matching| == 1 ==> matching[0] in columns && matching[0].name == name
    ensures Distinct(NamesOf(columns)) ==> |matching| <= 1
  {
    matching := [];
    for i := 0 to |columns|
      invariant |matching| == 0 <==> forall j :: 0 <= j < i ==> columns[j].name != name
      invariant forall j :: 0 <= j < |matching| ==> matching[j] in columns && matching[j].name == name
      invariant Distinct(NamesOf(columns)) ==> |matching| <= 1
    {
      if columns[i].name == name {
        assert Distinct(NamesOf(columns)) ==>
            forall j :: 0 <= j < i ==> NamesOf(columns)[j] != NamesOf(columns)[i];
        matching := matching + [columns[i]];
      }
    }
  }

  /** `validate_projection_names_and_system_columns`: accepts exactly the sound name lists. */
  method ValidateNames(d: Dataset) returns (r: Result<set<string>, ContractError>)
    ensures r.Ok? <==> NamesSound(d)
    ensures r.Ok? ==> r.value == Elements(SystemNames(d.system))
    ensures r == Err(RepeatedIncomingName) <==> !Distinct(NamesOf(d.incoming))
  {
    var incomingNames := Collect(NamesOf(d.incoming));
    ElementsSize(NamesOf(d.incoming));
    if |incomingNames| != |d.incoming| {
      return Err(RepeatedIncomingName);
    }
    var storedNames := Collect(NamesOf(d.stored));
    ElementsSize(NamesOf(d.stored));
    if |storedNames| != |d.stored| {
      return Err(RepeatedStoredName);
    }
    var systemNames := Collect(SystemNames(d.system));
    ElementsSize(SystemNames(d.system));
    if |systemNames| != |d.system| {
      return Err(RepeatedSystemName);
    }
    var kinds: set<SystemKind> := {};
    for i := 0 to |d.system|
      invariant kinds == Elements(Kinds(d.system)[..i])
      invariant Distinct(Kinds(d.system)[..i])
      invariant forall j :: 0 <= j < i ==> Described(d.system[j], d.incoming)
    {
      var system := d.system[i];
      assert Kinds(d.system)[..i + 1] == Kinds(d.system)[..i] + [system.kind];
      if system.kind in kinds {
        assert !Distinct(Kinds(d.system)) by {
          var j :| 0 <= j < i && Kinds(d.system)[..i][j] == system.kind;
          assert Kinds(d.system)[j] == Kinds(d.system)[i];
        }
        return Err(RepeatedSystemKind(system.kind));
      }
      kinds := kinds + {system.kind};
      var matching := Matching(d.incoming, system.name);
      DescribedByMatch(system, d.incoming, matching);
      if |matching| != 1 || matching[0].dataType != DataTypeOf(system.kind) || matching[0].nullable {
        return Err(BadSystemColumn(system.name));
      }
    }
    assert Kinds(d.system)[..|d.system|] == Kinds(d.system);
    return Ok(systemNames);
  }

  /** With distinct names, the column a system column describes is the one that matches its name. */
  lemma DescribedByMatch(system: SystemColumn, incoming: seq<Column>, matching: seq<Column>)
    requires Distinct(NamesOf(incoming)) && |matching| <= 1
    requires |matching| == 0 <==> system.name !in NamesOf(incoming)
    requires |matching| == 1 ==> matching[0] in incoming && matching[0].name == system.name
    ensures Described(system, incoming) <==>
            |matching| == 1 && matching[0].dataType == DataTypeOf(system.kind) && !matching[0].nullable
  {
    forall j | 0 <= j < |incoming| && incoming[j].name == system.name
      ensures |matching| == 1 && incoming[j] == matching[0]
    {
      assert NamesOf(incoming)[j] == system.name;
      var k :| 0 <= k < |incoming| && incoming[k] == matching[0];
      assert NamesOf(incoming)[k] == NamesOf(incoming)[j];
    }
  }
}
