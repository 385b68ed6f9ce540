/**
 * The editor's SQLite data layer, with the queries abstracted: a table is a
 * sequence of rows, a row maps column names to values (`None` is SQL NULL),
 * and a `WHERE <column> = @id` query keeps the rows whose column holds `id`,
 * in table order. On top of that the module models the first-row by-id
 * getters, the hydration of a row into a record (NULL becoming -1 or the
 * empty string), the dispatch on script type, and the parameter label and
 * tooltip lookups with their defaults.
 */
module SqliteDatabase {
  import opened Wrappers

  // ---------------------------------------------------------------------
  // Rows and tables
  // ---------------------------------------------------------------------

  /** A non-NULL column value: an integer or a text. */
  datatype Value = IntValue(i: int) | TextValue(s: string)

  /** A result row: column name to value, `None` being SQL NULL. */
  type Row = map<string, Option<Value>>

  type Table = seq<Row>

  /** The row has the column, and it holds NULL or an integer. */
  predicate IsIntColumn(row: Row, column: string)
  {
    column in row && (row[column].Some? ==> row[column].value.IntValue?)
  }

  /** The row has the column, and it holds NULL or a text. */
  predicate IsTextColumn(row: Row, column: string)
  {
    column in row && (row[column].Some? ==> row[column].value.TextValue?)
  }

  /** `x` is what hydration may take from an integer column: the value, or -1 for NULL. */
  ghost predicate HydratesInt(row: Row, column: string, x: int)
  {
    column in row && (row[column] == None ==> x == -1) && (row[column] != None ==> row[column] == Some(IntValue(x)))
  }

  /** `s` is what hydration may take from a text column: the value, or the empty string for NULL. */
  ghost predicate HydratesText(row: Row, column: string, s: string)
  {
    column in row && (row[column] == None ==> s == "") && (row[column] != None ==> row[column] == Some(TextValue(s)))
  }

  /** An integer column read the way the records are built: NULL becomes -1. */
  function IntOrDefault(row: Row, column: string): int
    requires IsIntColumn(row, column)
  {
    match row[column]
    case None => -1
    case Some(v) => v.i
  }

  /** A text column read the way the records are built: NULL becomes the empty string. */
  function TextOrEmpty(row: Row, column: string): string
    requires IsTextColumn(row, column)
  {
    match row[column]
    case None => ""
    case Some(v) => v.s
  }

  /** The decimal digit of a parameter number. */
  function Digit(n: int): char
    requires 0 <= n <= 9
  {
    (('0' as int) + n) as char
  }

  /** The column `parameterString<n>`. */
  function ParameterStringColumn(n: int): string
    requires 0 <= n <= 9
  {
    "parameterString" + [Digit(n)]
  }

  /** The column `parameterTooltip<n>`. */
  function ParameterTooltipColumn(n: int): string
    requires 0 <= n <= 9
  {
    "parameterTooltip" + [Digit(n)]
  }

  /** The row matches `WHERE <column> = @id`; a NULL never matches. */
  predicate Matches(row: Row, column: string, id: int)
  {
    column in row && row[column] == Some(IntValue(id))
  }

  /** Row `i` is the first row of the table that matches. */
  ghost predicate IsFirstMatch(table: Table, column: string, id: int, i: int)
  {
    0 <= i < |table| && Matches(table[i], column, id) && forall j :: 0 <= j < i ==> !Matches(table[j], column, id)
  }

  /** The result of `SELECT * FROM <table> WHERE <column> = @id`: the matching rows, in table order. */
  function Select(table: Table, column: string, id: int): (result: Table)
    ensures forall row :: row in result ==> row in table && Matches(row, column, id)
    ensures result == [] <==> forall i :: 0 <= i < |table| ==> !Matches(table[i], column, id)
    ensures result != [] ==> exists i :: IsFirstMatch(table, column, id, i) && table[i] == result[0]
  {
    if table == [] then []
    else
      var rest := Select(table[1..], column, id);
      if Matches(table[0], column, id) then
        assert IsFirstMatch(table, column, id, 0);
        [table[0]] + rest
      else
        assert forall i :: 1 <= i < |table| ==> table[i] == table[1..][i - 1];
        assert rest != [] ==> exists i :: IsFirstMatch(table, column, id, i) && table[i] == rest[0] by {
          if rest != [] {
            var k :| IsFirstMatch(table[1..], column, id, k) && table[1..][k] == rest[0];
            assert IsFirstMatch(table, column, id, k + 1);
          }
        }
        rest
  }

  /** The first matching row is unique. */
  lemma FirstMatchUnique(table: Table, column: string, id: int, i: int, k: int)
    requires IsFirstMatch(table, column, id, i) && IsFirstMatch(table, column, id, k)
    ensures i == k
  {
  }

  // ---------------------------------------------------------------------
  // Records
  // ---------------------------------------------------------------------

  /** The labels and tooltips of a type's six parameters. */
  datatype BaseTypeInformation = BaseTypeInformation(
    parameterString1: string, parameterString2: string, parameterString3: string,
    parameterString4: string, parameterString5: string, parameterString6: string,
    parameterTooltip1: string, parameterTooltip2: string, parameterTooltip3: string,
    parameterTooltip4: string, parameterTooltip5: string, parameterTooltip6: string)

  datatype EventTypeInformation = EventTypeInformation(eventType: int, base: BaseTypeInformation)

  datatype ActionTypeInformation = ActionTypeInformation(actionType: int, base: BaseTypeInformation)

  datatype TargetTypeInformation = TargetTypeInformation(targetType: int, base: BaseTypeInformation)

  /** An area trigger; only its two integer columns are modelled. */
  datatype AreaTrigger = AreaTrigger(id: int, mapId: int)

  /** The script types the editor dispatches on; every other value of the enumeration is `ScriptTypeOther`. */
  datatype ScriptTypeId = ScriptTypeEvent | ScriptTypeAction | ScriptTypeTarget | ScriptTypeOther(code: int)

  /** A row of a type-information table: the id column and the first `count` label and tooltip columns are typed. */
  predicate IsTypeInformationRow(row: Row, idColumn: string, count: int)
    requires 0 <= count <= 6
  {
    && IsIntColumn(row, idColumn)
    && (forall n :: 1 <= n <= count ==> IsTextColumn(row, ParameterStringColumn(n)))
    && (forall n :: 1 <= n <= count ==> IsTextColumn(row, ParameterTooltipColumn(n)))
  }

  predicate IsAreaTriggerRow(row: Row)
  {
    IsIntColumn(row, "id") && IsIntColumn(row, "mapId")
  }

  /**
   * The database file's contents: the four tables the editor reads, and the
   * values that a newly constructed event and target record hold in the
   * fields their hydration does not set (the C# definitions of those record
   * classes are not part of this model, so these values are left open).
   */
  datatype Database = Database(
    eventTypes: Table, actionTypes: Table, targetTypes: Table, areaTriggers: Table,
    newEvent: BaseTypeInformation, newTarget: BaseTypeInformation)
  {
    /** Every row has the columns its table's hydration reads, with values of the right kind. */
    predicate Valid()
    {
      && (forall row :: row in eventTypes ==> IsTypeInformationRow(row, "event_type", 4))
      && (forall row :: row in actionTypes ==> IsTypeInformationRow(row, "action_type", 6))
      && (forall row :: row in targetTypes ==> IsTypeInformationRow(row, "target_type", 3))
      && (forall row :: row in areaTriggers ==> IsAreaTriggerRow(row))
    }
  }

  // ---------------------------------------------------------------------
  // Hydration
  // ---------------------------------------------------------------------

  /**
   * An event row as a record: the id and parameters 1 to 4 come from the
   * row, NULL giving -1 or the empty string; parameters 5 and 6 keep the
   * new record's values.
   */
  function BuildEventTypeInformation(row: Row, blank: BaseTypeInformation): (r: EventTypeInformation)
    requires IsTypeInformationRow(row, "event_type", 4)
    ensures HydratesInt(row, "event_type", r.eventType)
    ensures HydratesText(row, ParameterStringColumn(1), r.base.parameterString1)
    ensures HydratesText(row, ParameterStringColumn(2), r.base.parameterString2)
    ensures HydratesText(row, ParameterStringColumn(3), r.base.parameterString3)
    ensures HydratesText(row, ParameterStringColumn(4), r.base.parameterString4)
    ensures HydratesText(row, ParameterTooltipColumn(1), r.base.parameterTooltip1)
    ensures HydratesText(row, ParameterTooltipColumn(2), r.base.parameterTooltip2)
    ensures HydratesText(row, ParameterTooltipColumn(3), r.base.parameterTooltip3)
    ensures HydratesText(row, ParameterTooltipColumn(4), r.base.parameterTooltip4)
    ensures r.base.parameterString5 == blank.parameterString5 && r.base.parameterString6 == blank.parameterString6
    ensures r.base.parameterTooltip5 == blank.parameterTooltip5 && r.base.parameterTooltip6 == blank.parameterTooltip6
  {
    EventTypeInformation(
      IntOrDefault(row, "event_type"),
      blank.(
        parameterString1 := TextOrEmpty(row, ParameterStringColumn(1)),
        parameterString2 := TextOrEmpty(row, ParameterStringColumn(2)),
        parameterString3 := TextOrEmpty(row, ParameterStringColumn(3)),
        parameterString4 := TextOrEmpty(row, ParameterStringColumn(4)),
        parameterTooltip1 := TextOrEmpty(row, ParameterTooltipColumn(1)),
        parameterTooltip2 := TextOrEmpty(row, ParameterTooltipColumn(2)),
        parameterTooltip3 := TextOrEmpty(row, ParameterTooltipColumn(3)),
        parameterTooltip4 := TextOrEmpty(row, ParameterTooltipColumn(4))))
  }

  /** An action row as a record: the id and all six parameters come from the row. */
  function BuildActionTypeInformation(row: Row): (r: ActionTypeInformation)
    requires IsTypeInformationRow(row, "action_type", 6)
    ensures HydratesInt(row, "action_type", r.actionType)
    ensures HydratesText(row, ParameterStringColumn(1), r.base.parameterString1)
    ensures HydratesText(row, ParameterStringColumn(2), r.base.parameterString2)
    ensures HydratesText(row, ParameterStringColumn(3), r.base.parameterString3)
    ensures HydratesText(row, ParameterStringColumn(4), r.base.parameterString4)
    ensures HydratesText(row, ParameterStringColumn(5), r.base.parameterString5)
    ensures HydratesText(row, ParameterStringColumn(6), r.base.parameterString6)
    ensures HydratesText(row, ParameterTooltipColumn(1), r.base.parameterTooltip1)
    ensures HydratesText(row, ParameterTooltipColumn(2), r.base.parameterTooltip2)
    ensures HydratesText(row, ParameterTooltipColumn(3), r.base.parameterTooltip3)
    ensures HydratesText(row, ParameterTooltipColumn(4), r.base.parameterTooltip4)
    ensures HydratesText(row, ParameterTooltipColumn(5), r.base.parameterTooltip5)
    ensures HydratesText(row, ParameterTooltipColumn(6), r.base.parameterTooltip6)
  {
    ActionTypeInformation(
      IntOrDefault(row, "action_type"),
      BaseTypeInformation(
        TextOrEmpty(row, ParameterStringColumn(1)),
        TextOrEmpty(row, ParameterStringColumn(2)),
        TextOrEmpty(row, ParameterStringColumn(3)),
        TextOrEmpty(row, ParameterStringColumn(4)),
        TextOrEmpty(row, ParameterStringColumn(5)),
        TextOrEmpty(row, ParameterStringColumn(6)),
        TextOrEmpty(row, ParameterTooltipColumn(1)),
        TextOrEmpty(row, ParameterTooltipColumn(2)),
        TextOrEmpty(row, ParameterTooltipColumn(3)),
        TextOrEmpty(row, ParameterTooltipColumn(4)),
        TextOrEmpty(row, ParameterTooltipColumn(5)),
        TextOrEmpty(row, ParameterTooltipColumn(6))))
  }

  /**
   * A target row as a record: the id and parameters 1 to 3 come from the
   * row; parameters 4 to 6 keep the new record's values.
   */
  function BuildTargetTypeInformation(row: Row, blank: BaseTypeInformation): (r: TargetTypeInformation)
    requires IsTypeInformationRow(row, "target_type", 3)
    ensures HydratesInt(row, "target_type", r.targetType)
    ensures HydratesText(row, ParameterStringColumn(1), r.base.parameterString1)
    ensures HydratesText(row, ParameterStringColumn(2), r.base.parameterString2)
    ensures HydratesText(row, ParameterStringColumn(3), r.base.parameterString3)
    ensures HydratesText(row, ParameterTooltipColumn(1), r.base.parameterTooltip1)
    ensures HydratesText(row, ParameterTooltipColumn(2), r.base.parameterTooltip2)
    ensures HydratesText(row, ParameterTooltipColumn(3), r.base.parameterTooltip3)
    ensures r.base.parameterString4 == blank.parameterString4 && r.base.parameterTooltip4 == blank.parameterTooltip4
    ensures r.base.parameterString5 == blank.parameterString5 && r.base.parameterTooltip5 == blank.parameterTooltip5
    ensures r.base.parameterString6 == blank.parameterString6 && r.base.parameterTooltip6 == blank.parameterTooltip6
  {
    TargetTypeInformation(
      IntOrDefault(row, "target_type"),
      blank.(
        parameterString1 := TextOrEmpty(row, ParameterStringColumn(1)),
        parameterString2 := TextOrEmpty(row, ParameterStringColumn(2)),
        parameterString3 := TextOrEmpty(row, ParameterStringColumn(3)),
        parameterTooltip1 := TextOrEmpty(row, ParameterTooltipColumn(1)),
        parameterTooltip2 := TextOrEmpty(row, ParameterTooltipColumn(2)),
        parameterTooltip3 := TextOrEmpty(row, ParameterTooltipColumn(3))))
  }

  /** An area trigger row as a record: NULL ids become -1. */
  function BuildAreaTrigger(row: Row): (r: AreaTrigger)
    requires IsAreaTriggerRow(row)
    ensures HydratesInt(row, "id", r.id) && HydratesInt(row, "mapId", r.mapId)
  {
    AreaTrigger(IntOrDefault(row, "id"), IntOrDefault(row, "mapId"))
  }

  // ---------------------------------------------------------------------
  // Lookups by id: no row gives nothing, otherwise the first row
  // ---------------------------------------------------------------------

  function GetEventTypeInformationById(db: Database, eventType: int): (r: Option<EventTypeInformation>)
    requires db.Valid()
    ensures r == None <==> forall i :: 0 <= i < |db.eventTypes| ==> !Matches(db.eventTypes[i], "event_type", eventType)
    ensures r != None ==> r.value.eventType == eventType
    ensures r != None ==> exists i :: IsFirstMatch(db.eventTypes, "event_type", eventType, i)
                                      && r.value == BuildEventTypeInformation(db.eventTypes[i], db.newEvent)
  {
    var dt := Select(db.eventTypes, "event_type", eventType);
    if |dt| == 0 then None
    else
      assert dt[0] in dt;
      Some(BuildEventTypeInformation(dt[0], db.newEvent))
  }

  function GetActionTypeInformationById(db: Database, actionType: int): (r: Option<ActionTypeInformation>)
    requires db.Valid()
    ensures r == None <==> forall i :: 0 <= i < |db.actionTypes| ==> !Matches(db.actionTypes[i], "action_type", actionType)
    ensures r != None ==> r.value.actionType == actionType
    ensures r != None ==> exists i :: IsFirstMatch(db.actionTypes, "action_type", actionType, i)
                                      && r.value == BuildActionTypeInformation(db.actionTypes[i])
  {
    var dt := Select(db.actionTypes, "action_type", actionType);
    if |dt| == 0 then None
    else
      assert dt[0] in dt;
      Some(BuildActionTypeInformation(dt[0]))
  }

  function GetTargetTypeInformationById(db: Database, targetType: int): (r: Option<TargetTypeInformation>)
    requires db.Valid()
    ensures r == None <==> forall i :: 0 <= i < |db.targetTypes| ==> !Matches(db.targetTypes[i], "target_type", targetType)
    ensures r != None ==> r.value.targetType == targetType
    ensures r != None ==> exists i :: IsFirstMatch(db.targetTypes, "target_type", targetType, i)
                                      && r.value == BuildTargetTypeInformation(db.targetTypes[i], db.newTarget)
  {
    var dt := Select(db.targetTypes, "target_type", targetType);
    if |dt| == 0 then None
    else
      assert dt[0] in dt;
      Some(BuildTargetTypeInformation(dt[0], db.newTarget))
  }

  function GetAreaTriggerById(db: Database, id: int): (r: Option<AreaTrigger>)
    requires db.Valid()
    ensures r == None <==> forall i :: 0 <= i < |db.areaTriggers| ==> !Matches(db.areaTriggers[i], "id", id)
    ensures r != None ==> r.value.id == id
    ensures r != None ==> exists i :: IsFirstMatch(db.areaTriggers, "id", id, i)
                                      && r.value == BuildAreaTrigger(db.areaTriggers[i])
  {
    var dt := Select(db.areaTriggers, "id", id);
    if |dt| == 0 then None
    else
      assert dt[0] in dt;
      Some(BuildAreaTrigger(dt[0]))
  }

  /** Every area trigger, one record per row in row order; no rows gives nothing rather than an empty list. */
  method GetAreaTriggers(db: Database) returns (r: Option<seq<AreaTrigger>>)
    requires db.Valid()
    ensures r == None <==> |db.areaTriggers| == 0
    ensures r != None ==> |r.value| == |db.areaTriggers|
    ensures r != None ==> forall i :: 0 <= i < |db.areaTriggers| ==> r.value[i] == BuildAreaTrigger(db.areaTriggers[i])
  {
    var dt := db.areaTriggers;
    if |dt| == 0 {
      return None;
    }
    var areaTriggers: seq<AreaTrigger> := [];
    for k := 0 to |dt|
      invariant |areaTriggers| == k
      invariant forall i :: 0 <= i < k ==> areaTriggers[i] == BuildAreaTrigger(dt[i])
    {
      assert dt[k] in dt;
      areaTriggers := areaTriggers + [BuildAreaTrigger(dt[k])];
    }
    return Some(areaTriggers);
  }

  // ---------------------------------------------------------------------
  // Dispatch and parameter lookups
  // ---------------------------------------------------------------------

  /** The record of `type` in the table the script type selects; other script types have none. */
  function GetTypeByScriptTypeId(db: Database, typeId: int, scriptTypeId: ScriptTypeId): (r: Option<BaseTypeInformation>)
    requires db.Valid()
    ensures scriptTypeId.ScriptTypeOther? ==> r == None
    ensures scriptTypeId == ScriptTypeEvent ==>
      (r == None <==> forall i :: 0 <= i < |db.eventTypes| ==> !Matches(db.eventTypes[i], "event_type", typeId))
      && (r != None ==> exists i :: IsFirstMatch(db.eventTypes, "event_type", typeId, i)
                                    && r.value == BuildEventTypeInformation(db.eventTypes[i], db.newEvent).base)
    ensures scriptTypeId == ScriptTypeAction ==>
      (r == None <==> forall i :: 0 <= i < |db.actionTypes| ==> !Matches(db.actionTypes[i], "action_type", typeId))
      && (r != None ==> exists i :: IsFirstMatch(db.actionTypes, "action_type", typeId, i)
                                    && r.value == BuildActionTypeInformation(db.actionTypes[i]).base)
    ensures scriptTypeId == ScriptTypeTarget ==>
      (r == None <==> forall i :: 0 <= i < |db.targetTypes| ==> !Matches(db.targetTypes[i], "target_type", typeId))
      && (r != None ==> exists i :: IsFirstMatch(db.targetTypes, "target_type", typeId, i)
                                    && r.value == BuildTargetTypeInformation(db.targetTypes[i], db.newTarget).base)
  {
    match scriptTypeId
    case ScriptTypeEvent =>
      (match GetEventTypeInformationById(db, typeId) case None => None case Some(info) => Some(info.base))
    case ScriptTypeAction =>
      (match GetActionTypeInformationById(db, typeId) case None => None case Some(info) => Some(info.base))
    case ScriptTypeTarget =>
      (match GetTargetTypeInformationById(db, typeId) case None => None case Some(info) => Some(info.base))
    case ScriptTypeOther(_) => None
  }

  /**
   * The label of parameter `paramId` of a type: the record's label when
   * there is a record, `Param <n>` when there is none, and the empty string
   * for a parameter number outside 1 to 6.
   */
  function GetParameterStringById(db: Database, typeId: int, paramId: int, scriptTypeId: ScriptTypeId): (r: string)
    requires db.Valid()
    ensures !(1 <= paramId <= 6) ==> r == ""
    ensures 1 <= paramId <= 6 && GetTypeByScriptTypeId(db, typeId, scriptTypeId) == None ==> r == "Param " + [Digit(paramId)]
  {
    var info := GetTypeByScriptTypeId(db, typeId, scriptTypeId);
    match paramId
    case 1 => if info != None then info.value.parameterString1 else "Param 1"
    case 2 => if info != None then info.value.parameterString2 else "Param 2"
    case 3 => if info != None then info.value.parameterString3 else "Param 3"
    case 4 => if info != None then info.value.parameterString4 else "Param 4"
    case 5 => if info != None then info.value.parameterString5 else "Param 5"
    case 6 => if info != None then info.value.parameterString6 else "Param 6"
    case _ => ""
  }

  /**
   * The tooltip of parameter `paramId` of a type: the record's tooltip when
   * there is a record, and otherwise, or for a parameter number outside 1
   * to 6, the empty string.
   */
  function GetParameterTooltipById(db: Database, typeId: int, paramId: int, scriptTypeId: ScriptTypeId): (r: string)
    requires db.Valid()
    ensures !(1 <= paramId <= 6) ==> r == ""
    ensures GetTypeByScriptTypeId(db, typeId, scriptTypeId) == None ==> r == ""
  {
    var info := GetTypeByScriptTypeId(db, typeId, scriptTypeId);
    match paramId
    case 1 => if info != None then info.value.parameterTooltip1 else ""
    case 2 => if info != None then info.value.parameterTooltip2 else ""
    case 3 => if info != None then info.value.parameterTooltip3 else ""
    case 4 => if info != None then info.value.parameterTooltip4 else ""
    case 5 => if info != None then info.value.parameterTooltip5 else ""
    case 6 => if info != None then info.value.parameterTooltip6 else ""
    case _ => ""
  }

  // ---------------------------------------------------------------------
  // From the tables to the labels and tooltips
  // ---------------------------------------------------------------------

  /**
   * For an event type with a row, the label and tooltip of parameter n
   * (1 to 4) are the first matching row's `parameterString<n>` and
   * `parameterTooltip<n>` columns, NULL read as the empty string;
   * parameters 5 and 6 give the new record's values.
   */
  lemma EventParameters(db: Database, typeId: int, i: int, n: int)
    requires db.Valid()
    requires IsFirstMatch(db.eventTypes, "event_type", typeId, i)
    requires 1 <= n <= 6
    ensures var row := db.eventTypes[i];
      && (n <= 4 ==> HydratesText(row, ParameterStringColumn(n), GetParameterStringById(db, typeId, n, ScriptTypeEvent)))
      && (n <= 4 ==> HydratesText(row, ParameterTooltipColumn(n), GetParameterTooltipById(db, typeId, n, ScriptTypeEvent)))
      && (n == 5 ==> GetParameterStringById(db, typeId, n, ScriptTypeEvent) == db.newEvent.parameterString5)
      && (n == 5 ==> GetParameterTooltipById(db, typeId, n, ScriptTypeEvent) == db.newEvent.parameterTooltip5)
      && (n == 6 ==> GetParameterStringById(db, typeId, n, ScriptTypeEvent) == db.newEvent.parameterString6)
      && (n == 6 ==> GetParameterTooltipById(db, typeId, n, ScriptTypeEvent) == db.newEvent.parameterTooltip6)
  {
    var info := GetTypeByScriptTypeId(db, typeId, ScriptTypeEvent);
    var k :| IsFirstMatch(db.eventTypes, "event_type", typeId, k)
             && info.value == BuildEventTypeInformation(db.eventTypes[k], db.newEvent).base;
    FirstMatchUnique(db.eventTypes, "event_type", typeId, i, k);
  }

  /**
   * For an action type with a row, the label and tooltip of every parameter
   * n (1 to 6) are the first matching row's columns, NULL read as the empty
   * string.
   */
  lemma ActionParameters(db: Database, typeId: int, i: int, n: int)
    requires db.Valid()
    requires IsFirstMatch(db.actionTypes, "action_type", typeId, i)
    requires 1 <= n <= 6
    ensures var row := db.actionTypes[i];
      && HydratesText(row, ParameterStringColumn(n), GetParameterStringById(db, typeId, n, ScriptTypeAction))
      && HydratesText(row, ParameterTooltipColumn(n), GetParameterTooltipById(db, typeId, n, ScriptTypeAction))
  {
    var info := GetTypeByScriptTypeId(db, typeId, ScriptTypeAction);
    var k :| IsFirstMatch(db.actionTypes, "action_type", typeId, k)
             && info.value == BuildActionTypeInformation(db.actionTypes[k]).base;
    FirstMatchUnique(db.actionTypes, "action_type", typeId, i, k);
  }

  /**
   * For a target type with a row, parameters 1 to 3 come from the first
   * matching row's columns and parameters 4 to 6 give the new record's values.
   */
  lemma TargetParameters(db: Database, typeId: int, i: int, n: int)
    requires db.Valid()
    requires IsFirstMatch(db.targetTypes, "target_type", typeId, i)
    requires 1 <= n <= 6
    ensures var row := db.targetTypes[i];
      && (n <= 3 ==> HydratesText(row, ParameterStringColumn(n), GetParameterStringById(db, typeId, n, ScriptTypeTarget)))
      && (n <= 3 ==> HydratesText(row, ParameterTooltipColumn(n), GetParameterTooltipById(db, typeId, n, ScriptTypeTarget)))
      && (n == 4 ==> GetParameterStringById(db, typeId, n, ScriptTypeTarget) == db.newTarget.parameterString4)
      && (n == 4 ==> GetParameterTooltipById(db, typeId, n, ScriptTypeTarget) == db.newTarget.parameterTooltip4)
      && (n == 5 ==> GetParameterStringById(db, typeId, n, ScriptTypeTarget) == db.newTarget.parameterString5)
      && (n == 5 ==> GetParameterTooltipById(db, typeId, n, ScriptTypeTarget) == db.newTarget.parameterTooltip5)
      && (n == 6 ==> GetParameterStringById(db, typeId, n, ScriptTypeTarget) == db.newTarget.parameterString6)
      && (n == 6 ==> GetParameterTooltipById(db, typeId, n, ScriptTypeTarget) == db.newTarget.parameterTooltip6)
  {
    var info := GetTypeByScriptTypeId(db, typeId, ScriptTypeTarget);
    var k :| IsFirstMatch(db.targetTypes, "target_type", typeId, k)
             && info.value == BuildTargetTypeInformation(db.targetTypes[k], db.newTarget).base;
    FirstMatchUnique(db.targetTypes, "target_type", typeId, i, k);
  }

  /**
   * When the selected table has no row for the type, or the script type
   * selects no table, parameter n (1 to 6) is labelled `Param <n>` and has
   * an empty tooltip.
   */
  lemma MissingTypeParameters(db: Database, typeId: int, n: int, scriptTypeId: ScriptTypeId)
    requires db.Valid()
    requires 1 <= n <= 6
    requires match scriptTypeId
      case ScriptTypeEvent => forall i :: 0 <= i < |db.eventTypes| ==> !Matches(db.eventTypes[i], "event_type", typeId)
      case ScriptTypeAction => forall i :: 0 <= i < |db.actionTypes| ==> !Matches(db.actionTypes[i], "action_type", typeId)
      case ScriptTypeTarget => forall i :: 0 <= i < |db.targetTypes| ==> !Matches(db.targetTypes[i], "target_type", typeId)
      case ScriptTypeOther(_) => true
    ensures GetParameterStringById(db, typeId, n, scriptTypeId) == "Param " + [Digit(n)]
    ensures GetParameterTooltipById(db, typeId, n, scriptTypeId) == ""
  {
  }
}
