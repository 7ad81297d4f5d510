/**
 * Table.cs: statement generation for a table whose rows are records of one type.
 *
 * Reflection over the record type is replaced by a sequence of field
 * descriptors, in the order `GetFields` returns them, carrying the attributes the generator
 * reads; a record is the sequence of its field values in the same order.
 */
module Table {
  import opened Wrappers
  import opened Text
  import opened Parser
  import opened Tasks
  import Pool

  /** One public field of the record type with the attributes of Atributes.cs. */
  datatype FieldInfo = FieldInfo(
    name: string,
    fieldType: ClrType,
    ignore: bool,                 // [ColumnIgnore]
    primaryKey: bool,             // [PrimaryKey]
    notNull: bool,                // [NotNull]
    autoIncrement: bool,          // [AutoIncrement]
    maxLength: Option<int>,       // [MaxLength(n)]
    columnName: Option<string>)   // [ColumnName("...")]

  /** Column: the field, its position among the record's fields, the column name and the auto-increment flag. */
  datatype Column = Column(field: FieldInfo, ordinal: nat, name: string, autoIncrement: bool)

  /** An instance of the record type: its field values in the order of the field descriptors. */
  type Record = seq<Value>

  datatype TableError = NoPrimaryKey(table: string) | IndexOutOfRange

  /** The column name: the [ColumnName] value if present, else the field name. */
  function ColumnNameOf(f: FieldInfo): string
  {
    if f.columnName.Some? then f.columnName.value else f.name
  }

  /**
   * TypeString: a CustomMYSQLTypes entry for the field's type wins; otherwise the
   * built-in table. `None` is the null TypeString of a type the table does not know.
   */
  function MySqlTypeOf(f: FieldInfo, customTypes: map<ClrType, string>): Option<string>
  {
    if f.fieldType in customTypes then Some(customTypes[f.fieldType])
    else match f.fieldType
      case StringType =>
        if f.maxLength.Some? then Some("VARCHAR(" + IntToDecimal(f.maxLength.value) + ")") else Some("TEXT")
      case IntType => Some("INT")
      case UIntType => Some("INT UNSIGNED")
      case LongType => Some("BIGINT")
      case ULongType => Some("BIGINT UNSIGNED")
      case BoolType => Some("BOOLEAN")
      case _ => None
  }

  /** The extras, always in the order PRIMARY KEY, NOT NULL, AUTO_INCREMENT. */
  function Extras(f: FieldInfo): string
  {
    (if f.primaryKey then " PRIMARY KEY" else "")
    + (if f.notNull then " NOT NULL" else "")
    + (if f.autoIncrement then " AUTO_INCREMENT" else "")
  }

  /** A column's definition in the DDL: name, a space, the type (empty when null) and the extras. */
  function Fragment(c: Column, customTypes: map<ClrType, string>): string
  {
    c.name + " " + MySqlTypeOf(c.field, customTypes).GetOr("") + Extras(c.field)
  }

  /** The definitions of the columns, in column order. */
  function Fragments(columns: seq<Column>, customTypes: map<ClrType, string>): seq<string>
  {
    seq(|columns|, k requires 0 <= k < |columns| => Fragment(columns[k], customTypes))
  }

  lemma FragmentsSnoc(columns: seq<Column>, column: Column, customTypes: map<ClrType, string>)
    ensures Fragments(columns + [column], customTypes) == Fragments(columns, customTypes) + [Fragment(column, customTypes)]
  {
  }

  function CreatePrefix(tableName: string): string
  {
    "CREATE TABLE IF NOT EXISTS `" + tableName + "` ("
  }

  /** The DDL: the prefix, the column definitions separated by commas, and a closing parenthesis. */
  function CreateStatement(tableName: string, columns: seq<Column>, customTypes: map<ClrType, string>): string
  {
    CreatePrefix(tableName) + Join(Fragments(columns, customTypes), ',') + ")"
  }

  /** The columns of the fields that are not ignored, in the order of the fields. */
  function ColumnsFrom(fields: seq<FieldInfo>): (r: seq<Column>)
    ensures |r| <= |fields|
  {
    if |fields| == 0 then []
    else
      var n := |fields| - 1;
      var f := fields[n];
      ColumnsFrom(fields[..n]) + (if f.ignore then [] else [Column(f, n, ColumnNameOf(f), f.autoIncrement)])
  }

  /**
   * Each column stands for a field that is not ignored, at its own ordinal,
   * under its column name and with the field's auto-increment flag.
   */
  lemma {:induction false} ColumnsFromSound(fields: seq<FieldInfo>)
    ensures forall k :: 0 <= k < |ColumnsFrom(fields)| ==>
              var c := ColumnsFrom(fields)[k];
              && c.ordinal < |fields|
              && c.field == fields[c.ordinal]
              && !c.field.ignore
              && c.name == ColumnNameOf(c.field)
              && c.autoIncrement == c.field.autoIncrement
  {
    if |fields| > 0 {
      var n := |fields| - 1;
      ColumnsFromSound(fields[..n]);
      var earlier := ColumnsFrom(fields[..n]);
      forall k | 0 <= k < |ColumnsFrom(fields)|
        ensures ColumnsFrom(fields)[k].ordinal < |fields|
        ensures ColumnsFrom(fields)[k].field == fields[ColumnsFrom(fields)[k].ordinal]
      {
        if k < |earlier| {
          assert ColumnsFrom(fields)[k] == earlier[k];
          assert fields[..n][earlier[k].ordinal] == fields[earlier[k].ordinal];
        }
      }
    }
  }

  /** Columns keep the order of their fields: ordinals strictly increase. */
  lemma {:induction false} ColumnsFromOrdered(fields: seq<FieldInfo>)
    ensures forall k, l :: 0 <= k < l < |ColumnsFrom(fields)| ==>
              ColumnsFrom(fields)[k].ordinal < ColumnsFrom(fields)[l].ordinal
  {
    if |fields| > 0 {
      var n := |fields| - 1;
      ColumnsFromOrdered(fields[..n]);
      ColumnsFromSound(fields[..n]);
      var earlier := ColumnsFrom(fields[..n]);
      forall k | 0 <= k < |earlier|
        ensures ColumnsFrom(fields)[k] == earlier[k] && earlier[k].ordinal < n
      {
      }
    }
  }

  /** Every field that is not ignored has a column. */
  lemma {:induction false} ColumnsFromComplete(fields: seq<FieldInfo>, i: nat)
    requires i < |fields| && !fields[i].ignore
    ensures exists k :: 0 <= k < |ColumnsFrom(fields)| && ColumnsFrom(fields)[k].ordinal == i
  {
    var n := |fields| - 1;
    if i < n {
      ColumnsFromComplete(fields[..n], i);
      var k :| 0 <= k < |ColumnsFrom(fields[..n])| && ColumnsFrom(fields[..n])[k].ordinal == i;
      assert ColumnsFrom(fields)[k] == ColumnsFrom(fields[..n])[k];
    } else {
      var r := ColumnsFrom(fields);
      assert r[|r| - 1].ordinal == i;
    }
  }

  /** The number of fields before position `i` that carry [ColumnIgnore]. */
  function IgnoredBefore(fields: seq<FieldInfo>, i: nat): (r: nat)
    requires i <= |fields|
    ensures r <= i
  {
    if i == 0 then 0 else IgnoredBefore(fields, i - 1) + (if fields[i - 1].ignore then 1 else 0)
  }

  /** A field that is not ignored sits in Columns at its own position less the ignored fields before it. */
  lemma {:induction false} ColumnPosition(fields: seq<FieldInfo>, i: nat)
    requires i < |fields| && !fields[i].ignore
    ensures i - IgnoredBefore(fields, i) < |ColumnsFrom(fields)|
    ensures ColumnsFrom(fields)[i - IgnoredBefore(fields, i)].ordinal == i
  {
    var n := |fields| - 1;
    if i < n {
      assert fields[..n][i] == fields[i];
      IgnoredBeforePrefix(fields, n, i);
      ColumnPosition(fields[..n], i);
      ColumnsFromExtends(fields, i - IgnoredBefore(fields, i));
    } else {
      assert fields[..i] == fields[..n];
      ColumnsFromLength(fields[..i]);
      IgnoredBeforePrefix(fields, i, i);
    }
  }

  /** A column found in the columns of all but the last field is found at the same place in the columns of all fields. */
  lemma ColumnsFromExtends(fields: seq<FieldInfo>, k: nat)
    requires |fields| > 0 && k < |ColumnsFrom(fields[..|fields| - 1])|
    ensures k < |ColumnsFrom(fields)| && ColumnsFrom(fields)[k] == ColumnsFrom(fields[..|fields| - 1])[k]
  {
  }

  /** IgnoredBefore only looks at the fields before the position. */
  lemma {:induction false} IgnoredBeforePrefix(fields: seq<FieldInfo>, m: nat, i: nat)
    requires i <= m <= |fields|
    ensures IgnoredBefore(fields[..m], i) == IgnoredBefore(fields, i)
  {
    if i > 0 {
      IgnoredBeforePrefix(fields, m, i - 1);
    }
  }

  /** Columns has one entry per field that is not ignored. */
  lemma {:induction false} ColumnsFromLength(fields: seq<FieldInfo>)
    ensures |ColumnsFrom(fields)| == |fields| - IgnoredBefore(fields, |fields|)
  {
    if |fields| > 0 {
      var n := |fields| - 1;
      ColumnsFromLength(fields[..n]);
      IgnoredBeforePrefix(fields, n, n);
    }
  }

  /**
   * PrimaryKeyIndex: the position among ALL fields (ignored ones included) of
   * the last field that is not ignored and carries [PrimaryKey], or -1.
   */
  function PrimaryKeyIndexOf(fields: seq<FieldInfo>): (r: int)
    ensures -1 <= r < |fields|
  {
    if |fields| == 0 then -1
    else
      var n := |fields| - 1;
      if !fields[n].ignore && fields[n].primaryKey then n else PrimaryKeyIndexOf(fields[..n])
  }

  /** The primary-key index is -1 exactly when no kept field is a key, and otherwise names the last kept key field. */
  lemma {:induction false} PrimaryKeyIndexSpec(fields: seq<FieldInfo>)
    ensures PrimaryKeyIndexOf(fields) == -1 <==>
              forall i :: 0 <= i < |fields| ==> fields[i].ignore || !fields[i].primaryKey
    ensures PrimaryKeyIndexOf(fields) >= 0 ==>
              var p := PrimaryKeyIndexOf(fields);
              && !fields[p].ignore && fields[p].primaryKey
              && forall i :: p < i < |fields| ==> fields[i].ignore || !fields[i].primaryKey
  {
    if |fields| > 0 {
      var n := |fields| - 1;
      PrimaryKeyIndexSpec(fields[..n]);
      if fields[n].ignore || !fields[n].primaryKey {
        assert forall i :: 0 <= i < n ==> fields[..n][i] == fields[i];
      }
    }
  }

  /**
   * When no ignored field precedes the key field, Columns[PrimaryKeyIndex] is the
   * key's column; GetByID then filters on the key.
   */
  lemma PrimaryKeyColumn(fields: seq<FieldInfo>)
    requires PrimaryKeyIndexOf(fields) >= 0
    requires IgnoredBefore(fields, PrimaryKeyIndexOf(fields)) == 0
    ensures PrimaryKeyIndexOf(fields) < |ColumnsFrom(fields)|
    ensures ColumnsFrom(fields)[PrimaryKeyIndexOf(fields)].ordinal == PrimaryKeyIndexOf(fields)
    ensures ColumnsFrom(fields)[PrimaryKeyIndexOf(fields)].field.primaryKey
  {
    PrimaryKeyIndexSpec(fields);
    ColumnPosition(fields, PrimaryKeyIndexOf(fields));
    ColumnsFromSound(fields);
  }

  /**
   * With an ignored field ahead of the key, Columns[PrimaryKeyIndex] is not the
   * key's column: either the index runs past Columns, or it names the column of
   * a later field.
   */
  lemma PrimaryKeyIndexPastIgnored(fields: seq<FieldInfo>)
    requires PrimaryKeyIndexOf(fields) >= 0
    requires IgnoredBefore(fields, PrimaryKeyIndexOf(fields)) > 0
    ensures PrimaryKeyIndexOf(fields) >= |ColumnsFrom(fields)|
         || ColumnsFrom(fields)[PrimaryKeyIndexOf(fields)].ordinal > PrimaryKeyIndexOf(fields)
  {
    var p := PrimaryKeyIndexOf(fields);
    PrimaryKeyIndexSpec(fields);
    ColumnPosition(fields, p);
    ColumnsFromOrdered(fields);
  }

  /**
   * An instance of PrimaryKeyIndexPastIgnored: for (ignored Cache, key ID, Name) the index is 1 and Columns[1] is Name.
   */
  lemma PrimaryKeyIndexCountsIgnoredFields()
    ensures var fields := [
              FieldInfo("Cache", IntType, true, false, false, false, None, None),
              FieldInfo("ID", IntType, false, true, false, false, None, None),
              FieldInfo("Name", StringType, false, false, false, false, None, None)];
            && PrimaryKeyIndexOf(fields) == 1
            && |ColumnsFrom(fields)| == 2
            && ColumnsFrom(fields)[1].name == "Name"
            && !ColumnsFrom(fields)[1].field.primaryKey
  {
    var fields := [
      FieldInfo("Cache", IntType, true, false, false, false, None, None),
      FieldInfo("ID", IntType, false, true, false, false, None, None),
      FieldInfo("Name", StringType, false, false, false, false, None, None)];
    assert fields[..2][..1] == fields[..1];
    assert fields[..1][..0] == [];
  }

  /** The lookup of TypeString for one field: custom types first, then the built-in table. */
  method TypeStringOf(field: FieldInfo, customTypes: map<ClrType, string>) returns (typeString: Option<string>)
    ensures typeString == MySqlTypeOf(field, customTypes)
  {
    typeString := None;
    if field.fieldType in customTypes {
      typeString := Some(customTypes[field.fieldType]);
    } else if field.fieldType == StringType {
      if field.maxLength.Some? {
        typeString := Some("VARCHAR(" + IntToDecimal(field.maxLength.value) + ")");
      } else {
        typeString := Some("TEXT");
      }
    } else if field.fieldType == IntType {
      typeString := Some("INT");
    } else if field.fieldType == UIntType {
      typeString := Some("INT UNSIGNED");
    } else if field.fieldType == LongType {
      typeString := Some("BIGINT");
    } else if field.fieldType == ULongType {
      typeString := Some("BIGINT UNSIGNED");
    } else if field.fieldType == BoolType {
      typeString := Some("BOOLEAN");
    }
  }

  /** Extending the scanned prefix by one field extends Columns and PrimaryKeyIndex as the loop body does. */
  lemma PrefixStep(fields: seq<FieldInfo>, i: nat)
    requires i < |fields|
    ensures ColumnsFrom(fields[..i + 1]) == ColumnsFrom(fields[..i]) +
              (if fields[i].ignore then [] else [Column(fields[i], i, ColumnNameOf(fields[i]), fields[i].autoIncrement)])
    ensures PrimaryKeyIndexOf(fields[..i + 1]) ==
              if !fields[i].ignore && fields[i].primaryKey then i else PrimaryKeyIndexOf(fields[..i])
  {
    assert fields[..i + 1][..i] == fields[..i];
  }

  /**
   * The body of the constructor's loop for a field that is not ignored: its
   * column and its definition in the DDL.
   */
  method DefineColumn(field: FieldInfo, i: nat, customTypes: map<ClrType, string>) returns (column: Column, definition: string)
    ensures column == Column(field, i, ColumnNameOf(field), field.autoIncrement)
    ensures definition == Fragment(column, customTypes)
  {
    var typeString := TypeStringOf(field, customTypes);
    var extraBuilder := "";
    if field.primaryKey {
      extraBuilder := extraBuilder + " PRIMARY KEY";
    }
    if field.notNull {
      extraBuilder := extraBuilder + " NOT NULL";
    }
    var isAutoIncrement := false;
    if field.autoIncrement {
      extraBuilder := extraBuilder + " AUTO_INCREMENT";
      isAutoIncrement := true;
    }
    var nameString := field.name;
    if field.columnName.Some? {
      nameString := field.columnName.value;
    }
    assert extraBuilder == Extras(field);
    assert nameString == ColumnNameOf(field);
    column := Column(field, i, nameString, isAutoIncrement);
    definition := nameString + " " + typeString.GetOr("") + extraBuilder;
  }

  /**
   * The constructor's loop over the fields: Columns, PrimaryKeyIndex and the
   * builder holding the prefix and every column definition followed by a comma.
   */
  method ScanFields(prefix: string, fields: seq<FieldInfo>, customTypes: map<ClrType, string>)
    returns (builder: string, columns: seq<Column>, primaryKeyIndex: int)
    ensures columns == ColumnsFrom(fields)
    ensures primaryKeyIndex == PrimaryKeyIndexOf(fields)
    ensures builder == prefix + Terminated(Fragments(columns, customTypes), ',')
  {
    builder := prefix;
    columns, primaryKeyIndex := [], -1;
    var i := 0;
    while i < |fields|
      invariant 0 <= i <= |fields|
      invariant columns == ColumnsFrom(fields[..i])
      invariant primaryKeyIndex == PrimaryKeyIndexOf(fields[..i])
      invariant builder == prefix + Terminated(Fragments(columns, customTypes), ',')
    {
      var field := fields[i];
      PrefixStep(fields, i);
      if !field.ignore {
        if field.primaryKey {
          primaryKeyIndex := i;
        }
        var column, definition := DefineColumn(field, i, customTypes);
        DefinitionStep(prefix, columns, column, customTypes);
        builder := builder + (definition + [',']);
        columns := columns + [column];
      }
      i := i + 1;
    }
    assert fields[..|fields|] == fields;
  }

  /** Appending a column's definition and a comma to the builder keeps it in step with the columns. */
  lemma DefinitionStep(prefix: string, columns: seq<Column>, column: Column, customTypes: map<ClrType, string>)
    ensures prefix + Terminated(Fragments(columns + [column], customTypes), ',')
         == (prefix + Terminated(Fragments(columns, customTypes), ',')) + (Fragment(column, customTypes) + [','])
  {
    FragmentsSnoc(columns, column, customTypes);
    AppendToBuilder(prefix, Fragments(columns, customTypes), Fragment(column, customTypes), ',');
  }

  /**
   * The constructor's schema work: the DDL (absent when no column remains),
   * the Columns and the PrimaryKeyIndex. The builder's last character (the
   * trailing comma) is replaced by the closing parenthesis.
   */
  method BuildSchema(tableName: string, fields: seq<FieldInfo>, customTypes: map<ClrType, string>)
    returns (command: Option<string>, columns: seq<Column>, primaryKeyIndex: int)
    ensures columns == ColumnsFrom(fields)
    ensures primaryKeyIndex == PrimaryKeyIndexOf(fields)
    ensures command.None? <==> |columns| == 0
    ensures command.Some? ==> command.value == CreateStatement(tableName, columns, customTypes)
  {
    var prefix := CreatePrefix(tableName);
    var initBuilder;
    initBuilder, columns, primaryKeyIndex := ScanFields(prefix, fields, customTypes);
    if |columns| > 0 {
      DropLastOfTerminated(prefix, Fragments(columns, customTypes), ',');
    }
    initBuilder := DropLast(initBuilder) + ")";
    if |columns| == 0 {
      command := None;
    } else {
      command := Some(initBuilder);
    }
  }

  /** Every column reads a field the record has. */
  predicate Fits(columns: seq<Column>, value: Record)
  {
    forall k :: 0 <= k < |columns| ==> columns[k].ordinal < |value|
  }

  predicate AllFit(columns: seq<Column>, values: seq<Record>)
  {
    forall i :: 0 <= i < |values| ==> Fits(columns, values[i])
  }

  /** One tuple entry per column: `null` for an auto-increment column, else the field's SQL literal. */
  function Literals(columns: seq<Column>, value: Record, p: MySqlParser): seq<string>
    requires Fits(columns, value)
    reads p
  {
    seq(|columns|, k requires 0 <= k < |columns| reads p => Literal(columns[k], value, p))
  }

  /** A column's entry in a row's tuple: `null` for an auto-increment column, else the field's SQL literal. */
  function Literal(column: Column, value: Record, p: MySqlParser): string
    requires column.ordinal < |value|
    reads p
  {
    if column.autoIncrement then "null" else p.GetSqlString(value[column.ordinal], column.field.fieldType)
  }

  /**
   * An auto-increment column is passed as `null` whatever the record holds, so
   * two records that agree on every other column give the same literals.
   */
  lemma AutoIncrementValuesIgnored(columns: seq<Column>, a: Record, b: Record, p: MySqlParser)
    requires Fits(columns, a) && Fits(columns, b)
    requires forall k :: 0 <= k < |columns| && !columns[k].autoIncrement ==> a[columns[k].ordinal] == b[columns[k].ordinal]
    ensures Literals(columns, a, p) == Literals(columns, b, p)
    ensures forall k :: 0 <= k < |columns| && columns[k].autoIncrement ==> Literals(columns, a, p)[k] == "null"
  {
    assert forall k :: 0 <= k < |columns| ==> Literals(columns, a, p)[k] == Literals(columns, b, p)[k];
  }

  /**
   * A row's tuple without its trailing comma: the literals in parentheses,
   * separated by commas. Without columns the opening parenthesis is the
   * character the builder drops, leaving `)`.
   */
  function TupleBody(columns: seq<Column>, value: Record, p: MySqlParser): string
    requires Fits(columns, value)
    reads p
  {
    if |columns| == 0 then ")" else "(" + Join(Literals(columns, value, p), ',') + ")"
  }

  /** The bodies of the tuples of all rows, in order. */
  function TupleBodies(columns: seq<Column>, values: seq<Record>, p: MySqlParser): seq<string>
    requires AllFit(columns, values)
    reads p
  {
    seq(|values|, i requires 0 <= i < |values| reads p => TupleBody(columns, values[i], p))
  }

  function InsertPrefix(tableName: string, replace: bool): string
  {
    (if replace then "REPLACE" else "INSERT") + " INTO `" + tableName + "` VALUES "
  }

  /**
   * The INSERT or REPLACE statement for the rows: empty for no rows, else the
   * verb, the table, the tuples separated by commas and a closing semicolon.
   */
  function InsertCommand(tableName: string, columns: seq<Column>, values: seq<Record>, replace: bool, p: MySqlParser): string
    requires AllFit(columns, values)
    reads p
  {
    if |values| == 0 then ""
    else InsertPrefix(tableName, replace) + Join(TupleBodies(columns, values, p), ',') + ";"
  }

  /** The query text of All: ` as alias` and ` WHERE condition` appear only when given. */
  function SelectCommand(tableName: string, whereCommand: Option<string>, alias: Option<string>): string
  {
    "SELECT * FROM `" + tableName + "`"
    + (if alias.Some? then " as " + alias.value else "")
    + (if whereCommand.Some? then " WHERE " + whereCommand.value else "")
  }

  /** The body of GetInsertString's loop for one column. */
  method LiteralOf(column: Column, value: Record, p: MySqlParser) returns (literal: string)
    requires column.ordinal < |value|
    ensures literal == Literal(column, value, p)
  {
    if column.autoIncrement {
      literal := "null";
    } else {
      literal := p.GetSqlString(value[column.ordinal], column.field.fieldType);
    }
  }

  class DatabaseTable {
    const name: string
    const columns: seq<Column>
    const primaryKeyIndex: int
    const parent: Pool.Database
    var created: bool

    /**
     * The DDL is queued on the parent database when at least one column remains;
     * a table without columns issues nothing. `created` is false either way (it
     * becomes true only after the statement has run).
     */
    constructor (tableName: string, parentDatabase: Pool.Database, fields: seq<FieldInfo>)
      requires parentDatabase.Valid()
      modifies parentDatabase
      ensures parentDatabase.Valid()
      ensures name == tableName && parent == parentDatabase
      ensures columns == ColumnsFrom(fields) && primaryKeyIndex == PrimaryKeyIndexOf(fields)
      ensures !created
      ensures |columns| == 0 ==> unchanged(parentDatabase)
      ensures |columns| > 0 ==>
                parentDatabase.queue == old(parentDatabase.queue) + [MySqlTask(old(parentDatabase.nextId),
                  CreateStatement(tableName, columns, parentDatabase.parser.customMySqlTypes), None)]
      ensures parentDatabase.holding == old(parentDatabase.holding)
      ensures parentDatabase.running == old(parentDatabase.running)
      ensures parentDatabase.finished == old(parentDatabase.finished)
      ensures parentDatabase.dispatched == old(parentDatabase.dispatched)
    {
      var command, cols, pk := BuildSchema(tableName, fields, parentDatabase.parser.customMySqlTypes);
      name := tableName;
      parent := parentDatabase;
      columns := cols;
      primaryKeyIndex := pk;
      created := false;
      new;
      if command.Some? {
        var _ := parentDatabase.Execute(command, None);
      }
    }

    /** GetInsertString: one row as a tuple followed by a comma. */
    method GetInsertString(value: Record) returns (r: string)
      requires Fits(columns, value)
      ensures r == TupleBody(columns, value, parent.parser) + ","
    {
      var p := parent.parser;
      ghost var literals := Literals(columns, value, p);
      var builder := "(";
      var i := 0;
      while i < |columns|
        invariant 0 <= i <= |columns|
        invariant builder == "(" + Terminated(literals[..i], ',')
      {
        var literal := LiteralOf(columns[i], value, p);
        BuilderStep("(", literals, i, ',');
        builder := builder + (literal + [',']);
        i := i + 1;
      }
      assert literals[..|columns|] == literals;
      if |columns| > 0 {
        DropLastOfTerminated("(", literals, ',');
      }
      builder := DropLast(builder) + "),";
      r := builder;
    }

    /** GetSQLStringForArray: the INSERT (or REPLACE) statement for the rows. */
    method GetSqlStringForArray(values: seq<Record>, replace: bool) returns (r: string)
      requires AllFit(columns, values)
      ensures r == InsertCommand(name, columns, values, replace, parent.parser)
    {
      if |values| == 0 {
        return "";
      }
      ghost var bodies := TupleBodies(columns, values, parent.parser);
      var prefix := InsertPrefix(name, replace);
      var commandBuilder := prefix;
      var i := 0;
      while i < |values|
        invariant 0 <= i <= |values|
        invariant commandBuilder == prefix + Terminated(bodies[..i], ',')
      {
        var tuple := GetInsertString(values[i]);
        BuilderStep(prefix, bodies, i, ',');
        commandBuilder := commandBuilder + tuple;
        i := i + 1;
      }
      assert bodies[..|values|] == bodies;
      DropLastOfTerminated(prefix, bodies, ',');
      commandBuilder := DropLast(commandBuilder) + ";";
      r := commandBuilder;
    }

    /** Insert: queue the INSERT statement; an empty array queues the empty command. */
    method Insert(values: seq<Record>)
      requires parent.Valid()
      requires AllFit(columns, values)
      modifies parent
      ensures parent.Valid()
      ensures parent.queue == old(parent.queue) + [MySqlTask(old(parent.nextId),
                InsertCommand(name, columns, values, false, parent.parser), None)]
      ensures parent.holding == old(parent.holding) && parent.running == old(parent.running)
      ensures parent.finished == old(parent.finished)
      ensures parent.dispatched == old(parent.dispatched)
    {
      var s := GetSqlStringForArray(values, false);
      var _ := parent.Execute(Some(s), None);
    }

    /** Replace: queue the REPLACE statement; an empty array queues the empty command. */
    method Replace(values: seq<Record>)
      requires parent.Valid()
      requires AllFit(columns, values)
      modifies parent
      ensures parent.Valid()
      ensures parent.queue == old(parent.queue) + [MySqlTask(old(parent.nextId),
                InsertCommand(name, columns, values, true, parent.parser), None)]
      ensures parent.holding == old(parent.holding) && parent.running == old(parent.running)
      ensures parent.finished == old(parent.finished)
      ensures parent.dispatched == old(parent.dispatched)
    {
      var s := GetSqlStringForArray(values, true);
      var _ := parent.Execute(Some(s), None);
    }

    /** All: queue the SELECT with the table's row reader as callback. */
    method All(whereCommand: Option<string>, alias: Option<string>)
      requires parent.Valid()
      modifies parent
      ensures parent.Valid()
      ensures parent.queue == old(parent.queue) + [MySqlTask(old(parent.nextId),
                SelectCommand(name, whereCommand, alias), Some(TableRowReader(name)))]
      ensures parent.holding == old(parent.holding) && parent.running == old(parent.running)
      ensures parent.finished == old(parent.finished)
      ensures parent.dispatched == old(parent.dispatched)
    {
      var commandBuilder := "SELECT * FROM `" + name + "`";
      if alias.Some? {
        commandBuilder := commandBuilder + (" as " + alias.value);
      }
      if whereCommand.Some? {
        commandBuilder := commandBuilder + (" WHERE " + whereCommand.value);
      }
      assert commandBuilder == SelectCommand(name, whereCommand, alias);
      var _ := parent.Execute(Some(commandBuilder), Some(TableRowReader(name)));
    }

    /**
     * GetByID: without a primary key nothing is queued and an error is raised;
     * otherwise All runs with the condition `column = literal`, the column being
     * Columns[PrimaryKeyIndex]. An index past the end of Columns raises too.
     */
    method GetById(id: Value, idType: ClrType) returns (result: Result<(), TableError>)
      requires parent.Valid()
      modifies parent
      ensures parent.Valid()
      ensures primaryKeyIndex == -1 ==> result == Failure(NoPrimaryKey(name)) && unchanged(parent)
      ensures primaryKeyIndex != -1 && !(0 <= primaryKeyIndex < |columns|) ==>
                result == Failure(IndexOutOfRange) && unchanged(parent)
      ensures 0 <= primaryKeyIndex < |columns| ==>
                && result == Success(())
                && parent.queue == old(parent.queue) + [MySqlTask(old(parent.nextId),
                     SelectCommand(name, Some(columns[primaryKeyIndex].name + " = " + parent.parser.GetSqlString(id, idType)), None),
                     Some(TableRowReader(name)))]
      ensures parent.holding == old(parent.holding) && parent.running == old(parent.running)
      ensures parent.finished == old(parent.finished)
      ensures parent.dispatched == old(parent.dispatched)
    {
      if primaryKeyIndex == -1 {
        return Failure(NoPrimaryKey(name));
      }
      if !(0 <= primaryKeyIndex < |columns|) {
        return Failure(IndexOutOfRange);
      }
      var condition := columns[primaryKeyIndex].name + " = " + parent.parser.GetSqlString(id, idType);
      All(Some(condition), None);
      assert condition == columns[primaryKeyIndex].name + " = " + parent.parser.GetSqlString(id, idType);
      result := Success(());
    }
  }
}
