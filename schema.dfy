/** The schema builders: a `Column` and a `Table` are mutable objects that a migration's
    callback configures through fluent calls; the dialect translators read value snapshots
    of them (`ColumnDef`, `TableDef`). */
module Schema {
  import opened Wrappers
  import opened Strings

  /** A PHP scalar as it appears in column options and defaults (floats are not modelled). */
  datatype Value = Null | Bool(b: bool) | Int(i: int) | Str(s: string)

  /** PHP `$options[key] ?? fallback`: the fallback also replaces a stored null. */
  function OptionOr(options: map<string, Value>, key: string, fallback: Value): Value {
    if key in options && options[key] != Null then options[key] else fallback
  }

  /** A snapshot of a column's state. */
  datatype ColumnDef = ColumnDef(
    name: string,
    abstractType: string,
    options: map<string, Value>,
    nullable: bool,
    isPrimary: bool,
    defaultValue: Value,
    hasDefault: bool)

  datatype IndexDef = IndexDef(name: string, columns: seq<string>, unique: bool)

  /** One entry of an ALTER-mode table's operation log. `C` is the column representation:
      a live `Column` object in the builder, a `ColumnDef` in a snapshot. */
  datatype Operation<C> =
    | AddColumn(column: C)
    | DropColumn(name: string)
    | RenameColumn(oldName: string, newName: string)
    | AddIndex(index: IndexDef)
    | DropIndex(name: string)

  /** A snapshot of a table: its columns in first-insertion order. */
  datatype TableDef = TableDef(
    name: string,
    columns: seq<ColumnDef>,
    indexes: seq<IndexDef>,
    primaryKey: Option<string>,
    isAlter: bool,
    operations: seq<Operation<ColumnDef>>)

  /** True for names following the EC-CUBE table prefixes `dtb_` and `mtb_`. */
  predicate HasEccubePrefix(tableName: string) {
    StartsWith(tableName, "dtb_") || StartsWith(tableName, "mtb_")
  }

  /** Name of the serial column of a table: `dtb_x`/`mtb_x` give `x_id`, any other `n` gives `n_id`. */
  function DeriveSerialColumnName(tableName: string): (r: string)
    ensures HasEccubePrefix(tableName) ==> r == tableName[4..] + "_id"
    ensures !HasEccubePrefix(tableName) ==> r == tableName + "_id"
  {
    if StartsWith(tableName, "dtb_") then tableName[4..] + "_id"
    else if StartsWith(tableName, "mtb_") then tableName[4..] + "_id"
    else tableName + "_id"
  }

  /** `<prefix>_<table>_<col1>_<col2>...` */
  function GenerateIndexName(prefix: string, tableName: string, columns: seq<string>): string {
    prefix + "_" + tableName + "_" + Join("_", columns)
  }

  /** PHP `$name ?? generateIndexName(...)`. */
  function IndexNameOr(name: Option<string>, prefix: string, tableName: string, columns: seq<string>): string {
    if name.Some? then name.value else GenerateIndexName(prefix, tableName, columns)
  }

  class Column {
    const name: string
    const abstractType: string
    var options: map<string, Value>
    var nullable: bool
    var isPrimary: bool
    var defaultValue: Value
    var hasDefault: bool

    /** A fresh column is nullable, not primary and has no default. */
    constructor (name: string, abstractType: string, options: map<string, Value>)
      ensures Def() == ColumnDef(name, abstractType, options, true, false, Null, false)
    {
      this.name := name;
      this.abstractType := abstractType;
      this.options := options;
      nullable := true;
      isPrimary := false;
      defaultValue := Null;
      hasDefault := false;
    }

    function Def(): ColumnDef
      reads this
    {
      ColumnDef(name, abstractType, options, nullable, isPrimary, defaultValue, hasDefault)
    }

    /** The stored option, or `fallback` when the key is absent or holds null. */
    function GetOption(key: string, fallback: Value): (r: Value)
      reads this
      ensures key in options && options[key] != Null ==> r == options[key]
      ensures key !in options || options[key] == Null ==> r == fallback
      ensures r == Null ==> fallback == Null
    {
      OptionOr(options, key, fallback)
    }

    method Nullable() returns (self: Column)
      modifies this
      ensures self == this
      ensures Def() == old(Def()).(nullable := true)
    {
      nullable := true;
      self := this;
    }

    method NotNull() returns (self: Column)
      modifies this
      ensures self == this
      ensures Def() == old(Def()).(nullable := false)
    {
      nullable := false;
      self := this;
    }

    /** Marks the column primary, which also makes it NOT NULL. */
    method Primary() returns (self: Column)
      modifies this
      ensures self == this
      ensures Def() == old(Def()).(isPrimary := true, nullable := false)
    {
      isPrimary := true;
      nullable := false;
      self := this;
    }

    /** Sets a default; a null default still counts as a default (`DEFAULT NULL`). */
    method Default(value: Value) returns (self: Column)
      modifies this
      ensures self == this
      ensures Def() == old(Def()).(hasDefault := true, defaultValue := value)
    {
      hasDefault := true;
      defaultValue := value;
      self := this;
    }

    method Unsigned() returns (self: Column)
      modifies this
      ensures self == this
      ensures Def() == old(Def()).(options := old(options)["unsigned" := Bool(true)])
    {
      options := options["unsigned" := Bool(true)];
      self := this;
    }
  }

  /** The columns referenced by the `AddColumn` entries of an operation log. */
  function AddedColumns(ops: seq<Operation<Column>>): set<Column> {
    set i | 0 <= i < |ops| && ops[i].AddColumn? :: ops[i].column
  }

  function OperationDef(op: Operation<Column>): Operation<ColumnDef>
    reads if op.AddColumn? then {op.column} else {}
  {
    match op
    case AddColumn(c) => AddColumn(c.Def())
    case DropColumn(n) => DropColumn(n)
    case RenameColumn(o, n) => RenameColumn(o, n)
    case AddIndex(ix) => AddIndex(ix)
    case DropIndex(n) => DropIndex(n)
  }

  /** Snapshot of an operation log, reading each added column as it is now: a modifier
      applied after `addColumn` is seen by the ALTER statement, as with PHP's shared objects. */
  function OperationDefs(ops: seq<Operation<Column>>): (r: seq<Operation<ColumnDef>>)
    reads AddedColumns(ops)
    ensures |r| == |ops|
  {
    if ops == [] then []
    else
      assert AddedColumns(ops[..|ops| - 1]) <= AddedColumns(ops);
      OperationDefs(ops[..|ops| - 1]) + [OperationDef(ops[|ops| - 1])]
  }

  class Table {
    const name: string
    const isAlter: bool
    /** Columns by name; `columnOrder` keeps PHP's key order (first insertion of each name). */
    var columns: map<string, Column>
    var columnOrder: seq<string>
    var indexes: seq<IndexDef>
    var primaryKey: Option<string>
    var operations: seq<Operation<Column>>

    ghost predicate Valid()
      reads this
    {
      && (forall n :: n in columns <==> n in columnOrder)
      && (forall i, j :: 0 <= i < j < |columnOrder| ==> columnOrder[i] != columnOrder[j])
      && (forall n :: n in columns ==> columns[n].name == n)
    }

    constructor (name: string, isAlter: bool := false)
      ensures Valid()
      ensures this.name == name && this.isAlter == isAlter
      ensures columns == map[] && columnOrder == [] && indexes == []
      ensures primaryKey == None && operations == []
    {
      this.name := name;
      this.isAlter := isAlter;
      columns := map[];
      columnOrder := [];
      indexes := [];
      primaryKey := None;
      operations := [];
    }

    function Objects(): set<Column>
      reads this
    {
      columns.Values + AddedColumns(operations)
    }

    function ColumnDefs(order: seq<string>): (r: seq<ColumnDef>)
      reads this, columns.Values
      requires forall n :: n in order ==> n in columns
      ensures |r| == |order|
    {
      if order == [] then []
      else ColumnDefs(order[..|order| - 1]) + [columns[order[|order| - 1]].Def()]
    }

    /** The value the dialect translators see. */
    function Def(): TableDef
      reads this, Objects()
      requires Valid()
    {
      TableDef(name, ColumnDefs(columnOrder), indexes, primaryKey, isAlter, OperationDefs(operations))
    }

    /** What `addColumn` leaves behind: a fresh column stored under its name (replacing a
        previous one of that name, which keeps its place in the key order), and an
        `addColumn` operation exactly in ALTER mode; nothing else changes. */
    twostate predicate Added(new c: Column, columnName: string, abstractType: string, options: map<string, Value>)
      reads this, c
    {
      && Valid()
      && fresh(c)
      && c.name == columnName && c.abstractType == abstractType
      && c.Def() == ColumnDef(columnName, abstractType, options, true, false, Null, false)
      && columns == old(columns)[columnName := c]
      && columnOrder == (if columnName in old(columns) then old(columnOrder) else old(columnOrder) + [columnName])
      && indexes == old(indexes)
      && primaryKey == old(primaryKey)
      && operations == old(operations) + (if isAlter then [Operation.AddColumn(c)] else [])
    }

    method AddColumn(columnName: string, abstractType: string, options: map<string, Value> := map[])
      returns (c: Column)
      requires Valid()
      modifies this
      ensures Added(c, columnName, abstractType, options)
    {
      c := new Column(columnName, abstractType, options);
      if columnName !in columns {
        columnOrder := columnOrder + [columnName];
      }
      columns := columns[columnName := c];
      if isAlter {
        operations := operations + [Operation.AddColumn(c)];
      }
    }

    /** The serial primary-key column, named by the EC-CUBE convention; it becomes the
        table's primary key. */
    method Serial() returns (c: Column)
      requires Valid()
      modifies this
      ensures Valid() && fresh(c)
      ensures c.name == DeriveSerialColumnName(name) && c.abstractType == "serial"
      ensures c.Def() == ColumnDef(c.name, "serial", map[], false, true, Null, false)
      ensures columns == old(columns)[c.name := c]
      ensures columnOrder == (if c.name in old(columns) then old(columnOrder) else old(columnOrder) + [c.name])
      ensures indexes == old(indexes)
      ensures primaryKey == Some(c.name)
      ensures operations == old(operations) + (if isAlter then [Operation.AddColumn(c)] else [])
    {
      var columnName := DeriveSerialColumnName(name);
      c := AddColumn(columnName, "serial");
      c := c.Primary();
      primaryKey := Some(columnName);
    }

    method Integer(columnName: string) returns (c: Column)
      requires Valid()
      modifies this
      ensures Added(c, columnName, "integer", map[])
    {
      c := AddColumn(columnName, "integer");
    }

    method Smallint(columnName: string) returns (c: Column)
      requires Valid()
      modifies this
      ensures Added(c, columnName, "smallint", map[])
    {
      c := AddColumn(columnName, "smallint");
    }

    method Bigint(columnName: string) returns (c: Column)
      requires Valid()
      modifies this
      ensures Added(c, columnName, "bigint", map[])
    {
      c := AddColumn(columnName, "bigint");
    }

    method Text(columnName: string) returns (c: Column)
      requires Valid()
      modifies this
      ensures Added(c, columnName, "text", map[])
    {
      c := AddColumn(columnName, "text");
    }

    method String(columnName: string, length: int := 255) returns (c: Column)
      requires Valid()
      modifies this
      ensures Added(c, columnName, "string", map["length" := Int(length)])
    {
      c := AddColumn(columnName, "string", map["length" := Int(length)]);
    }

    method Char(columnName: string, length: int := 1) returns (c: Column)
      requires Valid()
      modifies this
      ensures Added(c, columnName, "char", map["length" := Int(length)])
    {
      c := AddColumn(columnName, "char", map["length" := Int(length)]);
    }

    method Decimal(columnName: string, precision: int := 10, scale: int := 2) returns (c: Column)
      requires Valid()
      modifies this
      ensures Added(c, columnName, "decimal", map["precision" := Int(precision), "scale" := Int(scale)])
    {
      c := AddColumn(columnName, "decimal", map["precision" := Int(precision), "scale" := Int(scale)]);
    }

    method Float(columnName: string) returns (c: Column)
      requires Valid()
      modifies this
      ensures Added(c, columnName, "float", map[])
    {
      c := AddColumn(columnName, "float");
    }

    method Date(columnName: string) returns (c: Column)
      requires Valid()
      modifies this
      ensures Added(c, columnName, "date", map[])
    {
      c := AddColumn(columnName, "date");
    }

    method Time(columnName: string) returns (c: Column)
      requires Valid()
      modifies this
      ensures Added(c, columnName, "time", map[])
    {
      c := AddColumn(columnName, "time");
    }

    method Timestamp(columnName: string) returns (c: Column)
      requires Valid()
      modifies this
      ensures Added(c, columnName, "timestamp", map[])
    {
      c := AddColumn(columnName, "timestamp");
    }

    method Boolean(columnName: string) returns (c: Column)
      requires Valid()
      modifies this
      ensures Added(c, columnName, "boolean", map[])
    {
      c := AddColumn(columnName, "boolean");
    }

    method Blob(columnName: string) returns (c: Column)
      requires Valid()
      modifies this
      ensures Added(c, columnName, "blob", map[])
    {
      c := AddColumn(columnName, "blob");
    }

    /** Appends one operation to the log and changes nothing else. */
    twostate predicate Logged(op: Operation<Column>)
      reads this
    {
      && Valid()
      && columns == old(columns) && columnOrder == old(columnOrder)
      && indexes == old(indexes) && primaryKey == old(primaryKey)
      && operations == old(operations) + [op]
    }

    method DropColumn(columnName: string) returns (self: Table)
      requires Valid()
      modifies this
      ensures self == this && Logged(Operation.DropColumn(columnName))
    {
      operations := operations + [Operation.DropColumn(columnName)];
      self := this;
    }

    method RenameColumn(oldName: string, newName: string) returns (self: Table)
      requires Valid()
      modifies this
      ensures self == this && Logged(Operation.RenameColumn(oldName, newName))
    {
      operations := operations + [Operation.RenameColumn(oldName, newName)];
      self := this;
    }

    method DropIndex(indexName: string) returns (self: Table)
      requires Valid()
      modifies this
      ensures self == this && Logged(Operation.DropIndex(indexName))
    {
      operations := operations + [Operation.DropIndex(indexName)];
      self := this;
    }

    /** Names the primary key even when no such column exists; an existing column of that
        name is marked primary (and NOT NULL). */
    method Primary(columnName: string) returns (self: Table)
      requires Valid()
      modifies this, if columnName in columns then {columns[columnName]} else {}
      ensures self == this && Valid()
      ensures primaryKey == Some(columnName)
      ensures columns == old(columns) && columnOrder == old(columnOrder)
      ensures indexes == old(indexes) && operations == old(operations)
      ensures columnName in columns ==>
        columns[columnName].Def() == old(columns[columnName].Def()).(isPrimary := true, nullable := false)
    {
      primaryKey := Some(columnName);
      if columnName in columns {
        var c := columns[columnName];
        c := c.Primary();
      }
      self := this;
    }

    /** Records an index (and, in ALTER mode, an `addIndex` operation with the same name,
        columns and flag); nothing else changes. */
    twostate predicate Indexed(ix: IndexDef)
      reads this
    {
      && Valid()
      && columns == old(columns) && columnOrder == old(columnOrder) && primaryKey == old(primaryKey)
      && indexes == old(indexes) + [ix]
      && operations == old(operations) + (if isAlter then [Operation.AddIndex(ix)] else [])
    }

    method Index(indexColumns: seq<string>, indexName: Option<string> := None) returns (self: Table)
      requires Valid()
      modifies this
      ensures self == this
      ensures Indexed(IndexDef(IndexNameOr(indexName, "idx", name, indexColumns), indexColumns, false))
    {
      var ix := IndexDef(IndexNameOr(indexName, "idx", name, indexColumns), indexColumns, false);
      indexes := indexes + [ix];
      if isAlter {
        operations := operations + [Operation.AddIndex(ix)];
      }
      self := this;
    }

    method Unique(indexColumns: seq<string>, indexName: Option<string> := None) returns (self: Table)
      requires Valid()
      modifies this
      ensures self == this
      ensures Indexed(IndexDef(IndexNameOr(indexName, "uniq", name, indexColumns), indexColumns, true))
    {
      var ix := IndexDef(IndexNameOr(indexName, "uniq", name, indexColumns), indexColumns, true);
      indexes := indexes + [ix];
      if isAlter {
        operations := operations + [Operation.AddIndex(ix)];
      }
      self := this;
    }

    /** An alias of `Index`. */
    method AddIndex(indexColumns: seq<string>, indexName: Option<string> := None) returns (self: Table)
      requires Valid()
      modifies this
      ensures self == this
      ensures Indexed(IndexDef(IndexNameOr(indexName, "idx", name, indexColumns), indexColumns, false))
    {
      self := Index(indexColumns, indexName);
    }
  }
}
