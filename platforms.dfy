/** The SQL dialect translators. The abstract platform's template methods become functions
    over `Platform`, the per-dialect hooks (type map, auto-increment syntax, inline primary
    key, table options, default-expression translation, drop-index shape, sequences) are
    `match`es on it. The accumulating loops of `createTable`, `createIndexes` and
    `alterTable` are methods proved equal to the functions that specify them. */
module Platforms {
  import opened Wrappers
  import opened Errors
  import opened Strings
  import opened Schema

  datatype Platform = MySQL | PostgreSQL | SQLite

  /** `getName()`: the identifier the migration runner and `sql()` compare against. */
  function Name(p: Platform): string {
    match p
    case MySQL => "mysqli"
    case PostgreSQL => "pgsql"
    case SQLite => "sqlite3"
  }

  /** The abstract column types every dialect knows. */
  datatype ColumnKind =
    | Serial | Integer | Smallint | Bigint | Text | String | Char
    | Decimal | Float | Date | Time | Timestamp | Boolean | Blob

  /** The type tag a migration writes for each kind. */
  function KindName(k: ColumnKind): string {
    match k
    case Serial => "serial"
    case Integer => "integer"
    case Smallint => "smallint"
    case Bigint => "bigint"
    case Text => "text"
    case String => "string"
    case Char => "char"
    case Decimal => "decimal"
    case Float => "float"
    case Date => "date"
    case Time => "time"
    case Timestamp => "timestamp"
    case Boolean => "boolean"
    case Blob => "blob"
  }

  /** The lookup `isset($typeMap[$abstractType])`: the kind a tag names, if any. */
  function KindOf(tag: string): (r: Option<ColumnKind>)
    ensures r.Some? ==> KindName(r.value) == tag
  {
    if tag == "serial" then Some(Serial)
    else if tag == "integer" then Some(Integer)
    else if tag == "smallint" then Some(Smallint)
    else if tag == "bigint" then Some(Bigint)
    else if tag == "text" then Some(Text)
    else if tag == "string" then Some(String)
    else if tag == "char" then Some(Char)
    else if tag == "decimal" then Some(Decimal)
    else if tag == "float" then Some(Float)
    else if tag == "date" then Some(Date)
    else if tag == "time" then Some(Time)
    else if tag == "timestamp" then Some(Timestamp)
    else if tag == "boolean" then Some(Boolean)
    else if tag == "blob" then Some(Blob)
    else None
  }

  /** Every kind's tag is recognised as that kind, so a tag is unknown exactly when no
      kind carries it. */
  lemma KindOfName(k: ColumnKind)
    ensures KindOf(KindName(k)) == Some(k)
  {
  }

  predicate IsKnownType(tag: string) {
    KindOf(tag).Some?
  }

  /** An entry of a dialect's type map: a plain type, or a `%d` template given by the
      literal text around its conversions. */
  datatype TypeTemplate =
    | Plain(sql: string)
    | OneArg(before: string, after: string)
    | TwoArgs(before: string, middle: string, after: string)

  /** The template as the sprintf format string it stands for. */
  function TemplateText(t: TypeTemplate): string {
    match t
    case Plain(sql) => sql
    case OneArg(before, after) => before + "%d" + after
    case TwoArgs(before, middle, after) => before + "%d" + middle + "%d" + after
  }

  /** The template with its conversions replaced by `args`. */
  function Fill(t: TypeTemplate, args: seq<string>): string {
    match t
    case Plain(sql) => sql
    case OneArg(before, after) => before + (if |args| > 0 then args[0] else "") + after
    case TwoArgs(before, middle, after) =>
      before + (if |args| > 0 then args[0] else "") + middle + (if |args| > 1 then args[1] else "") + after
  }

  predicate LiteralParts(t: TypeTemplate) {
    match t
    case Plain(sql) => NoConversion(sql)
    case OneArg(before, after) => NoConversion(before) && NoConversion(after)
    case TwoArgs(before, middle, after) => NoConversion(before) && NoConversion(middle) && NoConversion(after)
  }

  /** Filling a template is what sprintf does with its format string, given as many
      arguments as conversions. */
  lemma FillIsSprintf(t: TypeTemplate, args: seq<string>)
    requires LiteralParts(t)
    requires |args| == (match t case Plain(_) => 0 case OneArg(_, _) => 1 case TwoArgs(_, _, _) => 2)
    ensures FormatD(TemplateText(t), args) == Fill(t, args)
  {
    match t
    case Plain(sql) =>
      FormatDCopiesLiteral(sql, "", args);
      assert sql + "" == sql;
    case OneArg(before, after) =>
      assert args == [args[0]];
      FormatDOne(before, after, args[0]);
    case TwoArgs(before, middle, after) =>
      assert args == [args[0], args[1]];
      FormatDTwo(before, middle, after, args[0], args[1]);
  }

  /** `getTypeMap()`. */
  function TypeMap(p: Platform, k: ColumnKind): TypeTemplate {
    match p
    case MySQL =>
      (match k
       case Serial => Plain("INT") case Integer => Plain("INT")
       case Smallint => Plain("SMALLINT") case Bigint => Plain("BIGINT")
       case Text => Plain("TEXT") case String => OneArg("VARCHAR(", ")") case Char => OneArg("CHAR(", ")")
       case Decimal => TwoArgs("DECIMAL(", ",", ")") case Float => Plain("FLOAT")
       case Date => Plain("DATE") case Time => Plain("TIME")
       case Timestamp => Plain("DATETIME") case Boolean => Plain("SMALLINT") case Blob => Plain("BLOB"))
    case PostgreSQL =>
      (match k
       case Serial => Plain("INT") case Integer => Plain("INTEGER")
       case Smallint => Plain("SMALLINT") case Bigint => Plain("BIGINT")
       case Text => Plain("TEXT") case String => OneArg("VARCHAR(", ")") case Char => OneArg("CHAR(", ")")
       case Decimal => TwoArgs("NUMERIC(", ",", ")") case Float => Plain("REAL")
       case Date => Plain("DATE") case Time => Plain("TIME")
       case Timestamp => Plain("TIMESTAMP") case Boolean => Plain("SMALLINT") case Blob => Plain("BYTEA"))
    case SQLite =>
      (match k
       case Serial => Plain("INTEGER") case Integer => Plain("INTEGER")
       case Smallint => Plain("INTEGER") case Bigint => Plain("INTEGER")
       case Text => Plain("TEXT") case String => Plain("TEXT") case Char => Plain("TEXT")
       case Decimal => Plain("REAL") case Float => Plain("REAL")
       case Date => Plain("TEXT") case Time => Plain("TEXT")
       case Timestamp => Plain("TEXT") case Boolean => Plain("INTEGER") case Blob => Plain("BLOB"))
  }

  /** Exactly `string`, `char` and `decimal` are templates, and only outside SQLite. */
  lemma TypeMapShape(p: Platform, k: ColumnKind)
    ensures TypeMap(p, k).OneArg? <==> p != SQLite && (k == String || k == Char)
    ensures TypeMap(p, k).TwoArgs? <==> p != SQLite && k == Decimal
  {
  }

  /** No entry of a type map holds a conversion other than its `%d` places. */
  lemma TypeMapLiteral(p: Platform, k: ColumnKind)
    requires p != SQLite
    ensures LiteralParts(TypeMap(p, k))
  {
    assert && NoConversion("INT") && NoConversion("INTEGER") && NoConversion("SMALLINT")
           && NoConversion("BIGINT") && NoConversion("TEXT") && NoConversion("VARCHAR(")
           && NoConversion("CHAR(") && NoConversion(")") && NoConversion("DECIMAL(")
           && NoConversion("NUMERIC(") && NoConversion(",") && NoConversion("FLOAT")
           && NoConversion("REAL") && NoConversion("DATE") && NoConversion("TIME")
           && NoConversion("DATETIME") && NoConversion("TIMESTAMP") && NoConversion("BLOB")
           && NoConversion("BYTEA");
  }

  /** `getAutoIncrementSyntax()`: the clause a serial primary column gets in place of
      `PRIMARY KEY`/`NOT NULL`. */
  function AutoIncrementSyntax(p: Platform): string {
    match p
    case MySQL => "NOT NULL AUTO_INCREMENT PRIMARY KEY"
    case PostgreSQL => "NOT NULL PRIMARY KEY"
    case SQLite => "PRIMARY KEY"
  }

  /** `isPrimaryKeyInline()`. */
  predicate IsPrimaryKeyInline(p: Platform) {
    p == SQLite
  }

  /** `getTableOptions()`: appended after the closing parenthesis of CREATE TABLE. */
  function TableOptions(p: Platform): string {
    if p == MySQL then " ENGINE=InnoDB DEFAULT CHARSET=utf8" else ""
  }

  /** `translateDefaultExpression()`: only the current-timestamp tokens are rewritten. */
  function TranslateDefaultExpression(p: Platform, expression: string): (r: string)
    ensures expression != "CURRENT_TIMESTAMP" && expression != "CURRENT_TIMESTAMP()" ==> r == expression
    ensures expression == "CURRENT_TIMESTAMP" || expression == "CURRENT_TIMESTAMP()" ==>
      r == (if p == SQLite then "(datetime('now','localtime'))" else "CURRENT_TIMESTAMP")
  {
    if expression == "CURRENT_TIMESTAMP" || expression == "CURRENT_TIMESTAMP()" then
      (if p == SQLite then "(datetime('now','localtime'))" else "CURRENT_TIMESTAMP")
    else expression
  }

  function DropTable(tableName: string): string {
    "DROP TABLE IF EXISTS " + tableName
  }

  /** `buildDropColumn()`: a list, so that a dialect could expand it; every dialect here
      emits one statement. */
  function BuildDropColumn(p: Platform, tableName: string, columnName: string): seq<string> {
    ["ALTER TABLE " + tableName + " DROP COLUMN " + columnName]
  }

  function BuildRenameColumn(p: Platform, tableName: string, oldName: string, newName: string): string {
    "ALTER TABLE " + tableName + " RENAME COLUMN " + oldName + " TO " + newName
  }

  /** `buildDropIndex()`: MySQL names the table, the others do not. */
  function BuildDropIndex(p: Platform, tableName: string, indexName: string): string {
    if p == MySQL then "DROP INDEX " + indexName + " ON " + tableName
    else "DROP INDEX " + indexName
  }

  // ---------------------------------------------------------------------------
  // Column types
  // ---------------------------------------------------------------------------

  /** The text sprintf's `%d` makes of an option value: the value converted to an integer
      as PHP does (a string by its leading white space, sign and digits), printed in
      canonical decimal. */
  function FormatInteger(v: Value): (r: string)
    ensures ParseInt(r).Some? && IsCanonicalInt(r)
    ensures v.Int? ==> ParseInt(r) == Some(v.i)
    ensures v.Str? ==> ParseInt(r) == Some(LeadingInt(v.s))
    ensures v.Bool? ==> r == (if v.b then "1" else "0")
    ensures v.Null? ==> r == "0"
  {
    match v
    case Int(i) => IntToString(i)
    case Bool(b) => if b then "1" else "0"
    case Null => "0"
    case Str(s) => IntToString(LeadingInt(s))
  }

  /** A signed length reads as PHP reads it. */
  lemma FormatIntegerReadsSign()
    ensures FormatInteger(Str("-5")) == "-5"
  {
    var five := NatToString(5);
    assert five == "5";
    assert IntToString(-5) == "-5";
    LeadingIntReadsInteger("", -5, "");
    assert "" + IntToString(-5) + "" == "-5";
  }

  /** So does a length after white space, or before text that is not a digit. */
  lemma FormatIntegerReadsPadding()
    ensures FormatInteger(Str(" 8")) == "8"
    ensures FormatInteger(Str("8px")) == "8"
  {
    assert IntToString(8) == "8" by {
      assert NatToString(8) == "8";
    }
    assert " " + IntToString(8) + "" == " 8";
    assert "" + IntToString(8) + "px" == "8px";
    LeadingIntReadsInteger(" ", 8, "");
    LeadingIntReadsInteger("", 8, "px");
  }

  /** The arguments `getColumnType()` passes to sprintf: `length` for string (default 255)
      and char (default 1), `precision` and `scale` for decimal (defaults 10 and 2). */
  function TypeArguments(k: ColumnKind, options: map<string, Value>): seq<string> {
    if k == String then [FormatInteger(OptionOr(options, "length", Int(255)))]
    else if k == Char then [FormatInteger(OptionOr(options, "length", Int(1)))]
    else if k == Decimal then
      [FormatInteger(OptionOr(options, "precision", Int(10))), FormatInteger(OptionOr(options, "scale", Int(2)))]
    else []
  }

  /** The SQL type of a known kind; SQLite's override ignores the options. */
  function KindType(p: Platform, k: ColumnKind, options: map<string, Value>): string {
    if p == SQLite then TemplateText(TypeMap(p, k))
    else Fill(TypeMap(p, k), TypeArguments(k, options))
  }

  /** Outside SQLite the type is sprintf of the mapped format with the option arguments;
      SQLite returns the mapped type as it stands. */
  lemma KindTypeIsSprintf(p: Platform, k: ColumnKind, options: map<string, Value>)
    ensures p != SQLite ==> KindType(p, k, options) == FormatD(TemplateText(TypeMap(p, k)), TypeArguments(k, options))
    ensures p == SQLite ==> KindType(p, k, options) == TypeMap(p, k).sql
  {
    TypeMapShape(p, k);
    if p != SQLite {
      TypeMapLiteral(p, k);
      FillIsSprintf(TypeMap(p, k), TypeArguments(k, options));
    }
  }

  /** `getColumnType()`: fails exactly on a tag no kind carries. */
  function ColumnType(p: Platform, abstractType: string, options: map<string, Value>): (r: Result<string, Error>)
    ensures r.Err? <==> !IsKnownType(abstractType)
    ensures r.Err? ==> r.error == UnknownColumnType(abstractType)
    ensures r.Ok? ==> r.value == KindType(p, KindOf(abstractType).value, options)
  {
    match KindOf(abstractType)
    case None => Err(UnknownColumnType(abstractType))
    case Some(k) => Ok(KindType(p, k, options))
  }

  /** SQLite's type ignores the options altogether. */
  lemma SQLiteIgnoresOptions(abstractType: string, options1: map<string, Value>, options2: map<string, Value>)
    ensures ColumnType(SQLite, abstractType, options1) == ColumnType(SQLite, abstractType, options2)
    ensures IsKnownType(abstractType) ==>
      ColumnType(SQLite, abstractType, options1) == Ok(TemplateText(TypeMap(SQLite, KindOf(abstractType).value)))
  {
  }

  /** MySQL and PostgreSQL substitute the length into `VARCHAR(%d)`. */
  lemma StringTypeSubstitutes(p: Platform, options: map<string, Value>)
    requires p != SQLite
    ensures KindType(p, String, options)
      == "VARCHAR(" + FormatInteger(OptionOr(options, "length", Int(255))) + ")"
  {
    if p == MySQL { } else { }
  }

  /** MySQL and PostgreSQL substitute the length into `CHAR(%d)`. */
  lemma CharTypeSubstitutes(p: Platform, options: map<string, Value>)
    requires p != SQLite
    ensures KindType(p, Char, options)
      == "CHAR(" + FormatInteger(OptionOr(options, "length", Int(1))) + ")"
  {
    if p == MySQL { } else { }
  }

  /** MySQL and PostgreSQL substitute precision and scale into `DECIMAL(%d,%d)` and
      `NUMERIC(%d,%d)`. */
  lemma DecimalTypeSubstitutes(p: Platform, options: map<string, Value>)
    requires p != SQLite
    ensures KindType(p, Decimal, options)
      == (if p == MySQL then "DECIMAL(" else "NUMERIC(")
         + FormatInteger(OptionOr(options, "precision", Int(10))) + ","
         + FormatInteger(OptionOr(options, "scale", Int(2))) + ")"
  {
    if p == MySQL { } else { }
  }

  /** The rendered default arguments. */
  lemma DefaultArgumentText()
    ensures FormatInteger(Int(255)) == "255" && FormatInteger(Int(1)) == "1"
    ensures FormatInteger(Int(10)) == "10" && FormatInteger(Int(2)) == "2"
  {
    assert NatToString(25) == NatToString(2) + [DigitChar(5)];
    assert NatToString(255) == NatToString(25) + [DigitChar(5)];
    assert NatToString(10) == NatToString(1) + [DigitChar(0)];
  }

  /** Without a length, `string` is `VARCHAR(255)` (SQLite: `TEXT`). */
  lemma StringTypeDefault(p: Platform)
    ensures KindType(p, String, map[]) == (if p == SQLite then "TEXT" else "VARCHAR(255)")
  {
    if p != SQLite {
      DefaultArgumentText();
      StringTypeSubstitutes(p, map[]);
    }
  }

  /** Without a length, `char` is `CHAR(1)` (SQLite: `TEXT`). */
  lemma CharTypeDefault(p: Platform)
    ensures KindType(p, Char, map[]) == (if p == SQLite then "TEXT" else "CHAR(1)")
  {
    if p != SQLite {
      DefaultArgumentText();
      CharTypeSubstitutes(p, map[]);
    }
  }

  /** Without precision and scale, `decimal` is `DECIMAL(10,2)` in MySQL, `NUMERIC(10,2)`
      in PostgreSQL and `REAL` in SQLite. */
  lemma DecimalTypeDefault(p: Platform)
    ensures KindType(p, Decimal, map[])
      == (match p case MySQL => "DECIMAL(10,2)" case PostgreSQL => "NUMERIC(10,2)" case SQLite => "REAL")
  {
    if p != SQLite {
      DefaultArgumentText();
      DecimalTypeSubstitutes(p, map[]);
    }
  }

  // ---------------------------------------------------------------------------
  // Default values
  // ---------------------------------------------------------------------------

  predicate IsTokenChars(s: string) {
    |s| > 0 && forall i :: 0 <= i < |s| ==> ('A' <= s[i] <= 'Z' || s[i] == '_')
  }

  predicate IsTokenBody(s: string) {
    || IsTokenChars(s)
    || (|s| > 2 && s[|s| - 2..] == "()" && IsTokenChars(s[..|s| - 2]))
  }

  /** The pattern `^[A-Z_]+(\(\))?$`. As in PCRE, `$` also matches just before a final
      newline. */
  predicate IsExpressionToken(s: string) {
    || IsTokenBody(s)
    || (|s| > 0 && s[|s| - 1] == '\n' && IsTokenBody(s[..|s| - 1]))
  }

  /** `getDefaultValue()`: null, booleans and integers are written bare, an upper-case
      token is an SQL expression passed through the dialect's translation, anything else
      is a quoted literal escaped with addslashes, so it reads back as the original text. */
  function DefaultValue(p: Platform, v: Value): (r: string)
    ensures v.Null? ==> r == "NULL"
    ensures v.Bool? ==> r == (if v.b then "1" else "0")
    ensures v.Int? ==> ParseInt(r) == Some(v.i) && IsCanonicalInt(r)
    ensures v.Str? && IsExpressionToken(v.s) ==> r == TranslateDefaultExpression(p, v.s)
    ensures v.Str? && !IsExpressionToken(v.s) ==> r == "'" + AddSlashes(v.s) + "'"
    ensures v.Str? && !IsExpressionToken(v.s) ==>
      |r| >= 2 && r[0] == '\'' && r[|r| - 1] == '\'' && StripSlashes(r[1..|r| - 1]) == v.s
  {
    match v
    case Null => "NULL"
    case Bool(b) => if b then "1" else "0"
    case Int(i) => IntToString(i)
    case Str(s) =>
      if IsExpressionToken(s) then TranslateDefaultExpression(p, s)
      else
        var r := "'" + AddSlashes(s) + "'";
        StripSlashesAddSlashes(s);
        assert r[1..|r| - 1] == AddSlashes(s);
        r
  }

  // ---------------------------------------------------------------------------
  // Column definitions
  // ---------------------------------------------------------------------------

  predicate IsSerialPrimary(c: ColumnDef) {
    c.abstractType == "serial" && c.isPrimary
  }

  /** The key clause: the auto-increment syntax for a serial primary column, otherwise
      `PRIMARY KEY` for a primary column in a dialect that declares keys inline. */
  function KeyClause(p: Platform, c: ColumnDef): (r: seq<string>)
    ensures r != [] <==> c.isPrimary && (c.abstractType == "serial" || IsPrimaryKeyInline(p))
    ensures IsSerialPrimary(c) ==> r == [AutoIncrementSyntax(p)]
    ensures r != [] && !IsSerialPrimary(c) ==> r == ["PRIMARY KEY"]
  {
    if IsSerialPrimary(c) then [AutoIncrementSyntax(p)]
    else if c.isPrimary && IsPrimaryKeyInline(p) then ["PRIMARY KEY"]
    else []
  }

  /** `NOT NULL`, unless the auto-increment syntax already carries it. */
  function NotNullClause(c: ColumnDef): (r: seq<string>)
    ensures r != [] <==> !c.nullable && !IsSerialPrimary(c)
    ensures r != [] ==> r == ["NOT NULL"]
  {
    if !IsSerialPrimary(c) && !c.nullable then ["NOT NULL"] else []
  }

  /** `DEFAULT ...` exactly when a default was set, even a null one. */
  function DefaultClause(p: Platform, c: ColumnDef): (r: seq<string>)
    ensures r != [] <==> c.hasDefault
    ensures r != [] ==> r == ["DEFAULT " + DefaultValue(p, c.defaultValue)]
  {
    if c.hasDefault then ["DEFAULT " + DefaultValue(p, c.defaultValue)] else []
  }

  /** `buildColumnDefinition()`: the name, the SQL type, then the key, `NOT NULL` and
      `DEFAULT` clauses that apply, separated by single spaces. */
  function ColumnDefinition(p: Platform, c: ColumnDef): (r: Result<string, Error>)
    ensures r.Err? <==> !IsKnownType(c.abstractType)
    ensures r.Err? ==> r.error == UnknownColumnType(c.abstractType)
    ensures r.Ok? ==> r.value == Join(" ", [c.name, ColumnType(p, c.abstractType, c.options).value]
      + KeyClause(p, c) + NotNullClause(c) + DefaultClause(p, c))
  {
    match ColumnType(p, c.abstractType, c.options)
    case Err(e) => Err(e)
    case Ok(sqlType) => Ok(Join(" ", [c.name, sqlType] + KeyClause(p, c) + NotNullClause(c) + DefaultClause(p, c)))
  }

  /** A serial primary column is its name, its type and the auto-increment clause
      (e.g. `id INT NOT NULL AUTO_INCREMENT PRIMARY KEY`, `id INTEGER PRIMARY KEY`). */
  lemma SerialPrimaryDefinition(p: Platform, c: ColumnDef)
    requires IsSerialPrimary(c) && !c.hasDefault
    ensures ColumnDefinition(p, c) == Ok(c.name + " " + TypeMap(p, Serial).sql + " " + AutoIncrementSyntax(p))
  {
    assert KindOf(c.abstractType) == Some(Serial);
    var sqlType := TypeMap(p, Serial).sql;
    assert KindType(p, Serial, c.options) == sqlType;
    assert ColumnType(p, c.abstractType, c.options) == Ok(sqlType);
    var parts := [c.name, sqlType] + KeyClause(p, c) + NotNullClause(c) + DefaultClause(p, c);
    assert parts == [c.name, sqlType, AutoIncrementSyntax(p)];
    assert parts[1..] == [sqlType, AutoIncrementSyntax(p)];
    assert parts[1..][1..] == [AutoIncrementSyntax(p)];
    assert Join(" ", parts[1..]) == sqlType + " " + AutoIncrementSyntax(p);
    assert Join(" ", parts) == c.name + " " + (sqlType + " " + AutoIncrementSyntax(p));
    assert ColumnDefinition(p, c) == Ok(Join(" ", parts));
    assert c.name + " " + (sqlType + " " + AutoIncrementSyntax(p)) == c.name + " " + sqlType + " " + AutoIncrementSyntax(p);
  }

  /** Each column's definition, in order. */
  function Definitions(p: Platform, cols: seq<ColumnDef>): seq<Result<string, Error>> {
    seq(|cols|, i requires 0 <= i < |cols| => ColumnDefinition(p, cols[i]))
  }

  /** The columns' definitions in order; the first unknown type aborts (`getColumnType`
      throws). */
  function ColumnDefinitions(p: Platform, cols: seq<ColumnDef>): (r: Result<seq<string>, Error>)
    ensures r.Ok? ==> |r.value| == |cols|
  {
    Collect(Definitions(p, cols))
  }

  /** The definitions succeed exactly when every type is known, list one definition per
      column in order, and otherwise report the first unknown type. */
  lemma ColumnDefinitionsSpec(p: Platform, cols: seq<ColumnDef>)
    ensures ColumnDefinitions(p, cols).Ok? <==> forall i :: 0 <= i < |cols| ==> IsKnownType(cols[i].abstractType)
    ensures ColumnDefinitions(p, cols).Ok? ==>
      forall i :: 0 <= i < |cols| ==> ColumnDefinition(p, cols[i]) == Ok(ColumnDefinitions(p, cols).value[i])
    ensures ColumnDefinitions(p, cols).Err? ==> exists i :: (
      && 0 <= i < |cols| && !IsKnownType(cols[i].abstractType)
      && (forall j :: 0 <= j < i ==> IsKnownType(cols[j].abstractType))
      && ColumnDefinitions(p, cols).error == UnknownColumnType(cols[i].abstractType))
  {
    var rs := Definitions(p, cols);
    CollectSpec(rs);
    forall i | 0 <= i < |cols|
      ensures rs[i].Ok? <==> IsKnownType(cols[i].abstractType)
      ensures rs[i].Err? ==> rs[i].error == UnknownColumnType(cols[i].abstractType)
    {
      assert rs[i] == ColumnDefinition(p, cols[i]);
    }
    if Collect(rs).Err? {
      var i :| (
        && 0 <= i < |rs| && rs[i].Err?
        && (forall j :: 0 <= j < i ==> rs[j].Ok?)
        && Collect(rs).error == rs[i].error);
    }
  }

  /** Name of the last primary column (the one `createTable`'s loop keeps). */
  function LastPrimary(cols: seq<ColumnDef>): (r: Option<string>)
    ensures r.None? <==> forall i :: 0 <= i < |cols| ==> !cols[i].isPrimary
    ensures r.Some? ==> exists i :: (
      && 0 <= i < |cols| && cols[i].isPrimary && cols[i].name == r.value
      && forall j :: i < j < |cols| ==> !cols[j].isPrimary)
  {
    if cols == [] then None
    else if cols[|cols| - 1].isPrimary then Some(cols[|cols| - 1].name)
    else
      var r := LastPrimary(cols[..|cols| - 1]);
      assert forall i :: 0 <= i < |cols| - 1 ==> cols[..|cols| - 1][i] == cols[i];
      r
  }

  /** The `PRIMARY KEY (...)` item: present exactly in dialects that do not declare the
      key inline, when some column is primary. */
  function TrailingPrimaryKey(p: Platform, cols: seq<ColumnDef>): (r: seq<string>)
    ensures r != [] <==> !IsPrimaryKeyInline(p) && exists i :: 0 <= i < |cols| && cols[i].isPrimary
    ensures r != [] ==> r == ["PRIMARY KEY (" + LastPrimary(cols).value + ")"]
  {
    if !IsPrimaryKeyInline(p) && LastPrimary(cols).Some? then ["PRIMARY KEY (" + LastPrimary(cols).value + ")"]
    else []
  }

  /** The items between the parentheses of CREATE TABLE: one definition per column, in
      first-insertion order, then the trailing primary key. */
  function CreateTableItems(p: Platform, t: TableDef): (r: Result<seq<string>, Error>)
    ensures r.Err? <==> ColumnDefinitions(p, t.columns).Err?
    ensures r.Ok? ==> r.value == ColumnDefinitions(p, t.columns).value + TrailingPrimaryKey(p, t.columns)
  {
    match ColumnDefinitions(p, t.columns)
    case Err(e) => Err(e)
    case Ok(defs) => Ok(defs + TrailingPrimaryKey(p, t.columns))
  }

  /** The statement text around the items. */
  function CreateTableText(p: Platform, tableName: string, items: seq<string>): (r: string)
    ensures StartsWith(r, "CREATE TABLE " + tableName + " (\n    ")
    ensures EndsWith(r, "\n)" + TableOptions(p))
    ensures |r| == |"CREATE TABLE " + tableName + " (\n    "| + |Join(",\n    ", items)| + |"\n)" + TableOptions(p)|
    ensures r[|"CREATE TABLE " + tableName + " (\n    "|..|r| - |"\n)" + TableOptions(p)|] == Join(",\n    ", items)
  {
    var head := "CREATE TABLE " + tableName + " (\n    ";
    var tail := "\n)" + TableOptions(p);
    var r := head + Join(",\n    ", items) + tail;
    assert r[..|head|] == head;
    assert r[|r| - |tail|..] == tail;
    assert r[|head|..|r| - |tail|] == Join(",\n    ", items);
    r
  }

  /** The CREATE TABLE statement, or the failure of the first column whose type is
      unknown. */
  function CreateTableSql(p: Platform, t: TableDef): (r: Result<string, Error>)
    ensures r.Err? <==> ColumnDefinitions(p, t.columns).Err?
    ensures r.Err? ==> r.error == ColumnDefinitions(p, t.columns).error
    ensures r.Ok? ==> CreateTableItems(p, t).Ok? && r.value == CreateTableText(p, t.name, CreateTableItems(p, t).value)
  {
    match CreateTableItems(p, t)
    case Err(e) => Err(e)
    case Ok(items) => Ok(CreateTableText(p, t.name, items))
  }

  /** The statement fails exactly when some column has an unknown type, and then reports
      the first such column; otherwise it lists every column's definition in order, then
      the trailing primary key, and is wrapped in `CREATE TABLE name (` ... `)` and the
      dialect's table options. */
  lemma CreateTableSqlSpec(p: Platform, t: TableDef)
    ensures CreateTableSql(p, t).Err? <==> exists i :: 0 <= i < |t.columns| && !IsKnownType(t.columns[i].abstractType)
    ensures CreateTableSql(p, t).Err? ==> exists i :: (
      && 0 <= i < |t.columns| && !IsKnownType(t.columns[i].abstractType)
      && (forall j :: 0 <= j < i ==> IsKnownType(t.columns[j].abstractType))
      && CreateTableSql(p, t).error == UnknownColumnType(t.columns[i].abstractType))
    ensures CreateTableSql(p, t).Ok? ==> exists items :: (
      && |items| == |t.columns| + |TrailingPrimaryKey(p, t.columns)|
      && (forall i :: 0 <= i < |t.columns| ==> ColumnDefinition(p, t.columns[i]) == Ok(items[i]))
      && items[|t.columns|..] == TrailingPrimaryKey(p, t.columns)
      && CreateTableSql(p, t).value == CreateTableText(p, t.name, items))
    ensures CreateTableSql(p, t).Ok? ==> StartsWith(CreateTableSql(p, t).value, "CREATE TABLE " + t.name + " (\n    ")
    ensures CreateTableSql(p, t).Ok? ==> EndsWith(CreateTableSql(p, t).value, "\n)" + TableOptions(p))
  {
    ColumnDefinitionsSpec(p, t.columns);
    if CreateTableSql(p, t).Ok? {
      var items := CreateTableItems(p, t).value;
      assert items[|t.columns|..] == TrailingPrimaryKey(p, t.columns);
    }
  }

  lemma LastPrimaryExtend(cols: seq<ColumnDef>, i: nat)
    requires i < |cols|
    ensures LastPrimary(cols[..i + 1]) == if cols[i].isPrimary then Some(cols[i].name) else LastPrimary(cols[..i])
  {
    assert cols[..i + 1][..i] == cols[..i];
  }

  /** `createTable()` (PostgreSQL's override returns the same text). */
  method CreateTable(p: Platform, t: TableDef) returns (r: Result<string, Error>)
    ensures r == CreateTableSql(p, t)
  {
    var items: seq<string> := [];
    var primaryKey: Option<string> := None;
    for i := 0 to |t.columns|
      invariant Collect(Definitions(p, t.columns)[..i]) == Ok(items)
      invariant primaryKey == LastPrimary(t.columns[..i])
    {
      var column := t.columns[i];
      CollectExtend(Definitions(p, t.columns), i);
      LastPrimaryExtend(t.columns, i);
      var definition := ColumnDefinition(p, column);
      assert Definitions(p, t.columns)[i] == definition;
      if definition.Err? {
        CollectAbort(Definitions(p, t.columns), i + 1);
        assert ColumnDefinitions(p, t.columns) == Err(definition.error);
        r := Err(definition.error);
        return;
      }
      items := items + [definition.value];
      if column.isPrimary {
        primaryKey := Some(column.name);
      }
    }
    assert t.columns[..|t.columns|] == t.columns;
    assert Definitions(p, t.columns)[..|t.columns|] == Definitions(p, t.columns);
    assert ColumnDefinitions(p, t.columns) == Ok(items);
    ghost var definitions := items;
    if primaryKey.Some? && !IsPrimaryKeyInline(p) {
      items := items + ["PRIMARY KEY (" + primaryKey.value + ")"];
    }
    assert items == definitions + TrailingPrimaryKey(p, t.columns);
    r := Ok(CreateTableText(p, t.name, items));
  }

  // ---------------------------------------------------------------------------
  // Indexes and ALTER TABLE
  // ---------------------------------------------------------------------------

  /** `CREATE [UNIQUE] INDEX name ON table (c1, c2, ...)`. */
  function IndexStatement(tableName: string, ix: IndexDef): (r: string)
    ensures StartsWith(r, "CREATE UNIQUE INDEX ") <==> ix.unique
    ensures StartsWith(r, "CREATE " + (if ix.unique then "UNIQUE INDEX" else "INDEX") + " " + ix.name + " ON ")
    ensures EndsWith(r, " ON " + tableName + " (" + Join(", ", ix.columns) + ")")
    ensures |r| == |"CREATE " + (if ix.unique then "UNIQUE INDEX" else "INDEX") + " " + ix.name + " ON "|
      + |tableName + " (" + Join(", ", ix.columns) + ")"|
  {
    var kind := if ix.unique then "UNIQUE INDEX" else "INDEX";
    var tail := " ON " + tableName + " (" + Join(", ", ix.columns) + ")";
    var r := "CREATE " + kind + " " + ix.name + tail;
    assert r[..|"CREATE " + kind + " " + ix.name + " ON "|] == "CREATE " + kind + " " + ix.name + " ON ";
    assert r[..7] == "CREATE ";
    assert r[7] == kind[0];
    assert r[|r| - |tail|..] == tail;
    if ix.unique then
      assert r[..20] == "CREATE UNIQUE INDEX ";
      r
    else
      r
  }

  /** One statement per index, in order. */
  function IndexStatements(tableName: string, indexes: seq<IndexDef>): (r: seq<string>)
    ensures |r| == |indexes|
    ensures forall i :: 0 <= i < |indexes| ==> r[i] == IndexStatement(tableName, indexes[i])
  {
    if indexes == [] then []
    else IndexStatements(tableName, indexes[..|indexes| - 1]) + [IndexStatement(tableName, indexes[|indexes| - 1])]
  }

  /** `createIndexes()`. */
  method CreateIndexes(t: TableDef) returns (r: seq<string>)
    ensures r == IndexStatements(t.name, t.indexes)
  {
    r := [];
    for i := 0 to |t.indexes|
      invariant r == IndexStatements(t.name, t.indexes[..i])
    {
      assert t.indexes[..i + 1][..i] == t.indexes[..i];
      r := r + [IndexStatement(t.name, t.indexes[i])];
    }
    assert t.indexes[..|t.indexes|] == t.indexes;
  }

  /** The statements one logged operation turns into: always exactly one, unless an
      added column has an unknown type. */
  function OperationStatements(p: Platform, tableName: string, op: Operation<ColumnDef>): (r: Result<seq<string>, Error>)
    ensures r.Err? <==> op.AddColumn? && !IsKnownType(op.column.abstractType)
    ensures r.Err? ==> r.error == UnknownColumnType(op.column.abstractType)
    ensures r.Ok? ==> |r.value| == 1
  {
    match op
    case AddColumn(c) =>
      (match ColumnDefinition(p, c)
       case Err(e) => Err(e)
       case Ok(d) => Ok(["ALTER TABLE " + tableName + " ADD COLUMN " + d]))
    case DropColumn(n) => Ok(BuildDropColumn(p, tableName, n))
    case RenameColumn(o, n) => Ok([BuildRenameColumn(p, tableName, o, n)])
    case AddIndex(ix) => Ok([IndexStatement(tableName, ix)])
    case DropIndex(n) => Ok([BuildDropIndex(p, tableName, n)])
  }

  predicate OperationFails(p: Platform, tableName: string, op: Operation<ColumnDef>) {
    OperationStatements(p, tableName, op).Err?
  }

  /** Each logged operation's statements, in log order. */
  function OperationResults(p: Platform, tableName: string, ops: seq<Operation<ColumnDef>>): seq<Result<seq<string>, Error>> {
    seq(|ops|, i requires 0 <= i < |ops| => OperationStatements(p, tableName, ops[i]))
  }

  /** The operation log replayed in order; the first failing operation aborts. */
  function AlterStatements(p: Platform, tableName: string, ops: seq<Operation<ColumnDef>>): (r: Result<seq<string>, Error>) {
    match Collect(OperationResults(p, tableName, ops))
    case Err(e) => Err(e)
    case Ok(lists) => Ok(Flatten(lists))
  }

  /** The replay succeeds exactly when no operation fails, and otherwise reports the
      first failing operation. */
  lemma AlterStatementsFailure(p: Platform, tableName: string, ops: seq<Operation<ColumnDef>>)
    ensures AlterStatements(p, tableName, ops).Ok? <==> forall i :: 0 <= i < |ops| ==> !OperationFails(p, tableName, ops[i])
    ensures AlterStatements(p, tableName, ops).Err? ==> exists i :: (
      && 0 <= i < |ops| && OperationFails(p, tableName, ops[i])
      && (forall j :: 0 <= j < i ==> !OperationFails(p, tableName, ops[j]))
      && AlterStatements(p, tableName, ops).error == OperationStatements(p, tableName, ops[i]).error)
  {
    var rs := OperationResults(p, tableName, ops);
    CollectSpec(rs);
    forall i | 0 <= i < |ops|
      ensures rs[i].Err? <==> OperationFails(p, tableName, ops[i])
    {
      assert rs[i] == OperationStatements(p, tableName, ops[i]);
    }
    if Collect(rs).Err? {
      var i :| (
        && 0 <= i < |rs| && rs[i].Err?
        && (forall j :: 0 <= j < i ==> rs[j].Ok?)
        && Collect(rs).error == rs[i].error);
      assert rs[i] == OperationStatements(p, tableName, ops[i]);
    }
  }

  /** A successful replay gives one statement per operation, in log order. */
  lemma AlterStatementsInOrder(p: Platform, tableName: string, ops: seq<Operation<ColumnDef>>)
    requires AlterStatements(p, tableName, ops).Ok?
    ensures |AlterStatements(p, tableName, ops).value| == |ops|
    ensures forall i :: 0 <= i < |ops| ==>
      OperationStatements(p, tableName, ops[i]) == Ok([AlterStatements(p, tableName, ops).value[i]])
  {
    var rs := OperationResults(p, tableName, ops);
    CollectSpec(rs);
    var lists := Collect(rs).value;
    forall i | 0 <= i < |ops|
      ensures rs[i] == OperationStatements(p, tableName, ops[i]) && |lists[i]| == 1
    {
      assert rs[i] == OperationStatements(p, tableName, ops[i]);
    }
    var xs := seq(|ops|, i requires 0 <= i < |ops| => lists[i][0]);
    assert forall i :: 0 <= i < |ops| ==> lists[i] == [xs[i]];
    FlattenSingletons(lists, xs);
  }

  /** `alterTable()`. */
  method AlterTable(p: Platform, t: TableDef) returns (r: Result<seq<string>, Error>)
    ensures r == AlterStatements(p, t.name, t.operations)
  {
    var rs := OperationResults(p, t.name, t.operations);
    ghost var lists: seq<seq<string>> := [];
    var statements: seq<string> := [];
    for i := 0 to |rs|
      invariant Collect(rs[..i]) == Ok(lists)
      invariant statements == Flatten(lists)
    {
      CollectExtend(rs, i);
      var s := rs[i];
      if s.Err? {
        CollectAbort(rs, i + 1);
        r := Err(s.error);
        return;
      }
      FlattenAppend(lists, s.value);
      lists := lists + [s.value];
      statements := statements + s.value;
    }
    assert rs[..|rs|] == rs;
    r := Ok(statements);
  }

  // ---------------------------------------------------------------------------
  // Sequences (PostgreSQL and SQLite)
  // ---------------------------------------------------------------------------

  function SequenceName(tableName: string, columnName: string): string {
    tableName + "_" + columnName + "_seq"
  }

  /** The first serial primary column, as the find-first loops of `createSequence` and
      `getSerialDefaultSql` return it. */
  function FirstSerialPrimary(cols: seq<ColumnDef>): (r: Option<ColumnDef>)
    ensures r.None? <==> forall i :: 0 <= i < |cols| ==> !IsSerialPrimary(cols[i])
    ensures r.Some? ==> exists i :: (
      && 0 <= i < |cols| && cols[i] == r.value && IsSerialPrimary(cols[i])
      && forall j :: 0 <= j < i ==> !IsSerialPrimary(cols[j]))
  {
    if cols == [] then None
    else if IsSerialPrimary(cols[0]) then Some(cols[0])
    else
      var r := FirstSerialPrimary(cols[1..]);
      assert forall i :: 0 <= i < |cols| - 1 ==> cols[1..][i] == cols[i + 1];
      r
  }

  /** The serial column name the drop side assumes: defined only for the EC-CUBE
      prefixes, where it agrees with the builder's naming. */
  function GuessSerialColumnName(tableName: string): (r: Option<string>)
    ensures r.Some? <==> HasEccubePrefix(tableName)
    ensures r.Some? ==> r.value == DeriveSerialColumnName(tableName)
  {
    if StartsWith(tableName, "dtb_") then Some(tableName[4..] + "_id")
    else if StartsWith(tableName, "mtb_") then Some(tableName[4..] + "_id")
    else None
  }

  function CreateSequenceStatement(p: Platform, sequenceName: string): string {
    if p == PostgreSQL then "CREATE SEQUENCE " + sequenceName + " START WITH 1 INCREMENT BY 1"
    else
      "CREATE TABLE IF NOT EXISTS " + sequenceName
      + " (\n    sequence INTEGER PRIMARY KEY AUTOINCREMENT NOT NULL\n)"
  }

  function DropSequenceStatement(p: Platform, sequenceName: string): string {
    if p == PostgreSQL then "DROP SEQUENCE IF EXISTS " + sequenceName
    else "DROP TABLE IF EXISTS " + sequenceName
  }

  /** `createSequence()`: a sequence (PostgreSQL) or side table (SQLite) for the first
      serial primary column; none in MySQL or without such a column. */
  function CreateSequence(p: Platform, t: TableDef): (r: Option<string>)
    ensures r.Some? <==> p != MySQL && FirstSerialPrimary(t.columns).Some?
    ensures r.Some? ==> r.value == CreateSequenceStatement(p, SequenceName(t.name, FirstSerialPrimary(t.columns).value.name))
  {
    if p == MySQL then None
    else
      match FirstSerialPrimary(t.columns)
      case None => None
      case Some(c) => Some(CreateSequenceStatement(p, SequenceName(t.name, c.name)))
  }

  /** `dropSequence()`: only for `dtb_`/`mtb_` tables in PostgreSQL and SQLite. */
  function DropSequence(p: Platform, tableName: string): (r: Option<string>)
    ensures r.Some? <==> p != MySQL && HasEccubePrefix(tableName)
    ensures r.Some? ==> r.value == DropSequenceStatement(p, SequenceName(tableName, DeriveSerialColumnName(tableName)))
  {
    if p == MySQL then None
    else
      match GuessSerialColumnName(tableName)
      case None => None
      case Some(columnName) => Some(DropSequenceStatement(p, SequenceName(tableName, columnName)))
  }

  /** `getSerialDefaultSql()`: PostgreSQL attaches the sequence to the serial column;
      the other dialects have nothing to add. */
  function SerialDefaultSql(p: Platform, t: TableDef): (r: Option<string>)
    ensures r.Some? <==> p == PostgreSQL && FirstSerialPrimary(t.columns).Some?
    ensures r.Some? ==>
      var c := FirstSerialPrimary(t.columns).value;
      && StartsWith(r.value, "ALTER TABLE " + t.name + " ALTER COLUMN " + c.name + " ")
      && EndsWith(r.value, " SET DEFAULT nextval('" + SequenceName(t.name, c.name) + "')")
      && |r.value| == |"ALTER TABLE " + t.name + " ALTER COLUMN " + c.name| + |" SET DEFAULT nextval('" + SequenceName(t.name, c.name) + "')"|
  {
    if p != PostgreSQL then None
    else
      match FirstSerialPrimary(t.columns)
      case None => None
      case Some(c) =>
        var head := "ALTER TABLE " + t.name + " ALTER COLUMN " + c.name + " ";
        var tail := " SET DEFAULT nextval('" + SequenceName(t.name, c.name) + "')";
        var r := "ALTER TABLE " + t.name + " ALTER COLUMN " + c.name
          + " SET DEFAULT nextval('" + SequenceName(t.name, c.name) + "')";
        assert r == head + tail[1..];
        assert r[..|head|] == head;
        assert r[|r| - |tail|..] == tail;
        Some(r)
  }

  /** For a `dtb_`/`mtb_` table whose serial column was named by `serial()`, creating,
      defaulting and dropping all use one sequence name. */
  lemma SequenceRoundTrip(p: Platform, t: TableDef)
    requires p != MySQL && HasEccubePrefix(t.name)
    requires FirstSerialPrimary(t.columns).Some?
    requires FirstSerialPrimary(t.columns).value.name == DeriveSerialColumnName(t.name)
    ensures var s := SequenceName(t.name, DeriveSerialColumnName(t.name));
      && CreateSequence(p, t) == Some(CreateSequenceStatement(p, s))
      && DropSequence(p, t.name) == Some(DropSequenceStatement(p, s))
      && (p == PostgreSQL ==> EndsWith(SerialDefaultSql(p, t).value, " SET DEFAULT nextval('" + s + "')"))
  {
  }

  /** For any other table name the create side still makes a sequence for a serial
      column, but the drop side has none to drop. */
  lemma UnprefixedSequenceIsNotDropped(p: Platform, t: TableDef)
    requires p != MySQL && !HasEccubePrefix(t.name)
    requires FirstSerialPrimary(t.columns).Some?
    ensures CreateSequence(p, t).Some? && DropSequence(p, t.name).None?
  {
  }
}
