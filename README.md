# ec-cube2-migration in Dafny

A model of the schema-migration engine for EC-CUBE 2 databases. It has three layers:

- **Schema builders** (`schema.dfy`, module `Schema`). `Column` and `Table` are classes whose
  fluent modifiers update their fields in place. A `Table` keeps a name-keyed column map
  (with its insertion order), an index list, the primary-key name and, in ALTER mode, an
  ordered log of operations. `Def()` takes a value snapshot (`TableDef`, `ColumnDef`) that
  the dialects read.
- **Dialect translators** (`platforms.dfy`, module `Platforms`). The MySQL, PostgreSQL and
  SQLite platforms are three cases of one datatype, and every overridable hook is a function
  that matches on it. The functions cover:
  - the type maps with their `%d` templates;
  - the default-value rendering;
  - column definitions, CREATE TABLE, CREATE INDEX and the ALTER replay;
  - the sequence emulation.
  `createTable`, `createIndexes` and `alterTable` are loops in the source, so they are
  methods here, proved equal to the functions the other lemmas are about.
- **Migrations and the runner**:
  - `migration.dfy`, module `MigrationUnit`: the `Migration` class with `create`, `drop`,
    `table` and `sql`, and `getVersion`.
  - `migrator.dfy`, module `MigrationRunner`: the `Migrator` class with `migrate`,
    `rollback` and `getStatus`, discovery and the migration table.
  - `database.dfy`, module `Connection`: the database the runner talks to. Its state is the
    sorted list of versions recorded in `dtb_migration` and the log of statements it has
    accepted. A fixed set of statements is rejected, which stands for a failing query; the
    first rejected statement aborts the operation in progress, as an exception would.

Supporting modules:
- `strings.dfy`: decimal text, `addslashes` and `sprintf("%d")`.
- `versions.dfy`: versions are digit strings ordered by numeric value, and sorted version
  lists.
- `wrappers.dfy`: `Option`, `Result`, first-error collection and the error kinds.

A migration class's `up()` and `down()` are modelled as the sequence of primitives they
call (`Step`). Each primitive turns into statements through the dialect. A statement that
cannot be built raises `UnknownColumnType` before anything of that primitive runs, which
is how `getColumnType` behaves inside `createTable`.

## Model

| member | source | states |
|---|---|---|
| Schema.DeriveSerialColumnName | src/Schema/Table.php:77-90 | `dtb_x` and `mtb_x` give `x_id`; every other name `n` gives `n_id` |
| Schema.Column.constructor | src/Schema/Column.php:12-22 | a fresh column keeps its name, type and options, is nullable, is not primary and has no default (the default value is null) |
| Schema.Column.GetOption | src/Schema/Column.php:39-42 | the stored option when the key is present and not null, otherwise the fallback |
| Schema.Column.Nullable | src/Schema/Column.php:68-72 | returns the same object; sets nullable and changes nothing else |
| Schema.Column.NotNull | src/Schema/Column.php:74-78 | returns the same object; clears nullable and changes nothing else |
| Schema.Column.Primary | src/Schema/Column.php:80-85 | returns the same object; sets primary, forces nullable off, changes nothing else |
| Schema.Column.Default | src/Schema/Column.php:87-92 | returns the same object; records the value and sets hasDefault, even for null |
| Schema.Column.Unsigned | src/Schema/Column.php:94-98 | returns the same object; adds `unsigned => true` to the options and keeps every other option, the name and the type |
| Schema.Table.constructor | src/Schema/Table.php:18-22 | a new table has its name and mode, with no columns, indexes, primary key or operations |
| Schema.Table.AddColumn | src/Schema/Table.php:180-190 | a fresh default column is stored under its name, replacing a same-name one; an `addColumn` operation is logged exactly in ALTER mode; indexes and the primary key are unchanged |
| Schema.Table.Serial | src/Schema/Table.php:64-71 | adds a non-nullable primary `serial` column named by DeriveSerialColumnName and makes it the table's primary key |
| Schema.Table.Integer | src/Schema/Table.php:92-95 | adds an `integer` column without options (as AddColumn) |
| Schema.Table.Smallint | src/Schema/Table.php:97-100 | adds a `smallint` column without options |
| Schema.Table.Bigint | src/Schema/Table.php:102-105 | adds a `bigint` column without options |
| Schema.Table.Text | src/Schema/Table.php:111-114 | adds a `text` column without options |
| Schema.Table.String | src/Schema/Table.php:116-119 | adds a `string` column with option `length`, 255 by default |
| Schema.Table.Char | src/Schema/Table.php:121-124 | adds a `char` column with option `length`, 1 by default |
| Schema.Table.Decimal | src/Schema/Table.php:130-136 | adds a `decimal` column with options `precision` (10) and `scale` (2) |
| Schema.Table.Float | src/Schema/Table.php:138-141 | adds a `float` column without options |
| Schema.Table.Date | src/Schema/Table.php:147-150 | adds a `date` column without options |
| Schema.Table.Time | src/Schema/Table.php:152-155 | adds a `time` column without options |
| Schema.Table.Timestamp | src/Schema/Table.php:157-160 | adds a `timestamp` column without options |
| Schema.Table.Boolean | src/Schema/Table.php:166-169 | adds a `boolean` column without options |
| Schema.Table.Blob | src/Schema/Table.php:171-174 | adds a `blob` column without options |
| Schema.Table.DropColumn | src/Schema/Table.php:192-196 | appends one `dropColumn` operation in either mode; columns, indexes and the primary key are unchanged |
| Schema.Table.RenameColumn | src/Schema/Table.php:198-206 | appends one `renameColumn` operation with both names; nothing else changes |
| Schema.Table.DropIndex | src/Schema/Table.php:267-271 | appends one `dropIndex` operation; nothing else changes |
| Schema.Table.Primary | src/Schema/Table.php:212-219 | the primary key becomes the name even when no such column exists; an existing column of that name becomes primary and not nullable; the column map, indexes and log are unchanged |
| Schema.Table.Index | src/Schema/Table.php:225-244 | appends one non-unique index named `idx_<table>_<cols joined by _>` unless a name is given, plus an `addIndex` operation with the same name, columns and flag exactly in ALTER mode |
| Schema.Table.Unique | src/Schema/Table.php:246-265 | as Index, unique and with the prefix `uniq` |
| Schema.GenerateIndexName | src/Schema/Table.php:278-281 | (body) the prefix, `_`, the table name, `_`, then the columns joined by `_` |
| Schema.IndexNameOr | src/Schema/Table.php:225-244 | (body) the given name when there is one, otherwise the generated one (PHP `??`) |
| Schema.Table.AddIndex | src/Schema/Table.php:273-276 | the same effect as a non-unique Index |
| Platforms.KindOf | src/Platform/AbstractPlatform.php:162-168 | a tag is recognised only as the type it names |
| Platforms.KindOfName | src/Platform/MySQLPlatform.php:14-32 | each of the fourteen type names of the type maps is recognised |
| Platforms.TypeMapShape | src/Platform/MySQLPlatform.php:14-32 | exactly `string` and `char` (one `%d`) and `decimal` (two) are templates, and only outside SQLite |
| Platforms.TypeMapLiteral | src/Platform/PostgreSQLPlatform.php:16-34 | no type-map text holds a `%` conversion other than its `%d` places |
| Platforms.Name | src/Platform/MySQLPlatform.php:9-12 | (body) `mysqli`, `pgsql` (src/Platform/PostgreSQLPlatform.php:11-14) and `sqlite3` (src/Platform/SQLitePlatform.php:11-14) |
| Platforms.TypeMap | src/Platform/MySQLPlatform.php:14-32 | (body) each dialect's type table entry by entry, with `%d` places as template arguments; its properties are TypeMapShape and TypeMapLiteral |
| Platforms.FillIsSprintf | src/Platform/AbstractPlatform.php:170-189 | filling a template equals `sprintf` of its text with the same arguments |
| Platforms.KindTypeIsSprintf | src/Platform/AbstractPlatform.php:170-189 | outside SQLite the column type is `sprintf(map[type], args)`; in SQLite it is the map entry itself |
| Platforms.ColumnType | src/Platform/AbstractPlatform.php:162-190 | fails with `Unknown column type` exactly for a tag missing from the map; otherwise the mapped type with its arguments |
| Platforms.SQLiteIgnoresOptions | src/Platform/SQLitePlatform.php:72-82 | the SQLite column type does not depend on the options and is the plain map entry |
| Platforms.StringTypeSubstitutes | src/Platform/AbstractPlatform.php:173-176 | `VARCHAR(n)` with the `length` option, 255 when absent |
| Platforms.CharTypeSubstitutes | src/Platform/AbstractPlatform.php:178-181 | `CHAR(n)` with the `length` option, 1 when absent |
| Platforms.DecimalTypeSubstitutes | src/Platform/AbstractPlatform.php:183-187 | `DECIMAL(p,s)` (MySQL) or `NUMERIC(p,s)` (PostgreSQL) with the `precision` and `scale` options, 10 and 2 when absent |
| Platforms.StringTypeDefault | src/Platform/MySQLPlatform.php:14-32 | a string column without options is `VARCHAR(255)`, or `TEXT` in SQLite |
| Platforms.CharTypeDefault | src/Platform/PostgreSQLPlatform.php:16-34 | a char column without options is `CHAR(1)`, or `TEXT` in SQLite |
| Platforms.DecimalTypeDefault | src/Platform/SQLitePlatform.php:16-34 | a decimal column without options is `DECIMAL(10,2)`, `NUMERIC(10,2)` or `REAL` |
| Platforms.DefaultArgumentText | src/Platform/AbstractPlatform.php:174-185 | the default lengths, precision and scale print as `255`, `1`, `10` and `2` |
| Platforms.FormatInteger | src/Platform/AbstractPlatform.php:175-186 | `%d` of an option prints canonical decimal text: an integer as itself, a string as PHP reads it as an integer (leading white space, an optional sign, then the digit run; no digits read as 0), booleans as 1 or 0 and null as 0 |
| Platforms.FormatIntegerReadsSign | src/Platform/AbstractPlatform.php:175 | the string length `-5` prints as `-5` |
| Platforms.FormatIntegerReadsPadding | src/Platform/AbstractPlatform.php:175 | the string lengths ` 8` and `8px` both print as `8` |
| Platforms.TranslateDefaultExpression | src/Platform/SQLitePlatform.php:47-53 | `CURRENT_TIMESTAMP` and `CURRENT_TIMESTAMP()` become `CURRENT_TIMESTAMP`, or `(datetime('now','localtime'))` in SQLite; every other token passes through |
| Platforms.DefaultValue | src/Platform/AbstractPlatform.php:192-212 | null gives `NULL`; booleans give `1` or `0`; an integer gives its canonical decimal text; an upper-case token goes through the dialect translation; any other string is exactly `'` + its `addslashes` escaping + `'`, and stripping the slashes from the inside gives it back |
| Platforms.KeyClause | src/Platform/AbstractPlatform.php:141-147 | a primary column gets a key clause exactly when it is serial or the dialect is inline: the auto-increment syntax for serial, `PRIMARY KEY` otherwise |
| Platforms.AutoIncrementSyntax | src/Platform/MySQLPlatform.php:34-37 | (body) `NOT NULL AUTO_INCREMENT PRIMARY KEY` for MySQL, `NOT NULL PRIMARY KEY` for PostgreSQL (src/Platform/PostgreSQLPlatform.php:36-40), `PRIMARY KEY` for SQLite (src/Platform/SQLitePlatform.php:36-40) |
| Platforms.IsPrimaryKeyInline | src/Platform/AbstractPlatform.php:219-222 | (body) true exactly for SQLite (src/Platform/SQLitePlatform.php:42-45) |
| Platforms.TableOptions | src/Platform/AbstractPlatform.php:224-227 | (body) empty, except ` ENGINE=InnoDB DEFAULT CHARSET=utf8` for MySQL (src/Platform/MySQLPlatform.php:39-42) |
| Platforms.NotNullClause | src/Platform/AbstractPlatform.php:149-152 | `NOT NULL` exactly when the column is not nullable and not serial-primary |
| Platforms.DefaultClause | src/Platform/AbstractPlatform.php:154-157 | `DEFAULT <value>` exactly when the column has a default |
| Platforms.ColumnDefinition | src/Platform/AbstractPlatform.php:133-160 | fails exactly for an unknown column type, with that type's error; otherwise the name, the mapped type, the key clause, `NOT NULL` and the `DEFAULT` clause, each present as its own contract says, joined by single spaces |
| Platforms.SerialPrimaryDefinition | src/Platform/MySQLPlatform.php:34-37 | a serial primary column without default renders as name, mapped type and auto-increment syntax, and nothing else |
| Platforms.ColumnDefinitionsSpec | src/Platform/AbstractPlatform.php:23-30 | the definitions succeed iff every column type is known; then there is one per column, in order; otherwise the error is the first unknown type's |
| Platforms.LastPrimary | src/Platform/AbstractPlatform.php:27-29 | the name of the last primary column, or none exactly when no column is primary |
| Platforms.TrailingPrimaryKey | src/Platform/AbstractPlatform.php:33-35 | `PRIMARY KEY (pk)` with the last primary column is added exactly when some column is primary and the dialect is not inline |
| Platforms.CreateTableItems | src/Platform/AbstractPlatform.php:20-35 | the column definitions followed by the trailing primary key, or the definitions' error |
| Platforms.CreateTableText | src/Platform/AbstractPlatform.php:37-43 | `CREATE TABLE <name> (`, a newline and four spaces, then the items joined by a comma, a newline and four spaces, then a newline, `)` and the table options |
| Platforms.CreateTableSql | src/Platform/AbstractPlatform.php:18-44 | fails exactly when the column definitions do, with their error; otherwise the CREATE TABLE text around the items |
| Platforms.CreateTableSqlSpec | src/Platform/AbstractPlatform.php:18-44 | fails iff some column type is unknown, with the first such type's error; otherwise one definition per column in order, then the trailing key, then the table options (` ENGINE=InnoDB DEFAULT CHARSET=utf8` for MySQL) |
| Platforms.CreateTable | src/Platform/AbstractPlatform.php:18-44 | the loop over the columns computes CreateTableSql, which also covers the PostgreSQL override |
| Platforms.DropTable | src/Platform/AbstractPlatform.php:46-49 | (body) `DROP TABLE IF EXISTS <table>` in every dialect |
| Platforms.IndexStatement | src/Platform/AbstractPlatform.php:55-63 | `CREATE UNIQUE INDEX <name> ON ` iff the index is unique, `CREATE INDEX <name> ON ` otherwise, followed by `<table> (<columns joined by ", ">)` and nothing else |
| Platforms.IndexStatements | src/Platform/AbstractPlatform.php:51-67 | one statement per index, in the same order |
| Platforms.CreateIndexes | src/Platform/AbstractPlatform.php:51-67 | the loop over the indexes computes IndexStatements |
| Platforms.BuildDropIndex | src/Platform/MySQLPlatform.php:52-55 | (body) `DROP INDEX <index> ON <table>` for MySQL, `DROP INDEX <index>` for the others (src/Platform/AbstractPlatform.php:242-245) |
| Platforms.BuildDropColumn | src/Platform/AbstractPlatform.php:232-235 | (body) the single statement `ALTER TABLE <table> DROP COLUMN <column>`; SQLite's override (src/Platform/SQLitePlatform.php:60-64) returns the same list |
| Platforms.BuildRenameColumn | src/Platform/AbstractPlatform.php:237-240 | (body) `ALTER TABLE <table> RENAME COLUMN <old> TO <new>`; SQLite's override (src/Platform/SQLitePlatform.php:66-70) returns the same text |
| Platforms.AlterStatements | src/Platform/AbstractPlatform.php:69-116 | (body) the statements of the logged operations in order, or the first failing operation's error; its properties are AlterStatementsFailure and AlterStatementsInOrder |
| Platforms.OperationStatements | src/Platform/AbstractPlatform.php:73-112 | each logged operation gives exactly one statement; only an `addColumn` of an unknown type fails, with that type's error |
| Platforms.AlterStatementsFailure | src/Platform/AbstractPlatform.php:69-116 | the replay succeeds iff no operation fails; otherwise the error is the first failing operation's |
| Platforms.AlterStatementsInOrder | src/Platform/AbstractPlatform.php:69-116 | a successful replay yields one statement per operation, the i-th being the i-th operation's |
| Platforms.AlterTable | src/Platform/AbstractPlatform.php:69-116 | the loop over the operation log computes the replay |
| Platforms.FirstSerialPrimary | src/Platform/PostgreSQLPlatform.php:44-53 | the first serial primary column, or none exactly when there is none |
| Platforms.GuessSerialColumnName | src/Platform/PostgreSQLPlatform.php:107-119 | a column name exactly for `dtb_`/`mtb_` tables, and it is the one `serial()` derives |
| Platforms.CreateSequence | src/Platform/SQLitePlatform.php:84-98 | a statement exactly outside MySQL when a serial primary column exists, creating `<table>_<column>_seq` for the first one |
| Platforms.DropSequence | src/Platform/PostgreSQLPlatform.php:56-65 | a statement exactly outside MySQL for `dtb_`/`mtb_` tables, dropping `<table>_<derived column>_seq` |
| Platforms.SerialDefaultSql | src/Platform/PostgreSQLPlatform.php:86-100 | only for PostgreSQL with a serial primary column, and then exactly `ALTER TABLE <t> ALTER COLUMN <c> SET DEFAULT nextval('<t>_<c>_seq')` for the first such column |
| Platforms.SequenceName | src/Platform/PostgreSQLPlatform.php:102-105 | (body) `<table>_<column>_seq`, the same in SQLite (src/Platform/SQLitePlatform.php:110-113) |
| Platforms.CreateSequenceStatement | src/Platform/PostgreSQLPlatform.php:42-54 | (body) `CREATE SEQUENCE <name> START WITH 1 INCREMENT BY 1` for PostgreSQL; for SQLite (src/Platform/SQLitePlatform.php:84-98) a side table `<name>` with one autoincrement `sequence` column |
| Platforms.DropSequenceStatement | src/Platform/PostgreSQLPlatform.php:56-65 | (body) `DROP SEQUENCE IF EXISTS <name>` for PostgreSQL, `DROP TABLE IF EXISTS <name>` for SQLite (src/Platform/SQLitePlatform.php:100-108) |
| Platforms.SequenceRoundTrip | src/Platform/PostgreSQLPlatform.php:102-119 | for a `dtb_`/`mtb_` table whose serial column has the derived name, create, drop and the serial default all use the same sequence name |
| Platforms.UnprefixedSequenceIsNotDropped | src/Platform/SQLitePlatform.php:115-127 | a serial table without the EC-CUBE prefix gets a sequence on create but none on drop |
| Connection.Change | src/Migrator.php:270-288 | inserting or deleting a version row keeps the recorded versions sorted and adds or removes exactly that version |
| Connection.Exec | src/Migrator.php:290-301 | a statement fails iff it is rejected, leaving the state unchanged; otherwise it is appended to the log and its row change is applied |
| Connection.ExecAll | src/Migration.php:96-107 | statements run one after another never change the recorded versions and only extend the log |
| Connection.ExecAllCompletes | src/Migration.php:96-107 | a run of statements completes iff none is rejected, and then logs exactly those statements |
| Connection.ExecAllStops | src/Migration.php:96-107 | a failed run stopped at the first rejected statement, having logged exactly the statements before it |
| Connection.ExecAllAppend | src/Migration.php:96-107 | running two lists one after the other is running their concatenation |
| Connection.Database.constructor | src/Migrator.php:133-141 | the recorded versions are read back in ascending order and the log starts empty |
| Connection.Database.Execute | src/Migrator.php:290-301 | the connection's new state and outcome are those of Exec |
| MigrationUnit.SqlChoice | src/Migration.php:80-91 | the statement is the default or the variant of the current dialect; MySQL always gets the default |
| MigrationUnit.SqlChoiceVariants | src/Migration.php:84-90 | the PostgreSQL and SQLite variants win on their dialect when given, and the other dialect's variant is never used |
| MigrationUnit.StepStatements | src/Migration.php:32-91 | only `create` and `table` can fail to build their statements |
| MigrationUnit.CreateStepSpec | src/Migration.php:32-48 | `create` fails iff a column type is unknown; otherwise it issues CREATE TABLE, then one statement per index in order, then the sequence when there is one, and nothing else |
| MigrationUnit.DropStepSpec | src/Migration.php:53-62 | `drop` issues DROP TABLE first, then the sequence drop exactly outside MySQL for `dtb_`/`mtb_` tables |
| MigrationUnit.RunStep | src/Migration.php:32-91 | a primitive never changes the recorded versions |
| MigrationUnit.RunSteps | src/Migration.php:25-27 | a migration body never changes the recorded versions |
| MigrationUnit.RunAllCompiled | src/Migration.php:32-91 | when every primitive builds, running them is executing all their statements in order until the first rejection |
| MigrationUnit.RunStepsCompiled | src/Migration.php:25-27 | the same for a migration body given as primitives |
| MigrationUnit.Script | src/Migration.php:25-91 | a body's statements fail to build iff one of its primitives fails to build |
| MigrationUnit.RunStepsScript | src/Migration.php:25-107 | a body completes iff its script builds and no statement of it is refused, logging exactly the script; when it builds, running the body is executing the script |
| MigrationUnit.RunAllAbort | src/Migration.php:96-107 | once a primitive fails, the later ones have no effect |
| MigrationUnit.ShortName | src/Migration.php:114 | the class name after its last backslash |
| MigrationUnit.VersionOf | src/Migration.php:115-116 | a version exactly when the name starts with `Version` and a digit; it is the whole digit run that follows |
| MigrationUnit.VersionOfRoundTrip | src/Migration.php:115-118 | `Version<v><suffix>` gives back v when the suffix does not start with a digit |
| MigrationUnit.GetVersion | src/Migration.php:112-119 | the digit run after `Version` in the short class name, or the whole short name without a match |
| MigrationUnit.Migration.constructor | src/Migration.php:10-13 | a migration with its class, body, platform and connection |
| MigrationUnit.Migration.SetConnection | src/Migration.php:15-18 | replaces the connection and keeps the platform |
| MigrationUnit.Migration.SetPlatform | src/Migration.php:20-23 | replaces the platform and keeps the connection |
| MigrationUnit.Migration.Execute | src/Migration.php:96-107 | one statement on the connection, as Exec |
| MigrationUnit.Migration.ExecuteEach | src/Migration.php:40-42 | executes the statements in order and stops at the first failure |
| MigrationUnit.Migration.Create | src/Migration.php:32-48 | the connection ends as RunStep of `create` leaves it |
| MigrationUnit.Migration.Drop | src/Migration.php:53-62 | the connection ends as RunStep of `drop` leaves it |
| MigrationUnit.Migration.Table | src/Migration.php:67-75 | the connection ends as RunStep of `table` leaves it |
| MigrationUnit.Migration.Sql | src/Migration.php:80-91 | the connection ends as RunStep of `sql` leaves it |
| MigrationUnit.Migration.Perform | src/Migration.php:32-91 | one primitive, as RunStep |
| MigrationUnit.Migration.PerformAll | src/Migration.php:25-27 | a list of primitives, as RunSteps |
| MigrationUnit.Migration.Up | src/Migration.php:25 | runs the class's `up()` primitives, as RunSteps |
| MigrationUnit.Migration.Down | src/Migration.php:27 | runs the class's `down()` primitives, as RunSteps |
| MigrationUnit.Migration.Version | src/Migration.php:112-119 | the version of the migration's own class name |
| MigrationRunner.CreatePlatform | src/Migrator.php:26-42 | `mysqli` and `mysql` give MySQL, `pgsql`, `postgres` and `postgresql` give PostgreSQL, `sqlite3` and `sqlite` give SQLite, each and only these; any other name gives `Unsupported database type` with that name |
| MigrationRunner.CreatePlatformAccepts | src/Migrator.php:26-42 | exactly the seven names `mysqli`, `mysql`, `pgsql`, `postgres`, `postgresql`, `sqlite3`, `sqlite` are accepted, and each dialect's own name (`getName()`) selects that dialect |
| MigrationRunner.MigrationTableSql | src/Migrator.php:230-268 | every dialect's DDL is `CREATE TABLE IF NOT EXISTS dtb_migration (...` |
| MigrationRunner.VersionLiteral | src/Migrator.php:270-288 | a version is inserted and deleted by its literal text, since `addslashes` leaves digits alone and is undone by stripping |
| MigrationRunner.InsertSql | src/Migrator.php:270-278 | (body) `INSERT INTO dtb_migration (version) VALUES ('<addslashes(version)>')`; VersionLiteral reads the version back |
| MigrationRunner.DeleteSql | src/Migrator.php:280-288 | (body) `DELETE FROM dtb_migration WHERE version = '<addslashes(version)>'`; VersionLiteral reads the version back |
| MigrationRunner.DigitsNeedNoSlashes | src/Migrator.php:272-276 | `addslashes` of a digit string is that string |
| MigrationRunner.ClassNamed | src/Migrator.php:186-190 | `class_exists`: a declared class whose name equals the one asked for up to ASCII letter case, or none exactly when no declared class has such a name |
| MigrationRunner.ClassNamedIgnoresCase | src/Migrator.php:186-190 | two names that differ only in letter case find the same class |
| MigrationRunner.FirstNamingShort | src/Migrator.php:193-197 | the first declared class whose name is the short name or ends with a backslash and it |
| MigrationRunner.MigrationClassFor | src/Migrator.php:178-200 | (body) the namespaced candidate, then the bare one, each by `class_exists` and returned under the spelling asked for, then the first declared class by its suffix; its properties are MigrationClassForSpec |
| MigrationRunner.MigrationClassForSpec | src/Migrator.php:178-200 | a class is found iff some declared class has, up to case, the namespaced or the bare short name, or ends in `\` and the short name; the one found keeps the declared class's own spelling and kind, and is returned under a name that agrees with that spelling up to case and is the namespaced or bare short name or ends in `\` and the short name |
| MigrationRunner.ShortNameOfQualified | src/Migrator.php:193-195 | the short name of a class found by its suffix is the name searched for |
| MigrationRunner.DiscoverIsClassVersion | src/Migrator.php:155-170 | the class found for a discovered file is a declared one; the name it is returned under has the file's base name as short name and `getVersion()` of that name is the file's version; the declared short name agrees with the file's base name up to case, and when it agrees exactly, `getVersion()` of the instance is the file's version too |
| MigrationRunner.DiscoveredVersionIsClassVersion | src/Migrator.php:147-176 | for every discovered entry, `getVersion()` of the name it was found under is its version; the declared short name agrees with that name's up to case, and gives the same version when it agrees exactly |
| MigrationRunner.ShortNameIgnoresCase | src/Migration.php:114 | names that agree up to case have short names that agree up to case |
| MigrationRunner.DeclaredInOtherCase | src/Migration.php:112-119 | a file `Version1_a.php` whose class is declared as `version1_a` is filed under version `1`, while `getVersion()` of that class returns `version1_a` |
| MigrationRunner.ToMapKeys | src/Migrator.php:163-170 | the version map has a key exactly for each discovered version |
| MigrationRunner.ToMapLastWins | src/Migrator.php:167-170 | a later file with the same version replaces the earlier class |
| MigrationRunner.SortedVersions | src/Migrator.php:174 | the available versions are in ascending order |
| MigrationRunner.SortedVersionsKeys | src/Migrator.php:174 | the sorted versions are exactly the keys of the map |
| MigrationRunner.AvailableVersions | src/Migrator.php:147-176 | sorted, and exactly the available versions (none when the directory is missing) |
| MigrationRunner.Discover | src/Migrator.php:156-170 | (body) a `Version*.php` file whose base name has digits after `Version` and whose class is found gives its version and class; its properties are DiscoverIsClassVersion |
| MigrationRunner.Available | src/Migrator.php:147-176 | (body) the map of the discovered entries, the last one for a version winning, empty without the directory; its properties are ToMapKeys, ToMapLastWins and AvailableVersions |
| MigrationRunner.RunUnit | src/Migrator.php:202-222 | a class that is not a migration raises `must extend Migration` before anything runs; a migration runs its `up()` or `down()` body, as RunSteps; the recorded versions never change |
| MigrationRunner.UnitScript | src/Migrator.php:202-222 | the statements the class's `up()` or `down()` sends, or the non-migration error, or the first primitive that cannot be built |
| MigrationRunner.RunUnitScript | src/Migrator.php:202-222 | a unit completes iff its script exists and no statement of it is refused, and then it has logged exactly that script |
| MigrationRunner.Pending | src/Migrator.php:61-63 | ascending, and exactly the available versions that are not recorded |
| MigrationRunner.AddAll | src/Migrator.php:270-278 | recording a list of versions keeps the records sorted and adds exactly them |
| MigrationRunner.RemoveAll | src/Migrator.php:280-288 | deleting a list of versions keeps the records sorted and removes exactly them |
| MigrationRunner.MigrateOne | src/Migrator.php:70-71 | the class's `up()` runs first; if it raises, that is the outcome and no record is added; otherwise the INSERT of the version follows, the only statement logged after `up()`'s, and on success it records the version |
| MigrationRunner.MigrateOneLog | src/Migrator.php:70-71 | a version completes iff its `up()` script and then its INSERT are sent without refusal, and the log then grows by exactly those |
| MigrationRunner.Units | src/Migrator.php:66-70 | each pending version is paired with its available class, in order |
| MigrationRunner.MigrateStep | src/Migrator.php:66-73 | after a failure nothing more happens; a successful step records its version and appends it to the result |
| MigrationRunner.VersionsOf | src/Migrator.php:66 | the versions of the units, in order |
| MigrationRunner.MigrateEach | src/Migrator.php:66-73 | the loop keeps the database state valid |
| MigrationRunner.MigrateProgress | src/Migrator.php:53-76 | `migrate` keeps the database state valid |
| MigrationRunner.MigrateRun | src/Migrator.php:53-76 | the same, with the result or the exception |
| MigrationRunner.MigrateEachSpec | src/Migrator.php:66-73 | the versions migrated are a prefix of the pending ones, and all of them when nothing failed |
| MigrationRunner.MigrateEachRecords | src/Migrator.php:70-72 | the records afterwards are the records before plus exactly the versions migrated |
| MigrationRunner.MigrateEachLog | src/Migrator.php:66-73 | the loop completes iff every pending unit's `up()` script and INSERT are sent without refusal; the log then grows by each unit's `up()` statements followed by its INSERT, unit after unit in order |
| MigrationRunner.MigrateEachAbort | src/Migrator.php:66-73 | once a unit raises, the later units have no effect |
| MigrationRunner.MigrateRunSpec | src/Migrator.php:53-76 | `migrate` applies a prefix of the pending versions, ascending, and records exactly those; on success it returns exactly the available versions that were not recorded, and everything available is then recorded |
| MigrationRunner.MigrateRunLog | src/Migrator.php:53-76 | `migrate` succeeds iff the table DDL and then the script of the pending units are sent without refusal; the log then holds the DDL, then for each pending version in ascending order its `up()` statements and its INSERT |
| MigrationRunner.MigrateIdempotent | src/Migrator.php:57-63 | after a successful `migrate`, a second one returns an empty list |
| MigrationRunner.Reverse | src/Migrator.php:90 | `array_reverse` |
| MigrationRunner.RollbackTargets | src/Migrator.php:90 | the first `steps` entries of the reversed records (PHP `array_slice`, negative steps included) |
| MigrationRunner.RollbackTargetsNewest | src/Migrator.php:86-90 | the targets are the newest recorded versions, newest first |
| MigrationRunner.WithClass | src/Migrator.php:93-94 | the targets that still have an available class, and no other version, kept in the order of the targets |
| MigrationRunner.RollbackOne | src/Migrator.php:95-96 | the class's `down()` runs first; if it raises, that is the outcome and the record is kept; otherwise the DELETE of the version follows, the only statement logged after `down()`'s, and on success it removes the record |
| MigrationRunner.RollbackOneLog | src/Migrator.php:95-96 | a version completes iff its `down()` script and then its DELETE are sent without refusal, and the log then grows by exactly those |
| MigrationRunner.RollbackStep | src/Migrator.php:94-98 | a version without a class is skipped with its record kept; otherwise as RollbackOne, appended to the result |
| MigrationRunner.RollbackEach | src/Migrator.php:93-99 | the loop keeps the database state valid |
| MigrationRunner.RollbackProgress | src/Migrator.php:82-102 | `rollback` keeps the database state valid |
| MigrationRunner.RollbackRun | src/Migrator.php:82-102 | the same, with the result or the exception |
| MigrationRunner.RollbackEachSpec | src/Migrator.php:93-99 | the versions rolled back are a prefix of the targets with a class, and all of them when nothing failed |
| MigrationRunner.RollbackEachRecords | src/Migrator.php:95-97 | the records afterwards are the records before minus exactly the versions rolled back |
| MigrationRunner.RollbackEachLog | src/Migrator.php:93-99 | the loop completes iff each target with a class has its `down()` script and DELETE sent without refusal; the log then grows by those, target after target, and targets without a class add nothing |
| MigrationRunner.RollbackEachAbort | src/Migrator.php:93-99 | once a target raises, the later targets have no effect |
| MigrationRunner.RollbackRunSpec | src/Migrator.php:82-102 | `rollback` reverts a prefix of the targets with a class and deletes exactly their records; on success it returns all of them, and targets without a class keep their records |
| MigrationRunner.RollbackRunLog | src/Migrator.php:82-102 | `rollback` succeeds iff the table DDL and then the script of its targets are sent without refusal; the log then holds the DDL, then for each target with a class, newest first, its `down()` statements and its DELETE |
| MigrationRunner.RollbackNewestFirst | src/Migrator.php:86-99 | a successful `rollback` returns its versions in strictly descending order |
| MigrationRunner.StatusRows | src/Migrator.php:115-124 | one row per available version, in order, executed iff it is recorded, named by the class found for that version |
| MigrationRunner.StatusRun | src/Migrator.php:108-127 | fails only when the migration table cannot be ensured; otherwise one row per available version, ascending, executed iff recorded, and named by the class `getAvailableMigrations()` maps that version to |
| MigrationRunner.StatusAfterMigrate | src/Migrator.php:108-127 | after a successful `migrate`, every status row is executed |
| MigrationRunner.Migrator.constructor | src/Migrator.php:19-24 | a runner for a connection, dialect and migrations directory |
| MigrationRunner.Migrator.Open | src/Migrator.php:19-42 | construction fails with `Unsupported database type` exactly when the name is not accepted, before any SQL runs |
| MigrationRunner.Migrator.EnsureMigrationTable | src/Migrator.php:224-228 | sends the dialect's migration-table DDL, as Exec |
| MigrationRunner.Migrator.GetExecutedMigrations | src/Migrator.php:133-141 | the recorded versions, ascending |
| MigrationRunner.Migrator.FindMigrationClass | src/Migrator.php:178-200 | the loops compute MigrationClassFor |
| MigrationRunner.Migrator.GetAvailableMigrations | src/Migrator.php:147-176 | the loop over the files computes the available map and its sorted versions |
| MigrationRunner.Migrator.DiscoverFile | src/Migrator.php:156-170 | one file's version and class, as Discover |
| MigrationRunner.Migrator.RunMigration | src/Migrator.php:202-222 | the connection ends as RunUnit leaves it |
| MigrationRunner.Migrator.MarkAsExecuted | src/Migrator.php:270-278 | sends the INSERT for the version, which records it, as Exec |
| MigrationRunner.Migrator.MarkAsNotExecuted | src/Migrator.php:280-288 | sends the DELETE for the version, which removes it, as Exec |
| MigrationRunner.Migrator.MigrateVersion | src/Migrator.php:70-71 | `up` and then the record, as MigrateOne |
| MigrationRunner.Migrator.RollbackVersion | src/Migrator.php:95-96 | `down` and then the deletion, as RollbackOne |
| MigrationRunner.Migrator.Migrate | src/Migrator.php:53-76 | the connection and the result are MigrateRun's, whose properties MigrateRunSpec and MigrateIdempotent state |
| MigrationRunner.Migrator.Rollback | src/Migrator.php:82-102 | the connection and the result are RollbackRun's, whose properties RollbackRunSpec states |
| MigrationRunner.Migrator.GetStatus | src/Migrator.php:108-127 | the connection and the result are StatusRun's |
| Versions.Trichotomy | src/Migrator.php:63 | the numeric order on versions is a strict total order |
| Versions.Insert | src/Migrator.php:63 | inserting keeps a list sorted, adds exactly the version and ignores a duplicate |
| Versions.Remove | src/Migrator.php:63 | removing keeps a list sorted and removes exactly the version |
| Versions.Sort | src/Migrator.php:63 | `sort`: sorted, with the same versions |
| Versions.SortedUnique | src/Migrator.php:174 | two sorted lists with the same versions are equal |
| Versions.SortSorted | src/Migrator.php:136 | sorting a list already in ascending order returns it |
| Versions.SameWidthSameValue | src/Migrator.php:63 | two versions of the same width and numeric value are the same string, so among fixed-width versions the numeric order tells every two distinct versions apart |
| Strings.NatToString | src/Platform/AbstractPlatform.php:203 | the decimal form of a natural number: a non-empty digit string with that value and no leading zero |
| Strings.IntToString | src/Platform/AbstractPlatform.php:203 | the decimal form of an integer is canonical and parses back to that integer |
| Strings.CanonicalIntIsIntToString | src/Platform/AbstractPlatform.php:203 | canonical decimal text is the decimal form of the integer it denotes, so it is unique |
| Strings.LeadingIntReadsInteger | src/Platform/AbstractPlatform.php:175 | an integer's decimal text, after any white space and before any text that does not start with a digit, is read as that integer |
| Strings.LeadingDigits | src/Migration.php:115 | the longest run of digits at the start of a string |
| Strings.StripSlashesAddSlashes | src/Platform/AbstractPlatform.php:211 | `addslashes` is undone by stripping the slashes |
| Strings.AddSlashes | src/Migrator.php:275 | (body) PHP `addslashes`, escaping each quote, double quote, backslash and NUL; StripSlashesAddSlashes undoes it |
| Strings.FormatD | src/Platform/AbstractPlatform.php:175 | (body) `sprintf` where every conversion is `%d` and each argument is already decimal text; its properties are FormatDCopiesLiteral, FormatDConversion, FormatDOne and FormatDTwo |
| Strings.FormatDCopiesLiteral | src/Platform/AbstractPlatform.php:175 | text without `%` is copied through unchanged |
| Strings.FormatDConversion | src/Platform/AbstractPlatform.php:175 | a `%d` is replaced by the next argument |
| Strings.FormatDOne | src/Platform/AbstractPlatform.php:175 | `sprintf` of a one-`%d` template substitutes the argument |
| Strings.FormatDTwo | src/Platform/AbstractPlatform.php:186 | `sprintf` of a two-`%d` template substitutes both arguments in order |
| Wrappers.CollectSpec | src/Platform/AbstractPlatform.php:23-30 | collecting results succeeds iff each one does, keeping them in order; otherwise the error is the first one's |
| Wrappers.CollectAbort | src/Platform/AbstractPlatform.php:23-30 | after the first error, later results do not matter |

## Left out

- The console commands (`src/Command/*.php`) are not part of this model. They cover
  environment detection, DSN construction, file creation and timestamps.
- The connection dispatch in `execute()` and `fetchColumn()` is not modelled. It covers
  `SC_Query`, PDO and any object with `exec`, and the `Unsupported connection type` error.
  The connection is an abstract database that accepts all statements except a fixed set.
  The runner's own `INSERT` and `DELETE` on `dtb_migration` change its recorded versions,
  which `SELECT version ... ORDER BY version ASC` returns.
- Migration bodies are assumed not to write `dtb_migration` themselves: a statement sent
  through `Migration::execute()` (including a `sql()` step) is logged but never changes the
  recorded versions.
- The database's own enforcement of `UNIQUE` on `version` is not modelled, and neither are
  transactions or concurrent runners. A recorded version is never recorded twice.
- Discovery is abstracted. `is_dir`, `glob`, `require_once`, `class_exists` and
  `get_declared_classes` become a given `Registry`: whether the directory exists, the file
  base names in `glob` order, and the classes declared once the files are loaded. Only the
  `Version(\d+)` extraction and the class search order are modelled.
- Migration bodies are abstracted. A migration class is the list of primitives its `up()`
  and `down()` call. The callbacks that `create()` and `table()` hand a `Table` are
  represented by the finished table (`TableDef`).
- Versions are digit strings. They are ordered by numeric value (PHP's `sort`/`ksort` on
  numeric keys), and a version's text is taken to be its canonical form. The SQL
  `ORDER BY version` on the text column is modelled by the same order, which coincides
  when versions have equal width (the timestamp convention).
- Float option and default values (`is_float`) are not modelled, because their formatting
  is PHP's float-to-string conversion. `Value` has null, booleans, integers and strings.
- Platforms.FormatInteger: a string option in exponent notation (`1e3`) or beyond the
  64-bit range is read by its leading sign and digits only; PHP converts such a string
  through a float (`1e3` gives 1000) and caps it at the integer range. Lengths written as
  plain decimal text, with or without white space and sign, are read as PHP reads them.
- Option values that are arrays are not modelled. A stored null option counts as absent,
  as PHP's `??` makes it in `getOption`.
- The PostgreSQL `createTable` override is modelled as the parent's result, CreateTable. Its own loop only computes a local variable that is then discarded.
- The base `getSerialDefaultSql` is `null` for MySQL and SQLite, which is the `None` of
  SerialDefaultSql. `create()` never calls it, and the model does not either.
- Migration tests that expect `IF NOT EXISTS` on the PostgreSQL sequence, or `null`
  sequences for SQLite, are not followed. The model follows the code, which emits neither.
- MigrationRunner.MigrationTableSql: the contract states only the common prefix of the DDL.
  The full per-dialect text is the body. The `RuntimeException` default branch cannot be
  reached with the three dialects.
- The runner computes the migration-table DDL once, in its `tableSql` field. The source
  rebuilds the same string on every call.
- MigrationRunner.DiscoverIsClassVersion: `getVersion()` of the instance is stated to be the
  file's version only when the class was declared with the file's spelling. A class declared
  in another letter case is still found (`class_exists` ignores case) and filed under the
  file's version, but `getVersion()` reads the declared spelling with a case-sensitive
  pattern and can return something else (DeclaredInOtherCase).
- MigrationRunner.DiscoveredVersionIsClassVersion: the same restriction, for every entry.
- The trivial getters are not separate members. They cover `getPlatform`, `getName`,
  `getColumns`, `getIndexes`, `getOperations`, `getPrimaryKey` and `isAlter`, and are
  modelled as direct field reads.
- `setConnection`, declared by `PlatformInterface`, has no implementation in the source and
  is not modelled.
