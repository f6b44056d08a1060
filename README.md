# Model-to-migration generator: a verified model of its decision logic

The `generate:migration {model}` Artisan command reads what an Eloquent model
class declares about its columns and relationships. It compares that with the
live database and writes Laravel migration files:

- a create migration for a table that does not exist yet;
- an update migration adding new columns and `->change()`-ing changed ones;
- a foreign-key migration that adds or repairs backing columns and adds
  constraints;
- pivot-table migrations for many-to-many pairs.

The command exists in two forms. The packaged command is
`src/Commands/GenerateMigrationFromModel.php`. The older in-app command is
`app/Console/Commands/GenerateMigrationFromModel.php`. They share the type
table, the change test and the column `switch`. They differ in where columns
come from, how a column call is wrapped, how an existing foreign key is
detected, and whether pivot tables are planned.

This project models both commands in Dafny.

- **The live database** is an immutable `Schema.Snapshot` taken when a run
  starts. It holds the table names, plus the columns (name, type name,
  nullability, default) and the indexes of the model's table.
- **Inflection.** Laravel's `Str::snake`, `Str::plural` and `Str::singular`
  are the function fields of an `Inflector` value. Every property holds for
  any choice of them.
- **Output.** Each migration is a `Blueprint.Unit`: its kind, its table and
  the text of the generated parts of `up()`.
- **Snippets.** That text is specified as a list of structured
  `Blueprint.Snippet`s rendered to text by `Blueprint.RenderAll`.
- **Methods.** They follow the source's loops: the classification loop, the
  `.=` accumulators, and the `$exists` flag loops of `foreignKeyExists`. Each
  is proved equal to its specification function.

Modules:

- `Schema`: the declared details, the snapshot, and the PHP rules the
  decisions depend on (`??` defaults, string truthiness, first match of
  `array_filter`).
- `TypeNames`: `parseTypeName` and `checkChangedColumn`. Both commands carry
  identical copies of these.
- `Blueprint`:
  - the fall-through `switch` as PHP executes it;
  - the column call as a value, with its text and a parser back from it;
  - the snippets and the migration units.
- `Columns`, for the packaged command:
  - `generateColumn`;
  - the create and update paths;
  - what running the guarded snippets does to the table, used to prove when
    a second run writes nothing.
- `ForeignKeys`, for the packaged command:
  - backing-column repair;
  - `foreignKeyExists`;
  - `generateForeignKey`;
  - `createRelationships`.
- `Pivots`, for the packaged command: pivot naming (`sort` order) and the
  pivot plan.
- `Command`: the packaged `handle`.
- `AppCommand`: the in-app command, plus lemmas comparing it with the
  packaged one.

Where the code and its documented intent differ, the model follows the code.
The column `switch` has no `break`, so every column renders through the
`default` arm. The declared `length` is therefore lost, and `string`, `text`
and `integer` render like any other type. `Blueprint.ColumnRow` models the
switch as written. `Blueprint.FallthroughDropsLength` shows the
consequence on the `name` field of `app/Models/Product.php`, which
`database/migrations/2024_09_07_105424_create_products_table.php:15` also
shows.

## Model

| member | source | states |
|---|---|---|
| `TypeNames.ParseTypeName` | src/Commands/GenerateMigrationFromModel.php:523-526 | the five native names map to `integer`, `string`, `text`, `json` and `unsignedBigInteger`; every other name is returned unchanged |
| `TypeNames.ParseTypeNameIdempotent` | src/Commands/GenerateMigrationFromModel.php:21-27 | normalising an already normalised name changes nothing |
| `TypeNames.ParseTypeNameFixedPoints` | src/Commands/GenerateMigrationFromModel.php:21-27 | a name is left as it is iff it is not `int`, `varchar` or `bigint` |
| `TypeNames.UnsignedBigIntegerNames` | src/Commands/GenerateMigrationFromModel.php:332-336 | a name normalises to `unsignedBigInteger` iff it is `bigint` or `unsignedBigInteger` |
| `TypeNames.CheckChangedColumn` | src/Commands/GenerateMigrationFromModel.php:502-521 | changed iff the normalised live type differs from the declared type (default `string`) or the live nullability differs from the declared one (default false) |
| `TypeNames.ChangeIgnoresDefaultsAndLength` | src/Commands/GenerateMigrationFromModel.php:502-521 | live or declared defaults and the declared length never affect the change test |
| `TypeNames.DefaultsMatchVarchar` | src/Commands/GenerateMigrationFromModel.php:17-19 | a field with null details is unchanged exactly against a non-nullable `varchar`/`string` column |
| `Blueprint.FirstArm` | src/Commands/GenerateMigrationFromModel.php:214-223 | the first arm whose case equals the subject, or past the end when none does |
| `Blueprint.LastArmWins` | src/Commands/GenerateMigrationFromModel.php:214-223 | once a `switch` without `break` is entered, the last arm's assignment is the value that survives |
| `Blueprint.ColumnRow` | src/Commands/GenerateMigrationFromModel.php:208-227 | the switch row plus nullable suffix is always `$table->{type}('{field}')`, with `->nullable()` iff nullable; the length never appears |
| `Blueprint.FallthroughDropsLength` | app/Models/Product.php:31 | the `string` arm would write `string('name', 255)`, but the row for `name` is `$table->string('name')->nullable()` |
| `Blueprint.ParseRenderCall` | src/Commands/GenerateMigrationFromModel.php:222-227 | parsing a rendered column call gives back the rendered operation (type, column, nullability) |
| `Blueprint.RenderCallInjective` | src/Commands/GenerateMigrationFromModel.php:222-227 | two different column operations never render to the same call |
| `Blueprint.RenderAll` | src/Commands/GenerateMigrationFromModel.php:269-272 | the accumulated text is empty iff no snippet was produced, which is what the `empty($foreignKeys)` test here and in app/Console/Commands/GenerateMigrationFromModel.php:242-245 relies on |
| `Blueprint.RenderAllConcat` | src/Commands/GenerateMigrationFromModel.php:166-174 | rendering two snippet lists one after the other gives the text of their concatenation |
| `Columns.GenerateColumn` | src/Commands/GenerateMigrationFromModel.php:206-240 | the snippet adds the column call when `hasColumn` is false and appends `->change()` to it otherwise |
| `Columns.GenerateFullMigration` | src/Commands/GenerateMigrationFromModel.php:74-78 | the create migration holds one guarded snippet per declared field, in order, with null details read as `{type: 'string'}` |
| `Columns.Classification` | src/Commands/GenerateMigrationFromModel.php:136-153 | a declared field is new iff the live listing lacks it, changed iff it is listed and `checkChangedColumn` holds, and never both |
| `Columns.NewColumnsMembers` | src/Commands/GenerateMigrationFromModel.php:140-142 | the new columns are exactly the unlisted declared fields with resolved details |
| `Columns.ChangedColumnsMembers` | src/Commands/GenerateMigrationFromModel.php:143-151 | the changed columns are exactly the listed declared fields whose type or nullability differ |
| `Columns.ClassificationKeepsOrder` | src/Commands/GenerateMigrationFromModel.php:136-153 | classification distributes over concatenation, so both lists keep declaration order |
| `Columns.UpdateMentionsOnlyDeclared` | src/Commands/GenerateMigrationFromModel.php:168-174 | every update snippet is a guarded call on the model's table for a declared field that is new or changed; live-only columns are never touched |
| `Columns.NothingToUpdateIff` | src/Commands/GenerateMigrationFromModel.php:155-158 | no update migration iff every declared field is listed and unchanged |
| `Columns.ClassifyFields` | src/Commands/GenerateMigrationFromModel.php:136-153 | the loop's two arrays are the new and the changed columns |
| `Columns.RenderColumns` | src/Commands/GenerateMigrationFromModel.php:168-170 | a `.=` loop over columns yields the text of their guarded snippets |
| `Columns.GenerateNewOrChangedColumnsMigration` | src/Commands/GenerateMigrationFromModel.php:124-204 | no unit when nothing is new or changed; otherwise an update unit with the new columns' snippets followed by the changed columns' |
| `Columns.ApplyAllSucceedsIff` | src/Commands/GenerateMigrationFromModel.php:229-236 | every `Schema::hasColumn` guard reads the table as it was before the migration, so a migration fails iff it calls a column the table lacked twice; when it succeeds, the table lists the old columns and every called one |
| `Columns.FindAfterAll` | src/Commands/GenerateMigrationFromModel.php:229-236 | after a migration that succeeds, a column is what its last call made it, or what it was if no call names it |
| `Columns.UpdateAddsOnce` | src/Commands/GenerateMigrationFromModel.php:136-174 | with distinct field names the update migration never adds a column twice |
| `Columns.AfterUpdate` | src/Commands/GenerateMigrationFromModel.php:136-174 | the update migration succeeds; afterwards every declared field has a column, and it reads as changed iff it was touched and its type does not round-trip through the database |
| `Columns.UpdateConvergesIff` | src/Commands/GenerateMigrationFromModel.php:124-204 | the update migration succeeds, and the next run writes nothing iff every touched field's type round-trips |
| `Columns.EmptyTableAllNew` | src/Commands/GenerateMigrationFromModel.php:136-153 | against an empty table every field is new and none changed, so the update snippets are the create snippets |
| `Columns.CreateConvergesIff` | src/Commands/GenerateMigrationFromModel.php:66-122 | the create migration succeeds on a fresh table, and the next run writes no update iff every declared type round-trips (a `boolean` reported as `tinyint` never does) |
| `ForeignKeys.BackingColumn` | src/Commands/GenerateMigrationFromModel.php:340-369 | create and fix both emit an `unsignedBigInteger` column snippet, nullable iff `onDelete` is `set null` |
| `ForeignKeys.IsForeignKeyConstraintsValid` | src/Commands/GenerateMigrationFromModel.php:323-338 | valid iff the live column's type is `bigint` or `unsignedBigInteger` |
| `ForeignKeys.CheckForeignKeyColumn` | src/Commands/GenerateMigrationFromModel.php:307-321 | nothing iff the column exists with a big-integer type; otherwise the `unsignedBigInteger` snippet |
| `ForeignKeys.FirstMatch` | src/Commands/GenerateMigrationFromModel.php:464-466 | the key itself when the index lists it, PHP `false` otherwise |
| `ForeignKeys.ExistsAfter` | src/Commands/GenerateMigrationFromModel.php:457-468 | the flag, when set, holds the key itself |
| `ForeignKeys.ForeignKeyExists` | src/Commands/GenerateMigrationFromModel.php:454-469 | the loop with its `continue` returns the flag value the specification gives |
| `ForeignKeys.ForeignKeyExistsIff` | src/Commands/GenerateMigrationFromModel.php:454-469 | the result is truthy iff some index lists the column and its name is not PHP-falsy |
| `ForeignKeys.FalsyKeyLastIndexDecides` | src/Commands/GenerateMigrationFromModel.php:460-467 | for a column named `0`, the flag is overwritten on every pass and the last index decides |
| `ForeignKeys.ForeignOpOf` | src/Commands/GenerateMigrationFromModel.php:486-489 | the constraint names the reference's column, table and field; `onDelete` defaults to `restrict` |
| `ForeignKeys.GenerateForeignKey` | src/Commands/GenerateMigrationFromModel.php:484-500 | the drop guard comes before the `foreign(...)` call |
| `ForeignKeys.BackingStep` | src/Commands/GenerateMigrationFromModel.php:258-263 | each pass appends the `checkForeignKeyColumn` text for a reference and nothing for a many-to-many entry |
| `ForeignKeys.ConstraintStep` | src/Commands/GenerateMigrationFromModel.php:264-266 | each pass appends a constraint iff `foreignKeyExists` is falsy |
| `ForeignKeys.CreateRelationships` | src/Commands/GenerateMigrationFromModel.php:242-305 | no unit for no relationships or no constraints; otherwise the backing snippets and the constraint snippets |
| `ForeignKeys.ConstraintSnippetsMembers` | src/Commands/GenerateMigrationFromModel.php:258-267 | constraints are exactly those of references that `foreignKeyExists` does not find |
| `ForeignKeys.BackingSnippetsMembers` | src/Commands/GenerateMigrationFromModel.php:258-263 | backing snippets are exactly those of references whose column is missing or mistyped |
| `ForeignKeys.RelationshipsUnitIff` | src/Commands/GenerateMigrationFromModel.php:269-272 | a foreign-key migration is written iff some reference's column is listed by no index (or has a falsy name); repairs alone are dropped |
| `ForeignKeys.EmptyTableNeedsEverything` | src/Commands/GenerateMigrationFromModel.php:307-321 | on a table with no columns or indexes every reference gets its backing column and its constraint |
| `ForeignKeys.EmittedGuardsAreIdle` | src/Commands/GenerateMigrationFromModel.php:493-495 | every emitted drop guard is false on the database the migration was generated from |
| `ForeignKeys.ManyToManyIgnored` | src/Commands/GenerateMigrationFromModel.php:259-261 | the foreign-key migration equals the one for the references alone |
| `ForeignKeys.BackingSucceedsIff` | src/Commands/GenerateMigrationFromModel.php:255-268 | the backing-column part of the foreign-key migration fails iff two references add the same column the table lacks |
| `ForeignKeys.BackingConverges` | src/Commands/GenerateMigrationFromModel.php:307-321 | when the backing snippets run without failing, no backing column is missing or mistyped afterwards |
| `ForeignKeys.RunConstraintsAdds` | src/Commands/GenerateMigrationFromModel.php:488-497 | a constraint run that succeeds adds one `{table}_{column}_foreign` index per constraint, in order |
| `ForeignKeys.ConstraintsConverge` | src/Commands/GenerateMigrationFromModel.php:264-266 | once constraints run without a name clash and their columns are indexed, the next run needs none |
| `ForeignKeys.DuplicateReferenceAddsTwice` | src/Commands/GenerateMigrationFromModel.php:255-268 | two references on `category_id` of a new `products` table add the column twice, and the migration fails |
| `ForeignKeys.DuplicateReferenceClashes` | src/Commands/GenerateMigrationFromModel.php:262-266 | the same two references add the constraint `products_category_id_foreign` twice, which fails on its own |
| `Pivots.LexLeTotal` | src/Commands/GenerateMigrationFromModel.php:389 | any two names are ordered one way or the other |
| `Pivots.LexLeAntisymmetric` | src/Commands/GenerateMigrationFromModel.php:389 | names ordered both ways are equal |
| `Pivots.Sort2` | src/Commands/GenerateMigrationFromModel.php:388-389 | `sort` returns the two names as a sorted permutation |
| `Pivots.PivotNameSymmetric` | src/Commands/GenerateMigrationFromModel.php:385-391 | `getPivotTableName(a, b) == getPivotTableName(b, a)` |
| `Pivots.PivotUnit` | src/Commands/GenerateMigrationFromModel.php:393-399 | the pivot migration targets the sorted pivot name |
| `Pivots.SwappedPairSwapsColumns` | src/Commands/GenerateMigrationFromModel.php:395-398 | swapping the pair keeps the pivot name but swaps the key columns, which follow declaration order |
| `Pivots.CreatePivotTables` | src/Commands/GenerateMigrationFromModel.php:371-383 | the loop produces exactly the pivot plan |
| `Pivots.PivotPlannedIff` | src/Commands/GenerateMigrationFromModel.php:371-383 | a pivot migration is planned exactly for many-to-many entries whose pivot table is absent |
| `Pivots.PlannedPivotsAreAbsent` | src/Commands/GenerateMigrationFromModel.php:377-379 | no planned pivot table already exists |
| `Command.Handle` | src/Commands/GenerateMigrationFromModel.php:29-64 | the run gives the schema error, or the table unit, the foreign-key unit and the pivots in that order |
| `Command.EmptySchemaIsAnError` | src/Commands/GenerateMigrationFromModel.php:44-48 | the run stops with an error iff the migration schema is empty |
| `Command.FullPathIffAbsent` | src/Commands/GenerateMigrationFromModel.php:54-60 | a create migration is written iff the model's table is absent |
| `Command.SettledModelWritesNothing` | src/Commands/GenerateMigrationFromModel.php:29-64 | a model whose columns, constraints and pivots are all in place produces no migration |
| `AppCommand.Put` | app/Console/Commands/GenerateMigrationFromModel.php:125 | assigning an array key replaces the entry at the first position holding that name and leaves every other entry where it was; a name not yet present is appended last |
| `AppCommand.PutKeepsUnique` | app/Console/Commands/GenerateMigrationFromModel.php:125 | assigning by key never makes a key appear twice |
| `AppCommand.AppGenerateColumn` | app/Console/Commands/GenerateMigrationFromModel.php:194-219 | the new-column row is the default arm's call, then `;` |
| `AppCommand.AppModifyColumn` | app/Console/Commands/GenerateMigrationFromModel.php:291-316 | the changed-column row is the default arm's call, then `->change();` |
| `AppCommand.AddAndChangeShareTheCall` | app/Console/Commands/GenerateMigrationFromModel.php:213-218 | new and changed rows differ only in the `->change()` call |
| `AppCommand.AppGenerateFullMigration` | app/Console/Commands/GenerateMigrationFromModel.php:72-76 | the create migration renders the `$fillable` fields in order |
| `AppCommand.FullFollowsFillable` | app/Console/Commands/GenerateMigrationFromModel.php:73-75 | one column call per `$fillable` entry, repeats included, with details from `$migrationSchema` or `{type: 'string'}` |
| `AppCommand.AppClassification` | app/Console/Commands/GenerateMigrationFromModel.php:121-136 | a `$fillable` field is new iff unlisted, changed iff listed and `checkChangedColumn` holds; each list names a field once |
| `AppCommand.AppClassesUnique` | app/Console/Commands/GenerateMigrationFromModel.php:121-136 | keying both arrays by field name leaves each name in each list at most once |
| `AppCommand.AppNewColumnsMembers` | app/Console/Commands/GenerateMigrationFromModel.php:123-125 | the new columns are exactly the unlisted `$fillable` fields |
| `AppCommand.AppChangedColumnsMembers` | app/Console/Commands/GenerateMigrationFromModel.php:126-134 | the changed columns are exactly the listed `$fillable` fields that differ |
| `AppCommand.ClassifiesLikePackaged` | app/Console/Commands/GenerateMigrationFromModel.php:121-136 | for a `$fillable` without repeats, both commands produce the same new and changed lists |
| `AppCommand.AppClassifyFields` | app/Console/Commands/GenerateMigrationFromModel.php:121-136 | the loop's two arrays are the specified new and changed columns |
| `AppCommand.AppRenderNew` | app/Console/Commands/GenerateMigrationFromModel.php:153-155 | the new columns render as plain calls ending in `;` |
| `AppCommand.AppRenderChanged` | app/Console/Commands/GenerateMigrationFromModel.php:157-159 | the changed columns render as calls ending in `->change();` |
| `AppCommand.AppGenerateNewOrChangedColumnsMigration` | app/Console/Commands/GenerateMigrationFromModel.php:110-192 | no unit when both lists are empty; otherwise the new columns' calls followed by the changed columns' |
| `AppCommand.AppNothingToUpdateIff` | app/Console/Commands/GenerateMigrationFromModel.php:140-143 | no update migration iff every `$fillable` field is listed and unchanged |
| `AppCommand.AppForeignKeyExists` | app/Console/Commands/GenerateMigrationFromModel.php:278-289 | the loop without `continue` returns the last index's match |
| `AppCommand.AppExistsIff` | app/Console/Commands/GenerateMigrationFromModel.php:278-289 | truthy iff there is an index, the last one lists the column, and the name is not falsy; false with no indexes |
| `AppCommand.EarlierIndexesIgnored` | app/Console/Commands/GenerateMigrationFromModel.php:283-287 | indexes before the last never change the result |
| `AppCommand.AppExistsImpliesPackaged` | app/Console/Commands/GenerateMigrationFromModel.php:278-289 | whenever this command finds the key, the packaged one does too |
| `AppCommand.VariantsDisagree` | app/Console/Commands/GenerateMigrationFromModel.php:283-287 | a key covered only by the first of two indexes is found by the packaged command and missed by this one |
| `AppCommand.AppForeignOp` | app/Console/Commands/GenerateMigrationFromModel.php:318-325 | the constraint names the entry's key column, table and field; `onDelete` defaults to `restrict` |
| `AppCommand.AppGenerateForeignKey` | app/Console/Commands/GenerateMigrationFromModel.php:318-325 | a plain `foreign(...)` call with no drop guard |
| `AppCommand.AppConstraintStep` | app/Console/Commands/GenerateMigrationFromModel.php:236-240 | each pass appends a constraint iff `foreignKeyExists` is falsy |
| `AppCommand.AppCreateRelationships` | app/Console/Commands/GenerateMigrationFromModel.php:221-275 | no unit for no relationships or no constraints; otherwise the constraints |
| `AppCommand.AppConstraintSnippetsMembers` | app/Console/Commands/GenerateMigrationFromModel.php:236-240 | constraints are exactly those of entries whose key the last index lacks |
| `AppCommand.AppRelationshipsUnitIff` | app/Console/Commands/GenerateMigrationFromModel.php:242-245 | a foreign-key migration is written iff some entry's column is missing from the last index |
| `AppCommand.AppTableUnits` | app/Console/Commands/GenerateMigrationFromModel.php:53-59 | the table's migration is a create or an update, and a create exactly when the table is absent |
| `AppCommand.AppHandle` | app/Console/Commands/GenerateMigrationFromModel.php:28-62 | the run gives the error, or the table unit and the foreign-key unit, and no pivots |
| `AppCommand.AppEmptyFillableIsAnError` | app/Console/Commands/GenerateMigrationFromModel.php:44-47 | the run stops with an error iff `$fillable` is empty, whatever `$migrationSchema` holds |
| `AppCommand.AppFullPathIffAbsent` | app/Console/Commands/GenerateMigrationFromModel.php:53-59 | a create migration is written iff the table is absent, and no pivot migration ever is |

## Left out

- File writes (`File::put`), `database_path`, `date('Y_m_d_His')` timestamps,
  `sleep(1)` and console messages. These are I/O. Each migration is returned
  as a value instead, and each message is an outcome or a missing unit.
- The migration boilerplate around the modelled parts. This covers
  - class names (`Str::studly`);
  - the `id()`, `timestamps()` and `softDeletes()` lines;
  - the `hasTable` guard of the create migration;
  - `down()`;
  - heredoc indentation.

  The snippet separators the source puts between parts are kept as plain
  newlines.
- `getMethodCode` (src/Commands/GenerateMigrationFromModel.php:442-451). It
  uses reflection to copy `foreignKeyExists` into the generated file. The
  model renders the guard that calls the copy, not the copy.
- `class_exists`, `new $modelClass` and the command argument. The model's
  declarations are taken as input (`Command.ModelDecl`, `AppCommand.AppModel`).
- The `Str::` inflector. It is an input (`Schema.Inflector`), and English
  pluralisation is not modelled.
- The live database. It is a snapshot taken at the start of a run, and every
  facade query reads it.
  - `Columns.ApplyAll`: what running a migration does is modelled only for
    the guarded column snippets, and `ForeignKeys.RunConstraints` only for
    the constraint snippets.
  - Guard timing. Laravel runs the whole `Schema::table` closure before it
    executes any command. So every `hasColumn` and `foreignKeyExists` guard
    reads the database as it was before the migration. Adding a column
    twice and adding a constraint name twice are modelled as failures (None).
    No other database error is modelled.
  - `Columns.FindAfterAll`, `ForeignKeys.BackingConverges` and
    `ForeignKeys.ConstraintsConverge` promise their result only for a
    migration that succeeds. When two references name the same missing
    column, the migration fails (`ForeignKeys.DuplicateReferenceAddsTwice`,
    `ForeignKeys.DuplicateReferenceClashes`).
  - The database's naming of types is an input (`Schema.NativeTypes`).
  - `ForeignKeys.ConstraintsConverge` assumes the database indexes each
    constrained column, as MySQL does.
- PHP loose comparison. The model uses exact string equality throughout:
  - for `in_array` and the `switch` cases;
  - for `sort`, whose order is modelled as byte-wise (`Pivots.LexLe`);
  - two numeric-string table names would compare numerically in PHP; this is
    not modelled.
  - The `== 'set null'` test is modelled as string equality.
- Missing keys in a relationship entry. Every entry has its `column`,
  `table` and `field`, as the source assumes. `onDelete` is optional.
  - Packaged entries are either `manyToMany` or a reference.
  - In-app entries are all references. The source would fail on a
    `manyToMany` entry there.
- Integer lengths in a declaration are rendered in decimal. No declaration
  reaches that text anyway, because of the fall-through.
- `src/MigrationGeneratorServiceProvider.php` is framework registration. It is
  not part of this model.
- The sample migrations under `database/migrations/` and
  `app/Models/Product.php` are outputs and sample data. Only the `name`
  field's lost length is reproduced, in `Blueprint.FallthroughDropsLength`.
