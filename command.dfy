/** `handle` of the packaged command: pick the full-create or the update
    path for the model's table, then plan the foreign keys and the pivot
    tables. */
module Command {
  import opened Schema
  import opened TypeNames
  import opened Blueprint
  import opened Columns
  import opened ForeignKeys
  import opened Pivots

  /** What a model class declares: its short class name, `$migrationSchema`
      and `$relationships` (a missing property reads as empty). */
  datatype ModelDecl = ModelDecl(name: string, migrationSchema: seq<Field>, relationships: seq<Relationship>)

  datatype Outcome =
    | NoMigrationSchema      // "No migration schema found in the model."
    | Generated(units: seq<Unit>)

  /** `Str::plural(Str::snake($modelName))` */
  function TableName(infl: Inflector, modelName: string): string {
    infl.plural(infl.snake(modelName))
  }

  function UnitsOf(u: Option<Unit>): seq<Unit> {
    if u.Some? then [u.value] else []
  }

  /** The migrations one run writes, in the order it writes them. */
  function PlanHandle(infl: Inflector, model: ModelDecl, db: Snapshot): Outcome {
    if model.migrationSchema == [] then NoMigrationSchema
    else
      var table := TableName(infl, model.name);
      var tableUnits :=
        if table !in db.tables then [CreateTable(table, RenderAll(FullSnippets(table, model.migrationSchema)))]
        else UnitsOf(PlanUpdate(table, model.migrationSchema, db.columns));
      Generated(tableUnits
                + UnitsOf(PlanRelationships(table, model.relationships, db.columns, db.indexes))
                + PlanPivots(infl, model.relationships, db.tables))
  }

  /** `handle` */
  method Handle(infl: Inflector, model: ModelDecl, db: Snapshot) returns (outcome: Outcome)
    ensures outcome == PlanHandle(infl, model, db)
  {
    var migrationSchema := model.migrationSchema;
    var relationships := model.relationships;
    if migrationSchema == [] {
      return NoMigrationSchema;
    }
    var tableName := TableName(infl, model.name);
    var units: seq<Unit>;
    if tableName !in db.tables {
      var full := GenerateFullMigration(tableName, migrationSchema);
      units := [full];
    } else {
      var update := GenerateNewOrChangedColumnsMigration(tableName, migrationSchema, db.columns);
      units := UnitsOf(update);
    }
    var foreignKeys := CreateRelationships(tableName, relationships, db.columns, db.indexes);
    units := units + UnitsOf(foreignKeys);
    var pivots := CreatePivotTables(infl, relationships, db.tables);
    outcome := Generated(units + pivots);
  }

  /** The run stops with an error exactly when the model declares no
      columns. */
  lemma EmptySchemaIsAnError(infl: Inflector, model: ModelDecl, db: Snapshot)
    ensures PlanHandle(infl, model, db).NoMigrationSchema? <==> model.migrationSchema == []
  {
  }

  /** The full-create migration is written exactly when the model's table is
      absent; otherwise at most an update migration is. */
  lemma FullPathIffAbsent(infl: Inflector, model: ModelDecl, db: Snapshot)
    requires model.migrationSchema != []
    ensures var units := PlanHandle(infl, model, db).units;
            (exists u :: u in units && u.CreateTable?) <==> TableName(infl, model.name) !in db.tables
  {
    var table := TableName(infl, model.name);
    var units := PlanHandle(infl, model, db).units;
    var fks := UnitsOf(PlanRelationships(table, model.relationships, db.columns, db.indexes));
    var pivots := PlanPivots(infl, model.relationships, db.tables);
    if table !in db.tables {
      assert units[0].CreateTable?;
    } else {
      forall u | u in units
        ensures !u.CreateTable?
      {
        if u in pivots {
          PivotPlannedIff(infl, model.relationships, db.tables, u);
        }
      }
    }
  }

  /** A model whose table is settled writes nothing: every field has a live
      column of the same normalised type and nullability, an index lists
      every reference's column, and every pivot table exists. */
  lemma SettledModelWritesNothing(infl: Inflector, model: ModelDecl, db: Snapshot)
    requires model.migrationSchema != []
    requires TableName(infl, model.name) in db.tables
    requires forall f :: f in model.migrationSchema ==> !IsNew(f, db.columns) && !IsChanged(f, db.columns)
    requires forall r :: r in model.relationships && r.Reference? ==>
               Truthy(r.column) && exists i :: 0 <= i < |db.indexes| && r.column in db.indexes[i].columns
    requires forall r :: r in model.relationships && r.ManyToMany? ==>
               GetPivotTableName(infl, r.table1, r.table2) in db.tables
    ensures PlanHandle(infl, model, db) == Generated([])
  {
    var table := TableName(infl, model.name);
    NothingToUpdateIff(table, model.migrationSchema, db.columns);
    RelationshipsUnitIff(table, model.relationships, db.columns, db.indexes);
    var pivots := PlanPivots(infl, model.relationships, db.tables);
    if pivots != [] {
      PivotPlannedIff(infl, model.relationships, db.tables, pivots[0]);
    }
  }
}
