/** The in-app variant of the command. Its columns come from `$fillable`
    (details looked up in `$migrationSchema`), its column calls are plain
    (a `Schema::create` body, or `->change()` for a changed column), its
    relationships are keyed by foreign-key column, its `foreignKeyExists`
    keeps only the last index's answer, and it has no pivot step. The type
    table, the change test and the fall-through switch are the packaged
    command's (modules TypeNames and Blueprint). */
module AppCommand {
  import opened Schema
  import opened TypeNames
  import opened Blueprint
  import opened Columns
  import opened ForeignKeys
  import opened Command

  /** `$migrationSchema[$field] ?? $this->defaultMigrationSchema`: a missing
      key and a null entry both give the default. */
  function DetailsFor(schema: map<string, Option<Details>>, field: string): Details {
    if field in schema && schema[field].Some? then schema[field].value else DefaultSchema
  }

  /** Position of the first column named `name`, or `|cols|`. */
  function KeyIndex(cols: seq<Column>, name: string): (k: nat)
    ensures k <= |cols|
    ensures k < |cols| ==> cols[k].name == name
    ensures forall j :: 0 <= j < k ==> cols[j].name != name
  {
    if cols == [] then 0 else if cols[0].name == name then 0 else 1 + KeyIndex(cols[1..], name)
  }

  /** `$columns[$c->name] = $c` on a PHP array: an existing key keeps its
      place and takes the new value, a new key goes last. */
  function Put(cols: seq<Column>, c: Column): (r: seq<Column>)
    ensures c in r
    ensures forall d :: d in r ==> d == c || d in cols
    ensures forall d :: d in cols ==> d in r || d.name == c.name
    ensures (forall i :: 0 <= i < |cols| ==> cols[i].name != c.name) ==> r == cols + [c]
    ensures forall k :: 0 <= k < |cols| && cols[k].name == c.name && (forall j :: 0 <= j < k ==> cols[j].name != c.name)
                        ==> r == cols[..k] + [c] + cols[k + 1..]
  {
    var k := KeyIndex(cols, c.name);
    if k == |cols| then cols + [c]
    else
      PutInPlace(cols, k, c);
      cols[..k] + [c] + cols[k + 1..]
  }

  /** Replacing entry `k`: the entries are `cols`'s, with `c` at `k`. */
  lemma PutInPlace(cols: seq<Column>, k: nat, c: Column)
    requires k < |cols|
    ensures var r := cols[..k] + [c] + cols[k + 1..];
            |r| == |cols| && r[k] == c && forall i :: 0 <= i < |r| && i != k ==> r[i] == cols[i]
    ensures var r := cols[..k] + [c] + cols[k + 1..];
            forall d :: d in cols ==> d in r || d == cols[k]
  {
    var r := cols[..k] + [c] + cols[k + 1..];
    forall d | d in cols
      ensures d in r || d == cols[k]
    {
      var i :| 0 <= i < |cols| && cols[i] == d;
      if i != k {
        assert r[i] == d;
      }
    }
  }

  /** Assignment by key never makes a key appear twice. */
  lemma PutKeepsUnique(cols: seq<Column>, c: Column)
    requires Distinct(ColumnNames(cols))
    ensures Distinct(ColumnNames(Put(cols, c)))
  {
    var r := Put(cols, c);
    var k := KeyIndex(cols, c.name);
    if k == |cols| {
      forall i, j | 0 <= i < j < |r|
        ensures r[i].name != r[j].name
      {
        assert r[i] == cols[i];
      }
    } else {
      PutInPlace(cols, k, c);
      forall i, j | 0 <= i < j < |r|
        ensures r[i].name != r[j].name
      {
        assert r[i].name == cols[i].name && r[j].name == cols[j].name;
      }
    }
  }

  // ---------------------------------------------------------------------
  // Columns
  // ---------------------------------------------------------------------

  /** `generateColumn` of this variant: the switch row, `;` and a newline. */
  function AppGenerateColumn(field: string, details: Details): (row: string)
    ensures row == Render(AddColumn(ColumnOpOf(field, details)))
  {
    ColumnRow(field, details) + ";\n"
  }

  /** `modifyColumn`: the same row, then `->change();` and a newline. */
  function AppModifyColumn(field: string, details: Details): (row: string)
    ensures row == Render(ChangeColumn(ColumnOpOf(field, details)))
  {
    ColumnRow(field, details) + "->change();\n"
  }

  /** A new and a changed column differ only in the `->change()` call: both
      name the same Blueprint method, column and nullability. */
  lemma AddAndChangeShareTheCall(field: string, details: Details)
    ensures Render(ChangeColumn(ColumnOpOf(field, details)))
         == RenderCall(ColumnOpOf(field, details)) + "->change();\n"
    ensures Render(AddColumn(ColumnOpOf(field, details)))
         == RenderCall(ColumnOpOf(field, details)) + ";\n"
  {
  }

  /** The create migration's column calls: one per `$fillable` entry, in
      order, repeats included. */
  function AppFullSnippets(fillable: seq<string>, schema: map<string, Option<Details>>): seq<Snippet> {
    if fillable == [] then []
    else
      var field := fillable[|fillable| - 1];
      AppFullSnippets(fillable[..|fillable| - 1], schema) + [AddColumn(ColumnOpOf(field, DetailsFor(schema, field)))]
  }

  /** The `foreach ($fillable ...)` of `generateFullMigration`. */
  method AppGenerateFullMigration(table: string, fillable: seq<string>, schema: map<string, Option<Details>>)
    returns (unit: Unit)
    ensures unit == CreateTable(table, RenderAll(AppFullSnippets(fillable, schema)))
  {
    var columns := "";
    for i := 0 to |fillable|
      invariant columns == RenderAll(AppFullSnippets(fillable[..i], schema))
    {
      var field := fillable[i];
      var details := DetailsFor(schema, field);
      assert fillable[..i + 1][..i] == fillable[..i];
      RenderAllSnoc(AppFullSnippets(fillable[..i], schema), AddColumn(ColumnOpOf(field, details)));
      columns := columns + AppGenerateColumn(field, details);
    }
    assert fillable[..|fillable|] == fillable;
    unit := CreateTable(table, columns);
  }

  /** The create migration has one column call per `$fillable` entry, in
      the same order; a field listed twice is created twice. */
  lemma {:induction false} FullFollowsFillable(fillable: seq<string>, schema: map<string, Option<Details>>)
    ensures |AppFullSnippets(fillable, schema)| == |fillable|
    ensures forall i :: 0 <= i < |fillable| ==>
              AppFullSnippets(fillable, schema)[i] == AddColumn(ColumnOpOf(fillable[i], DetailsFor(schema, fillable[i])))
  {
    if fillable != [] {
      FullFollowsFillable(fillable[..|fillable| - 1], schema);
    }
  }

  /** `$newColumns` after the classification loop. */
  function AppNewColumns(fillable: seq<string>, schema: map<string, Option<Details>>, live: seq<LiveColumn>): seq<Column> {
    if fillable == [] then []
    else
      var field := fillable[|fillable| - 1];
      var before := AppNewColumns(fillable[..|fillable| - 1], schema, live);
      if field !in Listing(live) then Put(before, Column(field, DetailsFor(schema, field))) else before
  }

  /** `$changedColumns` after the classification loop. */
  function AppChangedColumns(fillable: seq<string>, schema: map<string, Option<Details>>, live: seq<LiveColumn>): seq<Column> {
    if fillable == [] then []
    else
      var field := fillable[|fillable| - 1];
      var before := AppChangedColumns(fillable[..|fillable| - 1], schema, live);
      if field in Listing(live) && CheckChangedColumn(FindColumn(live, field).value, DetailsFor(schema, field))
      then Put(before, Column(field, DetailsFor(schema, field)))
      else before
  }

  lemma {:induction false} AppNewColumnsMembers(fillable: seq<string>, schema: map<string, Option<Details>>,
                                                live: seq<LiveColumn>, c: Column)
    ensures c in AppNewColumns(fillable, schema, live)
        <==> exists f :: f in fillable && f !in Listing(live) && c == Column(f, DetailsFor(schema, f))
  {
    if fillable != [] {
      var init, last := fillable[..|fillable| - 1], fillable[|fillable| - 1];
      assert fillable == init + [last];
      AppNewColumnsMembers(init, schema, live, c);
    }
  }

  lemma {:induction false} AppChangedColumnsMembers(fillable: seq<string>, schema: map<string, Option<Details>>,
                                                    live: seq<LiveColumn>, c: Column)
    ensures c in AppChangedColumns(fillable, schema, live)
        <==> exists f :: f in fillable && f in Listing(live)
                         && CheckChangedColumn(FindColumn(live, f).value, DetailsFor(schema, f))
                         && c == Column(f, DetailsFor(schema, f))
  {
    if fillable != [] {
      var init, last := fillable[..|fillable| - 1], fillable[|fillable| - 1];
      assert fillable == init + [last];
      AppChangedColumnsMembers(init, schema, live, c);
    }
  }

  /** A field listed in `$fillable` is new iff the table lacks it, changed
      iff the table has it and `checkChangedColumn` holds, never both; and a
      field listed twice is still classified once. */
  lemma {:induction false} AppClassification(fillable: seq<string>, schema: map<string, Option<Details>>,
                                             live: seq<LiveColumn>, f: string)
    requires f in fillable
    ensures Column(f, DetailsFor(schema, f)) in AppNewColumns(fillable, schema, live) <==> f !in Listing(live)
    ensures Column(f, DetailsFor(schema, f)) in AppChangedColumns(fillable, schema, live)
        <==> f in Listing(live) && CheckChangedColumn(FindColumn(live, f).value, DetailsFor(schema, f))
    ensures Distinct(ColumnNames(AppNewColumns(fillable, schema, live))) && Distinct(ColumnNames(AppChangedColumns(fillable, schema, live)))
  {
    AppNewColumnsMembers(fillable, schema, live, Column(f, DetailsFor(schema, f)));
    AppChangedColumnsMembers(fillable, schema, live, Column(f, DetailsFor(schema, f)));
    AppClassesUnique(fillable, schema, live);
  }

  lemma {:induction false} AppClassesUnique(fillable: seq<string>, schema: map<string, Option<Details>>, live: seq<LiveColumn>)
    ensures Distinct(ColumnNames(AppNewColumns(fillable, schema, live))) && Distinct(ColumnNames(AppChangedColumns(fillable, schema, live)))
  {
    if fillable != [] {
      var init, field := fillable[..|fillable| - 1], fillable[|fillable| - 1];
      AppClassesUnique(init, schema, live);
      PutKeepsUnique(AppNewColumns(init, schema, live), Column(field, DetailsFor(schema, field)));
      PutKeepsUnique(AppChangedColumns(init, schema, live), Column(field, DetailsFor(schema, field)));
    }
  }

  /** The packaged command's view of a `$fillable` list: each field with its
      looked-up details. */
  function FieldsOf(fillable: seq<string>, schema: map<string, Option<Details>>): seq<Field> {
    if fillable == [] then []
    else FieldsOf(fillable[..|fillable| - 1], schema) + [Field(fillable[|fillable| - 1], Some(DetailsFor(schema, fillable[|fillable| - 1])))]
  }

  /** For a `$fillable` without repeats the two variants classify alike:
      same new columns, same changed columns, same order. */
  lemma ClassifiesLikePackaged(fillable: seq<string>, schema: map<string, Option<Details>>, live: seq<LiveColumn>)
    requires Distinct(fillable)
    ensures AppNewColumns(fillable, schema, live) == NewColumns(FieldsOf(fillable, schema), live)
    ensures AppChangedColumns(fillable, schema, live) == ChangedColumns(FieldsOf(fillable, schema), live)
  {
    NewLikePackaged(fillable, schema, live);
    ChangedLikePackaged(fillable, schema, live);
  }

  lemma {:induction false} NewLikePackaged(fillable: seq<string>, schema: map<string, Option<Details>>, live: seq<LiveColumn>)
    requires Distinct(fillable)
    ensures AppNewColumns(fillable, schema, live) == NewColumns(FieldsOf(fillable, schema), live)
  {
    if fillable != [] {
      var init, last := fillable[..|fillable| - 1], fillable[|fillable| - 1];
      NewLikePackaged(init, schema, live);
      var fields := FieldsOf(fillable, schema);
      assert fields[..|fields| - 1] == FieldsOf(init, schema);
      assert last !in init;
      var before := AppNewColumns(init, schema, live);
      forall i | 0 <= i < |before|
        ensures before[i].name != last
      {
        AppNewColumnsMembers(init, schema, live, before[i]);
      }
    }
  }

  lemma {:induction false} ChangedLikePackaged(fillable: seq<string>, schema: map<string, Option<Details>>, live: seq<LiveColumn>)
    requires Distinct(fillable)
    ensures AppChangedColumns(fillable, schema, live) == ChangedColumns(FieldsOf(fillable, schema), live)
  {
    if fillable != [] {
      var init, last := fillable[..|fillable| - 1], fillable[|fillable| - 1];
      ChangedLikePackaged(init, schema, live);
      var fields := FieldsOf(fillable, schema);
      assert fields[..|fields| - 1] == FieldsOf(init, schema);
      assert last !in init;
      var before := AppChangedColumns(init, schema, live);
      forall i | 0 <= i < |before|
        ensures before[i].name != last
      {
        AppChangedColumnsMembers(init, schema, live, before[i]);
      }
    }
  }

  /** The app variant's update migration, or nothing when no field is new
      or changed. */
  function PlanAppUpdate(table: string, fillable: seq<string>, schema: map<string, Option<Details>>, live: seq<LiveColumn>)
    : (unit: Option<Unit>)
    ensures unit.Some? ==> unit.value.UpdateTable? && unit.value.table == table
  {
    var newColumns := AppNewColumns(fillable, schema, live);
    var changedColumns := AppChangedColumns(fillable, schema, live);
    if newColumns == [] && changedColumns == [] then None
    else Some(UpdateTable(table, RenderAll(AddAll(newColumns)) + RenderAll(ChangeAll(changedColumns))))
  }

  function AddAll(cols: seq<Column>): seq<Snippet> {
    if cols == [] then [] else AddAll(cols[..|cols| - 1]) + [AddColumn(OpOf(cols[|cols| - 1]))]
  }

  function ChangeAll(cols: seq<Column>): seq<Snippet> {
    if cols == [] then [] else ChangeAll(cols[..|cols| - 1]) + [ChangeColumn(OpOf(cols[|cols| - 1]))]
  }

  /** The classification loop: `$newColumns[$field] = $details` and
      `$changedColumns[$field] = $details`. */
  method AppClassifyFields(fillable: seq<string>, schema: map<string, Option<Details>>, live: seq<LiveColumn>)
    returns (newColumns: seq<Column>, changedColumns: seq<Column>)
    ensures newColumns == AppNewColumns(fillable, schema, live)
    ensures changedColumns == AppChangedColumns(fillable, schema, live)
  {
    newColumns, changedColumns := [], [];
    for i := 0 to |fillable|
      invariant newColumns == AppNewColumns(fillable[..i], schema, live)
      invariant changedColumns == AppChangedColumns(fillable[..i], schema, live)
    {
      var field := fillable[i];
      var details := DetailsFor(schema, field);
      assert fillable[..i + 1][..i] == fillable[..i];
      if field !in Listing(live) {
        newColumns := Put(newColumns, Column(field, details));
      } else {
        var currentColumn := FindColumn(live, field);
        if CheckChangedColumn(currentColumn.value, details) {
          changedColumns := Put(changedColumns, Column(field, details));
        }
      }
    }
    assert fillable[..|fillable|] == fillable;
  }

  /** `generateNewOrChangedColumnsMigration` of this variant. */
  method AppGenerateNewOrChangedColumnsMigration(table: string, fillable: seq<string>,
                                                 schema: map<string, Option<Details>>, live: seq<LiveColumn>)
    returns (unit: Option<Unit>)
    ensures unit == PlanAppUpdate(table, fillable, schema, live)
  {
    var newColumns, changedColumns := AppClassifyFields(fillable, schema, live);
    if newColumns == [] && changedColumns == [] {
      return None;
    }
    var added := AppRenderNew(newColumns);
    var changed := AppRenderChanged(changedColumns);
    unit := Some(UpdateTable(table, added + changed));
  }

  /** `foreach ($newColumns ...) $columns .= $this->generateColumn(...)` */
  method AppRenderNew(cols: seq<Column>) returns (columns: string)
    ensures columns == RenderAll(AddAll(cols))
  {
    columns := "";
    for i := 0 to |cols|
      invariant columns == RenderAll(AddAll(cols[..i]))
    {
      assert cols[..i + 1][..i] == cols[..i];
      RenderAllSnoc(AddAll(cols[..i]), AddColumn(OpOf(cols[i])));
      columns := columns + AppGenerateColumn(cols[i].name, cols[i].details);
    }
    assert cols[..|cols|] == cols;
  }

  /** `foreach ($changedColumns ...) $columns .= $this->modifyColumn(...)` */
  method AppRenderChanged(cols: seq<Column>) returns (columns: string)
    ensures columns == RenderAll(ChangeAll(cols))
  {
    columns := "";
    for i := 0 to |cols|
      invariant columns == RenderAll(ChangeAll(cols[..i]))
    {
      assert cols[..i + 1][..i] == cols[..i];
      RenderAllSnoc(ChangeAll(cols[..i]), ChangeColumn(OpOf(cols[i])));
      columns := columns + AppModifyColumn(cols[i].name, cols[i].details);
    }
    assert cols[..|cols|] == cols;
  }

  /** The update path writes nothing exactly when every `$fillable` field
      has a live column of equal normalised type and nullability. */
  lemma AppNothingToUpdateIff(table: string, fillable: seq<string>, schema: map<string, Option<Details>>, live: seq<LiveColumn>)
    ensures PlanAppUpdate(table, fillable, schema, live).None?
        <==> forall f :: f in fillable ==>
               f in Listing(live) && !CheckChangedColumn(FindColumn(live, f).value, DetailsFor(schema, f))
  {
    if PlanAppUpdate(table, fillable, schema, live).None? {
      forall f | f in fillable
        ensures f in Listing(live) && !CheckChangedColumn(FindColumn(live, f).value, DetailsFor(schema, f))
      {
        AppClassification(fillable, schema, live, f);
      }
    }
    var newColumns := AppNewColumns(fillable, schema, live);
    var changedColumns := AppChangedColumns(fillable, schema, live);
    if newColumns != [] {
      AppNewColumnsMembers(fillable, schema, live, newColumns[0]);
    }
    if changedColumns != [] {
      AppChangedColumnsMembers(fillable, schema, live, changedColumns[0]);
    }
  }

  // ---------------------------------------------------------------------
  // Relationships
  // ---------------------------------------------------------------------

  /** One `$relationships` entry: its key (the foreign-key column) and the
      `table`, `field` and optional `onDelete` it names. */
  datatype AppRelationship = AppRelationship(column: string, table: string, field: string, onDelete: Option<string>)

  /** The value `foreignKeyExists` of this variant returns: `$exists` is
      overwritten on every pass, so the last index alone decides. */
  function AppExists(foreignKey: string, indexes: seq<Index>): Option<string> {
    if indexes == [] then None else FirstMatch(indexes[|indexes| - 1].columns, foreignKey)
  }

  /** `foreignKeyExists` of this variant, which has no `continue`. */
  method AppForeignKeyExists(foreignKey: string, indexes: seq<Index>) returns (found: Option<string>)
    ensures found == AppExists(foreignKey, indexes)
  {
    found := None;
    for i := 0 to |indexes|
      invariant found == AppExists(foreignKey, indexes[..i])
    {
      found := FirstMatch(indexes[i].columns, foreignKey);
      assert indexes[..i + 1][i] == indexes[i];
    }
    assert indexes[..|indexes|] == indexes;
  }

  /** The key reads as existing iff the last index lists it; with no
      indexes it never does. */
  lemma AppExistsIff(foreignKey: string, indexes: seq<Index>)
    ensures TruthyValue(AppExists(foreignKey, indexes))
        <==> indexes != [] && Truthy(foreignKey) && foreignKey in indexes[|indexes| - 1].columns
  {
  }

  /** Indexes before the last one never matter. */
  lemma EarlierIndexesIgnored(foreignKey: string, earlier: seq<Index>, indexes: seq<Index>)
    requires indexes != []
    ensures AppExists(foreignKey, earlier + indexes) == AppExists(foreignKey, indexes)
  {
    assert (earlier + indexes)[|earlier + indexes| - 1] == indexes[|indexes| - 1];
  }

  /** Whenever this variant sees the key, the packaged one does too. */
  lemma AppExistsImpliesPackaged(foreignKey: string, indexes: seq<Index>)
    ensures TruthyValue(AppExists(foreignKey, indexes)) ==> TruthyValue(ExistsAfter(foreignKey, indexes))
  {
    ForeignKeyExistsIff(foreignKey, indexes);
    if TruthyValue(AppExists(foreignKey, indexes)) {
      assert foreignKey in indexes[|indexes| - 1].columns;
    }
  }

  /** The converse fails: a key covered by the first of two indexes is seen
      by the packaged command and missed by this one, which then writes a
      second constraint for it. */
  lemma VariantsDisagree()
    ensures var indexes := [Index("products_category_id_foreign", ["category_id"]), Index("products_name_index", ["name"])];
            TruthyValue(ExistsAfter("category_id", indexes)) && !TruthyValue(AppExists("category_id", indexes))
  {
    var indexes := [Index("products_category_id_foreign", ["category_id"]), Index("products_name_index", ["name"])];
    assert indexes[..1] == [indexes[0]];
    assert "category_id"[0] != "name"[0];
    assert "category_id" != "0";
  }

  /** The constraint of an entry, with no drop guard; `onDelete` defaults to
      `restrict`. */
  function AppForeignOp(r: AppRelationship): (fk: ForeignOp)
    ensures fk.column == r.column && fk.refTable == r.table && fk.refField == r.field
    ensures fk.onDelete == if r.onDelete.Some? then r.onDelete.value else "restrict"
  {
    ForeignOp(r.column, r.table, r.field, r.onDelete.GetOr("restrict"))
  }

  /** `generateForeignKey` of this variant. */
  function AppGenerateForeignKey(r: AppRelationship): (snippet: string)
    ensures snippet == Render(PlainForeign(AppForeignOp(r)))
  {
    ForeignCall(AppForeignOp(r))
  }

  function AppConstraintSnippets(rels: seq<AppRelationship>, indexes: seq<Index>): seq<Snippet> {
    if rels == [] then []
    else
      var r := rels[|rels| - 1];
      AppConstraintSnippets(rels[..|rels| - 1], indexes)
        + (if !TruthyValue(AppExists(r.column, indexes)) then [PlainForeign(AppForeignOp(r))] else [])
  }

  /** The foreign-key migration of this variant (no column repairs). */
  function PlanAppRelationships(table: string, rels: seq<AppRelationship>, indexes: seq<Index>): (unit: Option<Unit>)
    ensures unit.Some? ==> unit.value.AddForeignKeys? && unit.value.table == table
  {
    if rels == [] || AppConstraintSnippets(rels, indexes) == [] then None
    else Some(AddForeignKeys(table, "", RenderAll(AppConstraintSnippets(rels, indexes))))
  }

  /** What one pass of the loop appends to `$foreignKeys`. */
  lemma AppConstraintStep(rels: seq<AppRelationship>, i: nat, indexes: seq<Index>)
    requires i < |rels|
    ensures RenderAll(AppConstraintSnippets(rels[..i + 1], indexes))
         == RenderAll(AppConstraintSnippets(rels[..i], indexes))
            + (if !TruthyValue(AppExists(rels[i].column, indexes)) then AppGenerateForeignKey(rels[i]) else "")
  {
    assert rels[..i + 1][..i] == rels[..i];
    var before := AppConstraintSnippets(rels[..i], indexes);
    if !TruthyValue(AppExists(rels[i].column, indexes)) {
      RenderAllSnoc(before, PlainForeign(AppForeignOp(rels[i])));
    } else {
      assert before + [] == before;
    }
  }

  /** `createRelationships` of this variant. */
  method AppCreateRelationships(table: string, rels: seq<AppRelationship>, indexes: seq<Index>) returns (unit: Option<Unit>)
    ensures unit == PlanAppRelationships(table, rels, indexes)
  {
    if rels == [] {
      return None;
    }
    var foreignKeys := "";
    for i := 0 to |rels|
      invariant foreignKeys == RenderAll(AppConstraintSnippets(rels[..i], indexes))
    {
      AppConstraintStep(rels, i, indexes);
      var found := AppForeignKeyExists(rels[i].column, indexes);
      if !TruthyValue(found) {
        foreignKeys := foreignKeys + AppGenerateForeignKey(rels[i]);
      }
    }
    assert rels[..|rels|] == rels;
    if foreignKeys == "" {
      return None;
    }
    unit := Some(AddForeignKeys(table, "", foreignKeys));
  }

  lemma {:induction false} AppConstraintSnippetsMembers(rels: seq<AppRelationship>, indexes: seq<Index>, s: Snippet)
    ensures s in AppConstraintSnippets(rels, indexes)
        <==> exists r :: r in rels && !TruthyValue(AppExists(r.column, indexes)) && s == PlainForeign(AppForeignOp(r))
  {
    if rels != [] {
      var init, last := rels[..|rels| - 1], rels[|rels| - 1];
      assert rels == init + [last];
      AppConstraintSnippetsMembers(init, indexes, s);
    }
  }

  /** The foreign-key migration is written exactly when some entry's column
      is missing from the last index (or has a PHP-falsy name). */
  lemma AppRelationshipsUnitIff(table: string, rels: seq<AppRelationship>, indexes: seq<Index>)
    ensures PlanAppRelationships(table, rels, indexes).Some?
        <==> exists r :: r in rels && !(indexes != [] && Truthy(r.column) && r.column in indexes[|indexes| - 1].columns)
  {
    var cs := AppConstraintSnippets(rels, indexes);
    if cs != [] {
      AppConstraintSnippetsMembers(rels, indexes, cs[0]);
    }
    if exists r :: r in rels && !(indexes != [] && Truthy(r.column) && r.column in indexes[|indexes| - 1].columns) {
      var r :| r in rels && !(indexes != [] && Truthy(r.column) && r.column in indexes[|indexes| - 1].columns);
      AppConstraintSnippetsMembers(rels, indexes, PlainForeign(AppForeignOp(r)));
    }
  }

  // ---------------------------------------------------------------------
  // handle
  // ---------------------------------------------------------------------

  /** What a model class offers this variant. */
  datatype AppModel = AppModel(name: string, fillable: seq<string>, migrationSchema: map<string, Option<Details>>,
                               relationships: seq<AppRelationship>)

  /** The migration `handle` writes for the table itself: the full create
      migration when the table is absent, otherwise the update migration if
      any. */
  function AppTableUnits(table: string, model: AppModel, db: Snapshot): (units: seq<Unit>)
    ensures forall u :: u in units ==> u.CreateTable? || u.UpdateTable?
    ensures (exists u :: u in units && u.CreateTable?) <==> table !in db.tables
  {
    if table !in db.tables then
      var full := CreateTable(table, RenderAll(AppFullSnippets(model.fillable, model.migrationSchema)));
      assert full in [full];
      [full]
    else UnitsOf(PlanAppUpdate(table, model.fillable, model.migrationSchema, db.columns))
  }

  function PlanAppHandle(infl: Inflector, model: AppModel, db: Snapshot): Outcome {
    if model.fillable == [] then NoMigrationSchema
    else
      var table := TableName(infl, model.name);
      Generated(AppTableUnits(table, model, db) + UnitsOf(PlanAppRelationships(table, model.relationships, db.indexes)))
  }

  /** `handle` of this variant. */
  method AppHandle(infl: Inflector, model: AppModel, db: Snapshot) returns (outcome: Outcome)
    ensures outcome == PlanAppHandle(infl, model, db)
  {
    if model.fillable == [] {
      return NoMigrationSchema;
    }
    var tableName := TableName(infl, model.name);
    var units: seq<Unit>;
    if tableName !in db.tables {
      var full := AppGenerateFullMigration(tableName, model.fillable, model.migrationSchema);
      units := [full];
    } else {
      var update := AppGenerateNewOrChangedColumnsMigration(tableName, model.fillable, model.migrationSchema, db.columns);
      units := UnitsOf(update);
    }
    var foreignKeys := AppCreateRelationships(tableName, model.relationships, db.indexes);
    outcome := Generated(units + UnitsOf(foreignKeys));
  }

  /** The run stops with an error exactly when `$fillable` is empty, whatever
      `$migrationSchema` holds. */
  lemma AppEmptyFillableIsAnError(infl: Inflector, model: AppModel, db: Snapshot)
    ensures PlanAppHandle(infl, model, db).NoMigrationSchema? <==> model.fillable == []
  {
  }

  /** The create migration is written exactly when the table is absent, and
      this variant never plans a pivot table. */
  lemma AppFullPathIffAbsent(infl: Inflector, model: AppModel, db: Snapshot)
    requires model.fillable != []
    ensures var units := PlanAppHandle(infl, model, db).units;
            ((exists u :: u in units && u.CreateTable?) <==> TableName(infl, model.name) !in db.tables)
            && forall u :: u in units ==> !u.CreatePivotTable?
  {
    var table := TableName(infl, model.name);
    var tableUnits := AppTableUnits(table, model, db);
    var foreignKeys := UnitsOf(PlanAppRelationships(table, model.relationships, db.indexes));
    var units := PlanAppHandle(infl, model, db).units;
    assert units == tableUnits + foreignKeys;
    forall u | u in units
      ensures u in tableUnits || u.AddForeignKeys?
    {
    }
    if table !in db.tables {
      var u :| u in tableUnits && u.CreateTable?;
      assert u in units;
    }
  }
}
