/** The relationship half of the packaged command: backing-column repair
    (`checkForeignKeyColumn` and its helpers), the index test
    `foreignKeyExists`, `generateForeignKey` and `createRelationships`. */
module ForeignKeys {
  import opened Schema
  import opened TypeNames
  import opened Blueprint
  import opened Columns

  /** One entry of a model's `$relationships`: a many-to-many pair (handled
      by the pivot step) or a reference from `column` of this table to
      `field` of `table`. */
  datatype Relationship =
    | ManyToMany(table1: string, table2: string)
    | Reference(column: string, table: string, field: string, onDelete: Option<string>)

  /** `isset($relationshipDetails['onDelete']) && ... == 'set null'` */
  predicate SetNull(onDelete: Option<string>) {
    onDelete == Some("set null")
  }

  /** The details both `createForeignKeyColumn` and `fixForeignKeyConstraints`
      pass to `generateColumn`. */
  function BackingDetails(onDelete: Option<string>): Details {
    Details(Some("unsignedBigInteger"), None, Some(SetNull(onDelete)), None)
  }

  /** `createForeignKeyColumn` and `fixForeignKeyConstraints`, which have the
      same body: an `unsignedBigInteger` column, nullable exactly when the
      constraint sets null on delete. */
  function BackingColumn(table: string, foreignKey: string, onDelete: Option<string>): (snippet: string)
    ensures snippet == Render(GuardedColumn(table, ColumnOp(foreignKey, "unsignedBigInteger", onDelete == Some("set null"))))
  {
    GenerateColumn(table, foreignKey, BackingDetails(onDelete))
  }

  /** `isForeignKeyConstraintsValid`: the flag starts true and is lowered
      when the normalised type is not `unsignedBigInteger`. It is only called
      for a column the table has. */
  function IsForeignKeyConstraintsValid(live: seq<LiveColumn>, foreignKey: string): (isValid: bool)
    requires foreignKey in Listing(live)
    ensures isValid <==> FindColumn(live, foreignKey).value.typeName in {"bigint", "unsignedBigInteger"}
  {
    var currentColumn := FindColumn(live, foreignKey);
    UnsignedBigIntegerNames(currentColumn.value.typeName);
    var isValid := true;
    var isValid := if ParseTypeName(currentColumn.value.typeName) != "unsignedBigInteger" then false else isValid;
    isValid
  }

  /** The backing column needs a snippet: it is missing, or its type is not
      a big unsigned integer. */
  predicate NeedsBacking(live: seq<LiveColumn>, foreignKey: string) {
    foreignKey !in Listing(live) || !IsForeignKeyConstraintsValid(live, foreignKey)
  }

  /** The column call `checkForeignKeyColumn` emits for a reference. */
  function BackingOp(r: Relationship): ColumnOp
    requires r.Reference?
  {
    ColumnOp(r.column, "unsignedBigInteger", SetNull(r.onDelete))
  }

  /** `checkForeignKeyColumn`: nothing for a valid backing column; otherwise
      the same add-or-change snippet whether the column is missing (create)
      or of the wrong type (fix). */
  function CheckForeignKeyColumn(table: string, live: seq<LiveColumn>, foreignKey: string, onDelete: Option<string>)
    : (toUpdate: string)
    ensures toUpdate == "" <==> foreignKey in Listing(live)
                                && FindColumn(live, foreignKey).value.typeName in {"bigint", "unsignedBigInteger"}
    ensures toUpdate != "" ==> toUpdate == Render(GuardedColumn(table, ColumnOp(foreignKey, "unsignedBigInteger", SetNull(onDelete))))
  {
    if foreignKey !in Listing(live) then BackingColumn(table, foreignKey, onDelete)
    else if !IsForeignKeyConstraintsValid(live, foreignKey) then BackingColumn(table, foreignKey, onDelete)
    else ""
  }

  // ---------------------------------------------------------------------
  // foreignKeyExists
  // ---------------------------------------------------------------------

  /** `current(array_filter($index["columns"], fn ($c) => $c === $foreignKey))`:
      the first entry equal to the key, or PHP `false` (here None). */
  function FirstMatch(columns: seq<string>, foreignKey: string): (r: Option<string>)
    ensures r == if foreignKey in columns then Some(foreignKey) else None
  {
    if columns == [] then None
    else if columns[0] == foreignKey then Some(columns[0])
    else FirstMatch(columns[1..], foreignKey)
  }

  /** The value of `$exists` after the loop has seen `indexes`: once it is
      truthy it is kept, otherwise it is overwritten by the next index. */
  function ExistsAfter(foreignKey: string, indexes: seq<Index>): (found: Option<string>)
    ensures found.Some? ==> found.value == foreignKey
  {
    if indexes == [] then None
    else
      var before := ExistsAfter(foreignKey, indexes[..|indexes| - 1]);
      if TruthyValue(before) then before else FirstMatch(indexes[|indexes| - 1].columns, foreignKey)
  }

  /** `foreignKeyExists`, with its `continue` once `$exists` is truthy. */
  method ForeignKeyExists(foreignKey: string, indexes: seq<Index>) returns (found: Option<string>)
    ensures found == ExistsAfter(foreignKey, indexes)
  {
    found := None;
    for i := 0 to |indexes|
      invariant found == ExistsAfter(foreignKey, indexes[..i])
    {
      assert indexes[..i + 1][..i] == indexes[..i];
      if TruthyValue(found) {
        continue;
      }
      found := FirstMatch(indexes[i].columns, foreignKey);
    }
    assert indexes[..|indexes|] == indexes;
  }

  /** As `createRelationships` reads it, the key exists exactly when some
      index lists the column (and the column's name is not PHP-falsy). */
  lemma {:induction false} ForeignKeyExistsIff(foreignKey: string, indexes: seq<Index>)
    ensures TruthyValue(ExistsAfter(foreignKey, indexes))
        <==> Truthy(foreignKey) && exists i :: 0 <= i < |indexes| && foreignKey in indexes[i].columns
  {
    if indexes != [] {
      var init := indexes[..|indexes| - 1];
      ForeignKeyExistsIff(foreignKey, init);
      if exists i :: 0 <= i < |init| && foreignKey in init[i].columns {
        var i :| 0 <= i < |init| && foreignKey in init[i].columns;
        assert indexes[i] == init[i];
      }
      if exists i :: 0 <= i < |indexes| && foreignKey in indexes[i].columns {
        var i :| 0 <= i < |indexes| && foreignKey in indexes[i].columns;
        if i < |init| {
          assert init[i] == indexes[i];
        }
      }
    }
  }

  /** A column named "0" is never found truthy, so `$exists` is overwritten
      on every pass and only the last index decides the (falsy) result. */
  lemma {:induction false} FalsyKeyLastIndexDecides(foreignKey: string, indexes: seq<Index>)
    requires !Truthy(foreignKey) && indexes != []
    ensures ExistsAfter(foreignKey, indexes) == FirstMatch(indexes[|indexes| - 1].columns, foreignKey)
  {
  }

  // ---------------------------------------------------------------------
  // generateForeignKey and createRelationships
  // ---------------------------------------------------------------------

  /** The constraint of a reference, `onDelete` defaulting to `restrict`. */
  function ForeignOpOf(r: Relationship): (fk: ForeignOp)
    requires r.Reference?
    ensures fk.column == r.column && fk.refTable == r.table && fk.refField == r.field
    ensures fk.onDelete == if r.onDelete.Some? then r.onDelete.value else "restrict"
  {
    ForeignOp(r.column, r.table, r.field, r.onDelete.GetOr("restrict"))
  }

  /** `generateForeignKey`: drop any constraint the column has when the
      migration runs, then add the declared one. */
  function GenerateForeignKey(table: string, r: Relationship): (snippet: string)
    requires r.Reference?
    ensures snippet == DropGuard(table, r.column) + ForeignCall(ForeignOpOf(r))
  {
    Render(GuardedForeign(table, ForeignOpOf(r)))
  }

  /** A reference gets a constraint when `foreignKeyExists` is falsy. */
  predicate NeedsConstraint(r: Relationship, indexes: seq<Index>) {
    r.Reference? && !TruthyValue(ExistsAfter(r.column, indexes))
  }

  /** `$updatedColumns` as snippets: a backing-column snippet for every
      reference whose column is missing or mistyped. */
  function BackingSnippets(table: string, rels: seq<Relationship>, live: seq<LiveColumn>): seq<Snippet> {
    if rels == [] then []
    else
      var r := rels[|rels| - 1];
      BackingSnippets(table, rels[..|rels| - 1], live)
        + (if r.Reference? && NeedsBacking(live, r.column) then [GuardedColumn(table, BackingOp(r))] else [])
  }

  /** `$foreignKeys` as snippets. */
  function ConstraintSnippets(table: string, rels: seq<Relationship>, indexes: seq<Index>): seq<Snippet> {
    if rels == [] then []
    else
      var r := rels[|rels| - 1];
      ConstraintSnippets(table, rels[..|rels| - 1], indexes)
        + (if NeedsConstraint(r, indexes) then [GuardedForeign(table, ForeignOpOf(r))] else [])
  }

  /** The foreign-key migration, or nothing when there are no relationships
      or no constraint is needed (then the backing snippets are dropped too). */
  function PlanRelationships(table: string, rels: seq<Relationship>, live: seq<LiveColumn>, indexes: seq<Index>)
    : Option<Unit>
  {
    if rels == [] || ConstraintSnippets(table, rels, indexes) == [] then None
    else Some(AddForeignKeys(table, RenderAll(BackingSnippets(table, rels, live)),
                             RenderAll(ConstraintSnippets(table, rels, indexes))))
  }

  /** What one pass of the `createRelationships` loop appends to
      `$updatedColumns`. */
  lemma BackingStep(table: string, rels: seq<Relationship>, i: nat, live: seq<LiveColumn>)
    requires i < |rels|
    ensures RenderAll(BackingSnippets(table, rels[..i + 1], live))
         == RenderAll(BackingSnippets(table, rels[..i], live))
            + (if rels[i].Reference? then CheckForeignKeyColumn(table, live, rels[i].column, rels[i].onDelete) else "")
  {
    assert rels[..i + 1][..i] == rels[..i];
    var r := rels[i];
    var before := BackingSnippets(table, rels[..i], live);
    if r.Reference? && NeedsBacking(live, r.column) {
      RenderAllSnoc(before, GuardedColumn(table, BackingOp(r)));
    } else {
      assert before + [] == before;
    }
  }

  /** What one pass of the `createRelationships` loop appends to
      `$foreignKeys`. */
  lemma ConstraintStep(table: string, rels: seq<Relationship>, i: nat, indexes: seq<Index>)
    requires i < |rels|
    ensures RenderAll(ConstraintSnippets(table, rels[..i + 1], indexes))
         == RenderAll(ConstraintSnippets(table, rels[..i], indexes))
            + (if NeedsConstraint(rels[i], indexes) then GenerateForeignKey(table, rels[i]) else "")
  {
    assert rels[..i + 1][..i] == rels[..i];
    var r := rels[i];
    var before := ConstraintSnippets(table, rels[..i], indexes);
    if NeedsConstraint(r, indexes) {
      RenderAllSnoc(before, GuardedForeign(table, ForeignOpOf(r)));
    } else {
      assert before + [] == before;
    }
  }

  /** `createRelationships` */
  method CreateRelationships(table: string, rels: seq<Relationship>, live: seq<LiveColumn>, indexes: seq<Index>)
    returns (unit: Option<Unit>)
    ensures unit == PlanRelationships(table, rels, live, indexes)
  {
    if rels == [] {
      return None;
    }
    var updatedColumns := "";
    var foreignKeys := "";
    for i := 0 to |rels|
      invariant updatedColumns == RenderAll(BackingSnippets(table, rels[..i], live))
      invariant foreignKeys == RenderAll(ConstraintSnippets(table, rels[..i], indexes))
    {
      BackingStep(table, rels, i, live);
      ConstraintStep(table, rels, i, indexes);
      var r := rels[i];
      if r.ManyToMany? {
        continue;
      }
      updatedColumns := updatedColumns + CheckForeignKeyColumn(table, live, r.column, r.onDelete);
      var found := ForeignKeyExists(r.column, indexes);
      if !TruthyValue(found) {
        foreignKeys := foreignKeys + GenerateForeignKey(table, r);
      }
    }
    assert rels[..|rels|] == rels;
    if foreignKeys == "" {
      return None;
    }
    unit := Some(AddForeignKeys(table, updatedColumns, foreignKeys));
  }

  lemma {:induction false} ConstraintSnippetsMembers(table: string, rels: seq<Relationship>, indexes: seq<Index>, s: Snippet)
    ensures s in ConstraintSnippets(table, rels, indexes)
        <==> exists r :: r in rels && NeedsConstraint(r, indexes) && s == GuardedForeign(table, ForeignOpOf(r))
  {
    if rels != [] {
      var init, last := rels[..|rels| - 1], rels[|rels| - 1];
      assert rels == init + [last];
      ConstraintSnippetsMembers(table, init, indexes, s);
    }
  }

  lemma {:induction false} BackingSnippetsMembers(table: string, rels: seq<Relationship>, live: seq<LiveColumn>, s: Snippet)
    ensures s in BackingSnippets(table, rels, live)
        <==> exists r :: r in rels && r.Reference? && NeedsBacking(live, r.column) && s == GuardedColumn(table, BackingOp(r))
  {
    if rels != [] {
      var init, last := rels[..|rels| - 1], rels[|rels| - 1];
      assert rels == init + [last];
      BackingSnippetsMembers(table, init, live, s);
    }
  }

  /** The foreign-key migration is written exactly when some reference has
      a column no index lists (or a PHP-falsy name); many-to-many entries
      and covered references alone never cause one. */
  lemma RelationshipsUnitIff(table: string, rels: seq<Relationship>, live: seq<LiveColumn>, indexes: seq<Index>)
    ensures PlanRelationships(table, rels, live, indexes).Some?
        <==> exists r :: r in rels && r.Reference?
                       && !(Truthy(r.column) && exists i :: 0 <= i < |indexes| && r.column in indexes[i].columns)
  {
    var cs := ConstraintSnippets(table, rels, indexes);
    if cs != [] {
      ConstraintSnippetsMembers(table, rels, indexes, cs[0]);
      var r :| r in rels && NeedsConstraint(r, indexes) && cs[0] == GuardedForeign(table, ForeignOpOf(r));
      ForeignKeyExistsIff(r.column, indexes);
    }
    if exists r :: r in rels && r.Reference?
                   && !(Truthy(r.column) && exists i :: 0 <= i < |indexes| && r.column in indexes[i].columns) {
      var r :| r in rels && r.Reference?
               && !(Truthy(r.column) && exists i :: 0 <= i < |indexes| && r.column in indexes[i].columns);
      ForeignKeyExistsIff(r.column, indexes);
      ConstraintSnippetsMembers(table, rels, indexes, GuardedForeign(table, ForeignOpOf(r)));
    }
  }

  /** Against a table with no columns and no indexes (the run that creates
      the table) every reference needs both its backing column and its
      constraint, so the foreign-key migration is written. */
  lemma EmptyTableNeedsEverything(table: string, rels: seq<Relationship>, r: Relationship)
    requires r in rels && r.Reference?
    ensures GuardedColumn(table, BackingOp(r)) in BackingSnippets(table, rels, [])
    ensures GuardedForeign(table, ForeignOpOf(r)) in ConstraintSnippets(table, rels, [])
    ensures PlanRelationships(table, rels, [], []).Some?
  {
    ForeignKeyExistsIff(r.column, []);
    ConstraintSnippetsMembers(table, rels, [], GuardedForeign(table, ForeignOpOf(r)));
    BackingSnippetsMembers(table, rels, [], GuardedColumn(table, BackingOp(r)));
  }

  /** Every emitted constraint's runtime drop guard is false on the database
      the migration was generated from: it only fires if the database changed
      in between. */
  lemma EmittedGuardsAreIdle(table: string, rels: seq<Relationship>, indexes: seq<Index>, s: Snippet)
    requires s in ConstraintSnippets(table, rels, indexes)
    ensures s.GuardedForeign? && !TruthyValue(ExistsAfter(s.fk.column, indexes))
  {
    ConstraintSnippetsMembers(table, rels, indexes, s);
  }

  function ReferencesOf(rels: seq<Relationship>): seq<Relationship> {
    if rels == [] then []
    else ReferencesOf(rels[..|rels| - 1]) + (if rels[|rels| - 1].Reference? then [rels[|rels| - 1]] else [])
  }

  /** The `manyToMany` skip: the foreign-key migration is the one the
      references alone would give. */
  lemma {:induction false} ManyToManyIgnored(table: string, rels: seq<Relationship>, live: seq<LiveColumn>, indexes: seq<Index>)
    ensures BackingSnippets(table, rels, live) == BackingSnippets(table, ReferencesOf(rels), live)
    ensures ConstraintSnippets(table, rels, indexes) == ConstraintSnippets(table, ReferencesOf(rels), indexes)
    ensures PlanRelationships(table, rels, live, indexes) == PlanRelationships(table, ReferencesOf(rels), live, indexes)
  {
    if rels != [] {
      var init, last := rels[..|rels| - 1], rels[|rels| - 1];
      ManyToManyIgnored(table, init, live, indexes);
      var refs := ReferencesOf(init) + (if last.Reference? then [last] else []);
      assert ReferencesOf(rels) == refs;
      if last.Reference? {
        assert refs[..|refs| - 1] == ReferencesOf(init);
      } else {
        assert refs == ReferencesOf(init);
      }
      if ReferencesOf(rels) == [] {
        assert ConstraintSnippets(table, [], indexes) == [];
      }
    }
  }

  /** No two references name the same column unless the table already has
      it: a second `->change()` is harmless, a second add is not. */
  predicate AddsEachReferenceOnce(rels: seq<Relationship>, live: seq<LiveColumn>) {
    forall i, j :: 0 <= i < j < |rels| && rels[i].Reference? && rels[j].Reference? && rels[i].column == rels[j].column
      ==> rels[i].column in Listing(live)
  }

  lemma AddsEachReferenceOnceSnoc(init: seq<Relationship>, r: Relationship, live: seq<LiveColumn>)
    ensures AddsEachReferenceOnce(init + [r], live)
        <==> AddsEachReferenceOnce(init, live)
             && (r.Reference? && r.column !in Listing(live) ==>
                   forall i :: 0 <= i < |init| && init[i].Reference? ==> init[i].column != r.column)
  {
    var rels := init + [r];
    if AddsEachReferenceOnce(rels, live) {
      forall i, j | 0 <= i < j < |init| && init[i].Reference? && init[j].Reference? && init[i].column == init[j].column
        ensures init[i].column in Listing(live)
      {
        assert rels[i] == init[i] && rels[j] == init[j];
      }
      forall i | 0 <= i < |init| && init[i].Reference? && r.Reference? && r.column !in Listing(live)
        ensures init[i].column != r.column
      {
        assert rels[i] == init[i] && rels[|init|] == r;
      }
    }
  }

  /** A missing column is called by the backing snippets exactly when a
      reference names it. */
  lemma BackingCallsOn(table: string, rels: seq<Relationship>, live: seq<LiveColumn>, column: string)
    requires column !in Listing(live)
    ensures CallsOn(BackingSnippets(table, rels, live), column)
        <==> exists i :: 0 <= i < |rels| && rels[i].Reference? && rels[i].column == column
  {
    var ss := BackingSnippets(table, rels, live);
    if CallsOn(ss, column) {
      var t :| t in ss && t.GuardedColumn? && t.op.field == column;
      BackingSnippetsMembers(table, rels, live, t);
      var q :| q in rels && q.Reference? && NeedsBacking(live, q.column) && t == GuardedColumn(table, BackingOp(q));
      var i :| 0 <= i < |rels| && rels[i] == q;
    }
    if exists i :: 0 <= i < |rels| && rels[i].Reference? && rels[i].column == column {
      var i :| 0 <= i < |rels| && rels[i].Reference? && rels[i].column == column;
      assert rels[i] in rels;
      BackingSnippetsMembers(table, rels, live, GuardedColumn(table, BackingOp(rels[i])));
    }
  }

  lemma {:induction false} BackingAddsOnceIff(table: string, rels: seq<Relationship>, live: seq<LiveColumn>)
    ensures AddsOnce(live, BackingSnippets(table, rels, live)) <==> AddsEachReferenceOnce(rels, live)
  {
    if rels != [] {
      var init, r := rels[..|rels| - 1], rels[|rels| - 1];
      assert rels == init + [r];
      BackingAddsOnceIff(table, init, live);
      AddsEachReferenceOnceSnoc(init, r, live);
      var before := BackingSnippets(table, init, live);
      if r.Reference? && NeedsBacking(live, r.column) {
        var s := GuardedColumn(table, BackingOp(r));
        assert BackingSnippets(table, rels, live) == before + [s];
        AddsOnceSnoc(live, before, s);
        if r.column !in Listing(live) {
          BackingCallsOn(table, init, live, r.column);
        }
      } else {
        assert BackingSnippets(table, rels, live) == before;
      }
    }
  }

  /** The backing-column migration fails exactly when two references add
      the same missing column. */
  lemma BackingSucceedsIff(table: string, rels: seq<Relationship>, live: seq<LiveColumn>, native: NativeTypes)
    ensures ApplyAll(live, BackingSnippets(table, rels, live), native).Some? <==> AddsEachReferenceOnce(rels, live)
  {
    ApplyAllSucceedsIff(live, BackingSnippets(table, rels, live), native);
    BackingAddsOnceIff(table, rels, live);
  }

  /** Running the backing snippets settles every backing column: when the
      migration succeeds, on the next run none is missing or mistyped,
      provided the database reports an `unsignedBigInteger` column as a big
      integer. */
  lemma BackingConverges(table: string, rels: seq<Relationship>, live: seq<LiveColumn>, native: NativeTypes)
    requires native("unsignedBigInteger") in {"bigint", "unsignedBigInteger"}
    ensures ApplyAll(live, BackingSnippets(table, rels, live), native).Some? ==>
              BackingSnippets(table, rels, ApplyAll(live, BackingSnippets(table, rels, live), native).value) == []
  {
    var ss := BackingSnippets(table, rels, live);
    if ApplyAll(live, ss, native).Some? {
      var after := ApplyAll(live, ss, native).value;
      var again := BackingSnippets(table, rels, after);
      if again != [] {
        BackingSnippetsMembers(table, rels, after, again[0]);
        var r :| r in rels && r.Reference? && NeedsBacking(after, r.column) && again[0] == GuardedColumn(table, BackingOp(r));
        FindAfterAll(live, ss, native, r.column);
        var last := LastCallOn(ss, r.column);
        if last.Some? {
          LastCallSomeIsCall(ss, r.column);
          var s :| s in ss && s.GuardedColumn? && s.op == last.value && s.op.field == r.column;
          BackingSnippetsMembers(table, rels, live, s);
        } else {
          BackingSnippetsMembers(table, rels, live, GuardedColumn(table, BackingOp(r)));
          SomeCallOn(ss, r.column, GuardedColumn(table, BackingOp(r)));
        }
        assert false;
      }
    }
  }

  /** The index the database creates along with a constraint. */
  function ConstraintIndex(table: string, s: Snippet): Index {
    if s.GuardedForeign? then Index(table + "_" + s.fk.column + "_foreign", [s.fk.column]) else Index("", [])
  }

  function IndexesOf(table: string, ss: seq<Snippet>): (indexes: seq<Index>)
    ensures |indexes| == |ss|
  {
    if ss == [] then [] else IndexesOf(table, ss[..|ss| - 1]) + [ConstraintIndex(table, ss[|ss| - 1])]
  }

  lemma {:induction false} IndexesOfCovers(table: string, ss: seq<Snippet>, s: Snippet)
    requires s in ss && s.GuardedForeign?
    ensures exists i :: 0 <= i < |IndexesOf(table, ss)| && s.fk.column in IndexesOf(table, ss)[i].columns
  {
    var init := ss[..|ss| - 1];
    if s == ss[|ss| - 1] {
      assert s.fk.column in IndexesOf(table, ss)[|ss| - 1].columns;
    } else {
      assert ss == init + [ss[|ss| - 1]];
      IndexesOfCovers(table, init, s);
      var i :| 0 <= i < |IndexesOf(table, init)| && s.fk.column in IndexesOf(table, init)[i].columns;
      assert IndexesOf(table, ss)[i] == IndexesOf(table, init)[i];
    }
  }

  lemma CoveredInAppend(a: seq<Index>, b: seq<Index>, column: string)
    ensures (exists i :: 0 <= i < |a| && column in a[i].columns) ==> exists i :: 0 <= i < |a + b| && column in (a + b)[i].columns
    ensures (exists i :: 0 <= i < |b| && column in b[i].columns) ==> exists i :: 0 <= i < |a + b| && column in (a + b)[i].columns
  {
    if exists i :: 0 <= i < |a| && column in a[i].columns {
      var i :| 0 <= i < |a| && column in a[i].columns;
      assert (a + b)[i] == a[i];
    }
    if exists i :: 0 <= i < |b| && column in b[i].columns {
      var i :| 0 <= i < |b| && column in b[i].columns;
      assert (a + b)[|a| + i] == b[i];
    }
  }

  predicate HasIndexNamed(indexes: seq<Index>, name: string) {
    exists i :: 0 <= i < |indexes| && indexes[i].name == name
  }

  /** Running the constraint snippets in order on the indexes `indexes`.
      Every drop guard was read before the migration and is idle, so each
      snippet adds the constraint `{table}_{column}_foreign` with its index;
      the migration fails (None) when that name is already taken. */
  function RunConstraints(table: string, indexes: seq<Index>, cs: seq<Snippet>): Option<seq<Index>> {
    if cs == [] then Some(indexes)
    else
      var before := RunConstraints(table, indexes, cs[..|cs| - 1]);
      var s := cs[|cs| - 1];
      if before.None? then None
      else if !s.GuardedForeign? then before
      else if HasIndexNamed(before.value, ConstraintIndex(table, s).name) then None
      else Some(before.value + [ConstraintIndex(table, s)])
  }

  /** A run that succeeds adds one index per constraint, in order. */
  lemma {:induction false} RunConstraintsAdds(table: string, indexes: seq<Index>, cs: seq<Snippet>)
    requires forall s :: s in cs ==> s.GuardedForeign?
    requires RunConstraints(table, indexes, cs).Some?
    ensures RunConstraints(table, indexes, cs).value == indexes + IndexesOf(table, cs)
  {
    if cs != [] {
      var init := cs[..|cs| - 1];
      assert cs == init + [cs[|cs| - 1]];
      RunConstraintsAdds(table, indexes, init);
    }
  }

  lemma ConstraintSnippetsAreForeign(table: string, rels: seq<Relationship>, indexes: seq<Index>)
    ensures forall s :: s in ConstraintSnippets(table, rels, indexes) ==> s.GuardedForeign?
  {
    forall s | s in ConstraintSnippets(table, rels, indexes)
      ensures s.GuardedForeign?
    {
      ConstraintSnippetsMembers(table, rels, indexes, s);
    }
  }

  /** Once the constraints ran without a name clash, and the database
      indexed each constrained column (as MySQL does), the next run needs no
      constraint for any reference with a truthy column name. */
  lemma ConstraintsConverge(table: string, rels: seq<Relationship>, indexes: seq<Index>)
    requires forall r :: r in rels && r.Reference? ==> Truthy(r.column)
    ensures RunConstraints(table, indexes, ConstraintSnippets(table, rels, indexes)).Some? ==>
              ConstraintSnippets(table, rels, RunConstraints(table, indexes, ConstraintSnippets(table, rels, indexes)).value) == []
  {
    var cs := ConstraintSnippets(table, rels, indexes);
    if RunConstraints(table, indexes, cs).Some? {
      ConstraintSnippetsAreForeign(table, rels, indexes);
      RunConstraintsAdds(table, indexes, cs);
      var after := indexes + IndexesOf(table, cs);
      var again := ConstraintSnippets(table, rels, after);
      if again != [] {
        ConstraintSnippetsMembers(table, rels, after, again[0]);
        var r :| r in rels && NeedsConstraint(r, after) && again[0] == GuardedForeign(table, ForeignOpOf(r));
        ForeignKeyExistsIff(r.column, indexes);
        ForeignKeyExistsIff(r.column, after);
        CoveredInAppend(indexes, IndexesOf(table, cs), r.column);
        if !TruthyValue(ExistsAfter(r.column, indexes)) {
          ConstraintSnippetsMembers(table, rels, indexes, GuardedForeign(table, ForeignOpOf(r)));
          IndexesOfCovers(table, cs, GuardedForeign(table, ForeignOpOf(r)));
        }
        assert false;
      }
    }
  }

  /** Two references on the same column of a new table: the generated
      migration adds the backing column twice and fails. */
  lemma DuplicateReferenceAddsTwice(native: NativeTypes)
    ensures var r := Reference("category_id", "categories", "id", None);
            ApplyAll([], BackingSnippets("products", [r, r], []), native).None?
  {
    var r := Reference("category_id", "categories", "id", None);
    assert [r, r][..1] == [r];
    var s := GuardedColumn("products", BackingOp(r));
    assert BackingSnippets("products", [r], []) == [s];
    assert BackingSnippets("products", [r, r], []) == [s, s];
    assert [s, s][..1] == [s];
    assert [s][..0] == [];
    assert s.op.field == "category_id";
    var empty: seq<LiveColumn> := [];
    assert empty + [Created(s.op, native)] == [Created(s.op, native)];
    assert ApplyAll([], [s], native) == Some([Created(s.op, native)]);
    assert Listing([Created(s.op, native)]) == ["category_id"];
  }

  /** The same two references also add the constraint
      `products_category_id_foreign` twice, which fails on its own. */
  lemma DuplicateReferenceClashes()
    ensures var r := Reference("category_id", "categories", "id", None);
            RunConstraints("products", [], ConstraintSnippets("products", [r, r], [])).None?
  {
    var r := Reference("category_id", "categories", "id", None);
    assert [r, r][..1] == [r];
    var c := GuardedForeign("products", ForeignOpOf(r));
    assert ConstraintSnippets("products", [r], []) == [c];
    assert ConstraintSnippets("products", [r, r], []) == [c, c];
    var index := ConstraintIndex("products", c);
    assert [c, c][..1] == [c];
    assert [c][..0] == [];
    var empty: seq<Index> := [];
    assert empty + [index] == [index];
    assert RunConstraints("products", [], [c]) == Some([index]);
    assert [index][0].name == index.name;
  }
}
