/** The table-level half of the packaged command: `generateColumn`, the
    full-create migration and the new-or-changed classification of
    `generateNewOrChangedColumnsMigration`, with what running the generated
    snippets does to the table. */
module Columns {
  import opened Schema
  import opened TypeNames
  import opened Blueprint

  /** One entry of `$migrationSchema`: a field name (an array key, so unique
      within a model) and its details, which may be null. */
  datatype Field = Field(name: string, details: Option<Details>)

  /** A field after `$details ?? $this->defaultMigrationSchema`. */
  datatype Column = Column(name: string, details: Details)

  function Resolve(f: Field): Column {
    Column(f.name, f.details.GetOr(DefaultSchema))
  }

  function OpOf(c: Column): ColumnOp {
    ColumnOpOf(c.name, c.details)
  }

  function ColumnNames(cols: seq<Column>): (names: seq<string>)
    ensures |names| == |cols| && forall i :: 0 <= i < |cols| ==> names[i] == cols[i].name
  {
    seq(|cols|, i requires 0 <= i < |cols| => cols[i].name)
  }

  /** `generateColumn($tableName, $field, $details)`: the row of the
      fall-through `switch`, guarded so that it adds the column when the
      table lacks it and `->change()`s it otherwise. */
  function GenerateColumn(table: string, field: string, details: Details): (snippet: string)
    ensures snippet == Render(GuardedColumn(table, ColumnOpOf(field, details)))
  {
    GuardedText(table, field, ColumnRow(field, details))
  }

  /** The snippets of a list of columns, in order. */
  function GuardedAll(table: string, cols: seq<Column>): seq<Snippet> {
    if cols == [] then [] else GuardedAll(table, cols[..|cols| - 1]) + [GuardedColumn(table, OpOf(cols[|cols| - 1]))]
  }

  lemma {:induction false} GuardedAllMembers(table: string, cols: seq<Column>, s: Snippet)
    ensures s in GuardedAll(table, cols) <==> exists c :: c in cols && s == GuardedColumn(table, OpOf(c))
  {
    if cols != [] {
      var init, last := cols[..|cols| - 1], cols[|cols| - 1];
      assert cols == init + [last];
      GuardedAllMembers(table, init, s);
    }
  }

  // ---------------------------------------------------------------------
  // Full-create migration
  // ---------------------------------------------------------------------

  function ResolveAll(fields: seq<Field>): seq<Column> {
    if fields == [] then [] else ResolveAll(fields[..|fields| - 1]) + [Resolve(fields[|fields| - 1])]
  }

  lemma {:induction false} ResolveAllLength(fields: seq<Field>)
    ensures |ResolveAll(fields)| == |fields|
  {
    if fields != [] {
      ResolveAllLength(fields[..|fields| - 1]);
    }
  }

  /** One column per field, in declaration order, under the field's name. */
  lemma {:induction false} ResolveAllAt(fields: seq<Field>, i: int)
    requires 0 <= i < |fields|
    ensures |ResolveAll(fields)| == |fields|
    ensures ResolveAll(fields)[i] == Resolve(fields[i])
    ensures ColumnNames(ResolveAll(fields))[i] == fields[i].name
  {
    ResolveAllLength(fields);
    ResolveAllLength(fields[..|fields| - 1]);
    if i < |fields| - 1 {
      ResolveAllAt(fields[..|fields| - 1], i);
    }
  }

  /** The create migration's snippets: one guarded snippet per declared
      field, in declaration order, whatever the live table holds. */
  function FullSnippets(table: string, fields: seq<Field>): seq<Snippet> {
    GuardedAll(table, ResolveAll(fields))
  }

  /** The `foreach` of `generateFullMigration`. */
  method GenerateFullMigration(table: string, fields: seq<Field>) returns (unit: Unit)
    ensures unit == CreateTable(table, RenderAll(FullSnippets(table, fields)))
  {
    var columns := "";
    for i := 0 to |fields|
      invariant columns == RenderAll(GuardedAll(table, ResolveAll(fields[..i])))
    {
      var details := fields[i].details.GetOr(DefaultSchema);
      assert fields[..i + 1][..i] == fields[..i];
      RenderAllSnoc(GuardedAll(table, ResolveAll(fields[..i])), GuardedColumn(table, OpOf(Resolve(fields[i]))));
      columns := columns + GenerateColumn(table, fields[i].name, details);
    }
    assert fields[..|fields|] == fields;
    unit := CreateTable(table, columns);
  }

  // ---------------------------------------------------------------------
  // New-or-changed classification
  // ---------------------------------------------------------------------

  /** `!in_array($field, $existingColumns)` */
  predicate IsNew(f: Field, live: seq<LiveColumn>) {
    f.name !in Listing(live)
  }

  /** An existing column for which `checkChangedColumn` holds. */
  predicate IsChanged(f: Field, live: seq<LiveColumn>) {
    f.name in Listing(live) && CheckChangedColumn(FindColumn(live, f.name).value, Resolve(f).details)
  }

  /** `$newColumns` after the loop. */
  function NewColumns(fields: seq<Field>, live: seq<LiveColumn>): seq<Column> {
    if fields == [] then []
    else
      var f := fields[|fields| - 1];
      NewColumns(fields[..|fields| - 1], live) + (if IsNew(f, live) then [Resolve(f)] else [])
  }

  /** `$changedColumns` after the loop. */
  function ChangedColumns(fields: seq<Field>, live: seq<LiveColumn>): seq<Column> {
    if fields == [] then []
    else
      var f := fields[|fields| - 1];
      ChangedColumns(fields[..|fields| - 1], live) + (if IsChanged(f, live) then [Resolve(f)] else [])
  }

  lemma {:induction false} NewColumnsMembers(fields: seq<Field>, live: seq<LiveColumn>, c: Column)
    ensures c in NewColumns(fields, live) <==> exists f :: f in fields && IsNew(f, live) && Resolve(f) == c
  {
    if fields != [] {
      var init, last := fields[..|fields| - 1], fields[|fields| - 1];
      assert fields == init + [last];
      NewColumnsMembers(init, live, c);
    }
  }

  lemma {:induction false} ChangedColumnsMembers(fields: seq<Field>, live: seq<LiveColumn>, c: Column)
    ensures c in ChangedColumns(fields, live) <==> exists f :: f in fields && IsChanged(f, live) && Resolve(f) == c
  {
    if fields != [] {
      var init, last := fields[..|fields| - 1], fields[|fields| - 1];
      assert fields == init + [last];
      ChangedColumnsMembers(init, live, c);
    }
  }

  /** Every declared field lands in exactly one of new, changed and
      untouched: new iff the live listing lacks it, changed iff it is listed
      and its normalised type or nullability differs. */
  lemma Classification(fields: seq<Field>, live: seq<LiveColumn>, f: Field)
    requires f in fields
    ensures Resolve(f) in NewColumns(fields, live) <==> f.name !in Listing(live)
    ensures Resolve(f) in ChangedColumns(fields, live)
        <==> f.name in Listing(live) && CheckChangedColumn(FindColumn(live, f.name).value, Resolve(f).details)
    ensures !(Resolve(f) in NewColumns(fields, live) && Resolve(f) in ChangedColumns(fields, live))
  {
    NewColumnsMembers(fields, live, Resolve(f));
    ChangedColumnsMembers(fields, live, Resolve(f));
  }

  /** Declaration order is kept: the fields declared first are classified
      first, in either list. */
  lemma {:induction false} ClassificationKeepsOrder(a: seq<Field>, b: seq<Field>, live: seq<LiveColumn>)
    ensures NewColumns(a + b, live) == NewColumns(a, live) + NewColumns(b, live)
    ensures ChangedColumns(a + b, live) == ChangedColumns(a, live) + ChangedColumns(b, live)
    decreases |b|
  {
    if b == [] {
      assert a + b == a;
    } else {
      var init, last := b[..|b| - 1], b[|b| - 1];
      assert (a + b)[..|a + b| - 1] == a + init;
      assert (a + b)[|a + b| - 1] == last;
      ClassificationKeepsOrder(a, init, live);
    }
  }

  /** The body of the update migration: all new fields, then all changed
      fields. */
  function UpdateSnippets(table: string, fields: seq<Field>, live: seq<LiveColumn>): seq<Snippet> {
    GuardedAll(table, NewColumns(fields, live)) + GuardedAll(table, ChangedColumns(fields, live))
  }

  /** The update migration, or nothing when no field is new or changed. */
  function PlanUpdate(table: string, fields: seq<Field>, live: seq<LiveColumn>): Option<Unit> {
    if NewColumns(fields, live) == [] && ChangedColumns(fields, live) == [] then None
    else Some(UpdateTable(table, RenderAll(UpdateSnippets(table, fields, live))))
  }

  /** The update path writes nothing exactly when every declared field has a
      live column of equal normalised type and nullability. */
  lemma NothingToUpdateIff(table: string, fields: seq<Field>, live: seq<LiveColumn>)
    ensures PlanUpdate(table, fields, live).None?
        <==> forall f :: f in fields ==> !IsNew(f, live) && !IsChanged(f, live)
  {
    if PlanUpdate(table, fields, live).None? {
      forall f | f in fields
        ensures !IsNew(f, live) && !IsChanged(f, live)
      {
        Classification(fields, live, f);
      }
    }
    if NewColumns(fields, live) != [] {
      NewColumnsMembers(fields, live, NewColumns(fields, live)[0]);
    }
    if ChangedColumns(fields, live) != [] {
      ChangedColumnsMembers(fields, live, ChangedColumns(fields, live)[0]);
    }
  }

  /** Only declared fields are mentioned; a live column the declaration no
      longer has is never dropped or touched. Each snippet adds when the
      snapshot lacks its column and changes otherwise, which is the field's
      class. */
  lemma UpdateMentionsOnlyDeclared(table: string, fields: seq<Field>, live: seq<LiveColumn>, s: Snippet)
    requires s in UpdateSnippets(table, fields, live)
    ensures s.GuardedColumn? && s.table == table
    ensures exists f :: f in fields && s.op == OpOf(Resolve(f)) && (IsNew(f, live) || IsChanged(f, live))
  {
    var newColumns, changedColumns := NewColumns(fields, live), ChangedColumns(fields, live);
    if s in GuardedAll(table, newColumns) {
      GuardedAllMembers(table, newColumns, s);
      var c :| c in newColumns && s == GuardedColumn(table, OpOf(c));
      NewColumnsMembers(fields, live, c);
    } else {
      GuardedAllMembers(table, changedColumns, s);
      var c :| c in changedColumns && s == GuardedColumn(table, OpOf(c));
      ChangedColumnsMembers(fields, live, c);
    }
  }

  /** The classification loop of `generateNewOrChangedColumnsMigration`. */
  method ClassifyFields(fields: seq<Field>, live: seq<LiveColumn>)
    returns (newColumns: seq<Column>, changedColumns: seq<Column>)
    ensures newColumns == NewColumns(fields, live)
    ensures changedColumns == ChangedColumns(fields, live)
  {
    newColumns, changedColumns := [], [];
    for i := 0 to |fields|
      invariant newColumns == NewColumns(fields[..i], live)
      invariant changedColumns == ChangedColumns(fields[..i], live)
    {
      var field := fields[i].name;
      var details := fields[i].details.GetOr(DefaultSchema);
      assert fields[..i + 1][..i] == fields[..i];
      if field !in Listing(live) {
        newColumns := newColumns + [Column(field, details)];
      } else {
        var currentColumn := FindColumn(live, field);
        if CheckChangedColumn(currentColumn.value, details) {
          changedColumns := changedColumns + [Column(field, details)];
        }
      }
    }
    assert fields[..|fields|] == fields;
  }

  /** One `foreach ... $columns .= $this->generateColumn(...)` loop. */
  method RenderColumns(table: string, cols: seq<Column>) returns (columns: string)
    ensures columns == RenderAll(GuardedAll(table, cols))
  {
    columns := "";
    for i := 0 to |cols|
      invariant columns == RenderAll(GuardedAll(table, cols[..i]))
    {
      assert cols[..i + 1][..i] == cols[..i];
      RenderAllSnoc(GuardedAll(table, cols[..i]), GuardedColumn(table, OpOf(cols[i])));
      columns := columns + GenerateColumn(table, cols[i].name, cols[i].details);
    }
    assert cols[..|cols|] == cols;
  }

  /** `generateNewOrChangedColumnsMigration`: classify, stop when there is
      nothing to do, then render the new columns followed by the changed
      ones. */
  method GenerateNewOrChangedColumnsMigration(table: string, fields: seq<Field>, live: seq<LiveColumn>)
    returns (unit: Option<Unit>)
    ensures unit == PlanUpdate(table, fields, live)
  {
    var newColumns, changedColumns := ClassifyFields(fields, live);
    if newColumns == [] && changedColumns == [] {
      return None;
    }
    var added := RenderColumns(table, newColumns);
    var changed := RenderColumns(table, changedColumns);
    RenderAllConcat(GuardedAll(table, newColumns), GuardedAll(table, changedColumns));
    unit := Some(UpdateTable(table, added + changed));
  }

  // ---------------------------------------------------------------------
  // Running the generated snippets
  // ---------------------------------------------------------------------

  /** The column the database holds after a column call ran. */
  function Created(op: ColumnOp, native: NativeTypes): LiveColumn {
    LiveColumn(op.field, native(op.colType), op.nullable, None)
  }

  function ReplaceColumn(live: seq<LiveColumn>, col: LiveColumn): seq<LiveColumn> {
    if live == [] then []
    else [if live[0].name == col.name then col else live[0]] + ReplaceColumn(live[1..], col)
  }

  /** Running one guarded column snippet. `Schema::table` runs the whole
      closure, evaluating every `Schema::hasColumn` guard, before any
      recorded command reaches the database: each guard reads `start`, the
      table before the migration, while the commands act on `cur`, the table
      so far. A `->change()` needs its column and an add needs it absent;
      otherwise the migration fails (None). Other snippets do not touch the
      columns. */
  function StepSnippet(start: seq<LiveColumn>, cur: seq<LiveColumn>, s: Snippet, native: NativeTypes)
    : Option<seq<LiveColumn>>
  {
    match s
    case GuardedColumn(_, op) =>
      if op.field in Listing(start) then
        if op.field in Listing(cur) then Some(ReplaceColumn(cur, Created(op, native))) else None
      else if op.field in Listing(cur) then None
      else Some(cur + [Created(op, native)])
    case _ => Some(cur)
  }

  /** Running a migration's snippets in order on the table `live`: the
      resulting columns, or None when the migration fails. */
  function ApplyAll(live: seq<LiveColumn>, ss: seq<Snippet>, native: NativeTypes): Option<seq<LiveColumn>> {
    if ss == [] then Some(live)
    else
      var before := ApplyAll(live, ss[..|ss| - 1], native);
      if before.None? then None else StepSnippet(live, before.value, ss[|ss| - 1], native)
  }

  /** Some snippet of `ss` calls column `name`. */
  predicate CallsOn(ss: seq<Snippet>, name: string) {
    exists s :: s in ss && s.GuardedColumn? && s.op.field == name
  }

  /** No column that `start` lacks is called twice: its first call adds it,
      and a later call, guarded on `start`, would add it again. */
  predicate AddsOnce(start: seq<LiveColumn>, ss: seq<Snippet>) {
    ss == [] ||
    (AddsOnce(start, ss[..|ss| - 1]) &&
     (ss[|ss| - 1].GuardedColumn? && ss[|ss| - 1].op.field !in Listing(start)
      ==> !CallsOn(ss[..|ss| - 1], ss[|ss| - 1].op.field)))
  }

  /** The last column call of `ss` on column `name`. */
  function LastCallOn(ss: seq<Snippet>, name: string): Option<ColumnOp> {
    if ss == [] then None
    else
      var s := ss[|ss| - 1];
      if s.GuardedColumn? && s.op.field == name then Some(s.op) else LastCallOn(ss[..|ss| - 1], name)
  }

  lemma {:induction false} FindAfterReplace(live: seq<LiveColumn>, col: LiveColumn, name: string)
    ensures FindColumn(ReplaceColumn(live, col), name)
         == if name != col.name then FindColumn(live, name)
            else if name in Listing(live) then Some(col) else None
  {
    if live != [] {
      FindAfterReplace(live[1..], col, name);
    }
  }

  lemma {:induction false} FindAfterAppend(live: seq<LiveColumn>, col: LiveColumn, name: string)
    ensures FindColumn(live + [col], name)
         == if name in Listing(live) then FindColumn(live, name)
            else if name == col.name then Some(col) else None
  {
    if live == [] {
      assert live + [col] == [col];
    } else {
      assert (live + [col])[1..] == live[1..] + [col];
      FindAfterAppend(live[1..], col, name);
    }
  }

  lemma FindAfterStep(start: seq<LiveColumn>, cur: seq<LiveColumn>, s: Snippet, native: NativeTypes, name: string)
    requires StepSnippet(start, cur, s, native).Some?
    ensures FindColumn(StepSnippet(start, cur, s, native).value, name)
         == if s.GuardedColumn? && s.op.field == name then Some(Created(s.op, native)) else FindColumn(cur, name)
  {
    if s.GuardedColumn? {
      FindAfterReplace(cur, Created(s.op, native), name);
      FindAfterAppend(cur, Created(s.op, native), name);
    }
  }

  lemma {:induction false} CallsOnSnoc(ss: seq<Snippet>, s: Snippet, name: string)
    ensures CallsOn(ss + [s], name) <==> CallsOn(ss, name) || (s.GuardedColumn? && s.op.field == name)
  {
    if CallsOn(ss + [s], name) {
      var t :| t in ss + [s] && t.GuardedColumn? && t.op.field == name;
      if t != s {
        assert t in ss;
      }
    }
    if CallsOn(ss, name) {
      var t :| t in ss && t.GuardedColumn? && t.op.field == name;
      assert t in ss + [s];
    }
    assert s in ss + [s];
  }

  /** A migration succeeds exactly when it calls no absent column twice;
      the table it leaves lists the old columns and every called one. */
  lemma {:induction false} ApplyAllSucceedsIff(live: seq<LiveColumn>, ss: seq<Snippet>, native: NativeTypes)
    ensures ApplyAll(live, ss, native).Some? <==> AddsOnce(live, ss)
    ensures ApplyAll(live, ss, native).Some? ==>
              forall name :: name in Listing(ApplyAll(live, ss, native).value) <==> name in Listing(live) || CallsOn(ss, name)
  {
    if ss != [] {
      var init, last := ss[..|ss| - 1], ss[|ss| - 1];
      assert ss == init + [last];
      ApplyAllSucceedsIff(live, init, native);
      var before := ApplyAll(live, init, native);
      if before.Some? {
        if last.GuardedColumn? {
          CallsOnSnoc(init, last, last.op.field);
        }
        if StepSnippet(live, before.value, last, native).Some? {
          forall name
            ensures name in Listing(ApplyAll(live, ss, native).value) <==> name in Listing(live) || CallsOn(ss, name)
          {
            FindAfterStep(live, before.value, last, native, name);
            CallsOnSnoc(init, last, name);
          }
        }
      }
    }
  }

  /** After a migration that succeeded, a column is what its last call made
      it, or what it was if no call names it. */
  lemma {:induction false} FindAfterAll(live: seq<LiveColumn>, ss: seq<Snippet>, native: NativeTypes, name: string)
    requires ApplyAll(live, ss, native).Some?
    ensures FindColumn(ApplyAll(live, ss, native).value, name)
         == if LastCallOn(ss, name).Some? then Some(Created(LastCallOn(ss, name).value, native))
            else FindColumn(live, name)
  {
    if ss != [] {
      var init, last := ss[..|ss| - 1], ss[|ss| - 1];
      FindAfterAll(live, init, native, name);
      FindAfterStep(live, ApplyAll(live, init, native).value, last, native, name);
    }
  }

  lemma {:induction false} LastCallIsOnlyCall(ss: seq<Snippet>, name: string, op: ColumnOp)
    requires op.field == name
    requires exists t :: GuardedColumn(t, op) in ss
    requires forall s :: s in ss && s.GuardedColumn? && s.op.field == name ==> s.op == op
    ensures LastCallOn(ss, name) == Some(op)
  {
    var init, last := ss[..|ss| - 1], ss[|ss| - 1];
    assert ss == init + [last];
    if !(last.GuardedColumn? && last.op.field == name) {
      var t :| GuardedColumn(t, op) in ss;
      assert GuardedColumn(t, op) in init;
      LastCallIsOnlyCall(init, name, op);
    }
  }

  lemma {:induction false} LastCallSomeIsCall(ss: seq<Snippet>, name: string)
    requires LastCallOn(ss, name).Some?
    ensures exists s :: s in ss && s.GuardedColumn? && s.op == LastCallOn(ss, name).value && s.op.field == name
  {
    var init, last := ss[..|ss| - 1], ss[|ss| - 1];
    assert ss == init + [last];
    if !(last.GuardedColumn? && last.op.field == name) {
      LastCallSomeIsCall(init, name);
    }
  }

  lemma {:induction false} SomeCallOn(ss: seq<Snippet>, name: string, s: Snippet)
    requires s in ss && s.GuardedColumn? && s.op.field == name
    ensures LastCallOn(ss, name).Some?
  {
    var init, last := ss[..|ss| - 1], ss[|ss| - 1];
    assert ss == init + [last];
    if s != last && !(last.GuardedColumn? && last.op.field == name) {
      SomeCallOn(init, name, s);
    }
  }

  lemma {:induction false} NoCallOn(ss: seq<Snippet>, name: string)
    requires forall s :: s in ss && s.GuardedColumn? ==> s.op.field != name
    ensures LastCallOn(ss, name) == None
  {
    if ss != [] {
      var init := ss[..|ss| - 1];
      assert ss == init + [ss[|ss| - 1]];
      NoCallOn(init, name);
    }
  }

  lemma AddsOnceSnoc(start: seq<LiveColumn>, ss: seq<Snippet>, s: Snippet)
    ensures AddsOnce(start, ss + [s])
        <==> AddsOnce(start, ss) && (s.GuardedColumn? && s.op.field !in Listing(start) ==> !CallsOn(ss, s.op.field))
  {
    assert (ss + [s])[..|ss|] == ss;
  }

  /** Calls on columns the table already has never break `AddsOnce`. */
  lemma {:induction false} AddsOnceKeepsOld(start: seq<LiveColumn>, ss: seq<Snippet>, tail: seq<Snippet>)
    requires AddsOnce(start, ss)
    requires forall s :: s in tail && s.GuardedColumn? ==> s.op.field in Listing(start)
    ensures AddsOnce(start, ss + tail)
  {
    if tail == [] {
      assert ss + tail == ss;
    } else {
      var init, last := tail[..|tail| - 1], tail[|tail| - 1];
      assert tail == init + [last];
      assert ss + tail == (ss + init) + [last];
      AddsOnceKeepsOld(start, ss, init);
      AddsOnceSnoc(start, ss + init, last);
    }
  }

  /** A call among the new columns of all but the last field is on a name
      the last field does not have. */
  lemma NewCallOnEarlier(table: string, fields: seq<Field>, live: seq<LiveColumn>, t: Snippet)
    requires Distinct(ColumnNames(ResolveAll(fields))) && fields != []
    requires t in GuardedAll(table, NewColumns(fields[..|fields| - 1], live)) && t.GuardedColumn?
    ensures t.op.field != fields[|fields| - 1].name
  {
    var init := fields[..|fields| - 1];
    GuardedAllMembers(table, NewColumns(init, live), t);
    var c :| c in NewColumns(init, live) && t == GuardedColumn(table, OpOf(c));
    NewColumnsMembers(init, live, c);
    var g :| g in init && IsNew(g, live) && Resolve(g) == c;
    var i :| 0 <= i < |init| && init[i] == g;
    ResolveAllAt(fields, i);
    ResolveAllAt(fields, |fields| - 1);
    assert ColumnNames(ResolveAll(fields))[i] != ColumnNames(ResolveAll(fields))[|fields| - 1];
  }

  /** Distinct field names add each new column once. */
  lemma {:induction false} NewAddsOnce(table: string, fields: seq<Field>, live: seq<LiveColumn>)
    requires Distinct(ColumnNames(ResolveAll(fields)))
    ensures AddsOnce(live, GuardedAll(table, NewColumns(fields, live)))
  {
    if fields != [] {
      var init, f := fields[..|fields| - 1], fields[|fields| - 1];
      assert Distinct(ColumnNames(ResolveAll(init))) by {
        ResolveAllLength(init);
        forall i, j | 0 <= i < j < |init|
          ensures ColumnNames(ResolveAll(init))[i] != ColumnNames(ResolveAll(init))[j]
        {
          ResolveAllAt(fields, i);
          ResolveAllAt(fields, j);
          ResolveAllAt(init, i);
          ResolveAllAt(init, j);
          assert ColumnNames(ResolveAll(fields))[i] != ColumnNames(ResolveAll(fields))[j];
        }
      }
      NewAddsOnce(table, init, live);
      var before := GuardedAll(table, NewColumns(init, live));
      if IsNew(f, live) {
        var s := GuardedColumn(table, OpOf(Resolve(f)));
        assert GuardedAll(table, NewColumns(fields, live)) == before + [s];
        forall t | t in before && t.GuardedColumn?
          ensures t.op.field != f.name
        {
          NewCallOnEarlier(table, fields, live, t);
        }
        AddsOnceSnoc(live, before, s);
      } else {
        assert NewColumns(fields, live) == NewColumns(init, live);
      }
    }
  }

  /** The update migration never adds a column twice. */
  lemma UpdateAddsOnce(table: string, fields: seq<Field>, live: seq<LiveColumn>)
    requires Distinct(ColumnNames(ResolveAll(fields)))
    ensures AddsOnce(live, UpdateSnippets(table, fields, live))
  {
    NewAddsOnce(table, fields, live);
    forall s | s in GuardedAll(table, ChangedColumns(fields, live)) && s.GuardedColumn?
      ensures s.op.field in Listing(live)
    {
      GuardedAllMembers(table, ChangedColumns(fields, live), s);
      var c :| c in ChangedColumns(fields, live) && s == GuardedColumn(table, OpOf(c));
      ChangedColumnsMembers(fields, live, c);
    }
    AddsOnceKeepsOld(live, GuardedAll(table, NewColumns(fields, live)), GuardedAll(table, ChangedColumns(fields, live)));
  }

  /** The type a column is declared with survives the round trip through
      the database: the name it reports normalises back to it. */
  predicate RoundTrips(native: NativeTypes, c: Column) {
    ParseTypeName(native(TypeOf(c.details))) == TypeOf(c.details)
  }

  /** With distinct names, an update snippet on a field's name is that
      field's own call. */
  lemma UpdateCallOn(table: string, fields: seq<Field>, live: seq<LiveColumn>, f: Field, s: Snippet)
    requires Distinct(ColumnNames(ResolveAll(fields))) && f in fields
    requires s in UpdateSnippets(table, fields, live) && s.GuardedColumn? && s.op.field == f.name
    ensures s.op == OpOf(Resolve(f)) && (IsNew(f, live) || IsChanged(f, live))
  {
    UpdateMentionsOnlyDeclared(table, fields, live, s);
    var g :| g in fields && s.op == OpOf(Resolve(g)) && (IsNew(g, live) || IsChanged(g, live));
    var i, j :| 0 <= i < |fields| && 0 <= j < |fields| && fields[i] == g && fields[j] == f;
    ResolveAllAt(fields, i);
    ResolveAllAt(fields, j);
    assert ColumnNames(ResolveAll(fields))[i] == ColumnNames(ResolveAll(fields))[j];
  }

  /** After the update migration ran, each declared field has a column, and
      it still reads as changed exactly when the migration touched it and
      its type does not round-trip. */
  lemma AfterUpdate(table: string, fields: seq<Field>, live: seq<LiveColumn>, native: NativeTypes, f: Field)
    requires Distinct(ColumnNames(ResolveAll(fields))) && f in fields
    ensures ApplyAll(live, UpdateSnippets(table, fields, live), native).Some?
    ensures var after := ApplyAll(live, UpdateSnippets(table, fields, live), native).value;
            !IsNew(f, after)
            && (IsChanged(f, after) <==> (IsNew(f, live) || IsChanged(f, live)) && !RoundTrips(native, Resolve(f)))
  {
    var ss := UpdateSnippets(table, fields, live);
    UpdateAddsOnce(table, fields, live);
    ApplyAllSucceedsIff(live, ss, native);
    FindAfterAll(live, ss, native, f.name);
    Classification(fields, live, f);
    forall s | s in ss && s.GuardedColumn? && s.op.field == f.name
      ensures s.op == OpOf(Resolve(f)) && (IsNew(f, live) || IsChanged(f, live))
    {
      UpdateCallOn(table, fields, live, f, s);
    }
    if IsNew(f, live) || IsChanged(f, live) {
      var s := GuardedColumn(table, OpOf(Resolve(f)));
      if IsNew(f, live) {
        GuardedAllMembers(table, NewColumns(fields, live), s);
      } else {
        GuardedAllMembers(table, ChangedColumns(fields, live), s);
      }
      LastCallIsOnlyCall(ss, f.name, OpOf(Resolve(f)));
    } else {
      NoCallOn(ss, f.name);
    }
  }

  /** Idempotence: once the update migration has run, generating again
      writes nothing exactly when every field it touched has a type that
      round-trips through the database. A type outside the normalisation
      table (a `boolean` stored as `tinyint`, say) is reported as changed on
      every later run. */
  lemma UpdateConvergesIff(table: string, fields: seq<Field>, live: seq<LiveColumn>, native: NativeTypes)
    requires Distinct(ColumnNames(ResolveAll(fields)))
    ensures ApplyAll(live, UpdateSnippets(table, fields, live), native).Some?
    ensures PlanUpdate(table, fields, ApplyAll(live, UpdateSnippets(table, fields, live), native).value).None?
        <==> forall f :: f in fields && (IsNew(f, live) || IsChanged(f, live)) ==> RoundTrips(native, Resolve(f))
  {
    UpdateAddsOnce(table, fields, live);
    ApplyAllSucceedsIff(live, UpdateSnippets(table, fields, live), native);
    var after := ApplyAll(live, UpdateSnippets(table, fields, live), native).value;
    NothingToUpdateIff(table, fields, after);
    forall f | f in fields
      ensures !IsNew(f, after)
      ensures IsChanged(f, after) <==> (IsNew(f, live) || IsChanged(f, live)) && !RoundTrips(native, Resolve(f))
    {
      AfterUpdate(table, fields, live, native, f);
    }
  }

  /** Against an empty table every declared field is new and none is
      changed, so the update snippets are the create migration's. */
  lemma {:induction false} EmptyTableAllNew(table: string, fields: seq<Field>)
    ensures NewColumns(fields, []) == ResolveAll(fields)
    ensures ChangedColumns(fields, []) == []
    ensures UpdateSnippets(table, fields, []) == FullSnippets(table, fields)
  {
    if fields != [] {
      EmptyTableAllNew(table, fields[..|fields| - 1]);
    }
    assert GuardedAll(table, []) == [];
    assert FullSnippets(table, fields) + [] == FullSnippets(table, fields);
  }

  /** Idempotence of the full-create path: after the create migration ran on
      a fresh table, the next run writes no update migration exactly when
      every declared type round-trips. */
  lemma CreateConvergesIff(table: string, fields: seq<Field>, native: NativeTypes)
    requires Distinct(ColumnNames(ResolveAll(fields)))
    ensures ApplyAll([], FullSnippets(table, fields), native).Some?
    ensures PlanUpdate(table, fields, ApplyAll([], FullSnippets(table, fields), native).value).None?
        <==> forall f :: f in fields ==> RoundTrips(native, Resolve(f))
  {
    EmptyTableAllNew(table, fields);
    UpdateConvergesIff(table, fields, [], native);
  }
}
