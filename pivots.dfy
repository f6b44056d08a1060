/** The pivot step of the packaged command: `getPivotTableName`, the key
    columns of `createPivotTableMigration` and the `createPivotTables`
    loop. */
module Pivots {
  import opened Schema
  import opened Blueprint
  import opened ForeignKeys

  /** PHP's `sort` on two non-numeric strings: byte-wise order, a proper
      prefix first. */
  predicate LexLe(a: string, b: string) {
    a == [] || (b != [] && (a[0] < b[0] || (a[0] == b[0] && LexLe(a[1..], b[1..]))))
  }

  lemma {:induction false} LexLeTotal(a: string, b: string)
    ensures LexLe(a, b) || LexLe(b, a)
  {
    if a != [] && b != [] && a[0] == b[0] {
      LexLeTotal(a[1..], b[1..]);
    }
  }

  lemma {:induction false} LexLeAntisymmetric(a: string, b: string)
    requires LexLe(a, b) && LexLe(b, a)
    ensures a == b
  {
    if a != [] && b != [] {
      LexLeAntisymmetric(a[1..], b[1..]);
      assert a == [a[0]] + a[1..] && b == [b[0]] + b[1..];
    }
  }

  /** `sort($tables)` on a two-element array: its elements in order. */
  function Sort2(a: string, b: string): (sorted: (string, string))
    ensures multiset{sorted.0, sorted.1} == multiset{a, b}
    ensures LexLe(sorted.0, sorted.1)
  {
    LexLeTotal(a, b);
    if LexLe(a, b) then (a, b) else (b, a)
  }

  /** Two strings have one sorted order. */
  lemma Sort2Symmetric(a: string, b: string)
    ensures Sort2(a, b) == Sort2(b, a)
  {
    var (p, q) := Sort2(a, b);
    var (p', q') := Sort2(b, a);
    if p != p' {
      assert p == q' && q == p';
      LexLeAntisymmetric(p, q);
    }
  }

  /** `getPivotTableName`: the plural of the two snake-cased names, sorted
      and joined with `_`. */
  function GetPivotTableName(infl: Inflector, table1: string, table2: string): string {
    var tables := Sort2(infl.snake(table1), infl.snake(table2));
    infl.plural(tables.0 + "_" + tables.1)
  }

  /** The pivot of a pair does not depend on which model declares it. */
  lemma PivotNameSymmetric(infl: Inflector, table1: string, table2: string)
    ensures GetPivotTableName(infl, table1, table2) == GetPivotTableName(infl, table2, table1)
  {
    Sort2Symmetric(infl.snake(table1), infl.snake(table2));
  }

  /** The `foreignId` column `createPivotTableMigration` writes for a table. */
  function KeyColumn(infl: Inflector, table: string): string {
    infl.singular(infl.snake(table)) + "_id"
  }

  /** The pivot migration of a many-to-many entry: its sorted name and its
      two key columns in declaration order. */
  function PivotUnit(infl: Inflector, r: Relationship): (u: Unit)
    requires r.ManyToMany?
    ensures u.CreatePivotTable? && u.table == GetPivotTableName(infl, r.table1, r.table2)
  {
    CreatePivotTable(GetPivotTableName(infl, r.table1, r.table2), KeyColumn(infl, r.table1), KeyColumn(infl, r.table2))
  }

  /** The pair declared the other way round names the same pivot with its key
      columns swapped: the names are sorted, the columns are not. */
  lemma SwappedPairSwapsColumns(infl: Inflector, table1: string, table2: string)
    ensures var u := PivotUnit(infl, ManyToMany(table1, table2));
            var v := PivotUnit(infl, ManyToMany(table2, table1));
            v.table == u.table && v.column1 == u.column2 && v.column2 == u.column1
  {
    PivotNameSymmetric(infl, table1, table2);
  }

  /** The pivot migrations a run writes. `tables` is the database's tables
      when the run starts; pivots planned earlier in the same run do not
      count as existing. */
  function PlanPivots(infl: Inflector, rels: seq<Relationship>, tables: set<string>): seq<Unit> {
    if rels == [] then []
    else
      var r := rels[|rels| - 1];
      PlanPivots(infl, rels[..|rels| - 1], tables)
        + (if r.ManyToMany? && GetPivotTableName(infl, r.table1, r.table2) !in tables then [PivotUnit(infl, r)] else [])
  }

  /** `createPivotTables` */
  method CreatePivotTables(infl: Inflector, rels: seq<Relationship>, tables: set<string>) returns (units: seq<Unit>)
    ensures units == PlanPivots(infl, rels, tables)
  {
    units := [];
    for i := 0 to |rels|
      invariant units == PlanPivots(infl, rels[..i], tables)
    {
      assert rels[..i + 1][..i] == rels[..i];
      var details := rels[i];
      if details.ManyToMany? {
        var pivotTableName := GetPivotTableName(infl, details.table1, details.table2);
        if pivotTableName !in tables {
          units := units + [PivotUnit(infl, details)];
        }
      }
    }
    assert rels[..|rels|] == rels;
  }

  /** A pivot migration is written for exactly the many-to-many entries
      whose pivot table is absent, and never for a reference. */
  lemma {:induction false} PivotPlannedIff(infl: Inflector, rels: seq<Relationship>, tables: set<string>, u: Unit)
    ensures u in PlanPivots(infl, rels, tables)
        <==> exists r :: r in rels && r.ManyToMany? && GetPivotTableName(infl, r.table1, r.table2) !in tables
                         && u == PivotUnit(infl, r)
  {
    if rels != [] {
      var init, last := rels[..|rels| - 1], rels[|rels| - 1];
      assert rels == init + [last];
      PivotPlannedIff(infl, init, tables, u);
    }
  }

  /** No planned pivot already exists. */
  lemma PlannedPivotsAreAbsent(infl: Inflector, rels: seq<Relationship>, tables: set<string>, u: Unit)
    requires u in PlanPivots(infl, rels, tables)
    ensures u.CreatePivotTable? && u.table !in tables
  {
    PivotPlannedIff(infl, rels, tables, u);
  }
}
