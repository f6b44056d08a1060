/** The text the generator writes into migrations: the Blueprint column call
    built by the `switch` shared by both command variants, the snippets
    wrapped around it, and the migration units that collect them. */
module Blueprint {
  import opened Schema

  // ---------------------------------------------------------------------
  // The `switch ($type)` without `break`
  // ---------------------------------------------------------------------

  /** One `case` of a PHP `switch` (None is `default`) and the value its
      body assigns to the row variable. */
  datatype Arm = Arm(caseOf: Option<string>, assigns: string)

  /** Index of the first arm with the given case, or `|arms|` if none has it. */
  function FirstArm(arms: seq<Arm>, on: Option<string>): (k: nat)
    ensures k <= |arms|
    ensures k < |arms| ==> arms[k].caseOf == on
    ensures forall i :: 0 <= i < k ==> arms[i].caseOf != on
  {
    if arms == [] then 0
    else if arms[0].caseOf == on then 0
    else 1 + FirstArm(arms[1..], on)
  }

  /** Where PHP starts executing a `switch`: the first case equal to the
      subject, otherwise the `default` arm, otherwise nowhere. */
  function EntryPoint(arms: seq<Arm>, subject: string): (k: nat)
    ensures k <= |arms|
  {
    var m := FirstArm(arms, Some(subject));
    if m < |arms| then m else FirstArm(arms, None)
  }

  /** Executes the bodies from arm `k` to the end, since none of them ends
      in `break`; `row` is the variable's value before arm `k`. */
  function RunFrom(arms: seq<Arm>, k: nat, row: string): string
    decreases |arms| - k
  {
    if k >= |arms| then row else RunFrom(arms, k + 1, arms[k].assigns)
  }

  /** Once execution enters any arm it falls through to the last one, whose
      assignment is the one that survives. */
  lemma {:induction false} LastArmWins(arms: seq<Arm>, k: nat, row: string)
    requires k < |arms|
    ensures RunFrom(arms, k, row) == arms[|arms| - 1].assigns
    decreases |arms| - k
  {
    if k + 1 < |arms| {
      LastArmWins(arms, k + 1, arms[k].assigns);
    }
  }

  function DigitChar(d: nat): char
    requires d < 10
  {
    "0123456789"[d]
  }

  function NatToString(n: nat): string
    decreases n
  {
    if n < 10 then [DigitChar(n)] else NatToString(n / 10) + [DigitChar(n % 10)]
  }

  /** PHP's interpolation of an integer. */
  function IntToString(i: int): string {
    if i < 0 then "-" + NatToString(-i) else NatToString(i)
  }

  /** The four arms of `generateColumn` and `modifyColumn`, in source order. */
  function ColumnArms(colType: string, field: string, length: Option<int>): seq<Arm> {
    [ Arm(Some("string"),
          if length.Some? && length.value != 0
          then "$table->string('" + field + "', " + IntToString(length.value) + ")"
          else "$table->string('" + field + "')"),
      Arm(Some("text"), "$table->text('" + field + "')"),
      Arm(Some("integer"), "$table->integer('" + field + "')"),
      Arm(None, "$table->" + colType + "('" + field + "')") ]
  }

  // ---------------------------------------------------------------------
  // The column call as a value, and its text
  // ---------------------------------------------------------------------

  /** What a column call says: a Blueprint method, a column, nullability. */
  datatype ColumnOp = ColumnOp(field: string, colType: string, nullable: bool)

  /** How `generateColumn` reads a field's details. */
  function ColumnOpOf(field: string, d: Details): ColumnOp {
    ColumnOp(field, TypeOf(d), NullableOf(d))
  }

  function NullableSuffix(nullable: bool): string {
    if nullable then "->nullable()" else ""
  }

  /** `$table->{type}('{field}')`, with `->nullable()` when nullable. */
  function RenderCall(op: ColumnOp): string {
    "$table->" + op.colType + "('" + op.field + "')" + NullableSuffix(op.nullable)
  }

  /** The row that the `switch` of `generateColumn` / `modifyColumn` leaves,
      with the nullable suffix. Whatever the declared type and length, it is
      the default arm's call: the type defaults to `string`, the length never
      appears, and `->nullable()` is there exactly when the field is
      nullable. */
  function ColumnRow(field: string, d: Details): (row: string)
    ensures row == RenderCall(ColumnOpOf(field, d))
  {
    var arms := ColumnArms(TypeOf(d), field, d.length);
    var k := EntryPoint(arms, TypeOf(d));
    assert arms[3].caseOf == None;
    LastArmWins(arms, k, "");
    RunFrom(arms, k, "") + NullableSuffix(NullableOf(d))
  }

  /** The declared length of `app/Models/Product.php`'s `name` field is lost:
      the `string` arm would have written it, but falls through. */
  lemma FallthroughDropsLength()
    ensures ColumnArms("string", "name", Some(255))[0].assigns == "$table->string('name', 255)"
    ensures ColumnRow("name", Details(Some("string"), Some(255), Some(true), None))
         == "$table->string('name')->nullable()"
  {
    assert IntToString(255) == "255" by {
      assert NatToString(2) == "2";
      assert NatToString(25) == NatToString(2) + [DigitChar(5)] == "25";
      assert NatToString(255) == NatToString(25) + [DigitChar(5)] == "255";
    }
    var d := Details(Some("string"), Some(255), Some(true), None);
    assert ColumnOpOf("name", d) == ColumnOp("name", "string", true);
    NullableNameCall();
  }

  lemma NullableNameCall()
    ensures RenderCall(ColumnOp("name", "string", true)) == "$table->string('name')->nullable()"
  {
  }

  /** Position of the first `c` in `s`, or `|s|`. */
  function IndexOf(s: string, c: char): (k: nat)
    ensures k <= |s|
    ensures k < |s| ==> s[k] == c
  {
    if s == [] then 0 else if s[0] == c then 0 else 1 + IndexOf(s[1..], c)
  }

  const CallPrefix: string := "$table->"

  /** Reads a column call back: the inverse of RenderCall. */
  function ParseCall(s: string): Option<ColumnOp> {
    if |s| >= |CallPrefix| && s[..|CallPrefix|] == CallPrefix then ParseAfterPrefix(s[|CallPrefix|..]) else None
  }

  /** Reads `{type}('{field}')` with an optional `->nullable()`. */
  function ParseAfterPrefix(rest: string): Option<ColumnOp> {
    var i := IndexOf(rest, '(');
    if i + 2 <= |rest| && rest[i..i + 2] == "('" then ParseArguments(rest[..i], rest[i + 2..]) else None
  }

  /** Reads `{field}')` with an optional `->nullable()`, the type being known. */
  function ParseArguments(colType: string, after: string): Option<ColumnOp> {
    var j := IndexOf(after, '\'');
    var tail := after[j..];
    if tail == "')" then Some(ColumnOp(after[..j], colType, false))
    else if tail == "')->nullable()" then Some(ColumnOp(after[..j], colType, true))
    else None
  }

  /** A call whose type name has no `(` and whose column name has no quote,
      as every Blueprint method and column name has. */
  predicate Printable(op: ColumnOp) {
    '(' !in op.colType && '\'' !in op.field
  }

  lemma {:induction false} IndexOfStops(a: string, b: string, c: char)
    requires c !in a && |b| > 0 && b[0] == c
    ensures IndexOf(a + b, c) == |a|
  {
    if a != [] {
      assert (a + b)[1..] == a[1..] + b;
      IndexOfStops(a[1..], b, c);
    } else {
      assert a + b == b;
    }
  }

  lemma ParseArgumentsOf(colType: string, field: string, nullable: bool)
    requires '\'' !in field
    ensures ParseArguments(colType, field + ("')" + NullableSuffix(nullable))) == Some(ColumnOp(field, colType, nullable))
  {
    var tail := "')" + NullableSuffix(nullable);
    var after := field + tail;
    IndexOfStops(field, tail, '\'');
    assert after[..|field|] == field;
    assert after[|field|..] == tail;
    if nullable {
      assert tail == "')->nullable()";
    } else {
      assert tail == "')";
    }
  }

  lemma ParseAfterPrefixOf(colType: string, after: string)
    requires '(' !in colType
    ensures ParseAfterPrefix(colType + ("('" + after)) == ParseArguments(colType, after)
  {
    var rest := colType + ("('" + after);
    IndexOfStops(colType, "('" + after, '(');
    var i := |colType|;
    assert rest[i..i + 2] == "('";
    assert rest[..i] == colType;
    assert rest[i + 2..] == after;
  }

  /** The rendered call carries the whole operation: parsing it back gives
      the operation that was rendered. */
  lemma ParseRenderCall(op: ColumnOp)
    requires Printable(op)
    ensures ParseCall(RenderCall(op)) == Some(op)
  {
    var after := op.field + ("')" + NullableSuffix(op.nullable));
    var rest := op.colType + ("('" + after);
    assert RenderCall(op) == CallPrefix + rest;
    ParseCallOf(rest);
    ParseAfterPrefixOf(op.colType, after);
    ParseArgumentsOf(op.colType, op.field, op.nullable);
  }

  lemma ParseCallOf(rest: string)
    ensures ParseCall(CallPrefix + rest) == ParseAfterPrefix(rest)
  {
    var s := CallPrefix + rest;
    assert s[..|CallPrefix|] == CallPrefix;
    assert s[|CallPrefix|..] == rest;
  }

  /** Two printable operations never render to the same text. */
  lemma RenderCallInjective(a: ColumnOp, b: ColumnOp)
    requires Printable(a) && Printable(b)
    requires RenderCall(a) == RenderCall(b)
    ensures a == b
  {
    ParseRenderCall(a);
    ParseRenderCall(b);
  }

  // ---------------------------------------------------------------------
  // Snippets and migration units
  // ---------------------------------------------------------------------

  /** A foreign-key constraint: `$table->foreign(column)->references(refField)
      ->on(refTable)->onDelete(onDelete)`. */
  datatype ForeignOp = ForeignOp(column: string, refTable: string, refField: string, onDelete: string)

  function ForeignCall(fk: ForeignOp): string {
    "$table->foreign('" + fk.column + "')->references('" + fk.refField + "')->on('" + fk.refTable
      + "')->onDelete('" + fk.onDelete + "');\n"
  }

  /** The runtime guard of the packaged command: drop an existing constraint
      on the column first. */
  function DropGuard(table: string, column: string): string {
    "if($this->foreignKeyExists('" + column + "', '" + table + "')){\n$table->dropForeign(['" + column + "']);\n}\n"
  }

  /** The guard of the packaged `generateColumn` around a row: add the column
      when the table lacks it, otherwise `->change()` it. */
  function GuardedText(table: string, field: string, row: string): string {
    "if (!Schema::hasColumn('" + table + "', '" + field + "')) {\n" + row + ";\n} else {\n" + row + "->change();\n}\n\n"
  }

  /** One piece of a migration's `up()` body. */
  datatype Snippet =
    | GuardedColumn(table: string, op: ColumnOp)   // packaged generateColumn
    | GuardedForeign(table: string, fk: ForeignOp) // packaged generateForeignKey
    | AddColumn(op: ColumnOp)                      // in-app generateColumn
    | ChangeColumn(op: ColumnOp)                   // in-app modifyColumn
    | PlainForeign(fk: ForeignOp)                  // in-app generateForeignKey

  function Render(s: Snippet): string {
    match s
    case GuardedColumn(t, op) => GuardedText(t, op.field, RenderCall(op))
    case GuardedForeign(t, fk) => DropGuard(t, fk.column) + ForeignCall(fk)
    case AddColumn(op) => RenderCall(op) + ";\n"
    case ChangeColumn(op) => RenderCall(op) + "->change();\n"
    case PlainForeign(fk) => ForeignCall(fk)
  }

  /** The text a `.=` loop accumulates from a list of snippets. It is empty
      exactly when the list is, which is what each `empty(...)` test of the
      source relies on. */
  function RenderAll(ss: seq<Snippet>): (text: string)
    ensures text == "" <==> ss == []
  {
    if ss == [] then "" else RenderAll(ss[..|ss| - 1]) + Render(ss[|ss| - 1])
  }

  lemma {:induction false} RenderAllConcat(a: seq<Snippet>, b: seq<Snippet>)
    ensures RenderAll(a + b) == RenderAll(a) + RenderAll(b)
    decreases |b|
  {
    if b == [] {
      assert a + b == a;
    } else {
      var b', last := b[..|b| - 1], b[|b| - 1];
      assert b == b' + [last];
      assert a + b == (a + b') + [last];
      RenderAllConcat(a, b');
      RenderAllSnoc(a + b', last);
      RenderAllSnoc(b', last);
      AppendAfter(RenderAll(a + b'), RenderAll(a), RenderAll(b'), Render(last));
    }
  }

  lemma AppendAfter(x: string, y: string, z: string, w: string)
    requires x == y + z
    ensures x + w == y + (z + w)
  {
  }

  lemma RenderAllSnoc(a: seq<Snippet>, s: Snippet)
    ensures RenderAll(a + [s]) == RenderAll(a) + Render(s)
  {
    assert (a + [s])[..|a|] == a;
  }

  /** One migration file the generator writes, without its timestamp and
      boilerplate: the table it acts on and the generated parts of `up()`. */
  datatype Unit =
    | CreateTable(table: string, columns: string)
    | UpdateTable(table: string, columns: string)
    | AddForeignKeys(table: string, updatedColumns: string, foreignKeys: string)
    | CreatePivotTable(table: string, column1: string, column2: string)
}
