/** The data the migration generator reads: what a model declares about a
    column, the snapshot of the live database it compares against, and the
    few PHP value rules the generator's decisions depend on. */
module Schema {

  datatype Option<+T> = None | Some(value: T) {
    /** PHP's `$x ?? $default` for a key that may be missing or null. */
    function GetOr(default: T): T {
      match this
      case Some(v) => v
      case None => default
    }
  }

  /** One entry of a model's `migrationSchema`: every key is optional.
      `length` and `default` are read by nobody that decides anything; they
      are here so that the model can say so. */
  datatype Details = Details(
    colType: Option<string>,
    length: Option<int>,
    nullable: Option<bool>,
    default: Option<string>)

  /** `$defaultMigrationSchema`, used for a field whose details are null. */
  const DefaultSchema: Details := Details(Some("string"), None, None, None)

  /** `$details['type'] ?? 'string'` */
  function TypeOf(d: Details): string {
    d.colType.GetOr("string")
  }

  /** `$details['nullable'] ?? false` */
  function NullableOf(d: Details): bool {
    d.nullable.GetOr(false)
  }

  /** One row of `Schema::getColumns($table)`. */
  datatype LiveColumn = LiveColumn(name: string, typeName: string, nullable: bool, default: Option<string>)

  /** One row of `Schema::getIndexes($table)`: only its column list is read. */
  datatype Index = Index(name: string, columns: seq<string>)

  /** What the generator learns from the database during one run: the names
      of the tables that exist (`Schema::hasTable`), and the columns and
      indexes of the model's own table. `Schema::getColumnListing` is the
      list of the columns' names. */
  datatype Snapshot = Snapshot(tables: set<string>, columns: seq<LiveColumn>, indexes: seq<Index>)

  /** `Schema::getColumnListing($table)` */
  function Listing(cols: seq<LiveColumn>): seq<string> {
    if cols == [] then [] else [cols[0].name] + Listing(cols[1..])
  }

  /** `current(array_filter($columnsDetails, fn ($c) => $c['name'] === $name))`:
      the first live column of that name, or PHP `false` (here None). */
  function FindColumn(cols: seq<LiveColumn>, name: string): (r: Option<LiveColumn>)
    ensures r.Some? <==> name in Listing(cols)
    ensures r.Some? ==> r.value in cols && r.value.name == name
  {
    if cols == [] then None
    else if cols[0].name == name then Some(cols[0])
    else FindColumn(cols[1..], name)
  }

  /** No name occurs twice: the keys of a PHP array, say. */
  predicate Distinct(names: seq<string>) {
    forall i, j :: 0 <= i < j < |names| ==> names[i] != names[j]
  }

  /** PHP truthiness of a string: only "" and "0" are false. */
  predicate Truthy(s: string) {
    s != "" && s != "0"
  }

  /** PHP truthiness of a value that is either a string or `false` (None). */
  predicate TruthyValue(v: Option<string>) {
    v.Some? && Truthy(v.value)
  }

  /** Laravel's `Str::snake`, `Str::plural` and `Str::singular`, which the
      generator calls but whose inflection rules are not part of this model:
      every property below holds for any choice of them. */
  datatype Inflector = Inflector(
    snake: string -> string,
    plural: string -> string,
    singular: string -> string)

  /** The type name the database reports for a column that a Blueprint call
      of type `colType` created (for MySQL, `string` gives `varchar`). */
  type NativeTypes = string -> string
}
