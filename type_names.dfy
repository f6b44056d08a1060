/** Type normalisation and the change test. Both command variants carry the
    same `$schema_types` table, `parseTypeName` and `checkChangedColumn`. */
module TypeNames {
  import opened Schema

  /** `$schema_types`: native type names as the database reports them,
      mapped to the Blueprint method names the models declare. */
  const SchemaTypes: map<string, string> := map[
    "int" := "integer",
    "varchar" := "string",
    "text" := "text",
    "json" := "json",
    "bigint" := "unsignedBigInteger"
  ]

  /** `parseTypeName`: the table's entry, or the name itself when the table
      has none. */
  function ParseTypeName(name: string): (r: string)
    ensures name == "int" ==> r == "integer"
    ensures name == "varchar" ==> r == "string"
    ensures name == "text" ==> r == "text"
    ensures name == "json" ==> r == "json"
    ensures name == "bigint" ==> r == "unsignedBigInteger"
    ensures name !in {"int", "varchar", "text", "json", "bigint"} ==> r == name
  {
    if name in SchemaTypes then SchemaTypes[name] else name
  }

  /** Normalising twice is normalising once: no abstract name is itself a
      native name with a different entry. */
  lemma ParseTypeNameIdempotent(name: string)
    ensures ParseTypeName(ParseTypeName(name)) == ParseTypeName(name)
  {
  }

  /** Exactly three native names are rewritten; every other name, including
      "text" and "json", is its own abstract type. */
  lemma ParseTypeNameFixedPoints(name: string)
    ensures ParseTypeName(name) == name <==> name !in {"int", "varchar", "bigint"}
  {
  }

  /** A column reads as `unsignedBigInteger` exactly when the database reports
      it as `bigint` or literally as `unsignedBigInteger`. */
  lemma UnsignedBigIntegerNames(name: string)
    ensures ParseTypeName(name) == "unsignedBigInteger" <==> name in {"bigint", "unsignedBigInteger"}
  {
  }

  /** `checkChangedColumn`: the flag is raised by either test and never
      lowered; defaults and lengths are not looked at. */
  function CheckChangedColumn(current: LiveColumn, declared: Details): (changed: bool)
    ensures changed <==> ParseTypeName(current.typeName) != TypeOf(declared) || current.nullable != NullableOf(declared)
  {
    var changed := false;
    var changed := if ParseTypeName(current.typeName) != TypeOf(declared) then true else changed;
    var changed := if current.nullable != NullableOf(declared) then true else changed;
    changed
  }

  /** A difference in default value (declared or live) or in declared length
      never makes a column "changed". */
  lemma ChangeIgnoresDefaultsAndLength(current: LiveColumn, declared: Details, liveDefault: Option<string>,
                                       length: Option<int>, default: Option<string>)
    ensures CheckChangedColumn(current.(default := liveDefault), declared.(length := length, default := default))
         == CheckChangedColumn(current, declared)
  {
  }

  /** A declaration without a type or nullable key matches a live
      non-nullable `varchar` column and nothing else of that name. */
  lemma DefaultsMatchVarchar(current: LiveColumn)
    ensures !CheckChangedColumn(current, DefaultSchema) <==> current.typeName in {"varchar", "string"} && !current.nullable
  {
  }
}
