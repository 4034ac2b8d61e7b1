/**
 * A static description of a Django model's fields, standing in for `Model._meta`:
 * each field has a name, a kind (the field class), nullability, a verbose name and
 * help text. Lookup by name is `_meta.get_field`.
 */
module Schema {

  import opened Wrappers

  datatype Choice = Choice(code: string, display: string)

  datatype FieldKind =
    | CharField(maxLength: nat, choices: seq<Choice>)
    | TextField
    | DecimalField(maxDigits: nat, decimalPlaces: nat)
    /** PositiveIntegerField and PositiveSmallIntegerField */
    | PositiveIntegerField
    | BooleanField
    | ForeignKey(target: string)
    /** Any other field class: the automatic primary key, date-times, reverse relations. */
    | OtherField

  datatype Field = Field(name: string, kind: FieldKind, nullable: bool, verboseName: string, helpText: string)

  type Schema = seq<Field>

  /** `_meta.get_field(name)`: the field with that name, or nothing (FieldDoesNotExist). */
  function GetField(schema: Schema, name: string): (r: Option<Field>)
    ensures r.Some? ==> r.value in schema && r.value.name == name
    ensures r.None? ==> forall f :: f in schema ==> f.name != name
  {
    if schema == [] then None
    else if schema[0].name == name then Some(schema[0])
    else GetField(schema[1..], name)
  }

  /** A name no field carries is not found. */
  lemma GetFieldAbsent(schema: Schema, name: string)
    requires forall f :: f in schema ==> f.name != name
    ensures GetField(schema, name).None?
  {
  }

  /** The names of a schema's fields, in declaration order. */
  function Names(schema: Schema): (r: seq<string>)
    ensures |r| == |schema|
    ensures forall i :: 0 <= i < |schema| ==> r[i] == schema[i].name
  {
    if schema == [] then [] else [schema[0].name] + Names(schema[1..])
  }

  /** The names of two field lists laid end to end. */
  lemma NamesConcat(a: Schema, b: Schema)
    ensures Names(a + b) == Names(a) + Names(b)
  {
    var r, s := Names(a + b), Names(a) + Names(b);
    assert |r| == |s|;
    forall i | 0 <= i < |r|
      ensures r[i] == s[i]
    {
      assert (a + b)[i] == if i < |a| then a[i] else b[i - |a|];
    }
  }

  lemma {:induction false} GetFieldFindsEveryName(schema: Schema, name: string)
    requires name in Names(schema)
    ensures GetField(schema, name).Some?
  {
    if schema[0].name != name {
      assert name in Names(schema[1..]);
      GetFieldFindsEveryName(schema[1..], name);
    }
  }
}
