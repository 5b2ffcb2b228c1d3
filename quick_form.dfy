/** The schema-driven form: `makeForm` fills in each field's widget type from
    its default value, the form commits one key at a time, `getDefault` builds
    the default record, and each row gets a counter-based element id. */
module QuickForm {
  import opened Common

  datatype FieldType = StringField | NumberField | BooleanField | FileField | ReadonlyField | TextareaField

  /** The type inferred from a default value: by `typeof`, then `instanceof Blob`. */
  function Infer(v: Value): FieldType {
    match v
    case Str(_) => StringField
    case Num(_) => NumberField
    case Bool(_) => BooleanField
    case Blob(_) => FileField
    case _ => ReadonlyField
  }

  /** A declared type wins; otherwise the inferred one. */
  function Resolve(declared: Option<FieldType>, v: Value): FieldType {
    if declared.Some? then declared.value else Infer(v)
  }

  /** Inference never picks a textarea; it falls back to read-only exactly for
      the values that are not a string, number, boolean or Blob. */
  lemma InferSpec(v: Value)
    ensures Infer(v) != TextareaField
    ensures Infer(v) == StringField <==> v.Str?
    ensures Infer(v) == NumberField <==> v.Num?
    ensures Infer(v) == BooleanField <==> v.Bool?
    ensures Infer(v) == FileField <==> v.Blob?
    ensures Infer(v) == ReadonlyField <==> !(v.Str? || v.Num? || v.Bool? || v.Blob?)
  {
  }

  /** Resolving an already resolved field changes nothing, so visiting one
      shared field object twice is harmless. */
  lemma ResolveSettles(declared: Option<FieldType>, v: Value)
    ensures Resolve(Some(Resolve(declared, v)), v) == Resolve(declared, v)
    ensures declared.Some? ==> Resolve(declared, v) == declared.value
  {
  }

  /** A field schema object; `type` is the one member makeForm writes. */
  class Field {
    const caption: Option<string>
    var ftype: Option<FieldType>
    const value: Value

    constructor (caption: Option<string>, ftype: Option<FieldType>, value: Value)
      ensures this.caption == caption && this.ftype == ftype && this.value == value
    {
      this.caption := caption;
      this.ftype := ftype;
      this.value := value;
    }
  }

  type Schema = map<string, Field>

  /** makeForm's pass over the schema. The copy `{ ...schema }` shares the
      field objects with the caller's schema, so the types are written into the
      caller's fields, which the form then reads. */
  method MakeForm(schema: Schema) returns (schema2: Schema)
    modifies schema.Values
    ensures schema2 == schema
    ensures forall k :: k in schema ==>
              schema[k].ftype == Some(Resolve(old(schema[k].ftype), schema[k].value))
  {
    schema2 := schema;
    var todo := schema2.Keys;
    while todo != {}
      invariant todo <= schema2.Keys
      invariant forall k :: k in schema2 ==>
                  schema2[k].ftype == old(schema2[k].ftype) ||
                  schema2[k].ftype == Some(Resolve(old(schema2[k].ftype), schema2[k].value))
      invariant forall k :: k in schema2 && k !in todo ==>
                  schema2[k].ftype == Some(Resolve(old(schema2[k].ftype), schema2[k].value))
      decreases todo
    {
      var key :| key in todo;
      var field := schema2[key];
      if field.ftype.None? {
        field.ftype := Some(Infer(field.value));
      }
      todo := todo - {key};
    }
  }

  type Record = map<string, Value>

  /** getDefault: one entry per schema key, holding that field's default. */
  method GetDefault(schema2: Schema) returns (obj: Record)
    ensures obj.Keys == schema2.Keys
    ensures forall k :: k in obj ==> obj[k] == schema2[k].value
  {
    obj := map[];
    var todo := schema2.Keys;
    while todo != {}
      invariant todo <= schema2.Keys
      invariant obj.Keys == schema2.Keys - todo
      invariant forall k :: k in obj ==> obj[k] == schema2[k].value
      decreases todo
    {
      var key :| key in todo;
      obj := obj[key := schema2[key].value];
      todo := todo - {key};
    }
  }

  /** commit: the current record with `key` set to `val`. */
  function Commit(current: Record, key: string, val: Value): (r: Record)
    ensures r.Keys == current.Keys + {key}
    ensures r[key] == val
    ensures forall k :: k in current && k != key ==> r[k] == current[k]
  {
    current[key := val]
  }

  /** The form only commits keys of its value, so the record keeps its keys;
      a later commit of the same key overrides an earlier one; committing a
      key's own value changes nothing. */
  lemma CommitLaws(current: Record, key: string, v1: Value, v2: Value)
    ensures key in current ==> Commit(current, key, v1).Keys == current.Keys
    ensures Commit(Commit(current, key, v1), key, v2) == Commit(current, key, v2)
    ensures key in current ==> Commit(current, key, current[key]) == current
  {
  }

  /** handleFile: the value committed for a file input holding `files`, or
      nothing when the list is empty. */
  function HandleFile(files: seq<nat>): (r: Option<Value>)
    ensures r.None? <==> |files| == 0
    ensures r.Some? ==> r.value == Blob(files[0])
  {
    if |files| == 0 then None else Some(Blob(files[0]))
  }

  // ---------------------------------------------------------------------
  // genID

  function Digit(d: nat): char
    requires d < 10
  {
    (48 + d) as char
  }

  /** The decimal digits of `n`, as a template literal prints them. */
  function Decimal(n: nat): (s: string)
    ensures |s| >= 1
    ensures n < 10 <==> |s| == 1
    decreases n
  {
    if n < 10 then [Digit(n)] else Decimal(n / 10) + [Digit(n % 10)]
  }

  lemma {:induction false} DecimalInjective(a: nat, b: nat)
    requires Decimal(a) == Decimal(b)
    ensures a == b
    decreases a
  {
    var sa, sb := Decimal(a), Decimal(b);
    assert sa[|sa| - 1] == Digit(a % 10) && sb[|sb| - 1] == Digit(b % 10);
    assert (Digit(a % 10) as int) == 48 + a % 10;
    assert (Digit(b % 10) as int) == 48 + b % 10;
    if a >= 10 {
      assert sa[..|sa| - 1] == Decimal(a / 10);
      assert sb[..|sb| - 1] == Decimal(b / 10);
      DecimalInjective(a / 10, b / 10);
    }
  }

  const IdPrefix: string := "randID-"

  function IdOf(n: nat): string {
    IdPrefix + Decimal(n)
  }

  /** Different counter values give different ids. */
  lemma IdOfInjective(a: nat, b: nat)
    ensures IdOf(a) == IdOf(b) <==> a == b
  {
    if IdOf(a) == IdOf(b) {
      assert Decimal(a) == IdOf(a)[|IdPrefix|..];
      assert Decimal(b) == IdOf(b)[|IdPrefix|..];
      DecimalInjective(a, b);
    }
  }

  /** The module-level `genCounter` and the ids handed out so far. */
  class IdGenerator {
    var counter: nat
    ghost var issued: seq<string>

    ghost predicate Valid()
      reads this
    {
      |issued| == counter && forall i :: 0 <= i < counter ==> issued[i] == IdOf(i + 1)
    }

    constructor ()
      ensures Valid() && counter == 0 && issued == []
    {
      counter := 0;
      issued := [];
    }

    /** `randID-${++genCounter}`: the counter goes up by one and the id was
        never handed out before. */
    method GenID() returns (id: string)
      requires Valid()
      modifies this
      ensures Valid()
      ensures counter == old(counter) + 1 && id == IdOf(counter)
      ensures id !in old(issued) && issued == old(issued) + [id]
    {
      counter := counter + 1;
      id := IdPrefix + Decimal(counter);
      forall i | 0 <= i < |issued|
        ensures issued[i] != id
      {
        IdOfInjective(i + 1, counter);
      }
      issued := issued + [id];
    }
  }
}
