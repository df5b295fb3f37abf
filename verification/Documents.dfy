/** JSON documents, and reading and assigning the fields of an object. */
module Documents {
  import opened Wrappers

  /** Objects keep their fields in insertion order. `Atom` stands for numbers, booleans
      and null; the codes of the false ones among them are not positive. */
  datatype Json = Str(s: string) | Arr(items: seq<Json>) | Obj(fields: seq<Field>) | Atom(code: int)

  datatype Field = Field(key: string, value: Json)

  const NULL := Atom(0)

  function Get(fields: seq<Field>, key: string): Option<Json> {
    if fields == [] then None
    else if fields[0].key == key then Some(fields[0].value)
    else Get(fields[1..], key)
  }

  /** Assignment keeps the place of an existing key and appends a new one. */
  function Put(fields: seq<Field>, key: string, value: Json): seq<Field> {
    if fields == [] then [Field(key, value)]
    else if fields[0].key == key then [Field(key, value)] + fields[1..]
    else [fields[0]] + Put(fields[1..], key, value)
  }

  lemma {:induction false} GetPut(fields: seq<Field>, key: string, value: Json, other: string)
    ensures Get(Put(fields, key, value), other) == if other == key then Some(value) else Get(fields, other)
  {
    if fields != [] && fields[0].key != key {
      GetPut(fields[1..], key, value, other);
    }
  }

  /** Putting back what is there changes nothing. */
  lemma {:induction false} PutSame(fields: seq<Field>, key: string, value: Json)
    requires Get(fields, key) == Some(value)
    ensures Put(fields, key, value) == fields
  {
    if fields[0].key != key {
      PutSame(fields[1..], key, value);
    }
  }

  /** What counts as true in a condition. */
  predicate Truthy(v: Option<Json>) {
    match v
    case None => false
    case Some(Str(s)) => s != ""
    case Some(Arr(items)) => items != []
    case Some(Obj(fields)) => fields != []
    case Some(Atom(code)) => code > 0
  }
}
