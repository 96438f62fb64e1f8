/** JSON values. */
module JsonValue {
  import opened Text

  datatype Json =
    | Null
    | Bool(value: bool)
    | Number(digits: string)
    | Str(text: string)
    | Arr(items: seq<Json>)
    | Obj(fields: seq<Field>)

  datatype Field = Field(key: string, value: Json)

  /** The value under a key; of a repeated key the last. */
  function Get(fields: seq<Field>, key: string): Option<Json> {
    if fields == [] then None
    else if fields[|fields| - 1].key == key then Some(fields[|fields| - 1].value)
    else Get(fields[..|fields| - 1], key)
  }

  /** `Value::get`: only an object has keys. */
  predicate HasKey(v: Json, key: string) { v.Obj? && Get(v.fields, key).Some? }

  lemma {:induction false} GetFindsKeys(fields: seq<Field>, key: string)
    ensures Get(fields, key).Some? <==> exists f | f in fields :: f.key == key
  {
    if fields != [] {
      var front, last := fields[..|fields| - 1], fields[|fields| - 1];
      assert fields == front + [last];
      GetFindsKeys(front, key);
    }
  }

  /** A field is found whose key does not come again behind it. */
  lemma {:induction false} GetAt(fields: seq<Field>, i: nat)
    requires i < |fields| && forall j :: i < j < |fields| ==> fields[j].key != fields[i].key
    ensures Get(fields, fields[i].key) == Some(fields[i].value)
  {
    if i < |fields| - 1 {
      GetAt(fields[..|fields| - 1], i);
    }
  }

  lemma GetNothing(fields: seq<Field>, key: string)
    requires forall i :: 0 <= i < |fields| ==> fields[i].key != key
    ensures Get(fields, key) == None
  {
    GetFindsKeys(fields, key);
  }
}
