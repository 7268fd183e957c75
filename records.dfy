/** Values, records and the table's key schema, as the plugin sees them. */
module Records {

  datatype Option<T> = None | Some(value: T)

  /** A field value of an event record. `Nested` stands for a Hash or Array
      payload, compared by its contents (`repr`); floating-point values are
      not part of this model. */
  datatype Value =
    | Str(s: string)
    | Num(n: int)
    | Nil
    | Bool(b: bool)
    | Nested(repr: string)

  /** An event record: a Ruby Hash from field name to value. */
  type Record = map<string, Value>

  /** The scalar type DynamoDB declares for a key attribute. */
  datatype KeyType = StringType | NumberType

  /** A key attribute of the table: its name and declared type. */
  datatype Key = Key(name: string, kind: KeyType)

  /** The table's key schema: a hash key and, for a composite key, a range key. */
  datatype Schema = Schema(hashKey: Key, rangeKey: Option<Key>)

  /** DynamoDB never gives the hash and the range key the same name. */
  predicate WellFormed(schema: Schema)
  {
    schema.rangeKey.Some? ==> schema.rangeKey.value.name != schema.hashKey.name
  }

  /** `record[name]`: the value stored under `name`, or nil when there is none. */
  function Lookup(r: Record, name: string): (v: Value)
    ensures name !in r ==> v == Nil
    ensures name in r ==> v == r[name]
  {
    if name in r then r[name] else Nil
  }

  /** A record object whose fields `format` and `match_type!` assign in place. */
  class RecordHash {
    var fields: Record

    constructor (fields: Record)
      ensures this.fields == fields
    {
      this.fields := fields;
    }
  }
}
