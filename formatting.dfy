/** What `match_type!` and `format` do to one event record, as functions of
    the record before the call. The methods of `Plugin.DynamoDBOutput` that
    update a record in place are proved equal to these. */
module Formatting {
  import opened Records
  import opened IntegerParse

  /** `v.to_i`, or None where the value has no `to_i` (true, false, a Hash
      or an Array), in which case Ruby raises NoMethodError. */
  function ToI(v: Value): Option<int>
  {
    match v
    case Str(s) => Some(ParseInt(s))
    case Num(n) => Some(n)
    case Nil => Some(0)
    case Bool(_) => None
    case Nested(_) => None
  }

  /** The effect of `match_type!(key, record)`: the new fields and whether
      the fatal "Failed attempt to cast" diagnostic was logged, or the
      NoMethodError that aborts it. */
  datatype Coercion = Coerced(fields: Record, fatal: bool) | NoMethodError(field: string)

  function Coerce(key: Key, fields: Record): Coercion
  {
    if key.kind == NumberType then
      match ToI(Lookup(fields, key.name))
      case None => NoMethodError(key.name)
      case Some(n) => Coerced(fields[key.name := Num(n)], n == 0)
    else
      Coerced(fields, false)
  }

  /** Assign `v` to `name` unless the record already has that key. */
  function FillMissing(fields: Record, name: string, v: Value): Record
  {
    if name in fields then fields else fields[name := v]
  }

  /** `record['time'] = formatted_time if @time_field_enable`. */
  function StampTime(fields: Record, timeFieldEnable: bool, formattedTime: string): Record
  {
    if timeFieldEnable then fields["time" := Str(formattedTime)] else fields
  }

  /** What `format` hands back: the record to serialise, or the NoMethodError
      raised while coercing the named key field. */
  datatype FormatResult = Formatted(record: Record) | FormatError(field: string)

  /** One run of `format`: the record object's fields afterwards (also when
      it raised half-way), the result, and the key fields for which the fatal
      cast diagnostic was logged, in order. */
  datatype FormatRun = FormatRun(fields: Record, result: FormatResult, fatal: seq<string>)

  function FatalIf(fired: bool, name: string): seq<string>
  {
    if fired then [name] else []
  }

  /** `format(tag, time, record)`, with `uuid` the identifier the UUID
      generator would produce and `formattedTime` what the time formatter
      makes of the event time. */
  function FormatSpec(schema: Schema, timeFieldEnable: bool, fields: Record,
                      uuid: string, formattedTime: string): FormatRun
  {
    var hk := schema.hashKey;
    var f1 := FillMissing(fields, hk.name, Str(uuid));
    match Coerce(hk, f1)
    case NoMethodError(k) => FormatRun(f1, FormatError(k), [])
    case Coerced(f2, w1) =>
      match schema.rangeKey
      case None =>
        var f5 := StampTime(f2, timeFieldEnable, formattedTime);
        FormatRun(f5, Formatted(f5), FatalIf(w1, hk.name))
      case Some(rk) =>
        var f3 := FillMissing(f2, rk.name, Str(formattedTime));
        match Coerce(rk, f3)
        case NoMethodError(k) => FormatRun(f3, FormatError(k), FatalIf(w1, hk.name))
        case Coerced(f4, w2) =>
          var f5 := StampTime(f4, timeFieldEnable, formattedTime);
          FormatRun(f5, Formatted(f5), FatalIf(w1, hk.name) + FatalIf(w2, rk.name))
  }

  /** The value a key field holds after coercion to its declared type. */
  function CoercedValue(kind: KeyType, v: Value): Option<Value>
  {
    if kind == StringType then Some(v)
    else match ToI(v)
      case None => None
      case Some(n) => Some(Num(n))
  }

  // ---------------------------------------------------------------------
  // match_type!

  /** A String-typed key leaves the record as it is; a Number-typed key is
      replaced by `to_i` of its value (nil when absent) and no other field
      changes; the diagnostic fires exactly when that value is 0, and the
      assignment happens all the same. Only a value without `to_i` aborts. */
  lemma CoerceEffect(key: Key, fields: Record)
    ensures key.kind == StringType ==> Coerce(key, fields) == Coerced(fields, false)
    ensures key.kind == NumberType ==>
      match ToI(Lookup(fields, key.name))
      case None => Coerce(key, fields) == NoMethodError(key.name)
      case Some(n) =>
        var c := Coerce(key, fields);
        c.Coerced? && c.fields.Keys == fields.Keys + {key.name} && c.fields[key.name] == Num(n)
        && (forall f :: f in fields && f != key.name ==> c.fields[f] == fields[f])
        && (c.fatal <==> n == 0)
  {
  }

  /** Coercing a field that was already coerced changes nothing more. */
  lemma CoerceIdempotent(key: Key, fields: Record)
    requires Coerce(key, fields).Coerced?
    ensures var f := Coerce(key, fields).fields;
      Coerce(key, f).Coerced? && Coerce(key, f).fields == f
  {
  }

  /** A key written as the decimal form of a number coerces to that number. */
  lemma CoerceDecimalString(key: Key, fields: Record, n: int)
    requires key.kind == NumberType && Lookup(fields, key.name) == Str(IntToString(n))
    ensures Coerce(key, fields) == Coerced(fields[key.name := Num(n)], n == 0)
  {
    ParseIntToString(n);
  }

  // ---------------------------------------------------------------------
  // format

  /** The hash key: an existing value is kept (only coerced); a missing one
      becomes the generated id, also coerced. Later steps overwrite it only
      when the time field has the hash key's name. */
  lemma FormatHashKey(schema: Schema, timeFieldEnable: bool, fields: Record, uuid: string, formattedTime: string)
    requires WellFormed(schema)
    requires !timeFieldEnable || schema.hashKey.name != "time"
    requires FormatSpec(schema, timeFieldEnable, fields, uuid, formattedTime).result.Formatted?
    ensures var hk := schema.hashKey;
      var out := FormatSpec(schema, timeFieldEnable, fields, uuid, formattedTime).fields;
      var before := if hk.name in fields then fields[hk.name] else Str(uuid);
      CoercedValue(hk.kind, before).Some? && hk.name in out && out[hk.name] == CoercedValue(hk.kind, before).value
  {
  }

  /** The range key, when the schema has one: an existing value is kept
      (only coerced); a missing one becomes the formatted time, coerced like
      an existing value. */
  lemma FormatRangeKey(schema: Schema, timeFieldEnable: bool, fields: Record, uuid: string, formattedTime: string)
    requires WellFormed(schema) && schema.rangeKey.Some?
    requires !timeFieldEnable || schema.rangeKey.value.name != "time"
    requires FormatSpec(schema, timeFieldEnable, fields, uuid, formattedTime).result.Formatted?
    ensures var rk := schema.rangeKey.value;
      var out := FormatSpec(schema, timeFieldEnable, fields, uuid, formattedTime).fields;
      var before := if rk.name in fields then fields[rk.name] else Str(formattedTime);
      CoercedValue(rk.kind, before).Some? && rk.name in out && out[rk.name] == CoercedValue(rk.kind, before).value
  {
  }

  /** With the option on, the `time` field is the formatted time, whatever
      it held before; with the option off and no key named `time`, it is
      left as it was. */
  lemma FormatTimeField(schema: Schema, timeFieldEnable: bool, fields: Record, uuid: string, formattedTime: string)
    requires FormatSpec(schema, timeFieldEnable, fields, uuid, formattedTime).result.Formatted?
    ensures var out := FormatSpec(schema, timeFieldEnable, fields, uuid, formattedTime).fields;
      timeFieldEnable ==> "time" in out && out["time"] == Str(formattedTime)
    ensures var out := FormatSpec(schema, timeFieldEnable, fields, uuid, formattedTime).fields;
      !timeFieldEnable && schema.hashKey.name != "time"
      && (schema.rangeKey.Some? ==> schema.rangeKey.value.name != "time")
      ==> ("time" in out <==> "time" in fields) && ("time" in fields ==> out["time"] == fields["time"])
  {
  }

  /** `after` has every field of `before`, and differs from it at most in
      the fields `touched`. */
  predicate Extends(before: Record, after: Record, touched: set<string>)
  {
    before.Keys <= after.Keys && after.Keys <= before.Keys + touched
    && forall f :: f in before && f !in touched ==> after[f] == before[f]
  }

  lemma ExtendsStep(a: Record, b: Record, c: Record, t1: set<string>, t2: set<string>, t: set<string>)
    requires Extends(a, b, t1) && Extends(b, c, t2) && t1 + t2 <= t
    ensures Extends(a, c, t)
  {
  }

  lemma CoerceExtends(key: Key, fields: Record)
    requires Coerce(key, fields).Coerced?
    ensures Extends(fields, Coerce(key, fields).fields, {key.name})
  {
    CoerceEffect(key, fields);
  }

  /** `format` only adds the key fields and `time`, and leaves every other
      field as it found it, also when it raises half-way. */
  lemma FormatFrame(schema: Schema, timeFieldEnable: bool, fields: Record, uuid: string, formattedTime: string)
    ensures var out := FormatSpec(schema, timeFieldEnable, fields, uuid, formattedTime).fields;
      var touched := {schema.hashKey.name} + (if schema.rangeKey.Some? then {schema.rangeKey.value.name} else {})
                     + (if timeFieldEnable then {"time"} else {});
      fields.Keys <= out.Keys && out.Keys <= fields.Keys + touched
      && (forall f :: f in fields && f !in touched ==> out[f] == fields[f])
  {
    var hk := schema.hashKey;
    var out := FormatSpec(schema, timeFieldEnable, fields, uuid, formattedTime).fields;
    var tr: set<string> := if schema.rangeKey.Some? then {schema.rangeKey.value.name} else {};
    var tt: set<string> := if timeFieldEnable then {"time"} else {};
    var touched := {hk.name} + tr + tt;
    var f1 := FillMissing(fields, hk.name, Str(uuid));
    assert Extends(fields, f1, {hk.name});
    if Coerce(hk, f1).NoMethodError? {
      assert out == f1;
    } else {
      var f2 := Coerce(hk, f1).fields;
      CoerceExtends(hk, f1);
      ExtendsStep(fields, f1, f2, {hk.name}, {hk.name}, {hk.name});
      var f4 := f2;
      if schema.rangeKey.Some? {
        var rk := schema.rangeKey.value;
        var f3 := FillMissing(f2, rk.name, Str(formattedTime));
        assert Extends(f2, f3, {rk.name});
        ExtendsStep(fields, f2, f3, {hk.name}, {rk.name}, {hk.name} + tr);
        if Coerce(rk, f3).NoMethodError? {
          assert out == f3;
          ExtendsStep(fields, f3, f3, {hk.name} + tr, {}, touched);
        } else {
          f4 := Coerce(rk, f3).fields;
          CoerceExtends(rk, f3);
          ExtendsStep(fields, f3, f4, {hk.name} + tr, {rk.name}, {hk.name} + tr);
        }
      }
      if Coerce(hk, f1).Coerced? && (schema.rangeKey.None? || Coerce(schema.rangeKey.value, FillMissing(f2, schema.rangeKey.value.name, Str(formattedTime))).Coerced?) {
        assert out == StampTime(f4, timeFieldEnable, formattedTime);
        assert Extends(f4, out, tt);
        ExtendsStep(fields, f4, out, {hk.name} + tr, tt, touched);
      }
    }
    assert Extends(fields, out, touched);
  }

  /** After a successful `format`, every Number-typed key holds a number. */
  lemma FormatKeyTypes(schema: Schema, timeFieldEnable: bool, fields: Record, uuid: string, formattedTime: string)
    requires WellFormed(schema)
    requires !timeFieldEnable || (schema.hashKey.name != "time" && (schema.rangeKey.Some? ==> schema.rangeKey.value.name != "time"))
    requires FormatSpec(schema, timeFieldEnable, fields, uuid, formattedTime).result.Formatted?
    ensures var out := FormatSpec(schema, timeFieldEnable, fields, uuid, formattedTime).fields;
      (schema.hashKey.kind == NumberType ==> out[schema.hashKey.name].Num?)
      && (schema.rangeKey.Some? && schema.rangeKey.value.kind == NumberType ==> out[schema.rangeKey.value.name].Num?)
  {
    FormatHashKey(schema, timeFieldEnable, fields, uuid, formattedTime);
    if schema.rangeKey.Some? {
      FormatRangeKey(schema, timeFieldEnable, fields, uuid, formattedTime);
    }
  }

  /** `format` raises exactly when a Number-typed key field, once filled,
      holds a value without `to_i`. */
  lemma FormatFails(schema: Schema, timeFieldEnable: bool, fields: Record, uuid: string, formattedTime: string)
    requires WellFormed(schema)
    ensures var hk := schema.hashKey;
      var hv := if hk.name in fields then fields[hk.name] else Str(uuid);
      var rangeFails := schema.rangeKey.Some? &&
        var rk := schema.rangeKey.value;
        CoercedValue(rk.kind, if rk.name in fields then fields[rk.name] else Str(formattedTime)).None?;
      FormatSpec(schema, timeFieldEnable, fields, uuid, formattedTime).result.FormatError?
      <==> CoercedValue(hk.kind, hv).None? || rangeFails
  {
  }

  /** The key field already holds a value of its declared type. */
  predicate Settled(key: Key, fields: Record)
  {
    Coerce(key, fields).Coerced? && Coerce(key, fields).fields == fields
  }

  /** A record whose key fields already hold coerced values passes through
      the key steps of `format` unchanged. */
  lemma {:induction false} FormatStableKeys(schema: Schema, timeFieldEnable: bool, once: Record, uuid: string, formattedTime: string)
    requires WellFormed(schema)
    requires schema.hashKey.name in once && Settled(schema.hashKey, once)
    requires schema.rangeKey.Some? ==> schema.rangeKey.value.name in once && Settled(schema.rangeKey.value, once)
    ensures FormatSpec(schema, timeFieldEnable, once, uuid, formattedTime).result
         == Formatted(StampTime(once, timeFieldEnable, formattedTime))
  {
  }

  /** A key field holding the coerced form of some value is settled. */
  lemma SettledValue(key: Key, fields: Record, v: Value)
    requires key.name in fields && CoercedValue(key.kind, v).Some?
    requires fields[key.name] == CoercedValue(key.kind, v).value
    ensures Settled(key, fields)
  {
    if key.kind == NumberType {
      assert fields[key.name].Num?;
      assert fields[key.name := fields[key.name]] == fields;
    }
  }

  /** Formatting an already formatted record again, with the same event
      time, gives the same record: generated keys are not generated twice. */
  lemma {:induction false} FormatIdempotent(schema: Schema, timeFieldEnable: bool, fields: Record, uuid: string, uuid2: string, formattedTime: string)
    requires WellFormed(schema)
    requires !timeFieldEnable || (schema.hashKey.name != "time" && (schema.rangeKey.Some? ==> schema.rangeKey.value.name != "time"))
    requires FormatSpec(schema, timeFieldEnable, fields, uuid, formattedTime).result.Formatted?
    ensures var once := FormatSpec(schema, timeFieldEnable, fields, uuid, formattedTime).fields;
      FormatSpec(schema, timeFieldEnable, once, uuid2, formattedTime).result == Formatted(once)
  {
    var hk := schema.hashKey;
    var once := FormatSpec(schema, timeFieldEnable, fields, uuid, formattedTime).fields;
    assert hk.name in once && Settled(hk, once) by {
      FormatHashKey(schema, timeFieldEnable, fields, uuid, formattedTime);
      SettledValue(hk, once, if hk.name in fields then fields[hk.name] else Str(uuid));
    }
    if schema.rangeKey.Some? {
      var rk := schema.rangeKey.value;
      assert rk.name in once && Settled(rk, once) by {
        FormatRangeKey(schema, timeFieldEnable, fields, uuid, formattedTime);
        SettledValue(rk, once, if rk.name in fields then fields[rk.name] else Str(formattedTime));
      }
    }
    assert StampTime(once, timeFieldEnable, formattedTime) == once by {
      FormatTimeField(schema, timeFieldEnable, fields, uuid, formattedTime);
    }
    FormatStableKeys(schema, timeFieldEnable, once, uuid2, formattedTime);
  }
}
