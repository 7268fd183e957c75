/** The Fluentd output plugin `DynamoDBOutput`: the record formatter that
    runs as events are buffered, and the chunk writer that groups records
    into BatchWriteItem requests. */
module Plugin {
  import opened Records
  import opened Formatting
  import opened Batching
  import opened Sink
  import opened Dispatching

  class DynamoDBOutput {
    /** `@dynamo_db_table` */
    const table: string
    /** `@hash_key` and `@range_key`, as loaded from the table description. */
    const schema: Schema
    /** `@time_field_enable` */
    const timeFieldEnable: bool
    /** `@delete_mode` */
    const deleteMode: bool
    /** The size estimate `record.to_json.length`. */
    const estimate: Estimator
    /** `@batch`, the BatchWrite client. */
    const batch: BatchWriter

    /** The plugin after `configure` and `start` have succeeded. */
    constructor (table: string, schema: Schema, timeFieldEnable: bool, deleteMode: bool,
                 estimate: Estimator, batch: BatchWriter)
      ensures this.table == table && this.schema == schema
      ensures this.timeFieldEnable == timeFieldEnable && this.deleteMode == deleteMode
      ensures this.estimate == estimate && this.batch == batch
    {
      this.table := table;
      this.schema := schema;
      this.timeFieldEnable := timeFieldEnable;
      this.deleteMode := deleteMode;
      this.estimate := estimate;
      this.batch := batch;
    }

    function WriteMode(): Mode
    {
      if deleteMode then Delete else Put
    }

    /** `match_type!(key, record)`: `failed` when `to_i` raised NoMethodError,
        `fatal` when the cast diagnostic was logged. */
    method MatchType(key: Key, record: RecordHash) returns (failed: bool, fatal: bool)
      modifies record
      ensures Coerce(key, old(record.fields))
           == if failed then NoMethodError(key.name) else Coerced(record.fields, fatal)
      ensures failed ==> record.fields == old(record.fields)
    {
      failed, fatal := false, false;
      if key.kind == NumberType {
        var potentialValue := ToI(Lookup(record.fields, key.name));
        if potentialValue.None? {
          failed := true;
          return;
        }
        if potentialValue.value == 0 {
          fatal := true;
        }
        record.fields := record.fields[key.name := Num(potentialValue.value)];
      }
    }

    /** `format(tag, time, record)`: `uuid` is what the UUID generator gives
        and `formattedTime` what the time formatter makes of `time`. */
    method Format(record: RecordHash, uuid: string, formattedTime: string)
      returns (result: FormatResult, fatal: seq<string>)
      modifies record
      ensures var run := FormatSpec(schema, timeFieldEnable, old(record.fields), uuid, formattedTime);
        record.fields == run.fields && result == run.result && fatal == run.fatal
    {
      var hashKey := schema.hashKey;
      if hashKey.name !in record.fields {
        record.fields := record.fields[hashKey.name := Str(uuid)];
      }
      var failed, warned := MatchType(hashKey, record);
      if failed {
        return FormatError(hashKey.name), [];
      }
      fatal := FatalIf(warned, hashKey.name);
      if schema.rangeKey.Some? {
        var rangeKey := schema.rangeKey.value;
        if rangeKey.name !in record.fields {
          record.fields := record.fields[rangeKey.name := Str(formattedTime)];
        }
        failed, warned := MatchType(rangeKey, record);
        if failed {
          return FormatError(rangeKey.name), fatal;
        }
        fatal := fatal + FatalIf(warned, rangeKey.name);
      }
      if timeFieldEnable {
        record.fields := record.fields["time" := Str(formattedTime)];
      }
      result := Formatted(record.fields);
    }

    /** `batch_put_records(records)`: one put or delete request, then process!. */
    method BatchPutRecords(records: seq<Record>) returns (reply: Reply)
      modifies batch
      ensures batch.log == old(batch.log) + [Request(WriteMode(), table, records)]
      ensures reply == NextReply(old(batch.replies)) && batch.replies == LaterReplies(old(batch.replies))
    {
      if deleteMode {
        reply := batch.Process(Request(Delete, table, records));
      } else {
        reply := batch.Process(Request(Put, table, records));
      }
    }

    /** What `write(chunk)` does against the scripted replies. */
    function WriteRun(chunk: seq<Record>, replies: seq<Reply>): Run
    {
      Dispatch(Batches(chunk, schema.hashKey.name, estimate), replies)
    }

    /** Redelivery through `write`: when a write of `chunk` that failed
        part-way is retried and the retry is accepted throughout, the retry
        flushes, and the batches committed over both writes are exactly the
        batches of one successful write, provided the sink kept nothing
        queued from the failed write. */
    lemma WriteRedelivery(chunk: seq<Record>, first: seq<Reply>, second: seq<Reply>)
      requires forall j :: 0 <= j < |Batches(chunk, schema.hashKey.name, estimate)| ==> Answer(second, j) == Accepted
      ensures WriteRun(chunk, second).outcome == Flushed
      ensures Committed(WriteRun(chunk, second)) == Batches(chunk, schema.hashKey.name, estimate)
      ensures forall b :: b in Committed(WriteRun(chunk, first)) + Committed(WriteRun(chunk, second))
                          <==> b in Batches(chunk, schema.hashKey.name, estimate)
    {
      var bs := Batches(chunk, schema.hashKey.name, estimate);
      DispatchCharacterised(bs, second);
      Redelivery(bs, first, second);
    }

    /** `write(chunk)`: the requests made are those of `Dispatch` over the
        batches of `Batches`, and the outcome is its outcome. */
    method Write(chunk: seq<Record>) returns (outcome: WriteOutcome)
      modifies batch
      ensures batch.log == old(batch.log) + Requests(WriteMode(), table, WriteRun(chunk, old(batch.replies)).sent)
      ensures batch.replies == WriteRun(chunk, old(batch.replies)).rest
      ensures outcome == WriteRun(chunk, old(batch.replies)).outcome
    {
      var hashName := schema.hashKey.name;
      var batchSize: nat := 0;
      var batchRecords: seq<Record> := [];
      var batchKeys: seq<Value> := [];
      ghost var sent: seq<Batch> := [];
      ghost var spec := WriteRun(chunk, batch.replies);
      var i := 0;
      while i < |chunk|
        invariant 0 <= i <= |chunk|
        invariant batchKeys == KeysOf(batchRecords, hashName)
        invariant batch.log == old(batch.log) + Requests(WriteMode(), table, sent)
        invariant Pending(spec, sent, chunk[i..], Open(batchRecords, batchSize), batch.replies, hashName, estimate)
      {
        var record := chunk[i];
        ghost var o := Open(batchRecords, batchSize);
        var key := KeyOf(record, hashName);
        if key !in batchKeys {
          KeysOfSnoc(batchRecords, record, hashName);
          batchRecords := batchRecords + [record];
          batchKeys := batchKeys + [key];
          batchSize := batchSize + estimate(record);
        }
        assert Open(batchRecords, batchSize) == Append(o, record, hashName, estimate);
        if |batchRecords| >= BatchWriteItemLimit || batchSize >= BatchWriteContentSizeLimit {
          ghost var replies := batch.replies;
          var reply := BatchPutRecords(batchRecords);
          RequestsSnoc(WriteMode(), table, sent, batchRecords);
          assert batch.log == old(batch.log) + Requests(WriteMode(), table, sent + [batchRecords]);
          if reply != Accepted {
            StepRejected(spec, sent, chunk, i, o, replies, hashName, estimate);
            assert spec.sent == sent + [batchRecords];
            batchRecords, batchKeys, batchSize := [], [], 0;
            if reply == ValidationException {
              outcome := Abandoned;
            } else {
              outcome := Raised(reply.error);
            }
            return;
          }
          StepAccepted(spec, sent, chunk, i, o, replies, hashName, estimate);
          sent := sent + [batchRecords];
          batchRecords, batchKeys, batchSize := [], [], 0;
        } else {
          StepOpen(spec, sent, chunk, i, o, batch.replies, hashName, estimate);
        }
        i := i + 1;
      }
      if batchRecords != [] {
        ghost var replies := batch.replies;
        EndFlush(spec, sent, chunk, Open(batchRecords, batchSize), replies, hashName, estimate);
        var reply := BatchPutRecords(batchRecords);
        RequestsSnoc(WriteMode(), table, sent, batchRecords);
        sent := sent + [batchRecords];
        assert batch.log == old(batch.log) + Requests(WriteMode(), table, sent);
        assert spec.sent == sent;
        batchRecords, batchKeys, batchSize := [], [], 0;
        if reply == ValidationException {
          outcome := Abandoned;
          return;
        } else if reply.Failure? {
          outcome := Raised(reply.error);
          return;
        }
      } else {
        EndEmpty(spec, sent, chunk, Open(batchRecords, batchSize), batch.replies, hashName, estimate);
      }
      outcome := Flushed;
    }
  }
}
