# DynamoDBOutput, modelled in Dafny

A model of the Fluentd output plugin `DynamoDBOutput` of fluent-plugin-dynamodb. The model covers the plugin's two sequential pieces and proves properties of both.

- **Formatting.** `format` and `match_type!` prepare each event record as it is buffered. They fill in a missing hash key with a generated id and a missing range key with the formatted event time. They coerce Number-typed key fields with `to_i`, logging a fatal diagnostic when the result is 0, and optionally stamp a `time` field.
- **Writing.** `write` turns a buffered chunk into DynamoDB BatchWriteItem requests. It drops a record whose hash-key value the open batch already holds. It closes a batch after an append brings it to 25 items or to a size estimate of at least 1 MiB, and flushes the trailing batch at the end. A ValidationException from the store ends the chunk without raising; any other failure propagates. `batch_put_records` sends each batch as a put or a delete request, as delete mode says.

## Layout

- `records.dfy` (`Records`) holds field values, records, the key schema and `RecordHash`. `RecordHash` is the record object that `format` updates in place.
- `integer_parse.dfy` (`IntegerParse`) holds the base-10 `String#to_i` and `Integer#to_s`, and the round trip between them.
- `formatting.dfy` (`Formatting`) states what `match_type!` (`Coerce`) and `format` (`FormatSpec`) do to a record, as functions of the record before the call, and proves the lemmas about them.
- `batching.dfy` (`Batching`) holds the two limits. `Batches` states which batches `write` dispatches when every dispatch succeeds. `FirstOccurrences`, `SplitInto` and `GroupsOf25` are reference definitions, and the lemmas relate `Batches` to them.
- `sink.dfy` (`Sink`) models the BatchWrite client as the class `BatchWriter`. It logs every request and answers from a script of replies fixed up front; an exhausted script answers Accepted.
- `dispatching.dfy` (`Dispatching`) defines `Dispatch`, which sends batches in order until one is rejected. `Characterises` states its failure policy.
- `plugin.dfy` (`Plugin`) is the class `DynamoDBOutput`. Its methods `MatchType`, `Format`, `BatchPutRecords` and `Write` do what the Ruby does, step by step, and are proved equal to the functions above.

Where the code and the obvious reading of the plugin differ, the model follows the code:
- A batch is deduplicated on the **hash-key value only**. Two records that differ only in their range key count as duplicates, and the second is dropped.
- The close test comes **after** the append. The last record of a batch may therefore carry it past 1 MiB; only the records before it are known to have been appended below the limit.
- The `rescue` of ValidationException sits **outside** the loop over the chunk. A rejected batch therefore abandons every later record of the chunk, not only the records of that batch.
- A String-typed key is never coerced. A Number-typed key whose value has no `to_i` (true, false, a Hash, an Array) raises NoMethodError out of `format`. The record object then keeps whatever the steps before that had assigned.

## Model

| member | source | states |
|---|---|---|
| Batching.BatchesShape | lib/fluent/plugin/out_dynamodb.rb:109-119 | Item bound and size rule. Every dispatched batch holds 1 to 25 records, and every record but its last was appended while the running estimate was below 1 MiB. Every batch but the last closed on reaching 25 items or at least 1 MiB. |
| Batching.BatchesSplitChunk | lib/fluent/plugin/out_dynamodb.rb:107-126 | Order and completeness. The chunk splits into consecutive non-empty pieces, one per dispatched batch in dispatch order. Each batch is the first occurrences, by hash-key value, of its piece, in input order. A piece whose batch reached a limit ends with the record whose append filled the batch. |
| Batching.BatchesUnique | lib/fluent/plugin/out_dynamodb.rb:107-126 | The reference definitions pin the batching down. Take any split of the chunk into pieces that meets the conditions of `BatchesSplitChunk` and `BatchesShape`. Its batches are exactly the ones `write` dispatches. |
| Batching.BatchesUniqueKeys | lib/fluent/plugin/out_dynamodb.rb:109-111 | No two records of a dispatched batch share a hash-key value. |
| Batching.DuplicateDropped | lib/fluent/plugin/out_dynamodb.rb:109-113 | A record whose hash-key value the open batch holds is dropped: no dispatch, and the batch and its size are unchanged. |
| Batching.ThirdRecordDropped | lib/fluent/plugin/out_dynamodb.rb:109-113 | Given three records where the first and third share a hash key (whatever their range keys) and the first two fit, exactly one batch of the first two goes out. |
| Batching.SplitDuplicatesKept | lib/fluent/plugin/out_dynamodb.rb:109-119 | Take any open batch and any record whose append fills it. The batch goes out at once, with the counters reset. The next record, whatever its key, becomes the first record of the next batch. So duplicates on the two sides of a batch boundary are both dispatched. |
| Batching.GoHead | lib/fluent/plugin/out_dynamodb.rb:109-126 | The first batch dispatched starts with the first record of the open batch or, when that is empty, with the next record of the chunk. |
| Batching.FilledBatchThenDuplicate | lib/fluent/plugin/out_dynamodb.rb:109-119 | Take the chunk `[a, b, a2]`, where `a2` has `a`'s hash key and `b` carries the batch past 1 MiB. It goes out as `[[a, b], [a2]]`. |
| Batching.SplitDuplicatesExample | lib/fluent/plugin/out_dynamodb.rb:114-119 | A record that reaches 1 MiB on its own goes out alone, and a following duplicate goes out in the next batch. |
| Batching.BatchesOfDistinctChunk | lib/fluent/plugin/out_dynamodb.rb:102-126 | A chunk with distinct hash keys whose estimates sum below 1 MiB is dispatched as consecutive groups of 25 records, with the last group possibly shorter. |
| Batching.ThirtyRecords | lib/fluent/plugin/out_dynamodb.rb:114-126 | Thirty records with distinct keys that fit the size limit go out as two batches, the first 25 and the last 5 records. |
| Dispatching.DispatchCharacterised | lib/fluent/plugin/out_dynamodb.rb:106-131 | Failure policy. A prefix of the batches is sent, and every batch but the last sent was accepted. The write ends Flushed iff every batch is accepted, and then all were sent. It ends Abandoned, without raising, exactly when the last batch sent got a ValidationException. It ends Raised with the same error when that batch got any other failure, and nothing after the rejected batch is sent. |
| Dispatching.CommittedPrefix | lib/fluent/plugin/out_dynamodb.rb:127-131 | After a rejection, the batches before the failing one stay committed, and the failing batch and all later ones are not committed. |
| Dispatching.Redelivery | lib/fluent/plugin/out_dynamodb.rb:102-132 | Take any batches, dispatched once against some answers and again against answers that accept everything. Together the two runs commit exactly those batches, given a sink that keeps nothing queued from the failed run. |
| Plugin.DynamoDBOutput.WriteRedelivery | lib/fluent/plugin/out_dynamodb.rb:102-132 | A failed `write` of a chunk may be retried, and the store may accept every batch of the retry. Then the retry flushes. The batches committed over both writes are exactly the batches of one successful `write` of the chunk, given a sink that keeps nothing queued from the failed write. |
| Sink.BatchWriter.Process | lib/fluent/plugin/out_dynamodb.rb:140 | `process!` logs the request and answers the next scripted reply. |
| Plugin.DynamoDBOutput.BatchPutRecords | lib/fluent/plugin/out_dynamodb.rb:134-141 | Exactly one request is logged: a delete in delete mode, a put otherwise, for the configured table and the given records. The reply is the store's next answer. |
| Plugin.DynamoDBOutput.Write | lib/fluent/plugin/out_dynamodb.rb:102-132 | The requests logged are those of `Dispatch` over `Batches(chunk)`, in order and in the configured mode. The replies consumed and the outcome are `Dispatch`'s, so the lemmas on `Batches` and `Dispatch` hold of the method. |
| Plugin.DynamoDBOutput.MatchType | lib/fluent/plugin/out_dynamodb.rb:75-83 | The record's new fields and the diagnostic flag are those of `Coerce`, or the record is untouched when `to_i` raises NoMethodError. |
| Plugin.DynamoDBOutput.Format | lib/fluent/plugin/out_dynamodb.rb:85-100 | The record's new fields, the result and the keys whose cast diagnostic fired are those of `FormatSpec`. |
| Formatting.CoerceEffect | lib/fluent/plugin/out_dynamodb.rb:75-83 | A String-typed key leaves the record unchanged. A Number-typed key is set to `to_i` of its value (nil when absent), with no other field changed. The diagnostic fires iff that value is 0, and the assignment happens all the same. Only a value without `to_i` aborts. |
| Formatting.CoerceIdempotent | lib/fluent/plugin/out_dynamodb.rb:75-83 | Coercing an already coerced field changes nothing. |
| Formatting.CoerceDecimalString | lib/fluent/plugin/out_dynamodb.rb:77 | A key holding the decimal string of `n` is coerced to the number `n`. |
| Formatting.FormatHashKey | lib/fluent/plugin/out_dynamodb.rb:86-89 | An existing hash-key value is kept, though it may be coerced. A missing one becomes the generated id, coerced. |
| Formatting.FormatRangeKey | lib/fluent/plugin/out_dynamodb.rb:92-97 | With a range key in the schema, an existing value is kept, though it may be coerced. A missing one becomes the formatted time, coerced like an existing value: a Number-typed range key ends up with `formatted_time.to_i`. |
| Formatting.FormatTimeField | lib/fluent/plugin/out_dynamodb.rb:98 | With the option on, `time` holds the formatted time, overwriting any earlier value. With the option off and neither key named `time`, the `time` field is left as it was, present or absent. |
| Formatting.FormatFrame | lib/fluent/plugin/out_dynamodb.rb:85-98 | `format` adds at most the key fields and `time`, and leaves every other field as it was, also when it raises half-way. |
| Formatting.FormatKeyTypes | lib/fluent/plugin/out_dynamodb.rb:89-96 | After a successful `format`, every Number-typed key field holds a number. |
| Formatting.FormatFails | lib/fluent/plugin/out_dynamodb.rb:86-97 | `format` raises iff a Number-typed key field, once filled, holds a value without `to_i`. |
| Formatting.FormatIdempotent | lib/fluent/plugin/out_dynamodb.rb:85-98 | Formatting a formatted record again with the same event time gives the same record, so no key is generated twice. |
| IntegerParse.DigitRun | lib/fluent/plugin/out_dynamodb.rb:77 | The leading digit run that `to_i` reads is all digits and is followed by a non-digit or the end. |
| IntegerParse.ParseIntToString | lib/fluent/plugin/out_dynamodb.rb:77 | `n.to_s.to_i == n` for every integer `n`. |
| IntegerParse.PrefixedDecimal | lib/fluent/plugin/out_dynamodb.rb:77 | `("0d" + m.to_s).to_i == m`: the base-10 prefix is skipped. |
| IntegerParse.NoDigitsParseZero | lib/fluent/plugin/out_dynamodb.rb:77-79 | A string with no digits after its whitespace and sign parses as 0, the case `match_type!` reports as a failed cast. |

## Left out

- `start`, `restart_session` and `valid_table` (session setup, schema loading, `exit!`) are remote I/O and process control. The key schema and the configured options are constructor parameters.
- The AWS SDK calls `@batch.put`, `@batch.delete` and `process!` are foreign code. They are the `BatchWriter` sink, whose replies are a script given up front. The SDK's own staging of requests between `put` and `process!` is not modelled.
- Dispatching.Redelivery and Plugin.DynamoDBOutput.WriteRedelivery: the sink keeps no request after it answers, so both lemmas assume that a failed request leaves nothing queued. If the SDK keeps a batch whose `process!` raised, and `@batch` is reused across writes, that batch may be sent again in front of the next batch of the same or a later `write`; the lemmas do not cover that.
- `to_msgpack` and `msgpack_each` are a library encoding. `format` returns the record itself, and the chunk is the sequence of records.
- `record.to_json.length` is an abstract `Estimator`, a function from record to a natural number. Nothing is claimed about JSON.
- The UUID generator and the `TimeFormatter` are a clock and randomness. Their outputs are parameters (`uuid`, `formattedTime`), so the uniqueness of generated ids is not modelled.
- `ToI` models Ruby's `to_i` as a base-10 parse with leading whitespace, an optional sign and an optional `0d`/`0D` prefix. It does not model underscores between digits, floating-point values or other numeric classes.
- `$log.fatal` is modelled as returned values: the `fatal` flag of `MatchType` and the key list of `Format`.
- The `config_param` declarations and `detach_multi_process` are configuration and concurrency.
- Formatting.FormatHashKey, Formatting.FormatRangeKey, Formatting.FormatKeyTypes and Formatting.FormatIdempotent: when the time field is on, each requires that no key is named `time`, because stamping `time` would overwrite such a key.
