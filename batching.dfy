/** How `write` groups a chunk into BatchWriteItem requests, as a function
    of the chunk: the open batch, the duplicate test on the hash key, the
    item and size limits, and the flush of the trailing batch. */
module Batching {
  import opened Records

  /** `BATCHWRITE_ITEM_LIMIT`: at most this many items per request. */
  const BatchWriteItemLimit: nat := 25
  /** `BATCHWRITE_CONTENT_SIZE_LIMIT`: 1 MiB. */
  const BatchWriteContentSizeLimit: nat := 1024 * 1024

  type Batch = seq<Record>

  /** The size estimate `record.to_json.length`, left abstract. */
  type Estimator = Record -> nat

  /** The open batch: `batch_records` and `batch_size`. `batch_keys` is
      always the hash-key values of `batch_records`. */
  datatype Open = Open(records: seq<Record>, size: nat)

  /** `record[@hash_key.name]`: `Records.Lookup` of the hash-key field, named
      for the part it plays in deduplication. */
  function KeyOf(r: Record, hashName: string): Value
  {
    Lookup(r, hashName)
  }

  /** The hash-key values of a sequence of records, in order. */
  function KeysOf(rs: seq<Record>, hashName: string): (ks: seq<Value>)
    ensures |ks| == |rs|
    ensures forall i :: 0 <= i < |rs| ==> ks[i] == KeyOf(rs[i], hashName)
  {
    if rs == [] then [] else KeysOf(rs[..|rs| - 1], hashName) + [KeyOf(rs[|rs| - 1], hashName)]
  }

  /** The summed size estimate of a sequence of records. */
  function Size(rs: seq<Record>, est: Estimator): nat
  {
    if rs == [] then 0 else Size(rs[..|rs| - 1], est) + est(rs[|rs| - 1])
  }

  /** Step 1 for one record: drop it when its hash-key value is already in
      the open batch, otherwise append it and add its estimate. */
  function Append(o: Open, r: Record, hashName: string, est: Estimator): Open
  {
    if KeyOf(r, hashName) in KeysOf(o.records, hashName) then o
    else Open(o.records + [r], o.size + est(r))
  }

  /** The close test made after every record. */
  predicate Full(o: Open)
  {
    |o.records| >= BatchWriteItemLimit || o.size >= BatchWriteContentSizeLimit
  }

  /** The batches dispatched for the records `rest`, starting from the open
      batch `o`, when every dispatch succeeds. */
  function Go(rest: seq<Record>, o: Open, hashName: string, est: Estimator): seq<Batch>
    decreases |rest|
  {
    if rest == [] then
      if o.records == [] then [] else [o.records]
    else
      var o' := Append(o, rest[0], hashName, est);
      if Full(o') then [o'.records] + Go(rest[1..], Open([], 0), hashName, est)
      else Go(rest[1..], o', hashName, est)
  }

  /** The batches `write(chunk)` dispatches, in order, when none fails. */
  function Batches(chunk: seq<Record>, hashName: string, est: Estimator): seq<Batch>
  {
    Go(chunk, Open([], 0), hashName, est)
  }

  /** One turn of the loop of `write`: the record at `i` is appended (or
      dropped), and the batch closes when it is full. */
  lemma GoStep(chunk: seq<Record>, i: nat, o: Open, hashName: string, est: Estimator)
    requires i < |chunk|
    ensures var o' := Append(o, chunk[i], hashName, est);
      Go(chunk[i..], o, hashName, est)
      == if Full(o') then [o'.records] + Go(chunk[i + 1..], Open([], 0), hashName, est)
         else Go(chunk[i + 1..], o', hashName, est)
  {
    assert chunk[i..][0] == chunk[i];
    assert chunk[i..][1..] == chunk[i + 1..];
  }

  // ---------------------------------------------------------------------
  // Reference definitions

  /** The records of `s` whose hash-key value does not occur earlier in `s`:
      the first occurrence of each key wins. */
  function FirstOccurrences(s: seq<Record>, hashName: string): seq<Record>
  {
    if s == [] then []
    else
      var p := s[..|s| - 1];
      var r := s[|s| - 1];
      FirstOccurrences(p, hashName) + (if KeyOf(r, hashName) in KeysOf(p, hashName) then [] else [r])
  }

  predicate Distinct(ks: seq<Value>)
  {
    forall i, j :: 0 <= i < j < |ks| ==> ks[i] != ks[j]
  }

  function Flatten(segs: seq<seq<Record>>): seq<Record>
  {
    if segs == [] then [] else segs[0] + Flatten(segs[1..])
  }

  /** The last record of the piece `seg` was appended to its batch `b`
      (it was no duplicate): the batch closed on that record. */
  predicate ClosesOn(seg: seq<Record>, b: Batch, hashName: string)
  {
    seg != [] && b == FirstOccurrences(seg[..|seg| - 1], hashName) + [seg[|seg| - 1]]
  }

  /** `segs` cuts `s` into consecutive non-empty pieces, batch `i` is the
      first occurrences of piece `i`, and a piece whose batch is at a limit
      ends with the record whose append filled it. */
  predicate SplitInto(s: seq<Record>, batches: seq<Batch>, segs: seq<seq<Record>>, hashName: string, est: Estimator)
  {
    |segs| == |batches| && Flatten(segs) == s
    && (forall i :: 0 <= i < |segs| ==> segs[i] != [] && batches[i] == FirstOccurrences(segs[i], hashName))
    && (forall i :: 0 <= i < |segs| && ClosedByLimit(batches[i], est) ==> ClosesOn(segs[i], batches[i], hashName))
  }

  /** Every record but the last was appended while the running size was
      below the limit, and the batch holds 1 to 25 items. */
  predicate WellClosed(b: Batch, est: Estimator)
  {
    1 <= |b| <= BatchWriteItemLimit && Size(b[..|b| - 1], est) < BatchWriteContentSizeLimit
  }

  /** The batch was closed by the item limit or the size limit. */
  predicate ClosedByLimit(b: Batch, est: Estimator)
  {
    |b| == BatchWriteItemLimit || Size(b, est) >= BatchWriteContentSizeLimit
  }

  /** Every batch is well closed, and every batch but the last was closed
      by a limit. */
  predicate AllWellClosed(bs: seq<Batch>, est: Estimator)
  {
    (forall i :: 0 <= i < |bs| ==> WellClosed(bs[i], est))
    && (forall i :: 0 <= i < |bs| - 1 ==> ClosedByLimit(bs[i], est))
  }

  /** The state the loop keeps between records. */
  predicate OpenOk(o: Open, est: Estimator)
  {
    |o.records| < BatchWriteItemLimit && o.size < BatchWriteContentSizeLimit && o.size == Size(o.records, est)
  }

  // ---------------------------------------------------------------------
  // Small facts

  lemma KeysOfSnoc(rs: seq<Record>, r: Record, hashName: string)
    ensures KeysOf(rs + [r], hashName) == KeysOf(rs, hashName) + [KeyOf(r, hashName)]
  {
  }

  lemma {:induction false} SizeSnoc(rs: seq<Record>, r: Record, est: Estimator)
    ensures Size(rs + [r], est) == Size(rs, est) + est(r)
  {
    assert (rs + [r])[..|rs|] == rs;
  }

  lemma {:induction false} FirstOccurrencesSnoc(p: seq<Record>, r: Record, hashName: string)
    ensures FirstOccurrences(p + [r], hashName)
         == FirstOccurrences(p, hashName) + (if KeyOf(r, hashName) in KeysOf(p, hashName) then [] else [r])
  {
    assert (p + [r])[..|p|] == p;
  }

  /** First occurrences keep exactly the keys of the sequence, each once. */
  lemma {:induction false} FirstOccurrencesKeys(s: seq<Record>, hashName: string)
    ensures forall k :: k in KeysOf(FirstOccurrences(s, hashName), hashName) <==> k in KeysOf(s, hashName)
    ensures Distinct(KeysOf(FirstOccurrences(s, hashName), hashName))
  {
    if s != [] {
      var p := s[..|s| - 1];
      var r := s[|s| - 1];
      var kr := KeyOf(r, hashName);
      assert s == p + [r];
      FirstOccurrencesKeys(p, hashName);
      KeysOfSnoc(p, r, hashName);
      var f := FirstOccurrences(p, hashName);
      if kr in KeysOf(p, hashName) {
        assert FirstOccurrences(s, hashName) == f;
      } else {
        assert FirstOccurrences(s, hashName) == f + [r];
        KeysOfSnoc(f, r, hashName);
        var ks := KeysOf(f, hashName);
        assert kr !in ks;
        forall i, j | 0 <= i < j < |ks| + 1 ensures (ks + [kr])[i] != (ks + [kr])[j] {
          if j == |ks| {
            assert ks[i] in ks;
          }
        }
      }
    }
  }

  lemma FlattenCons(seg: seq<Record>, segs: seq<seq<Record>>)
    ensures Flatten([seg] + segs) == seg + Flatten(segs)
  {
    assert ([seg] + segs)[1..] == segs;
  }

  // ---------------------------------------------------------------------
  // Properties of the batching

  lemma ConsWellClosed(b: Batch, bs: seq<Batch>, est: Estimator)
    requires WellClosed(b, est) && ClosedByLimit(b, est) && AllWellClosed(bs, est)
    ensures AllWellClosed([b] + bs, est)
  {
    var cs := [b] + bs;
    forall i | 0 <= i < |cs| ensures WellClosed(cs[i], est) {
      if i > 0 { assert cs[i] == bs[i - 1]; }
    }
    forall i | 0 <= i < |cs| - 1 ensures ClosedByLimit(cs[i], est) {
      if i > 0 { assert cs[i] == bs[i - 1]; }
    }
  }

  /** One record from a loop state `OpenOk`: either it is dropped and the
      batch is unchanged, or it is appended and the size stays the sum of the
      estimates, the earlier records being below the size limit. */
  lemma {:induction false} AppendShape(o: Open, r: Record, hashName: string, est: Estimator)
    requires OpenOk(o, est)
    ensures var o' := Append(o, r, hashName, est);
      o' == o || (o'.records == o.records + [r] && o'.size == Size(o'.records, est)
                  && WellClosed(o'.records, est))
  {
    var o' := Append(o, r, hashName, est);
    if o' != o {
      SizeSnoc(o.records, r, est);
      assert o'.records[..|o'.records| - 1] == o.records;
    }
  }

  /** The shape of every batch `Go` produces from a loop state `OpenOk`. */
  lemma {:induction false} GoShape(rest: seq<Record>, o: Open, hashName: string, est: Estimator)
    requires OpenOk(o, est)
    ensures AllWellClosed(Go(rest, o, hashName, est), est)
    decreases |rest|
  {
    if rest == [] {
      if o.records != [] {
        var n := |o.records|;
        var front := o.records[..n - 1];
        assert o.records == front + [o.records[n - 1]];
        SizeSnoc(front, o.records[n - 1], est);
        assert WellClosed(o.records, est);
        assert Go(rest, o, hashName, est) == [o.records];
      }
    } else {
      var o' := Append(o, rest[0], hashName, est);
      AppendShape(o, rest[0], hashName, est);
      if Full(o') {
        GoShape(rest[1..], Open([], 0), hashName, est);
        ConsWellClosed(o'.records, Go(rest[1..], Open([], 0), hashName, est), est);
      } else {
        GoShape(rest[1..], o', hashName, est);
      }
    }
  }

  lemma ConsSplit(seg: seq<Record>, s: seq<Record>, bs: seq<Batch>, segs: seq<seq<Record>>, hashName: string, est: Estimator)
    requires seg != [] && SplitInto(s, bs, segs, hashName, est)
    requires ClosedByLimit(FirstOccurrences(seg, hashName), est) ==> ClosesOn(seg, FirstOccurrences(seg, hashName), hashName)
    ensures SplitInto(seg + s, [FirstOccurrences(seg, hashName)] + bs, [seg] + segs, hashName, est)
  {
    FlattenCons(seg, segs);
    var cs := [seg] + segs;
    var ds := [FirstOccurrences(seg, hashName)] + bs;
    forall i | 0 <= i < |cs| ensures cs[i] != [] && ds[i] == FirstOccurrences(cs[i], hashName) {
      if i > 0 { assert cs[i] == segs[i - 1] && ds[i] == bs[i - 1]; }
    }
    forall i | 0 <= i < |cs| && ClosedByLimit(ds[i], est) ensures ClosesOn(cs[i], ds[i], hashName) {
      if i > 0 { assert cs[i] == segs[i - 1] && ds[i] == bs[i - 1]; }
    }
  }

  /** One record appended to the open batch of first occurrences of
      `pending` leaves it the first occurrences of `pending + [r]`. */
  lemma AppendFirstOccurrences(o: Open, pending: seq<Record>, r: Record, hashName: string, est: Estimator)
    requires o.records == FirstOccurrences(pending, hashName)
    ensures Append(o, r, hashName, est).records == FirstOccurrences(pending + [r], hashName)
  {
    FirstOccurrencesKeys(pending, hashName);
    FirstOccurrencesSnoc(pending, r, hashName);
  }

  /** The end of the chunk: the open batch, if any, is the last piece. */
  lemma SplitEnd(pending: seq<Record>, o: Open, hashName: string, est: Estimator)
    returns (segs: seq<seq<Record>>)
    requires o.records == FirstOccurrences(pending, hashName)
    requires pending == [] <==> o.records == []
    requires OpenOk(o, est)
    ensures SplitInto(pending, Go([], o, hashName, est), segs, hashName, est)
  {
    if pending == [] {
      segs := [];
    } else {
      assert SplitInto([], [], [], hashName, est);
      assert !ClosedByLimit(o.records, est);
      ConsSplit(pending, [], [], [], hashName, est);
      assert pending + [] == pending;
      segs := [pending];
    }
  }

  /** A full batch closes the piece `pending`; the rest splits on its own. */
  lemma SplitFull(pending: seq<Record>, rest: seq<Record>, o: Open, more: seq<seq<Record>>, hashName: string, est: Estimator)
    requires pending != [] && o.records == FirstOccurrences(pending, hashName)
    requires ClosesOn(pending, o.records, hashName)
    requires SplitInto(rest, Go(rest, Open([], 0), hashName, est), more, hashName, est)
    ensures SplitInto(pending + rest, [o.records] + Go(rest, Open([], 0), hashName, est), [pending] + more, hashName, est)
  {
    ConsSplit(pending, rest, Go(rest, Open([], 0), hashName, est), more, hashName, est);
  }

  /** `Go` from an open batch holding the first occurrences of `pending`
      splits `pending + rest` into pieces, one per batch; `segs` are the pieces. */
  lemma {:induction false} GoSplit(rest: seq<Record>, pending: seq<Record>, o: Open, hashName: string, est: Estimator)
    returns (segs: seq<seq<Record>>)
    requires o.records == FirstOccurrences(pending, hashName)
    requires pending == [] <==> o.records == []
    requires OpenOk(o, est)
    ensures SplitInto(pending + rest, Go(rest, o, hashName, est), segs, hashName, est)
    decreases |rest|
  {
    if rest == [] {
      segs := SplitEnd(pending, o, hashName, est);
      assert pending + rest == pending;
    } else {
      var r := rest[0];
      var o' := Append(o, r, hashName, est);
      var pending' := pending + [r];
      assert pending + rest == pending' + rest[1..];
      AppendFirstOccurrences(o, pending, r, hashName, est);
      AppendShape(o, r, hashName, est);
      if Full(o') {
        var more := GoSplit(rest[1..], [], Open([], 0), hashName, est);
        assert [] + rest[1..] == rest[1..];
        assert ClosesOn(pending', o'.records, hashName) by {
          assert o' != o;
          assert pending'[..|pending'| - 1] == pending;
        }
        SplitFull(pending', rest[1..], o', more, hashName, est);
        segs := [pending'] + more;
      } else {
        assert o'.records != [] by {
          if o' == o { assert KeyOf(r, hashName) in KeysOf(o.records, hashName); }
        }
        segs := GoSplit(rest[1..], pending', o', hashName, est);
      }
    }
  }

  /** Item bound and size rule: every dispatched batch holds 1 to 25 records,
      and every record but its last was appended while the running estimate
      was below 1 MiB; every batch but the last was closed by hitting 25
      items or by reaching 1 MiB. The last record may carry a batch past
      1 MiB: the test is made after the append. */
  lemma BatchesShape(chunk: seq<Record>, hashName: string, est: Estimator)
    ensures forall i :: 0 <= i < |Batches(chunk, hashName, est)| ==>
      WellClosed(Batches(chunk, hashName, est)[i], est)
    ensures forall i :: 0 <= i < |Batches(chunk, hashName, est)| - 1 ==>
      ClosedByLimit(Batches(chunk, hashName, est)[i], est)
  {
    assert OpenOk(Open([], 0), est);
    GoShape(chunk, Open([], 0), hashName, est);
    assert Batches(chunk, hashName, est) == Go(chunk, Open([], 0), hashName, est);
  }

  /** Order and completeness: the chunk is cut into consecutive pieces, one
      per dispatched batch, and each batch is the first occurrences (by
      hash-key value) of its piece, in input order. So every record of the
      chunk is either dispatched exactly once or dropped as a duplicate of
      an earlier record of the same batch. */
  lemma BatchesSplitChunk(chunk: seq<Record>, hashName: string, est: Estimator)
    ensures exists segs :: SplitInto(chunk, Batches(chunk, hashName, est), segs, hashName, est)
  {
    var segs := GoSplit(chunk, [], Open([], 0), hashName, est);
    assert [] + chunk == chunk;
    assert SplitInto(chunk, Batches(chunk, hashName, est), segs, hashName, est);
  }

  /** Per-batch uniqueness: no two records of a dispatched batch share a
      hash-key value (a differing range key does not make them distinct). */
  lemma BatchesUniqueKeys(chunk: seq<Record>, hashName: string, est: Estimator)
    ensures var bs := Batches(chunk, hashName, est);
      forall i :: 0 <= i < |bs| ==> Distinct(KeysOf(bs[i], hashName))
  {
    var bs := Batches(chunk, hashName, est);
    BatchesSplitChunk(chunk, hashName, est);
    var segs :| SplitInto(chunk, bs, segs, hashName, est);
    forall i | 0 <= i < |bs| ensures Distinct(KeysOf(bs[i], hashName)) {
      FirstOccurrencesKeys(segs[i], hashName);
    }
  }

  /** First occurrence wins: while a batch is open, a record whose hash-key
      value it already holds is dropped and nothing else happens (no
      dispatch, no change of the batch or its size). */
  lemma DuplicateDropped(rest: seq<Record>, o: Open, hashName: string, est: Estimator)
    requires OpenOk(o, est) && rest != []
    requires KeyOf(rest[0], hashName) in KeysOf(o.records, hashName)
    ensures Go(rest, o, hashName, est) == Go(rest[1..], o, hashName, est)
  {
  }

  /** A record with a new key that leaves the batch open. */
  lemma FreshStep(s: seq<Record>, i: nat, o: Open, hashName: string, est: Estimator)
    requires i < |s| && KeyOf(s[i], hashName) !in KeysOf(o.records, hashName)
    requires !Full(Open(o.records + [s[i]], o.size + est(s[i])))
    ensures Go(s[i..], o, hashName, est) == Go(s[i + 1..], Open(o.records + [s[i]], o.size + est(s[i])), hashName, est)
  {
    GoStep(s, i, o, hashName, est);
  }

  /** A last record whose key the open batch holds: the batch is flushed as it is. */
  lemma DuplicateLast(s: seq<Record>, o: Open, hashName: string, est: Estimator)
    requires s != [] && KeyOf(s[|s| - 1], hashName) in KeysOf(o.records, hashName) && !Full(o)
    ensures Go(s[|s| - 1..], o, hashName, est) == [o.records]
  {
    GoStep(s, |s| - 1, o, hashName, est);
    assert s[|s|..] == [];
  }

  /** Three records where the first and the third share a hash key (their
      range keys may differ) and that fit one batch: the third is dropped. */
  lemma ThirdRecordDropped(a: Record, b: Record, c: Record, hashName: string, est: Estimator)
    requires KeyOf(a, hashName) == KeyOf(c, hashName) != KeyOf(b, hashName)
    requires est(a) + est(b) < BatchWriteContentSizeLimit
    ensures Batches([a, b, c], hashName, est) == [[a, b]]
  {
    var s := [a, b, c];
    var o1 := Open([a], est(a));
    var o2 := Open([a, b], est(a) + est(b));
    assert Go(s[0..], Open([], 0), hashName, est) == Go(s[1..], o1, hashName, est) by {
      assert [] + [a] == [a];
      FreshStep(s, 0, Open([], 0), hashName, est);
    }
    assert Go(s[1..], o1, hashName, est) == Go(s[2..], o2, hashName, est) by {
      assert KeysOf([a], hashName) == [KeyOf(a, hashName)];
      assert [a] + [b] == [a, b];
      FreshStep(s, 1, o1, hashName, est);
    }
    assert Go(s[2..], o2, hashName, est) == [[a, b]] by {
      assert KeysOf([a, b], hashName)[0] == KeyOf(c, hashName);
      DuplicateLast(s, o2, hashName, est);
    }
    assert s[0..] == s;
  }

  /** The first batch `Go` dispatches starts with the first record of the
      open batch or, when that is empty, with the next record of the chunk. */
  lemma {:induction false} GoHead(rest: seq<Record>, o: Open, hashName: string, est: Estimator)
    requires o.records != [] || rest != []
    ensures var bs := Go(rest, o, hashName, est);
      bs != [] && bs[0] != [] && bs[0][0] == if o.records != [] then o.records[0] else rest[0]
    decreases |rest|
  {
    if rest != [] {
      var o' := Append(o, rest[0], hashName, est);
      if o.records == [] {
        assert KeysOf(o.records, hashName) == [];
        assert o'.records == [rest[0]];
      } else {
        assert o'.records[0] == o.records[0];
      }
      if !Full(o') {
        GoHead(rest[1..], o', hashName, est);
      }
    }
  }

  /** Duplicates on both sides of a batch boundary are both dispatched: when
      the record `r` closes the open batch, the next record opens the next
      batch as its first record, whatever its key, even one equal to the key of
      `r` or of any record of the closed batch. */
  lemma SplitDuplicatesKept(r: Record, next: Record, rest: seq<Record>, o: Open, hashName: string, est: Estimator)
    requires Full(Append(o, r, hashName, est))
    ensures Go([r, next] + rest, o, hashName, est)
         == [Append(o, r, hashName, est).records] + Go([next] + rest, Open([], 0), hashName, est)
    ensures var later := Go([next] + rest, Open([], 0), hashName, est);
      later != [] && later[0] != [] && later[0][0] == next
  {
    assert ([r, next] + rest)[0] == r && ([r, next] + rest)[1..] == [next] + rest;
    GoHead([next] + rest, Open([], 0), hashName, est);
  }

  /** A single record from an empty batch goes out alone, full or not. */
  lemma GoSingle(r: Record, hashName: string, est: Estimator)
    ensures Go([r], Open([], 0), hashName, est) == [[r]]
  {
    assert Append(Open([], 0), r, hashName, est) == Open([r], est(r));
    assert [r][1..] == [];
    if Full(Open([r], est(r))) {
      assert Go([], Open([], 0), hashName, est) == [];
    } else {
      assert Go([], Open([r], est(r)), hashName, est) == [[r]];
    }
  }

  /** A record `b` that carries the batch of `a` past 1 MiB closes it; the
      following duplicate `a2` of `a` is not dropped but dispatched next. */
  lemma FilledBatchThenDuplicate(a: Record, b: Record, a2: Record, hashName: string, est: Estimator)
    requires KeyOf(a, hashName) == KeyOf(a2, hashName) != KeyOf(b, hashName)
    requires est(a) < BatchWriteContentSizeLimit <= est(a) + est(b)
    ensures Batches([a, b, a2], hashName, est) == [[a, b], [a2]]
  {
    var s := [a, b, a2];
    var o1 := Open([a], est(a));
    assert [] + [a] == [a];
    FreshStep(s, 0, Open([], 0), hashName, est);
    assert s[0..] == s && s[1..] == [b, a2] + [];
    assert KeysOf([a], hashName) == [KeyOf(a, hashName)];
    assert Append(o1, b, hashName, est) == Open([a, b], est(a) + est(b));
    SplitDuplicatesKept(b, a2, [], o1, hashName, est);
    assert [a2] + [] == [a2];
    GoSingle(a2, hashName, est);
  }

  /** An instance: a record that reaches the size limit on its own closes its
      batch, and a record with the same hash key goes into the next one. */
  lemma SplitDuplicatesExample(a: Record, a2: Record, hashName: string, est: Estimator)
    requires KeyOf(a, hashName) == KeyOf(a2, hashName)
    requires est(a) >= BatchWriteContentSizeLimit
    ensures Batches([a, a2], hashName, est) == [[a], [a2]]
  {
    assert Append(Open([], 0), a, hashName, est) == Open([a], est(a));
    assert [a, a2] + [] == [a, a2] && [a2] + [] == [a2];
    SplitDuplicatesKept(a, a2, [], Open([], 0), hashName, est);
    GoSingle(a2, hashName, est);
  }

  // ---------------------------------------------------------------------
  // The reference definitions determine the batching

  /** The open batch after the first `j` records of the piece `seg`. */
  function StateAfter(seg: seq<Record>, j: nat, hashName: string, est: Estimator): Open
    requires j <= |seg|
  {
    Open(FirstOccurrences(seg[..j], hashName), Size(FirstOccurrences(seg[..j], hashName), est))
  }

  lemma StepState(seg: seq<Record>, j: nat, hashName: string, est: Estimator)
    requires j < |seg|
    ensures Append(StateAfter(seg, j, hashName, est), seg[j], hashName, est) == StateAfter(seg, j + 1, hashName, est)
  {
    var p := seg[..j];
    assert seg[..j + 1] == p + [seg[j]];
    var o := StateAfter(seg, j, hashName, est);
    AppendFirstOccurrences(o, p, seg[j], hashName, est);
    if KeyOf(seg[j], hashName) !in KeysOf(o.records, hashName) {
      SizeSnoc(o.records, seg[j], est);
    }
  }

  /** The open batch only grows along a piece. */
  lemma {:induction false} StateGrows(seg: seq<Record>, j: nat, m: nat, hashName: string, est: Estimator)
    requires j <= m <= |seg|
    ensures |StateAfter(seg, j, hashName, est).records| <= |StateAfter(seg, m, hashName, est).records|
    ensures StateAfter(seg, j, hashName, est).size <= StateAfter(seg, m, hashName, est).size
    decreases m - j
  {
    if j < m {
      StateGrows(seg, j + 1, m, hashName, est);
      var f := FirstOccurrences(seg[..j], hashName);
      var f' := FirstOccurrences(seg[..j + 1], hashName);
      assert seg[..j + 1] == seg[..j] + [seg[j]];
      FirstOccurrencesSnoc(seg[..j], seg[j], hashName);
      if KeyOf(seg[j], hashName) in KeysOf(seg[..j], hashName) {
        assert f' == f;
      } else {
        assert f' == f + [seg[j]];
        SizeSnoc(f, seg[j], est);
      }
    }
  }

  /** `Go` runs through records of a piece that leave the batch open. */
  lemma {:induction false} OpenRun(seg: seq<Record>, k: nat, m: nat, rest: seq<Record>, hashName: string, est: Estimator)
    requires k <= m <= |seg|
    requires forall j :: k < j <= m ==> !Full(StateAfter(seg, j, hashName, est))
    ensures Go(seg[k..] + rest, StateAfter(seg, k, hashName, est), hashName, est)
         == Go(seg[m..] + rest, StateAfter(seg, m, hashName, est), hashName, est)
    decreases m - k
  {
    if k < m {
      var c := seg + rest;
      assert c[k..] == seg[k..] + rest && c[k + 1..] == seg[k + 1..] + rest;
      GoStep(c, k, StateAfter(seg, k, hashName, est), hashName, est);
      StepState(seg, k, hashName, est);
      OpenRun(seg, k + 1, m, rest, hashName, est);
    }
  }

  lemma StartState(seg: seq<Record>, hashName: string, est: Estimator)
    ensures StateAfter(seg, 0, hashName, est) == Open([], 0)
  {
    assert seg[..0] == [];
  }

  /** Through a closed piece up to its last record, the batch stays open. */
  lemma ClosedPieceFront(seg: seq<Record>, b: Batch, rest: seq<Record>, hashName: string, est: Estimator)
    requires WellClosed(b, est) && ClosesOn(seg, b, hashName)
    ensures Go(seg + rest, Open([], 0), hashName, est)
         == Go(seg[|seg| - 1..] + rest, StateAfter(seg, |seg| - 1, hashName, est), hashName, est)
  {
    var n := |seg|;
    assert FirstOccurrences(seg[..n - 1], hashName) == b[..|b| - 1];
    forall j | 0 < j <= n - 1 ensures !Full(StateAfter(seg, j, hashName, est)) {
      StateGrows(seg, j, n - 1, hashName, est);
    }
    StartState(seg, hashName, est);
    assert seg[0..] == seg;
    OpenRun(seg, 0, n - 1, rest, hashName, est);
  }

  /** A piece whose batch closed on its last record. */
  lemma GoClosedPiece(seg: seq<Record>, b: Batch, rest: seq<Record>, hashName: string, est: Estimator)
    requires b == FirstOccurrences(seg, hashName)
    requires WellClosed(b, est) && ClosedByLimit(b, est) && ClosesOn(seg, b, hashName)
    ensures Go(seg + rest, Open([], 0), hashName, est) == [b] + Go(rest, Open([], 0), hashName, est)
  {
    var n := |seg|;
    ClosedPieceFront(seg, b, rest, hashName, est);
    var c := seg + rest;
    assert c[n - 1..] == seg[n - 1..] + rest && c[n..] == rest;
    GoStep(c, n - 1, StateAfter(seg, n - 1, hashName, est), hashName, est);
    StepState(seg, n - 1, hashName, est);
    assert seg[..n] == seg;
    assert StateAfter(seg, n, hashName, est) == Open(b, Size(b, est));
  }

  /** A last piece whose batch is below both limits: it is the tail flush. */
  lemma GoOpenPiece(seg: seq<Record>, b: Batch, hashName: string, est: Estimator)
    requires seg != [] && b == FirstOccurrences(seg, hashName)
    requires WellClosed(b, est) && !ClosedByLimit(b, est)
    ensures Go(seg, Open([], 0), hashName, est) == [b]
  {
    var n := |seg|;
    assert seg[..n] == seg;
    forall j | 0 < j <= n ensures !Full(StateAfter(seg, j, hashName, est)) {
      StateGrows(seg, j, n, hashName, est);
    }
    StartState(seg, hashName, est);
    assert seg[0..] + [] == seg && seg[n..] + [] == [];
    OpenRun(seg, 0, n, [], hashName, est);
  }

  lemma {:induction false} GoPieces(bs: seq<Batch>, segs: seq<seq<Record>>, hashName: string, est: Estimator)
    requires SplitInto(Flatten(segs), bs, segs, hashName, est) && AllWellClosed(bs, est)
    ensures Go(Flatten(segs), Open([], 0), hashName, est) == bs
    decreases |segs|
  {
    if segs != [] {
      var seg, b := segs[0], bs[0];
      var rest := Flatten(segs[1..]);
      assert Flatten(segs) == seg + rest;
      assert ClosedByLimit(b, est) ==> ClosesOn(seg, b, hashName);
      if |segs| == 1 {
        assert rest == [] && bs == [b];
        if ClosedByLimit(b, est) {
          GoClosedPiece(seg, b, rest, hashName, est);
        } else {
          assert seg + rest == seg;
          GoOpenPiece(seg, b, hashName, est);
        }
      } else {
        assert ClosedByLimit(bs[0], est);
        assert SplitInto(rest, bs[1..], segs[1..], hashName, est) by {
          forall i | 0 <= i < |segs| - 1 ensures segs[1..][i] == segs[i + 1] && bs[1..][i] == bs[i + 1] { }
        }
        assert AllWellClosed(bs[1..], est) by {
          forall i | 0 <= i < |bs| - 1 ensures bs[1..][i] == bs[i + 1] { }
        }
        GoPieces(bs[1..], segs[1..], hashName, est);
        GoClosedPiece(seg, b, rest, hashName, est);
        assert bs == [b] + bs[1..];
      }
    }
  }

  /** The batching is the only one the reference definitions allow: any
      split of the chunk into pieces whose batches are their first
      occurrences, each well closed, every batch but the last at a limit and
      every batch at a limit closed by the append of its piece's last record,
      is exactly what `write` dispatches. */
  lemma BatchesUnique(chunk: seq<Record>, bs: seq<Batch>, segs: seq<seq<Record>>, hashName: string, est: Estimator)
    requires SplitInto(chunk, bs, segs, hashName, est) && AllWellClosed(bs, est)
    ensures bs == Batches(chunk, hashName, est)
  {
    GoPieces(bs, segs, hashName, est);
  }

  // ---------------------------------------------------------------------
  // Chunks whose keys are all distinct

  /** The chunk cut into consecutive groups of 25 (the last may be shorter). */
  function GroupsOf25(s: seq<Record>): seq<Batch>
    decreases |s|
  {
    if |s| <= BatchWriteItemLimit then (if s == [] then [] else [s])
    else [s[..BatchWriteItemLimit]] + GroupsOf25(s[BatchWriteItemLimit..])
  }

  predicate DistinctKeys(s: seq<Record>, hashName: string)
  {
    forall i, j :: 0 <= i < j < |s| ==> KeyOf(s[i], hashName) != KeyOf(s[j], hashName)
  }

  lemma {:induction false} SizeConcat(a: seq<Record>, b: seq<Record>, est: Estimator)
    ensures Size(a + b, est) == Size(a, est) + Size(b, est)
    decreases |b|
  {
    if b == [] {
      assert a + b == a;
    } else {
      var b' := b[..|b| - 1];
      assert a + b == (a + b') + [b[|b| - 1]];
      SizeSnoc(a + b', b[|b| - 1], est);
      SizeConcat(a, b', est);
    }
  }

  lemma DistinctKeysSuffix(a: seq<Record>, b: seq<Record>, hashName: string)
    requires DistinctKeys(a + b, hashName)
    ensures DistinctKeys(b, hashName)
  {
    forall i, j | 0 <= i < j < |b| ensures KeyOf(b[i], hashName) != KeyOf(b[j], hashName) {
      assert b[i] == (a + b)[|a| + i] && b[j] == (a + b)[|a| + j];
    }
  }

  lemma DistinctKeysNext(p: seq<Record>, rest: seq<Record>, hashName: string)
    requires rest != [] && DistinctKeys(p + rest, hashName)
    ensures KeyOf(rest[0], hashName) !in KeysOf(p, hashName)
  {
    forall i | 0 <= i < |p| ensures KeysOf(p, hashName)[i] != KeyOf(rest[0], hashName) {
      assert (p + rest)[i] == p[i] && (p + rest)[|p|] == rest[0];
    }
  }

  /** A record with a new key that keeps the batch under the size limit. */
  lemma AppendFresh(p: seq<Record>, rest: seq<Record>, hashName: string, est: Estimator)
    requires rest != [] && DistinctKeys(p + rest, hashName)
    requires Size(p + rest, est) < BatchWriteContentSizeLimit
    ensures var p' := p + [rest[0]];
      Append(Open(p, Size(p, est)), rest[0], hashName, est) == Open(p', Size(p', est))
      && Size(p', est) < BatchWriteContentSizeLimit
      && p + rest == p' + rest[1..]
      && DistinctKeys(p' + rest[1..], hashName) && Size(p' + rest[1..], est) < BatchWriteContentSizeLimit
  {
    var p' := p + [rest[0]];
    assert p + rest == p' + rest[1..];
    DistinctKeysNext(p, rest, hashName);
    SizeSnoc(p, rest[0], est);
    SizeConcat(p', rest[1..], est);
  }

  lemma {:induction false} GoDistinct(rest: seq<Record>, p: seq<Record>, hashName: string, est: Estimator)
    requires |p| < BatchWriteItemLimit
    requires DistinctKeys(p + rest, hashName)
    requires Size(p + rest, est) < BatchWriteContentSizeLimit
    ensures Go(rest, Open(p, Size(p, est)), hashName, est) == GroupsOf25(p + rest)
    decreases |rest|
  {
    if rest == [] {
      assert p + rest == p;
    } else {
      AppendFresh(p, rest, hashName, est);
      var p' := p + [rest[0]];
      if |p'| == BatchWriteItemLimit {
        GoDistinctFull(rest, p, hashName, est);
      } else {
        assert !Full(Open(p', Size(p', est)));
        GoDistinct(rest[1..], p', hashName, est);
      }
    }
  }

  /** The step of `GoDistinct` where the record completes a group of 25. */
  lemma {:induction false} GoDistinctFull(rest: seq<Record>, p: seq<Record>, hashName: string, est: Estimator)
    requires rest != [] && |p| + 1 == BatchWriteItemLimit
    requires DistinctKeys(p + rest, hashName)
    requires Size(p + rest, est) < BatchWriteContentSizeLimit
    requires Append(Open(p, Size(p, est)), rest[0], hashName, est) == Open(p + [rest[0]], Size(p + [rest[0]], est))
    ensures Go(rest, Open(p, Size(p, est)), hashName, est) == GroupsOf25(p + rest)
    decreases |rest|, 0
  {
    var p' := p + [rest[0]];
    assert p + rest == p' + rest[1..];
    assert (p + rest)[..BatchWriteItemLimit] == p';
    var tail := Go(rest[1..], Open([], 0), hashName, est);
    assert Go(rest, Open(p, Size(p, est)), hashName, est) == [p'] + tail;
    if rest[1..] == [] {
      assert p + rest == p';
    } else {
      assert (p + rest)[BatchWriteItemLimit..] == rest[1..];
      assert [] + rest[1..] == rest[1..];
      DistinctKeysSuffix(p', rest[1..], hashName);
      SizeConcat(p', rest[1..], est);
      SizeConcat([], rest[1..], est);
      GoDistinct(rest[1..], [], hashName, est);
    }
  }

  /** A chunk whose hash keys are all distinct and whose estimates add up
      to less than 1 MiB goes out in consecutive groups of 25 records. */
  lemma BatchesOfDistinctChunk(chunk: seq<Record>, hashName: string, est: Estimator)
    requires DistinctKeys(chunk, hashName)
    requires Size(chunk, est) < BatchWriteContentSizeLimit
    ensures Batches(chunk, hashName, est) == GroupsOf25(chunk)
  {
    assert [] + chunk == chunk;
    GoDistinct(chunk, [], hashName, est);
  }

  /** Thirty records with distinct hash keys that fit the size limit: two
      batches, of 25 and of 5 records, in input order. */
  lemma ThirtyRecords(chunk: seq<Record>, hashName: string, est: Estimator)
    requires |chunk| == 30 && DistinctKeys(chunk, hashName)
    requires Size(chunk, est) < BatchWriteContentSizeLimit
    ensures Batches(chunk, hashName, est) == [chunk[..25], chunk[25..]]
  {
    BatchesOfDistinctChunk(chunk, hashName, est);
    assert GroupsOf25(chunk[25..]) == [chunk[25..]];
  }
}
