/** The failure policy of `write`: batches go to the store one at a time, in
    order; a ValidationException ends the chunk quietly, any other failure
    ends it by raising. */
module Dispatching {
  import opened Records
  import opened Batching
  import opened Sink

  /** How `write(chunk)` ends: normally after flushing everything, normally
      after a ValidationException (the rest of the chunk is abandoned), or by
      raising the store's other failure to the caller. */
  datatype WriteOutcome = Flushed | Abandoned | Raised(error: string)

  /** The batches handed to the store, how the write ended, and the replies
      left unused. */
  datatype Run = Run(sent: seq<Batch>, outcome: WriteOutcome, rest: seq<Reply>)

  function Prepend(done: seq<Batch>, run: Run): Run
  {
    Run(done + run.sent, run.outcome, run.rest)
  }

  /** Dispatching `bs` in order against the scripted replies. */
  function Dispatch(bs: seq<Batch>, replies: seq<Reply>): Run
    decreases |bs|
  {
    if bs == [] then Run([], Flushed, replies)
    else
      match NextReply(replies)
      case Accepted => Prepend([bs[0]], Dispatch(bs[1..], LaterReplies(replies)))
      case ValidationException => Run([bs[0]], Abandoned, LaterReplies(replies))
      case Failure(e) => Run([bs[0]], Raised(e), LaterReplies(replies))
  }

  /** The requests made for the batches `bs`, in order. */
  function Requests(mode: Mode, table: string, bs: seq<Batch>): seq<Request>
  {
    seq(|bs|, j requires 0 <= j < |bs| => Request(mode, table, bs[j]))
  }

  /** The batches the store committed: all that were sent, except the one
      that failed. */
  function Committed(run: Run): seq<Batch>
  {
    if run.outcome == Flushed || run.sent == [] then run.sent else run.sent[..|run.sent| - 1]
  }

  /** What a run against `replies` is: a prefix of the batches goes out;
      every batch but the last sent was accepted; the write flushes
      everything exactly when every batch is accepted; otherwise the last
      batch sent is the one the store rejected, and nothing after it is
      sent. */
  predicate Characterises(bs: seq<Batch>, replies: seq<Reply>, run: Run)
  {
    |run.sent| <= |bs| && run.sent == bs[..|run.sent|]
    && (forall j :: 0 <= j < |run.sent| - 1 ==> Answer(replies, j) == Accepted)
    && (run.outcome == Flushed <==> forall j :: 0 <= j < |bs| ==> Answer(replies, j) == Accepted)
    && (run.outcome == Flushed ==> run.sent == bs)
    && (run.outcome == Abandoned ==> run.sent != [] && Answer(replies, |run.sent| - 1) == ValidationException)
    && (run.outcome.Raised? ==> run.sent != [] && Answer(replies, |run.sent| - 1) == Failure(run.outcome.error))
  }

  lemma {:induction false} DispatchCharacterised(bs: seq<Batch>, replies: seq<Reply>)
    ensures Characterises(bs, replies, Dispatch(bs, replies))
    decreases |bs|
  {
    AnswerLater(replies, 0);
    if bs != [] && NextReply(replies) == Accepted {
      var later := LaterReplies(replies);
      DispatchCharacterised(bs[1..], later);
      var inner := Dispatch(bs[1..], later);
      var run := Dispatch(bs, replies);
      assert run.sent == [bs[0]] + inner.sent;
      forall j | 0 <= j < |bs| - 1 ensures Answer(later, j) == Answer(replies, j + 1) {
        AnswerLater(replies, j);
      }
      forall j | 0 <= j < |run.sent| - 1 ensures Answer(replies, j) == Accepted {
        if j > 0 { AnswerLater(replies, j - 1); }
      }
      if run.outcome == Flushed {
        forall j | 0 <= j < |bs| ensures Answer(replies, j) == Accepted {
          if j > 0 { AnswerLater(replies, j - 1); }
        }
      }
      if forall j :: 0 <= j < |bs| ==> Answer(replies, j) == Accepted {
        forall j | 0 <= j < |bs| - 1 ensures Answer(later, j) == Accepted {
          AnswerLater(replies, j);
        }
      }
      if |run.sent| >= 2 {
        AnswerLater(replies, |run.sent| - 2);
      }
    }
  }

  // Unfolding steps used by `DynamoDBOutput.Write`.

  lemma DispatchAccepted(done: seq<Batch>, b: Batch, bs: seq<Batch>, replies: seq<Reply>)
    requires NextReply(replies) == Accepted
    ensures Prepend(done, Dispatch([b] + bs, replies)) == Prepend(done + [b], Dispatch(bs, LaterReplies(replies)))
  {
    assert ([b] + bs)[1..] == bs;
  }

  /** How `write` ends when the store does not accept a batch. */
  function RejectedOutcome(reply: Reply): WriteOutcome
  {
    match reply
    case ValidationException => Abandoned
    case Failure(e) => Raised(e)
    case Accepted => Flushed
  }

  lemma DispatchRejected(done: seq<Batch>, b: Batch, bs: seq<Batch>, replies: seq<Reply>)
    requires NextReply(replies) != Accepted
    ensures Prepend(done, Dispatch([b] + bs, replies)) == Run(done + [b], RejectedOutcome(NextReply(replies)), LaterReplies(replies))
  {
  }

  lemma RequestsSnoc(mode: Mode, table: string, bs: seq<Batch>, b: Batch)
    ensures Requests(mode, table, bs + [b]) == Requests(mode, table, bs) + [Request(mode, table, b)]
  {
  }

  /** The bookkeeping of `write`'s loop: `spec` is what the whole chunk
      does, `sent` the batches already accepted, and the rest is still to
      come from `rest` and the open batch `o`. */
  predicate Pending(spec: Run, sent: seq<Batch>, rest: seq<Record>, o: Open, replies: seq<Reply>, hashName: string, est: Estimator)
  {
    spec == Prepend(sent, Dispatch(Go(rest, o, hashName, est), replies))
  }

  /** A record that does not close the batch. */
  lemma StepOpen(spec: Run, sent: seq<Batch>, chunk: seq<Record>, i: nat, o: Open, replies: seq<Reply>, hashName: string, est: Estimator)
    requires i < |chunk| && Pending(spec, sent, chunk[i..], o, replies, hashName, est)
    requires !Full(Append(o, chunk[i], hashName, est))
    ensures Pending(spec, sent, chunk[i + 1..], Append(o, chunk[i], hashName, est), replies, hashName, est)
  {
    GoStep(chunk, i, o, hashName, est);
  }

  /** A record that closes the batch, which the store accepts. */
  lemma StepAccepted(spec: Run, sent: seq<Batch>, chunk: seq<Record>, i: nat, o: Open, replies: seq<Reply>, hashName: string, est: Estimator)
    requires i < |chunk| && Pending(spec, sent, chunk[i..], o, replies, hashName, est)
    requires Full(Append(o, chunk[i], hashName, est)) && NextReply(replies) == Accepted
    ensures Pending(spec, sent + [Append(o, chunk[i], hashName, est).records], chunk[i + 1..], Open([], 0),
                    LaterReplies(replies), hashName, est)
  {
    GoStep(chunk, i, o, hashName, est);
    DispatchAccepted(sent, Append(o, chunk[i], hashName, est).records, Go(chunk[i + 1..], Open([], 0), hashName, est), replies);
  }

  /** A record that closes the batch, which the store rejects. */
  lemma StepRejected(spec: Run, sent: seq<Batch>, chunk: seq<Record>, i: nat, o: Open, replies: seq<Reply>, hashName: string, est: Estimator)
    requires i < |chunk| && Pending(spec, sent, chunk[i..], o, replies, hashName, est)
    requires Full(Append(o, chunk[i], hashName, est)) && NextReply(replies) != Accepted
    ensures spec == Run(sent + [Append(o, chunk[i], hashName, est).records], RejectedOutcome(NextReply(replies)), LaterReplies(replies))
  {
    GoStep(chunk, i, o, hashName, est);
    DispatchRejected(sent, Append(o, chunk[i], hashName, est).records, Go(chunk[i + 1..], Open([], 0), hashName, est), replies);
  }

  /** The end of the chunk with an empty open batch. */
  lemma EndEmpty(spec: Run, sent: seq<Batch>, chunk: seq<Record>, o: Open, replies: seq<Reply>, hashName: string, est: Estimator)
    requires Pending(spec, sent, chunk[|chunk|..], o, replies, hashName, est) && o.records == []
    ensures spec == Run(sent, Flushed, replies)
  {
    assert chunk[|chunk|..] == [];
  }

  /** The end of the chunk: the trailing batch goes out. */
  lemma EndFlush(spec: Run, sent: seq<Batch>, chunk: seq<Record>, o: Open, replies: seq<Reply>, hashName: string, est: Estimator)
    requires Pending(spec, sent, chunk[|chunk|..], o, replies, hashName, est) && o.records != []
    ensures NextReply(replies) == Accepted ==> spec == Run(sent + [o.records], Flushed, LaterReplies(replies))
    ensures NextReply(replies) != Accepted ==> spec == Run(sent + [o.records], RejectedOutcome(NextReply(replies)), LaterReplies(replies))
  {
    assert chunk[|chunk|..] == [];
    assert Go([], o, hashName, est) == [o.records] + [];
    if NextReply(replies) == Accepted {
      DispatchAccepted(sent, o.records, [], replies);
    } else {
      DispatchRejected(sent, o.records, [], replies);
    }
  }

  /** Committed batches are the sent ones minus the rejected one: after a
      ValidationException, the batches before it stay committed and the
      failing batch and everything after it are not. */
  lemma CommittedPrefix(bs: seq<Batch>, replies: seq<Reply>)
    ensures var run := Dispatch(bs, replies);
      |Committed(run)| <= |bs| && Committed(run) == bs[..|Committed(run)|]
      && (forall j :: 0 <= j < |Committed(run)| ==> Answer(replies, j) == Accepted)
      && (run.outcome != Flushed ==> |Committed(run)| == |run.sent| - 1 && |Committed(run)| < |bs|)
  {
    DispatchCharacterised(bs, replies);
  }

  /** Redelivery: the chunk is batched the same way every time, so when a
      run that failed part-way is replayed and the replay succeeds, the
      batches committed over both runs are exactly those of one successful
      run, and the failed run committed nothing the replay does not also send.
      The sink is taken to keep nothing queued from the failed run. */
  lemma Redelivery(bs: seq<Batch>, first: seq<Reply>, second: seq<Reply>)
    requires forall j :: 0 <= j < |bs| ==> Answer(second, j) == Accepted
    ensures Committed(Dispatch(bs, second)) == bs
    ensures forall b :: b in Committed(Dispatch(bs, first)) + Committed(Dispatch(bs, second)) <==> b in bs
  {
    DispatchCharacterised(bs, second);
    CommittedPrefix(bs, first);
    var c := Committed(Dispatch(bs, first));
    forall b | b in c ensures b in bs {
      var j :| 0 <= j < |c| && c[j] == b;
      assert bs[j] == b;
    }
  }
}
