/** The DynamoDB BatchWriteItem client the plugin writes through, reduced to
    what `write` sees of it: each call is logged, and its answer comes from a
    script of replies given up front (an exhausted script answers Accepted). */
module Sink {
  import opened Records

  datatype Mode = Put | Delete

  /** One `@batch.put`/`@batch.delete` followed by `@batch.process!`. */
  datatype Request = Request(mode: Mode, table: string, items: seq<Record>)

  /** How the store answers a request: committed, rejected with a
      ValidationException, or any other failure (throttling, transport, ...). */
  datatype Reply = Accepted | ValidationException | Failure(error: string)

  function NextReply(replies: seq<Reply>): Reply
  {
    if replies == [] then Accepted else replies[0]
  }

  function LaterReplies(replies: seq<Reply>): seq<Reply>
  {
    if replies == [] then [] else replies[1..]
  }

  /** The answer to the `j`-th request made against the script `replies`. */
  function Answer(replies: seq<Reply>, j: nat): Reply
  {
    if j < |replies| then replies[j] else Accepted
  }

  lemma AnswerLater(replies: seq<Reply>, j: nat)
    ensures Answer(LaterReplies(replies), j) == Answer(replies, j + 1)
    ensures Answer(replies, 0) == NextReply(replies)
  {
  }

  class BatchWriter {
    /** Every request handed to the store, in order. */
    var log: seq<Request>
    /** The answers still to be given. */
    var replies: seq<Reply>

    constructor (replies: seq<Reply>)
      ensures log == [] && this.replies == replies
    {
      log := [];
      this.replies := replies;
    }

    method Process(request: Request) returns (reply: Reply)
      modifies this
      ensures log == old(log) + [request]
      ensures reply == NextReply(old(replies)) && replies == LaterReplies(old(replies))
    {
      log := log + [request];
      reply := NextReply(replies);
      replies := LaterReplies(replies);
    }
  }
}
