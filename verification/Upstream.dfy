/**
 What an upstream's answer means, for the request and for the node. Parsing is
 an input: whether the body could be read, whether it carries an `"error"` key,
 and what a JSON parse of it yields.
 */
module Upstream {
  import opened Ranking
  import opened Health

  const TOO_MANY_REQUESTS: nat := 429

  /** Bodies up to this size are always parsed. */
  const VALIDATE_BELOW: nat := 512

  datatype Parsed = NotJson | NoError | RpcError(code: int)

  datatype Body = Cut | Full(length: nat, mentionsError: bool, parsed: Parsed)

  /** `retryAfterS` is the delta-seconds header, zero when absent or a date. */
  datatype Reply = NoReply | Reply(status: nat, retryAfterS: nat, body: Body)

  predicate IsSuccess(status: nat) {
    200 <= status < 300
  }

  predicate IsFinalStatus(status: nat) {
    || status == 400 || status == 402 || 404 <= status <= 418 || 421 <= status <= 426
    || status == 428 || status == 431 || status == 451
  }

  predicate IsRetryableRpcError(code: int) {
    code !in [-32700, -32601, -32602, -32600]
  }

  /** The value of the outcome label: one per attempt. */
  datatype Label =
    | TransportError | BodyError | ForwardedHttpError | InvalidJson
    | ForwardedRpcError | RetryableRpcError | Success

  datatype Attempt = Done | Retry

  /** What the node's health is told. */
  datatype Effect = Penalize(retryAfterS: nat) | Measure | Nothing

  datatype Ruling = Ruling(attempt: Attempt, effect: Effect, tag: Label)

  function Classify(reply: Reply): Ruling {
    match reply
    case NoReply => Ruling(Retry, Penalize(0), TransportError)
    case Reply(status, header, body) =>
      var retryAfterS := if status == TOO_MANY_REQUESTS then header else 0;
      match body
      case Cut => Ruling(Retry, Penalize(0), BodyError)
      case Full(length, mentionsError, parsed) =>
        if IsFinalStatus(status) then Ruling(Done, Nothing, ForwardedHttpError)
        else
          var looked := length <= VALIDATE_BELOW || mentionsError;
          if looked && parsed.NotJson? then Ruling(Retry, Penalize(retryAfterS), InvalidJson)
          else if looked && parsed.RpcError? then
            if !IsRetryableRpcError(parsed.code) then Ruling(Done, Nothing, ForwardedRpcError)
            else Ruling(Retry, Penalize(retryAfterS), RetryableRpcError)
          else if IsSuccess(status) then Ruling(Done, Measure, Success)
          else Ruling(Done, Penalize(retryAfterS), ForwardedHttpError)
  }

  // ---------------------------------------------------------------------
  // The questions the classifier answers, each on its own
  // ---------------------------------------------------------------------

  predicate Looked(body: Body) {
    body.Full? && (body.length <= VALIDATE_BELOW || body.mentionsError)
  }

  /** The request itself was refused: any node would say the same. */
  predicate RequestRefused(reply: Reply) {
    && reply.Reply? && reply.body.Full?
    && (IsFinalStatus(reply.status)
        || (Looked(reply.body) && reply.body.parsed.RpcError? && !IsRetryableRpcError(reply.body.parsed.code)))
  }

  /** The node did the work and returned it. */
  predicate RequestServed(reply: Reply) {
    && reply.Reply? && reply.body.Full? && IsSuccess(reply.status)
    && (!Looked(reply.body) || reply.body.parsed.NoError?)
  }

  /** There is an answer to hand to the client. */
  predicate Answerable(reply: Reply) {
    && reply.Reply? && reply.body.Full?
    && (IsFinalStatus(reply.status) || !Looked(reply.body) || reply.body.parsed.NoError? || RequestRefused(reply))
  }

  /** The statuses that say something about the request. */
  const FINAL_STATUSES: set<nat> :=
    {400, 402, 404, 405, 406, 407, 408, 409, 410, 411, 412, 413, 414, 415, 416, 417, 418,
     421, 422, 423, 424, 425, 426, 428, 431, 451}

  lemma FinalStatusesAre(status: nat)
    ensures IsFinalStatus(status) <==> status in FINAL_STATUSES
    ensures IsSuccess(status) <==> status / 100 == 2
  {}

  // ---------------------------------------------------------------------
  // The law of a reply, in statuses, sizes and codes
  // ---------------------------------------------------------------------

  ghost predicate Arrived(reply: Reply) {
    reply.Reply? && reply.body.Full?
  }

  ghost predicate Final(reply: Reply) {
    Arrived(reply) && reply.status in FINAL_STATUSES
  }

  /** The body was parsed: it was short, or mentioned an error. */
  ghost predicate Parses(reply: Reply) {
    Arrived(reply) && !Final(reply) && (reply.body.length <= 512 || reply.body.mentionsError)
  }

  ghost predicate Garbled(reply: Reply) {
    Parses(reply) && reply.body.parsed == NotJson
  }

  ghost predicate BlamesRequest(reply: Reply) {
    Parses(reply) && reply.body.parsed.RpcError? && reply.body.parsed.code in {-32700, -32600, -32601, -32602}
  }

  ghost predicate BlamesNode(reply: Reply) {
    Parses(reply) && reply.body.parsed.RpcError? && reply.body.parsed.code !in {-32700, -32600, -32601, -32602}
  }

  /** An answer without an error in it. */
  ghost predicate Clean(reply: Reply) {
    Arrived(reply) && !Final(reply) && !Garbled(reply) && !BlamesRequest(reply) && !BlamesNode(reply)
  }

  ghost predicate Good(reply: Reply) {
    Clean(reply) && 200 <= reply.status <= 299
  }

  ghost predicate LabelLaw(reply: Reply, tag: Label) {
    && (tag == TransportError <==> reply == NoReply)
    && (tag == BodyError <==> reply.Reply? && reply.body == Cut)
    && (tag == InvalidJson <==> Garbled(reply))
    && (tag == ForwardedRpcError <==> BlamesRequest(reply))
    && (tag == RetryableRpcError <==> BlamesNode(reply))
    && (tag == Success <==> Good(reply))
    && (tag == ForwardedHttpError <==> Final(reply) || (Clean(reply) && !Good(reply)))
  }

  ghost predicate EffectLaw(reply: Reply, effect: Effect) {
    && (effect == Measure <==> Good(reply))
    && (effect == Nothing <==> Final(reply) || BlamesRequest(reply))
    && (effect.Penalize? ==>
      effect.retryAfterS == if Arrived(reply) && reply.status == 429 then reply.retryAfterS else 0)
  }

  ghost predicate RulingLaw(reply: Reply, ruling: Ruling) {
    && (ruling.attempt == Done <==> Final(reply) || BlamesRequest(reply) || Clean(reply))
    && EffectLaw(reply, ruling.effect)
    && LabelLaw(reply, ruling.tag)
  }

  /** The classifier's ruling is the one that obeys the law. */
  lemma ClassifyIsTheLaw(reply: Reply, ruling: Ruling)
    ensures RulingLaw(reply, ruling) <==> ruling == Classify(reply)
  {
    if reply.Reply? {
      FinalStatusesAre(reply.status);
    }
    LawDecides(reply, ruling, Classify(reply));
  }

  lemma LawDecides(reply: Reply, a: Ruling, b: Ruling)
    ensures RulingLaw(reply, a) && RulingLaw(reply, b) ==> a == b
  {}

  /** What a reply leaves of the node's health: a good one folds the round trip in and
      clears the deadline, a refusal leaves both alone, and any other sets a deadline
      in whole seconds and leaves the average alone. */
  lemma ReplyMovesHealth(h: Health, reply: Reply, nowNanos: nat, micros: nat)
    ensures var h' := Apply(h, EventOf(Classify(reply).effect, nowNanos, micros));
            var asked := if Arrived(reply) && reply.status == 429 then reply.retryAfterS else 0;
            var secs := if asked < 5 then 5 else if asked > 300 then 300 else asked;
            if Good(reply) then h'.untilS == 0 && h'.emaUs == Apply(h, Answered(micros)).emaUs
            else if Final(reply) || BlamesRequest(reply) then h' == h
            else h'.emaUs == h.emaUs
                 && (nowNanos / 1_000_000_000 + 1 + secs < 0xFFFF_FFFF ==>
                   h'.untilS == nowNanos / 1_000_000_000 + 1 + secs)
  {
    ClassifyIsTheLaw(reply, Classify(reply));
  }

  /** A final status is a client error, and never one that blames the node or the
      balancer's own credentials: not 401, not 403, not 429. */
  lemma FinalStatusBlamesTheRequest(status: nat)
    requires IsFinalStatus(status)
    ensures 400 <= status < 500 && status != 401 && status != 403 && status != TOO_MANY_REQUESTS && !IsSuccess(status)
  {}

  /** The four codes of section 5.1 of the JSON-RPC 2.0 specification that blame
      the request; `-32603`, internal error, blames the node. */
  lemma RequestErrorCodes(code: int)
    ensures !IsRetryableRpcError(code) <==> code == -32700 || -32602 <= code <= -32600
    ensures IsRetryableRpcError(-32603)
  {}

  /** The rulings partition the replies: a served request measures the node, a
      refused one says nothing about it, and everything else, whether or not the
      client gets the body, holds the node out. */
  lemma RulingsPartition(reply: Reply)
    ensures Classify(reply).effect.Measure? <==> RequestServed(reply)
    ensures Classify(reply).effect.Nothing? <==> RequestRefused(reply)
    ensures Classify(reply).effect.Penalize? <==> !RequestServed(reply) && !RequestRefused(reply)
    ensures Classify(reply).attempt == Done <==> Answerable(reply)
    ensures Classify(reply).attempt == Retry ==> Classify(reply).effect.Penalize?
  {}

  /** A provider's `Retry-After` is heard only on a 429 whose body arrived; every
      other failure gets the balancer's own penalty. */
  lemma RetryAfterHeardOn429Only(reply: Reply)
    requires Classify(reply).effect.Penalize?
    ensures Classify(reply).effect.retryAfterS
         == if reply.Reply? && reply.status == TOO_MANY_REQUESTS && reply.body.Full? then reply.retryAfterS else 0
  {}

  /** The label tells the ruling apart, except for the two kinds of forwarded
      HTTP error. */
  lemma LabelsPartition(a: Reply, b: Reply)
    requires Classify(a).tag == Classify(b).tag && Classify(a).tag != ForwardedHttpError
    ensures Classify(a).attempt == Classify(b).attempt
    ensures Classify(a).effect.Penalize? <==> Classify(b).effect.Penalize?
  {}

  /** The health event a ruling amounts to. */
  function EventOf(effect: Effect, nowNanos: nat, micros: nat): Event {
    match effect
    case Penalize(retryAfterS) => Failed(nowNanos, retryAfterS)
    case Measure => Answered(micros)
    case Nothing => Rejected
  }

  /** One attempt's end: classify the reply and tell the node, on the way out of
      each path. */
  method ClassifyResponse(node: NodeHealth, reply: Reply, nowNanos: nat, micros: nat)
    returns (attempt: Attempt, tag: Label)
    modifies node
    ensures attempt == Classify(reply).attempt && tag == Classify(reply).tag
    ensures node.Value() == Apply(old(node.Value()), EventOf(Classify(reply).effect, nowNanos, micros))
  {
    match reply {
      case NoReply =>
        node.Penalize(nowNanos, 0);
        return Retry, TransportError;
      case Reply(status, header, body) =>
        var retryAfterS := 0;
        if status == TOO_MANY_REQUESTS {
          retryAfterS := header;
        }
        if body.Cut? {
          node.Penalize(nowNanos, 0);
          return Retry, BodyError;
        }
        if IsFinalStatus(status) {
          return Done, ForwardedHttpError;
        }
        if body.length <= VALIDATE_BELOW || body.mentionsError {
          match body.parsed {
            case NotJson =>
              node.Penalize(nowNanos, retryAfterS);
              return Retry, InvalidJson;
            case RpcError(code) =>
              if !IsRetryableRpcError(code) {
                return Done, ForwardedRpcError;
              }
              node.Penalize(nowNanos, retryAfterS);
              return Retry, RetryableRpcError;
            case NoError =>
          }
        }
        if IsSuccess(status) {
          node.ObserveAnswer(micros);
          return Done, Success;
        }
        node.Penalize(nowNanos, retryAfterS);
        return Done, ForwardedHttpError;
    }
  }

  /** A reply is as good as a history: any sequence of replies none of which
      served its request leaves the node unmeasured. */
  lemma {:induction false} NeverServedNeverMeasured(replies: seq<Reply>, nowNanos: seq<nat>, micros: seq<nat>)
    requires |replies| == |nowNanos| == |micros|
    requires forall i :: 0 <= i < |replies| ==> !RequestServed(replies[i])
    ensures ApplyAll(UNKNOWN, History(replies, nowNanos, micros)).emaUs == UNMEASURED
  {
    forall i | 0 <= i < |replies| ensures !History(replies, nowNanos, micros)[i].Answered? {
      RulingsPartition(replies[i]);
    }
    OnlyAnswersMeasure(History(replies, nowNanos, micros));
  }

  function History(replies: seq<Reply>, nowNanos: seq<nat>, micros: seq<nat>): (es: seq<Event>)
    requires |replies| == |nowNanos| == |micros|
    ensures |es| == |replies|
    ensures forall i :: 0 <= i < |es| ==> es[i] == EventOf(Classify(replies[i]).effect, nowNanos[i], micros[i])
  {
    seq(|replies|, i requires 0 <= i < |replies| => EventOf(Classify(replies[i]).effect, nowNanos[i], micros[i]))
  }
}
