/** `queue_event`: a payload is decoded into an event and appended to the
    output queue, or dropped when it does not decode. */
module Decoder {
  import opened Wrappers

  /** A decoded event: the fields of the parsed JSON object, each value kept
      as its JSON text. */
  datatype Event = Event(fields: map<string, string>)

  /** `LogStash::Event.new(JSON.parse(msg))`, left uninterpreted: `None`
      stands for a parse or event-creation error. */
  type Parser = string -> Option<Event>

  /** The output queue after `queue_event(msg)`: exactly one event, the
      decoded one, is appended when `msg` decodes; otherwise the error is
      swallowed and nothing is appended. */
  function Enqueue(parse: Parser, queue: seq<Event>, msg: string): (r: seq<Event>)
    ensures queue <= r
    ensures |r| == |queue| + 1 <==> parse(msg).Some?
    ensures |r| <= |queue| + 1
    ensures parse(msg).Some? ==> r[|queue|] == parse(msg).value
  {
    match parse(msg)
    case Some(e) => queue + [e]
    case None => queue
  }

  /** Queueing a payload adds the same events whatever is already queued. */
  lemma EnqueueAppends(parse: Parser, queue: seq<Event>, msg: string)
    ensures Enqueue(parse, queue, msg) == queue + Enqueue(parse, [], msg)
  {
    if parse(msg).None? {
      assert queue + [] == queue;
    }
  }

  /** The events that `payloads` decode to, in order; payloads that do not
      decode contribute nothing. */
  function Decoded(parse: Parser, payloads: seq<string>): seq<Event> {
    if |payloads| == 0 then []
    else Enqueue(parse, [], payloads[0]) + Decoded(parse, payloads[1..])
  }

  /** Decoding two runs of payloads one after the other. */
  lemma {:induction false} DecodedConcat(parse: Parser, a: seq<string>, b: seq<string>)
    ensures Decoded(parse, a + b) == Decoded(parse, a) + Decoded(parse, b)
  {
    if |a| > 0 {
      assert (a + b)[0] == a[0] && (a + b)[1..] == a[1..] + b;
      DecodedConcat(parse, a[1..], b);
    } else {
      assert a + b == b;
    }
  }

  /** Decoding never produces more events than payloads, and produces one per
      payload exactly when every payload decodes. */
  lemma {:induction false} DecodedDropsOnlyFailures(parse: Parser, payloads: seq<string>)
    ensures |Decoded(parse, payloads)| <= |payloads|
    ensures |Decoded(parse, payloads)| == |payloads| <==>
            forall k :: 0 <= k < |payloads| ==> parse(payloads[k]).Some?
  {
    if |payloads| > 0 {
      DecodedDropsOnlyFailures(parse, payloads[1..]);
      if parse(payloads[0]).Some? {
        forall k | 1 <= k < |payloads|
          ensures parse(payloads[k]).Some? == parse(payloads[1..][k - 1]).Some?
        {
        }
      }
    }
  }
}
