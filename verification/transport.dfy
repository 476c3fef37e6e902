/** The Redis client, replaced by the finite sequence of answers it gives.

    Each element of a trace answers the one client call that is pending when
    it is read: `Redis.new` (the `connect` helper) while no handle is held,
    otherwise the active listener's call, that is one `blpop` reply in list
    mode, or one delivery of the blocking `subscribe` call in channel mode. */
module Transport {

  /** An open client session. It is identified by the position, in the trace,
      of the successful connect that opened it, so two handles are the same
      exactly when they come from the same connect. */
  datatype Handle = Handle(openedAt: nat)

  /** What the client answers to the pending call. `ConnectFail` and
      `ReadFail` are the client raising an error. */
  datatype Outcome =
    | ConnectFail
    | ConnectOk
    | ReadFail
    | Item(payload: string)      // `blpop` returned `[key, payload]`
    | Subscribed                 // the `on.subscribe` acknowledgement
    | Message(payload: string)   // an `on.message` delivery
    | Unsubscribed               // the `on.unsubscribe` acknowledgement; `subscribe` returns

  /** Which listener `run` drives: `list_listener` or `channel_listener`. */
  datatype Mode = ListMode | ChannelMode

  /** `o` is an answer the pending call can give without raising: a
      successful connect while no handle is held; a popped item in list mode;
      a subscription event in channel mode. Anything else surfaces from the
      client as a raised error. */
  predicate IsReply(mode: Mode, connected: bool, o: Outcome) {
    if !connected then o.ConnectOk?
    else match mode
      case ListMode => o.Item?
      case ChannelMode => o.Subscribed? || o.Message? || o.Unsubscribed?
  }

  /** The payloads carried by a trace, in order. */
  function Payloads(t: seq<Outcome>): seq<string> {
    if |t| == 0 then []
    else (if t[0].Item? || t[0].Message? then [t[0].payload] else []) + Payloads(t[1..])
  }

  /** `o` is an answer on which the listener signals a resumption (its
      `yield` block runs, or it returns to the next `loop do` iteration):
      a popped item in list mode, an acknowledgement in channel mode. */
  predicate Resumes(mode: Mode, o: Outcome) {
    match mode
    case ListMode => o.Item?
    case ChannelMode => o.Subscribed? || o.Unsubscribed?
  }

  /** How many answers of `t` are failures of the pending call, starting
      with a handle held or not. A reply leaves a handle held; a failure
      leaves none (the handle is dropped before `retry`). */
  function FailureCount(mode: Mode, connected: bool, t: seq<Outcome>): nat
    decreases |t|
  {
    if |t| == 0 then 0
    else if IsReply(mode, connected, t[0]) then FailureCount(mode, true, t[1..])
    else 1 + FailureCount(mode, false, t[1..])
  }

  /** `p` is `q` with some elements left out, the rest kept in order. */
  predicate IsSubsequence(p: seq<string>, q: seq<string>)
    decreases |q|
  {
    |p| <= |q| &&
    (|p| == 0 || (p[0] == q[0] && IsSubsequence(p[1..], q[1..])) || IsSubsequence(p, q[1..]))
  }

  /** Leaving out one more element at the front keeps a subsequence. */
  lemma SubsequenceSkip(p: seq<string>, x: string, q: seq<string>)
    requires IsSubsequence(p, q)
    ensures IsSubsequence(p, [x] + q)
  {
    assert ([x] + q)[1..] == q;
  }

  /** Keeping the same element at the front of both keeps a subsequence. */
  lemma SubsequenceTake(p: seq<string>, x: string, q: seq<string>)
    requires IsSubsequence(p, q)
    ensures IsSubsequence([x] + p, [x] + q)
  {
    assert ([x] + p)[1..] == p && ([x] + q)[1..] == q;
  }

  /** The trace holds a subscribe or an unsubscribe acknowledgement. */
  predicate HasAck(t: seq<Outcome>) {
    |t| > 0 && (t[0].Subscribed? || t[0].Unsubscribed? || HasAck(t[1..]))
  }
}
