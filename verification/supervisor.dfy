/** `listener_loop` as a state machine over the client's answers.

    The state is the held handle (`@redis`), the retry counter (`retries`),
    the output queue and whether the fatal "Redis connection failed too many
    times" error has been raised. `Step` handles one answer of the client;
    `Run` handles a whole trace and stops at its end or at the fatal error. */
module Supervisor {
  import opened Wrappers
  import opened Transport
  import opened Decoder

  /** The loop's immutable parameters: the listener `run` selected, the
      configured `@retries`, and the decoder `queue_event` uses. */
  datatype Setup = Setup(mode: Mode, maxRetries: int, parse: Parser)

  datatype Machine = Machine(redis: Option<Handle>, retries: int, queue: seq<Event>, fatal: bool)

  const FatalMessage := "Redis connection failed too many times"

  /** The `rescue` clause: give up when the counter is not positive (the
      handle is left as it was), otherwise drop the handle, take one from
      the counter and `retry` the same `begin` block. */
  function Rescue(m: Machine): Machine
    requires !m.fatal
  {
    if m.retries <= 0 then m.(fatal := true)
    else m.(redis := None, retries := m.retries - 1)
  }

  /** One answer `o`, read at trace position `pos`. */
  function Step(s: Setup, m: Machine, pos: nat, o: Outcome): Machine
    requires !m.fatal
  {
    if !IsReply(s.mode, m.redis.Some?, o) then Rescue(m)
    else match o
      // `@redis ||= connect`
      case ConnectOk => m.(redis := Some(Handle(pos)))
      // `list_listener`: `yield`, then `queue_event`; the listener returns and
      // the next `loop do` iteration sets the counter again
      case Item(p) => m.(retries := s.maxRetries, queue := Enqueue(s.parse, m.queue, p))
      // `on.subscribe`: `yield`
      case Subscribed => m.(retries := s.maxRetries)
      // `on.message`: `queue_event`
      case Message(p) => m.(queue := Enqueue(s.parse, m.queue, p))
      // `on.unsubscribe`: `subscribe` returns, next `loop do` iteration
      case Unsubscribed => m.(retries := s.maxRetries)
      case _ => Rescue(m)
  }

  /** The trace `t`, whose first answer sits at position `pos`. */
  function Run(s: Setup, m: Machine, pos: nat, t: seq<Outcome>): Machine
    decreases |t|
  {
    if |t| == 0 || m.fatal then m else Run(s, Step(s, m, pos, t[0]), pos + 1, t[1..])
  }

  /** A failure (a connect, `blpop` or `subscribe` error) is tolerated while
      the counter is positive: the handle is dropped, the counter goes down by
      exactly one, nothing is queued and the counter is not reset. With a
      counter of zero or less it is fatal and nothing else changes. */
  lemma FailureIsRescued(s: Setup, m: Machine, pos: nat, o: Outcome)
    requires !m.fatal && !IsReply(s.mode, m.redis.Some?, o)
    ensures m.retries > 0 ==> Step(s, m, pos, o) == m.(redis := None, retries := m.retries - 1)
    ensures m.retries <= 0 ==> Step(s, m, pos, o) == m.(fatal := true)
  {
  }

  /** With a counter of N >= 0 and N + 1 consecutive failures (once the handle
      is dropped, any answer but a successful connect is one), the first N are
      tolerated, each taking one from the counter, and the last is fatal,
      with nothing queued. */
  lemma {:induction false} BudgetExhaustion(s: Setup, m: Machine, pos: nat, t: seq<Outcome>)
    requires !m.fatal && 0 <= m.retries && |t| == m.retries + 1
    requires !IsReply(s.mode, m.redis.Some?, t[0])
    requires forall k :: 1 <= k < |t| ==> !t[k].ConnectOk?
    ensures forall j :: 1 <= j < |t| ==>
              Run(s, m, pos, t[..j]) == m.(redis := None, retries := m.retries - j)
    ensures Run(s, m, pos, t) ==
            m.(redis := if m.retries == 0 then m.redis else None, retries := 0, fatal := true)
    decreases |t|
  {
    var m1 := Step(s, m, pos, t[0]);
    if m.retries > 0 {
      BudgetExhaustion(s, m1, pos + 1, t[1..]);
      forall j | 1 <= j < |t|
        ensures Run(s, m, pos, t[..j]) == m.(redis := None, retries := m.retries - j)
      {
        assert t[..j][0] == t[0] && t[..j][1..] == t[1..][..j - 1];
      }
    }
  }

  /** The failure budget with no resumption in between. From a counter of
      N, a trace whose answers never resume the listener may hold successful
      connects and, in channel mode, messages between its failures. If it
      holds at most N failures (or none), the run is not fatal and the counter
      is down by one per failure. If it holds more, and at least one, the run
      ends fatally with the counter at 0, or at a negative counter where it
      started. */
  lemma {:induction false} NoResumptionExhaustsBudget(s: Setup, m: Machine, pos: nat, t: seq<Outcome>)
    requires !m.fatal
    requires forall k :: 0 <= k < |t| ==> !Resumes(s.mode, t[k])
    ensures var f := FailureCount(s.mode, m.redis.Some?, t);
            f <= m.retries || f == 0 ==>
              !Run(s, m, pos, t).fatal && Run(s, m, pos, t).retries == m.retries - f
    ensures var f := FailureCount(s.mode, m.redis.Some?, t);
            m.retries < f && 0 < f ==>
              Run(s, m, pos, t).fatal && Run(s, m, pos, t).retries == if m.retries < 0 then m.retries else 0
    decreases |t|
  {
    if |t| > 0 {
      var o, rest := t[0], t[1..];
      var m1 := Step(s, m, pos, o);
      assert forall k :: 0 <= k < |rest| ==> !Resumes(s.mode, rest[k]) by {
        forall k | 0 <= k < |rest| ensures !Resumes(s.mode, rest[k]) {
          assert rest[k] == t[k + 1];
        }
      }
      assert !Resumes(s.mode, o) by {
        assert o == t[0];
      }
      assert Run(s, m, pos, t) == Run(s, m1, pos + 1, rest);
      if IsReply(s.mode, m.redis.Some?, o) {
        assert !m1.fatal && m1.redis.Some? && m1.retries == m.retries;
        NoResumptionExhaustsBudget(s, m1, pos + 1, rest);
      } else if 0 < m.retries {
        assert !m1.fatal && m1.redis.None? && m1.retries == m.retries - 1;
        NoResumptionExhaustsBudget(s, m1, pos + 1, rest);
      } else {
        assert m1.fatal && m1.retries == m.retries;
      }
    }
  }

  /** With `@retries` = 2, three rounds of a successful connect followed by
      a failed read end fatally with the counter at 0 and nothing queued. */
  lemma ConnectThenReadFailuresAreFatal(mode: Mode, parse: Parser)
    ensures var t := [ConnectOk, ReadFail, ConnectOk, ReadFail, ConnectOk, ReadFail];
            var r := Run(Setup(mode, 2, parse), Machine(None, 2, [], false), 0, t);
            r.fatal && r.retries == 0 && r.queue == []
  {
    var t := [ConnectOk, ReadFail, ConnectOk, ReadFail, ConnectOk, ReadFail];
    var s, m := Setup(mode, 2, parse), Machine(None, 2, [], false);
    assert t == ConnectReadRounds(3) by {
      assert ConnectReadRounds(1) == [ConnectOk, ReadFail];
      assert ConnectReadRounds(2) == [ConnectOk, ReadFail] + [ConnectOk, ReadFail];
    }
    ConnectReadRoundsFail(mode, 3);
    NoResumptionExhaustsBudget(s, m, 0, t);
    assert Run(s, m, 0, t).queue == [] by {
      RunAppendsOnly(s, m, 0, t);
    }
  }

  /** `n` rounds of a connect followed by a failed read. */
  function ConnectReadRounds(n: nat): seq<Outcome> {
    if n == 0 then [] else [ConnectOk, ReadFail] + ConnectReadRounds(n - 1)
  }

  /** Starting without a handle, `n` connect-then-read-fail rounds resume
      nothing, are `n` failures and deliver nothing. */
  lemma {:induction false} ConnectReadRoundsFail(mode: Mode, n: nat)
    ensures forall k :: 0 <= k < |ConnectReadRounds(n)| ==> !Resumes(mode, ConnectReadRounds(n)[k])
    ensures FailureCount(mode, false, ConnectReadRounds(n)) == n
    ensures Payloads(ConnectReadRounds(n)) == []
  {
    if n > 0 {
      var t, rest := ConnectReadRounds(n), ConnectReadRounds(n - 1);
      ConnectReadRoundsFail(mode, n - 1);
      assert t[1..][1..] == rest;
      forall k | 2 <= k < |t| ensures t[k] == rest[k - 2] { }
    }
  }

  /** The retry counter's range: `@retries` itself, or a value in
      `[0, @retries]`; for `@retries >= 0` this is `[0, @retries]`. */
  predicate CounterInRange(maxRetries: int, retries: int) {
    retries == maxRetries || 0 <= retries <= maxRetries
  }

  /** The counter is only ever set to `@retries`, and it is decremented only
      when it is positive, so it never leaves its range. */
  lemma {:induction false} RunKeepsCounterInRange(s: Setup, m: Machine, pos: nat, t: seq<Outcome>)
    requires CounterInRange(s.maxRetries, m.retries)
    ensures CounterInRange(s.maxRetries, Run(s, m, pos, t).retries)
    ensures 0 <= s.maxRetries ==> 0 <= Run(s, m, pos, t).retries <= s.maxRetries
    decreases |t|
  {
    if |t| > 0 && !m.fatal {
      RunKeepsCounterInRange(s, Step(s, m, pos, t[0]), pos + 1, t[1..]);
    }
  }

  /** When the counter is reset. In list mode every popped item resets it,
      and the item's payload is then decoded. In channel mode the subscribe
      acknowledgement resets it, and a message never moves it, whether or not
      it decodes. */
  lemma ResumptionGranularity(s: Setup, m: Machine, pos: nat, o: Outcome)
    requires !m.fatal && m.redis.Some?
    ensures s.mode.ListMode? && o.Item? ==>
              Step(s, m, pos, o) == m.(retries := s.maxRetries, queue := Enqueue(s.parse, m.queue, o.payload))
    ensures s.mode.ChannelMode? && o.Subscribed? ==> Step(s, m, pos, o) == m.(retries := s.maxRetries)
    ensures s.mode.ChannelMode? && o.Message? ==>
              Step(s, m, pos, o) == m.(queue := Enqueue(s.parse, m.queue, o.payload))
  {
  }

  /** A payload that does not decode is swallowed: nothing is queued, the
      handle is kept, the error is not fatal and the counter does not move
      (beyond the reset of a list-mode pop). */
  lemma DecodeFailureIsSwallowed(s: Setup, m: Machine, pos: nat, o: Outcome)
    requires !m.fatal && m.redis.Some? && IsReply(s.mode, true, o)
    requires (o.Item? || o.Message?) && s.parse(o.payload).None?
    ensures Step(s, m, pos, o).queue == m.queue
    ensures Step(s, m, pos, o).redis == m.redis
    ensures !Step(s, m, pos, o).fatal
    ensures Step(s, m, pos, o).retries == if o.Item? then s.maxRetries else m.retries
  {
  }

  /** A new handle is opened only when none is held, and only by a successful
      connect; a held handle is kept by every answer that is not a failure,
      and dropped by a tolerated failure. */
  lemma LazyConnection(s: Setup, m: Machine, pos: nat, o: Outcome)
    requires !m.fatal
    ensures m.redis.None? ==>
              Step(s, m, pos, o).redis == if o.ConnectOk? then Some(Handle(pos)) else None
    ensures m.redis.Some? && IsReply(s.mode, true, o) ==> Step(s, m, pos, o).redis == m.redis
    ensures m.redis.Some? && !IsReply(s.mode, true, o) ==>
              Step(s, m, pos, o).redis == if m.retries <= 0 then m.redis else None
  {
  }

  /** Over a whole trace, the handle held at the end is the one held at the
      start, or was opened by a successful connect inside the trace. */
  lemma {:induction false} HandleOrigin(s: Setup, m: Machine, pos: nat, t: seq<Outcome>)
    ensures var r := Run(s, m, pos, t).redis;
            r.Some? && r != m.redis ==>
              pos <= r.value.openedAt < pos + |t| && t[r.value.openedAt - pos].ConnectOk?
    decreases |t|
  {
    if |t| > 0 && !m.fatal {
      var m1 := Step(s, m, pos, t[0]);
      HandleOrigin(s, m1, pos + 1, t[1..]);
    }
  }

  /** Running `a` then `b` is running `a + b`. */
  lemma {:induction false} RunSplit(s: Setup, m: Machine, pos: nat, a: seq<Outcome>, b: seq<Outcome>)
    ensures Run(s, m, pos, a + b) == Run(s, Run(s, m, pos, a), pos + |a|, b)
    decreases |a|
  {
    if |a| == 0 {
      assert a + b == b;
    } else if !m.fatal {
      assert (a + b)[0] == a[0] && (a + b)[1..] == a[1..] + b;
      RunSplit(s, Step(s, m, pos, a[0]), pos + 1, a[1..], b);
    }
  }

  /** After the fatal error nothing further happens: no event is queued and
      the state stays as it was when the error was raised. */
  lemma NothingAfterFatal(s: Setup, m: Machine, pos: nat, a: seq<Outcome>, b: seq<Outcome>)
    requires Run(s, m, pos, a).fatal
    ensures Run(s, m, pos, a + b) == Run(s, m, pos, a)
  {
    RunSplit(s, m, pos, a, b);
  }

  /** One answer queues nothing, or the event its payload decodes to. */
  lemma StepQueue(s: Setup, m: Machine, pos: nat, o: Outcome)
    requires !m.fatal
    ensures var q := Step(s, m, pos, o).queue;
            q == m.queue || ((o.Item? || o.Message?) && q == m.queue + Decoded(s.parse, [o.payload]))
  {
    if (o.Item? || o.Message?) && Step(s, m, pos, o).queue != m.queue {
      EnqueueAppends(s.parse, m.queue, o.payload);
      assert Decoded(s.parse, [o.payload]) == Enqueue(s.parse, [], o.payload) + [];
    }
  }

  /** The queue is only appended to: what was queued stays in place, and at
      most one event is added per payload the trace carries. What is added
      is the decoding of some of the trace's payloads, in delivery order. */
  lemma {:induction false} RunAppendsOnly(s: Setup, m: Machine, pos: nat, t: seq<Outcome>)
    ensures m.queue <= Run(s, m, pos, t).queue
    ensures |Run(s, m, pos, t).queue| <= |m.queue| + |Payloads(t)|
    ensures exists p :: IsSubsequence(p, Payloads(t)) &&
                        Run(s, m, pos, t).queue == m.queue + Decoded(s.parse, p)
    decreases |t|
  {
    if |t| > 0 && !m.fatal {
      var m1 := Step(s, m, pos, t[0]);
      RunAppendsOnly(s, m1, pos + 1, t[1..]);
    }
    RunQueuesInDeliveryOrder(s, m, pos, t);
  }

  /** One answer extends a delivered subsequence of the later payloads to
      one of all the payloads, matching what that answer queued. */
  lemma DeliveredStep(s: Setup, m: Machine, pos: nat, t: seq<Outcome>, later: seq<string>)
    returns (p: seq<string>)
    requires !m.fatal && |t| > 0 && IsSubsequence(later, Payloads(t[1..]))
    ensures IsSubsequence(p, Payloads(t))
    ensures Step(s, m, pos, t[0]).queue + Decoded(s.parse, later) == m.queue + Decoded(s.parse, p)
  {
    var o, rest := t[0], t[1..];
    StepQueue(s, m, pos, o);
    assert Payloads(t) == (if o.Item? || o.Message? then [o.payload] else []) + Payloads(rest);
    if Step(s, m, pos, o).queue == m.queue {
      p := later;
      if o.Item? || o.Message? {
        SubsequenceSkip(later, o.payload, Payloads(rest));
      } else {
        assert Payloads(t) == Payloads(rest);
      }
    } else {
      p := [o.payload] + later;
      SubsequenceTake(later, o.payload, Payloads(rest));
      DecodedConcat(s.parse, [o.payload], later);
    }
  }

  /** The events a run queues are the decoding of a subsequence of the
      trace's payloads: nothing is queued out of delivery order, and nothing
      that was not delivered. */
  lemma {:induction false} RunQueuesInDeliveryOrder(s: Setup, m: Machine, pos: nat, t: seq<Outcome>)
    ensures exists p :: IsSubsequence(p, Payloads(t)) &&
                        Run(s, m, pos, t).queue == m.queue + Decoded(s.parse, p)
    decreases |t|
  {
    if |t| == 0 || m.fatal {
      assert IsSubsequence([], Payloads(t)) && m.queue == m.queue + Decoded(s.parse, []);
    } else {
      var m1 := Step(s, m, pos, t[0]);
      RunQueuesInDeliveryOrder(s, m1, pos + 1, t[1..]);
      var later :| IsSubsequence(later, Payloads(t[1..])) &&
                   Run(s, m1, pos + 1, t[1..]).queue == m1.queue + Decoded(s.parse, later);
      var p := DeliveredStep(s, m, pos, t, later);
      assert Run(s, m, pos, t).queue == m.queue + Decoded(s.parse, p);
    }
  }

  /** List mode with a held handle and only popped items: every payload that
      decodes is queued, in the order popped; the handle is kept, nothing is
      fatal and the counter ends reset. */
  lemma {:induction false} ListRunInOrder(s: Setup, m: Machine, pos: nat, t: seq<Outcome>)
    requires s.mode == ListMode && !m.fatal && m.redis.Some?
    requires forall k :: 0 <= k < |t| ==> t[k].Item?
    ensures Run(s, m, pos, t) ==
            m.(retries := if |t| == 0 then m.retries else s.maxRetries,
               queue := m.queue + Decoded(s.parse, Payloads(t)))
    decreases |t|
  {
    if |t| == 0 {
      assert m.queue + [] == m.queue;
    } else {
      var m1 := Step(s, m, pos, t[0]);
      ListRunInOrder(s, m1, pos + 1, t[1..]);
    }
  }

  /** One subscription event on a held handle keeps the handle, is not
      fatal, and resets the counter exactly when it is an acknowledgement. */
  lemma ChannelStepState(s: Setup, m: Machine, pos: nat, o: Outcome)
    requires s.mode == ChannelMode && !m.fatal && m.redis.Some? && IsReply(ChannelMode, true, o)
    ensures Step(s, m, pos, o).redis == m.redis && !Step(s, m, pos, o).fatal
    ensures Step(s, m, pos, o).retries ==
            if o.Subscribed? || o.Unsubscribed? then s.maxRetries else m.retries
  {
  }

  /** One subscription event on a held handle queues what its payload, if
      any, decodes to. */
  lemma ChannelStepQueue(s: Setup, m: Machine, pos: nat, o: Outcome)
    requires s.mode == ChannelMode && !m.fatal && m.redis.Some? && IsReply(ChannelMode, true, o)
    ensures Step(s, m, pos, o).queue ==
            m.queue + Decoded(s.parse, if o.Message? then [o.payload] else [])
  {
    if o.Message? {
      EnqueueAppends(s.parse, m.queue, o.payload);
      assert Decoded(s.parse, [o.payload]) == Enqueue(s.parse, [], o.payload) + [];
    } else {
      assert m.queue + [] == m.queue;
    }
  }

  /** Channel mode with a held handle and only subscription events: every
      message that decodes is queued, in arrival order, and a malformed one
      does not end the subscription; the handle is kept, nothing is fatal,
      and the counter ends reset exactly when an acknowledgement came. */
  lemma {:induction false} ChannelRunInOrder(s: Setup, m: Machine, pos: nat, t: seq<Outcome>)
    requires s.mode == ChannelMode && !m.fatal && m.redis.Some?
    requires forall k :: 0 <= k < |t| ==> IsReply(ChannelMode, true, t[k])
    ensures Run(s, m, pos, t).redis == m.redis && !Run(s, m, pos, t).fatal
    ensures Run(s, m, pos, t).retries == if HasAck(t) then s.maxRetries else m.retries
    ensures Run(s, m, pos, t).queue == m.queue + Decoded(s.parse, Payloads(t))
    decreases |t|
  {
    if |t| == 0 {
      assert m.queue + [] == m.queue;
    } else {
      var m1 := Step(s, m, pos, t[0]);
      var rest := t[1..];
      ChannelStepState(s, m, pos, t[0]);
      ChannelStepQueue(s, m, pos, t[0]);
      assert forall k :: 0 <= k < |rest| ==> IsReply(ChannelMode, true, rest[k]) by {
        forall k | 0 <= k < |rest| ensures IsReply(ChannelMode, true, rest[k]) {
          assert rest[k] == t[k + 1];
        }
      }
      ChannelRunInOrder(s, m1, pos + 1, rest);
      assert Run(s, m, pos, t) == Run(s, m1, pos + 1, rest);
      var here := Decoded(s.parse, if t[0].Message? then [t[0].payload] else []);
      ChannelQueueSplit(s.parse, t);
      assert m.queue + here + Decoded(s.parse, Payloads(rest)) ==
             m.queue + (here + Decoded(s.parse, Payloads(rest)));
    }
  }

  /** What the first subscription event decodes to, then what the rest
      decode to, is what the whole trace decodes to. */
  lemma ChannelQueueSplit(parse: Parser, t: seq<Outcome>)
    requires |t| > 0 && !t[0].Item?
    ensures Decoded(parse, if t[0].Message? then [t[0].payload] else []) + Decoded(parse, Payloads(t[1..]))
            == Decoded(parse, Payloads(t))
  {
    var here := if t[0].Message? then [t[0].payload] else [];
    assert Payloads(t) == here + Payloads(t[1..]);
    DecodedConcat(parse, here, Payloads(t[1..]));
  }

  /** With `@retries` = 2 and no handle, three connect failures in a row
      raise the fatal error after the third, with nothing queued. */
  lemma ThreeConnectFailuresAreFatal(mode: Mode, parse: Parser)
    ensures Run(Setup(mode, 2, parse), Machine(None, 2, [], false), 0, [ConnectFail, ConnectFail, ConnectFail])
            == Machine(None, 0, [], true)
  {
    BudgetExhaustion(Setup(mode, 2, parse), Machine(None, 2, [], false), 0, [ConnectFail, ConnectFail, ConnectFail]);
  }

  /** Channel mode: a subscription acknowledged, then two messages that
      decode, queue exactly those two events in arrival order. */
  lemma SubscribeThenTwoMessages(parse: Parser, h: Handle, p1: string, p2: string)
    requires parse(p1).Some? && parse(p2).Some?
    ensures Run(Setup(ChannelMode, 5, parse), Machine(Some(h), 5, [], false), 0,
                [Subscribed, Message(p1), Message(p2)]).queue
            == [parse(p1).value, parse(p2).value]
  {
    var t := [Subscribed, Message(p1), Message(p2)];
    ChannelRunInOrder(Setup(ChannelMode, 5, parse), Machine(Some(h), 5, [], false), 0, t);
    assert Payloads(t) == [p1, p2] by {
      assert t[1..][1..][1..] == [];
      assert Payloads(t[1..][1..]) == [p2];
      assert Payloads(t[1..]) == [p1, p2];
    }
    assert Decoded(parse, [p1, p2]) == [parse(p1).value, parse(p2).value] by {
      assert [p1, p2][1..] == [p2];
      assert Decoded(parse, [p2]) == [parse(p2).value];
    }
  }
}
