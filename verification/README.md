# Redis input: retry/reconnect supervisor

A Dafny model of the core of Logstash's redis input plugin
(`lib/logstash/inputs/redis.rb`). The plugin pulls messages from Redis,
either by popping a list (`BLPOP`) or by subscribing to a channel
(`SUBSCRIBE`). It decodes each message into an event and pushes the event
onto the pipeline's output queue. Transport failures are absorbed by a
retry counter, and a failure with no retries left is fatal.

The Redis client is replaced by a finite trace of its answers (module
`Transport`). Each answer goes to the one client call pending at that
moment:
- while no handle is held, the call is the connect (`@redis ||= connect`);
- otherwise, in list mode, it is one `blpop` reply;
- otherwise, in channel mode, it is one delivery of the blocking `subscribe`
  call: the subscribe acknowledgement, a message, or the unsubscribe
  acknowledgement.

An answer that the pending call cannot give (a popped item while connecting,
a successful connect while a handle is held) is read as that call raising.
This is the same path as `ConnectFail` and `ReadFail`. A handle is named by
the trace position of the connect that opened it. Decoding
(`JSON.parse` + `LogStash::Event.new`) is a parameter
`parse: string -> Option<Event>`.

Files:
- `wrappers.dfy`: `Option`.
- `transport.dfy`: the client's answers, the two modes, `IsReply`.
- `decoder.dfy`: `queue_event` as the pure `Enqueue`, and `Decoded`.
- `naming.dfy`: the `@redis_url` string, and how integers are rendered and
  read back.
- `supervisor.dfy`: `listener_loop` as a state machine (`Step`, `Run`), with
  the held handle, the retry counter, the queue and a fatal flag, and the
  lemmas about it.
- `redis_input.dfy`: the plugin object (`Inputs.Redis`). Its fields are the
  configuration, `@redis_url`, `@redis`, the loop's `retries` counter and the
  output queue. Its methods `Register`, `QueueEvent`, `Connect`,
  `ListListener`, `ChannelListener`, `Rescue`, `ListenerLoop` and `Run`
  update them in place; `Teardown` changes nothing. What each method is
  proved against:
  - `ListenerLoop` and `Run` reach the state `Supervisor.Run` gives.
  - `Rescue` reaches the state `Supervisor.Rescue` gives.
  - `Register` sets the URL to `Naming.RedisUrl`.
  - `QueueEvent` sets the queue to `Decoder.Enqueue`.
  - `Connect`, `ListListener` and `ChannelListener` state their effect in
    their own postconditions, and `ListenerLoop`'s proof uses those.

Points of the code's behaviour the model keeps:
- The fatal test is `retries <= 0`, not `retries == 0`. With a negative
  `retries` setting the first failure is fatal, and the counter then stays
  at the setting. So the counter's range is "`@retries`, or within
  `[0, @retries]`".
- In channel mode, the counter is also reset when the unsubscribe
  acknowledgement ends `subscribe`. The listener then returns, and the next
  `loop do` iteration sets the counter again.
- The fatal error is raised before `@redis = nil`. So the handle that failed
  is still held after the fatal error, and `teardown` then unsubscribes in
  channel mode.
- `run` tests `data_type == 'list'` and `teardown` tests
  `data_type == 'channel'`, so `data_type` is kept as a string.

## Model

| member | source | states |
|---|---|---|
| `Inputs.Redis.constructor` | lib/logstash/inputs/redis.rb:12-35 | the settings are held unchanged; no handle is held and the queue is empty |
| `Inputs.Redis.Register` | lib/logstash/inputs/redis.rb:45-50 | no handle is held; `redisUrl` is the URL, which names the configured port and database |
| `Naming.RedisUrl` | lib/logstash/inputs/redis.rb:48 | `redis://`, the password (nothing when unset), `@`, the host, `:`, the port, `/`, the database; its properties are stated by `Naming.UrlNamesPortAndDb` |
| `Naming.DecimalString` | lib/logstash/inputs/redis.rb:48 | a number as Ruby interpolates it: non-empty, with no ':' or '/'; it reads back by `Naming.DecimalRoundTrip` |
| `Naming.UrlNamesPortAndDb` | lib/logstash/inputs/redis.rb:48 | the URL starts with `redis://`; the configured port reads back from between its last ':' and last '/', and the database from after its last '/', whatever the password and host hold |
| `Naming.DecimalRoundTrip` | lib/logstash/inputs/redis.rb:48 | a number interpolated as Ruby renders it (sign, then digits) reads back as the same number |
| `Inputs.Redis.Identity` | lib/logstash/inputs/redis.rb:54-56 | the identity is the URL, a space, `data_type`, ':' and the key, each at its place; when the key holds no ':', it also reads back as the text after the last ':' |
| `Decoder.Enqueue` | lib/logstash/inputs/redis.rb:70-78 | the queue keeps what it had; exactly one event, the decoded one, is appended iff the payload decodes, and nothing otherwise |
| `Decoder.DecodedDropsOnlyFailures` | lib/logstash/inputs/redis.rb:70-78 | decoding a sequence of payloads yields at most one event per payload, and one per payload iff every payload decodes |
| `Inputs.Redis.QueueEvent` | lib/logstash/inputs/redis.rb:70-78 | the output queue becomes `Enqueue` of the old queue and the message; nothing else changes |
| `Inputs.Redis.Connect` | lib/logstash/inputs/redis.rb:115 | with no handle held, only a successful connect opens a handle (the new one); anything else raises and leaves none |
| `Inputs.Redis.ListListener` | lib/logstash/inputs/redis.rb:81-85 | a popped item resets the counter to `@retries` and its payload is queued; any other answer raises and changes nothing |
| `Inputs.Redis.ChannelListener` | lib/logstash/inputs/redis.rb:88-103 | the subscribe acknowledgement resets the counter; a message is queued without touching the counter; the unsubscribe acknowledgement ends `subscribe`; anything else raises |
| `Supervisor.Rescue` | lib/logstash/inputs/redis.rb:119-129 | the `rescue` clause on values: fatal at a counter <= 0 with the handle kept, otherwise the handle dropped and the counter down by one; stated by `Supervisor.FailureIsRescued` |
| `Supervisor.Step` | lib/logstash/inputs/redis.rb:113-129 | one answer of the client inside the `begin` block; its properties are stated by `Supervisor.FailureIsRescued`, `Supervisor.ResumptionGranularity`, `Supervisor.DecodeFailureIsSwallowed` and `Supervisor.LazyConnection` |
| `Supervisor.Run` | lib/logstash/inputs/redis.rb:110-132 | the loop over a whole trace, stopping at its end or at the fatal error; its properties are stated by `Supervisor.NoResumptionExhaustsBudget`, `Supervisor.RunKeepsCounterInRange`, `Supervisor.HandleOrigin`, `Supervisor.RunSplit`, `Supervisor.NothingAfterFatal`, `Supervisor.RunAppendsOnly`, `Supervisor.ListRunInOrder` and `Supervisor.ChannelRunInOrder` |
| `Inputs.Redis.Rescue` | lib/logstash/inputs/redis.rb:119-129 | the new handle, counter and fatal flag are those of `Supervisor.Rescue` |
| `Inputs.Redis.ListenerLoop` | lib/logstash/inputs/redis.rb:110-132 | after the loop, the handle, counter, queue and fatal flag are what `Supervisor.Run` gives from the old handle and queue with the counter at `@retries`; a fatal stop carries "Redis connection failed too many times" |
| `Inputs.Redis.Run` | lib/logstash/inputs/redis.rb:135-141 | as `ListenerLoop`, with the listener chosen by `SelectListener(data_type)` |
| `Inputs.SelectListener` | lib/logstash/inputs/redis.rb:136-140 | the list listener iff `data_type` is "list", the channel listener for every other value |
| `Inputs.Redis.Teardown` | lib/logstash/inputs/redis.rb:144-148 | unsubscribes iff `data_type` is "channel" and a handle is held; otherwise does nothing |
| `Supervisor.FailureIsRescued` | lib/logstash/inputs/redis.rb:119-129 | a failure with a positive counter drops the handle and takes exactly one from the counter, with the counter not reset and nothing queued; with a counter <= 0 it is fatal and nothing else changes |
| `Supervisor.NoResumptionExhaustsBudget` | lib/logstash/inputs/redis.rb:111-129 | from a counter N, over any trace with no resumption answer (no popped item in list mode, no acknowledgement in channel mode), where successful connects and channel messages may come between failures: with at most N failures (or none) the run is not fatal and the counter is down by one per failure; with more than N, and at least one, it ends fatally with the counter at 0 (or at a negative starting counter) |
| `Supervisor.BudgetExhaustion` | lib/logstash/inputs/redis.rb:111-129 | the case of consecutive failures with no successful connect between them: with a counter N >= 0 and N + 1 such failures, after each of the first j <= N the handle is dropped and the counter is N - j; the (N+1)th is fatal with nothing queued |
| `Supervisor.ConnectThenReadFailuresAreFatal` | lib/logstash/inputs/redis.rb:111-129 | with `@retries` = 2, three rounds of a successful connect then a failed read end fatally with the counter at 0 and nothing queued |
| `Supervisor.NothingAfterFatal` | lib/logstash/inputs/redis.rb:123-125 | once the fatal error is raised, no further answer changes anything: no event is queued after it |
| `Supervisor.ThreeConnectFailuresAreFatal` | lib/logstash/inputs/redis.rb:111-129 | with `@retries` = 2 and no handle, three connect failures end fatally with the counter at 0 and nothing queued |
| `Supervisor.RunKeepsCounterInRange` | lib/logstash/inputs/redis.rb:112-127 | the counter stays `@retries` or within `[0, @retries]`; for `@retries >= 0` it stays within `[0, @retries]` |
| `Supervisor.ResumptionGranularity` | lib/logstash/inputs/redis.rb:80-97 | in list mode every popped item resets the counter and its payload is queued; in channel mode the subscribe acknowledgement resets it and a message leaves it unchanged |
| `Supervisor.DecodeFailureIsSwallowed` | lib/logstash/inputs/redis.rb:70-78 | a payload that does not decode queues nothing, keeps the handle, is not fatal and leaves the counter alone (beyond a list pop's reset) |
| `Supervisor.LazyConnection` | lib/logstash/inputs/redis.rb:115-126 | a handle is opened only when none is held and only by a successful connect; a held handle is kept by every non-failure, and dropped only by a tolerated failure |
| `Supervisor.HandleOrigin` | lib/logstash/inputs/redis.rb:115-126 | after a whole trace, the held handle is the one held at the start or was opened by a successful connect in the trace |
| `Supervisor.RunSplit` | lib/logstash/inputs/redis.rb:110-132 | running two traces one after the other is running their concatenation |
| `Supervisor.RunAppendsOnly` | lib/logstash/inputs/redis.rb:70-97 | the queue is never shrunk or reordered: the old queue is a prefix of the new one, which grows by at most one event per payload in the trace, and what it grows by is the decoding of a subsequence of the trace's payloads, in delivery order |
| `Supervisor.RunQueuesInDeliveryOrder` | lib/logstash/inputs/redis.rb:70-97 | over any trace, failures included, the events queued are the decoding of a subsequence of the trace's payloads, kept in delivery order |
| `Supervisor.ListRunInOrder` | lib/logstash/inputs/redis.rb:81-85 | list mode, handle held, only popped items: exactly the decodable payloads are queued in pop order; the handle is kept, nothing is fatal and the counter ends at `@retries` |
| `Supervisor.ChannelRunInOrder` | lib/logstash/inputs/redis.rb:88-103 | channel mode, handle held, only subscription events: exactly the decodable messages are queued in arrival order, a malformed one does not end the subscription, the handle is kept, and the counter ends at `@retries` iff an acknowledgement came |
| `Supervisor.SubscribeThenTwoMessages` | lib/logstash/inputs/redis.rb:88-97 | a subscribe acknowledgement followed by two messages that decode queues exactly those two events in arrival order |

## Left out

- The Redis client (`Redis.new`, `blpop`, `subscribe`, `unsubscribe`) is network I/O in a foreign library. Its answers are the trace, and `Teardown` returns whether it would call `unsubscribe`.
- `JSON.parse` and `LogStash::Event.new` are a foreign parser and event class. They are the uninterpreted `parse` parameter, and an event is a map of field names to JSON text.
- Logging (the info, warn, error and debug calls) has no effect on state.
- `sleep(1)` between retries is wall-clock timing. It marks the `retry` point in `Rescue`.
- The endless `loop do` and the indefinite blocking of `blpop` and `subscribe`: the model handles a finite trace and stops at its end (`Waiting`) or at the fatal error.
- The `config` declarations, their validation and defaults, `@format` in `initialize`, and `%{...}` interpolation of the key are framework plumbing. The constructor takes the settings as given. `timeout` is only handed to the client, and numeric settings are integers.
- The password setting's wrapper class is not part of this model. The program interpolates the `:password` setting's wrapper object as it renders itself; the model interpolates the raw password text instead, and nothing when none is set.
- The output queue's thread safety: it is a sequence that this single-threaded producer appends to.
- A trace answer the pending call cannot give is read as the client raising. The real client's behaviour on such replies is not part of this model.
