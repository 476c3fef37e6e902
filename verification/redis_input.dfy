/** The redis input plugin as an object: its configuration, the held client
    handle, the retry counter and the output queue it feeds. The client is
    the trace of its answers (module Transport); decoding is the `parse`
    function (module Decoder). `ListenerLoop` and `Run` are proved to reach
    the state `Supervisor.Run` gives, and `Rescue` the one `Supervisor.Rescue`
    gives; `Register` is proved against `Naming.RedisUrl` and `QueueEvent`
    against `Decoder.Enqueue`; `Connect`, `ListListener` and
    `ChannelListener` state their effect directly, and `ListenerLoop`'s proof
    rests on those statements. */
module Inputs {
  import opened Wrappers
  import opened Transport
  import opened Decoder
  import Naming
  import Supervisor

  /** How `run` ends: it is still waiting on the client when the trace runs
      out, or it raised the fatal error. */
  datatype Stop = Waiting | Raised(message: string)

  /** `run` drives `list_listener` exactly when `data_type` is "list", and
      `channel_listener` for any other value. */
  function SelectListener(dataType: string): (mode: Mode)
    ensures mode == ListMode <==> dataType == "list"
    ensures mode == ChannelMode <==> dataType != "list"
  {
    if dataType == "list" then ListMode else ChannelMode
  }

  class Redis {
    const host: string
    const port: int
    const db: int
    const timeout: int        // handed to the client on connect
    const password: Option<string>
    const key: string
    const dataType: string
    const maxRetries: int     // the `retries` setting, `@retries`
    const parse: Parser

    var redisUrl: string
    var redis: Option<Handle>
    var retries: int          // the counter of `listener_loop`, reset by its `yield` block
    var output: seq<Event>

    /** The supervisor state this object is in, given whether the fatal
        error has been raised. */
    ghost function State(fatal: bool): Supervisor.Machine
      reads this
    {
      Supervisor.Machine(redis, retries, output, fatal)
    }

    function Setup(mode: Mode): Supervisor.Setup {
      Supervisor.Setup(mode, maxRetries, parse)
    }

    constructor (host: string, port: int, db: int, timeout: int, password: Option<string>,
                 key: string, dataType: string, maxRetries: int, parse: Parser)
      ensures this.host == host && this.port == port && this.db == db && this.timeout == timeout
      ensures this.password == password && this.key == key && this.dataType == dataType
      ensures this.maxRetries == maxRetries && this.parse == parse
      ensures redis == None && retries == maxRetries && output == []
    {
      this.host, this.port, this.db, this.timeout := host, port, db, timeout;
      this.password, this.key, this.dataType := password, key, dataType;
      this.maxRetries, this.parse := maxRetries, parse;
      redisUrl := "";
      redis := None;
      retries := maxRetries;
      output := [];
    }

    /** `register`: no handle is held yet, and the URL is built. */
    method Register()
      modifies this`redis, this`redisUrl
      ensures redis == None
      ensures redisUrl == Naming.RedisUrl(password, host, port, db)
      ensures Naming.UrlPort(redisUrl) == Some(port) && Naming.UrlDb(redisUrl) == Some(db)
    {
      redis := None;
      redisUrl := Naming.RedisUrl(password, host, port, db);
      Naming.UrlNamesPortAndDb(password, host, port, db);
    }

    /** `queue_event`: append the decoded event, or swallow the decode error. */
    method QueueEvent(msg: string)
      modifies this`output
      ensures output == Enqueue(parse, old(output), msg)
    {
      match parse(msg)
      case Some(e) =>
        output := output + [e];
      case None =>
        // the error is logged and dropped
    }

    /** `@redis ||= connect` while no handle is held, answered by `o` at
        trace position `pos`: anything but a successful connect raises. */
    method Connect(pos: nat, o: Outcome) returns (raised: bool)
      requires redis.None?
      modifies this`redis
      ensures raised <==> !o.ConnectOk?
      ensures redis == if raised then None else Some(Handle(pos))
    {
      raised := !o.ConnectOk?;
      if !raised {
        redis := Some(Handle(pos));
      }
    }

    /** `list_listener`: `blpop` answered by `o`. On an item the `yield`
        block resets the counter, then the payload is queued. */
    method ListListener(o: Outcome) returns (raised: bool)
      requires redis.Some?
      modifies this`retries, this`output
      ensures raised <==> !o.Item?
      ensures raised ==> retries == old(retries) && output == old(output)
      ensures !raised ==> retries == maxRetries && output == Enqueue(parse, old(output), o.payload)
    {
      raised := !o.Item?;
      if !raised {
        retries := maxRetries;   // yield
        QueueEvent(o.payload);
      }
    }

    /** `channel_listener`: one delivery `o` of the blocking `subscribe`
        call, handled by the matching `on` block. `returned` says the
        subscription ended, so that `subscribe` returns. */
    method ChannelListener(o: Outcome) returns (raised: bool, returned: bool)
      requires redis.Some?
      modifies this`retries, this`output
      ensures raised <==> !IsReply(ChannelMode, true, o)
      ensures returned <==> o.Unsubscribed?
      ensures retries == if o.Subscribed? then maxRetries else old(retries)
      ensures output == if o.Message? then Enqueue(parse, old(output), o.payload) else old(output)
    {
      raised, returned := false, false;
      match o
      case Subscribed =>
        retries := maxRetries;   // on.subscribe: yield
      case Message(payload) =>
        QueueEvent(payload);     // on.message
      case Unsubscribed =>
        returned := true;        // on.unsubscribe
      case _ =>
        raised := true;
    }

    /** The `rescue` clause of `listener_loop`. */
    method Rescue() returns (gaveUp: bool)
      modifies this`redis, this`retries
      ensures State(gaveUp) == Supervisor.Rescue(old(State(false)))
    {
      if retries <= 0 {
        gaveUp := true;          // raise RuntimeError
        return;
      }
      redis := None;
      retries := retries - 1;
      gaveUp := false;           // sleep(1); retry
    }

    /** `listener_loop` over the client's answers `trace`: it stops when the
        trace runs out or when it raises the fatal error, in the state the
        supervisor machine reaches from the current handle and queue. */
    method ListenerLoop(mode: Mode, trace: seq<Outcome>) returns (stop: Stop)
      modifies this`redis, this`retries, this`output
      ensures State(stop.Raised?) ==
              Supervisor.Run(Setup(mode), Supervisor.Machine(old(redis), maxRetries, old(output), false), 0, trace)
      ensures stop.Raised? ==> stop.message == Supervisor.FatalMessage
    {
      ghost var start := Supervisor.Machine(redis, maxRetries, output, false);
      retries := maxRetries;     // loop do; retries = @retries
      var i := 0;
      while i < |trace|
        invariant 0 <= i <= |trace|
        invariant Supervisor.Run(Setup(mode), start, 0, trace) ==
                  Supervisor.Run(Setup(mode), State(false), i, trace[i..])
      {
        ghost var before := State(false);
        var o := trace[i];
        var raised, returned := false, false;
        if redis.None? {
          raised := Connect(i, o);
        } else if mode == ListMode {
          raised := ListListener(o);
          returned := !raised;
        } else {
          raised, returned := ChannelListener(o);
        }
        if raised {
          var gaveUp := Rescue();
          if gaveUp {
            assert State(true) == Supervisor.Step(Setup(mode), before, i, o);
            assert trace[i..][0] == o;
            return Raised(Supervisor.FatalMessage);
          }
        } else if returned {
          retries := maxRetries; // the listener returned: next `loop do` iteration
        }
        assert State(false) == Supervisor.Step(Setup(mode), before, i, o);
        assert trace[i..][0] == o && trace[i..][1..] == trace[i + 1..];
        i := i + 1;
      }
      stop := Waiting;
    }

    /** `run`: the listener is chosen by `data_type`. */
    method Run(trace: seq<Outcome>) returns (stop: Stop)
      modifies this`redis, this`retries, this`output
      ensures State(stop.Raised?) ==
              Supervisor.Run(Setup(SelectListener(dataType)),
                             Supervisor.Machine(old(redis), maxRetries, old(output), false), 0, trace)
      ensures stop.Raised? ==> stop.message == Supervisor.FatalMessage
    {
      if dataType == "list" {
        stop := ListenerLoop(ListMode, trace);
      } else {
        stop := ListenerLoop(ChannelMode, trace);
      }
    }

    /** `teardown`: unsubscribe exactly when in channel mode with a handle
        held; list mode has nothing to unregister. */
    method Teardown() returns (unsubscribe: bool)
      ensures unsubscribe <==> dataType == "channel" && redis.Some?
    {
      unsubscribe := dataType == "channel" && redis.Some?;
    }

    /** `identity`, for log messages: the URL, a space, then `data_type:key`.
        Each part stands at its place; the key also reads back as the text
        after the last ':' when it holds no ':' itself. */
    function Identity(): (id: string)
      reads this
      ensures |id| == |redisUrl| + |dataType| + |key| + 2
      ensures id[..|redisUrl| + 1] == redisUrl + " "
      ensures id[|redisUrl| + 1..|redisUrl| + 1 + |dataType|] == dataType
      ensures id[|redisUrl| + 1 + |dataType|] == ':'
      ensures id[|redisUrl| + |dataType| + 2..] == key
      ensures ':' !in key ==> Naming.IdentityKey(id) == key
    {
      var id := redisUrl + " " + dataType + ":" + key;
      assert id == (redisUrl + " " + dataType) + [':'] + key;
      if ':' in key then id
      else
        Naming.LastIndexBefore(redisUrl + " " + dataType, ':', key);
        id
    }
  }
}
