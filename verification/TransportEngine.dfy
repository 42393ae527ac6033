/**
 The engine: a loop that takes commands one at a time, drives the vsomeip application, and remembers in
 four key sets what it has already offered or requested. vsomeip itself is a log of the calls made on it.
 */
module TransportEngine {
  import opened Common
  import opened Uris
  import opened Messages
  import opened MessageType
  import opened HandlerTables
  import opened RpcCorrelation
  import opened MessageConversions

  const ANY_INSTANCE: U16 := 0xFFFF
  const ANY_MAJOR: U8 := 0xFF
  const ANY_MINOR: U32 := 0xFFFF_FFFF
  const DEFAULT_MINOR: U32 := 0

  /** Service, instance, and method or event. */
  datatype Key = Key(service: U16, instance: U16, item: U16)

  datatype VsomeipCall =
    | OfferService(service: U16, instance: U16, major: U8, minor: U32)
    | RequestService(service: U16, instance: U16, major: U8, minor: U32)
    | OfferEvent(key: Key, eventgroup: U16)
    | RequestEvent(key: Key, eventgroup: U16)
    | Subscribe(key: Key, major: U8, eventgroup: U16)
    | RegisterHandler(key: Key, handler: HandlerId)
    | UnregisterHandler(key: Key)
    | Notify(key: Key)
    | SendMessage(msg: SomeIpMessage)
    | StopApp

  datatype Command =
    | RegisterListener(source: UUri, sink: Option<UUri>, kind: RegistrationType, handler: HandlerId)
    | UnregisterListener(source: UUri, sink: Option<UUri>, kind: RegistrationType)
    | Send(message: UMessage, kind: RegistrationType)
    | StartVsomeipApp
    | StopVsomeipApp

  /**
   What a command finds in the outside world: whether the application exists, its client id, and how
   starting it goes.
   */
  datatype Env = Env(appFound: bool, client: U16, startResult: Status)

  datatype Caches = Caches(offeredServices: set<Key>, requestedServices: set<Key>, offeredEvents: set<Key>,
      requestedEvents: set<Key>)

  datatype EngineState = EngineState(caches: Caches, rpc: Correlation, calls: seq<VsomeipCall>)

  const INITIAL_ENGINE := EngineState(Caches({}, {}, {}, {}), EMPTY_CORRELATION, [])

  // ---------------------------------------------------------------- what each command does

  function EventKey(uri: UUri): (key: Key)
    ensures key == Key(uri.ueId % 0x1_0000, 1, uri.resource % 0x1_0000)
  {
    Key(ServiceOf(uri), INSTANCE, MethodOf(uri))
  }

  function HandlerKey(uri: UUri): (key: Key)
    ensures key == Key(uri.ueId % 0x1_0000, 0xFFFF, uri.resource % 0x1_0000)
  {
    Key(ServiceOf(uri), ANY_INSTANCE, MethodOf(uri))
  }

  function RegisterInternal(st: EngineState, source: UUri, sink: Option<UUri>, kind: RegistrationType,
                            handler: HandlerId): (EngineState, Status) {
    match kind
    case Publish =>
      var key := EventKey(source);
      var requests := if key in st.caches.requestedEvents then [] else
        [RequestService(key.service, INSTANCE, ANY_MAJOR, ANY_MINOR), RequestEvent(key, key.item),
            Subscribe(key, ANY_MAJOR, key.item)];
      (st.(caches := st.caches.(requestedEvents := st.caches.requestedEvents + {key}),
           calls := st.calls + requests + [RegisterHandler(key, handler)]), Ok(Unit))
    case Request =>
      if sink.None? then (st, Err(INVALID_ARGUMENT))
      else
        var key := EventKey(sink.value);
        var offers := if key in st.caches.offeredServices then [] else
          [OfferService(key.service, INSTANCE, VersionOf(sink.value), DEFAULT_MINOR)];
        (st.(caches := st.caches.(offeredServices := st.caches.offeredServices + {key}),
             calls := st.calls + offers + [RegisterHandler(HandlerKey(sink.value), handler)]), Ok(Unit))
    case Response =>
      var key := HandlerKey(source);
      var requests := if key in st.caches.requestedServices then [] else
        [RequestService(key.service, ANY_INSTANCE, ANY_MAJOR, ANY_MINOR)];
      (st.(caches := st.caches.(requestedServices := st.caches.requestedServices + {key}),
           calls := st.calls + requests + [RegisterHandler(key, handler)]), Ok(Unit))
    case AllPointToPoint => (st, Err(INTERNAL))
  }

  function UnregisterInternal(st: EngineState, source: UUri, sink: Option<UUri>,
                              kind: RegistrationType): (EngineState, Status) {
    match kind
    case Publish => (st.(calls := st.calls + [UnregisterHandler(HandlerKey(source))]), Ok(Unit))
    case AllPointToPoint => (st, Err(INTERNAL))
    case _ =>
      if sink.None? then (st, Err(INVALID_ARGUMENT))
      else (st.(calls := st.calls + [UnregisterHandler(HandlerKey(sink.value))]), Ok(Unit))
  }

  /** A published event is offered before its first notification. */
  function PublishOut(st: EngineState, umsg: UMessage): (EngineState, Result<Key, UCode>) {
    if umsg.source.None? then (st, Err(INVALID_ARGUMENT))
    else
      var key := EventKey(umsg.source.value);
      var offers := if key in st.caches.offeredEvents then [] else
        [OfferService(key.service, INSTANCE, ANY_MAJOR, ANY_MINOR), OfferEvent(key, key.item)];
      (st.(caches := st.caches.(offeredEvents := st.caches.offeredEvents + {key}), calls := st.calls + offers), Ok(key))
  }

  function SendInternal(st: EngineState, umsg: UMessage, client: U16): (EngineState, Status) {
    match umsg.kind
    case UNSPECIFIED => (st, Err(INVALID_ARGUMENT))
    case NOTIFICATION => (st, Err(INVALID_ARGUMENT))
    case PUBLISH =>
      var (st', key) := PublishOut(st, umsg);
      if key.Err? then (st', Err(key.error))
      else (st'.(calls := st'.calls + [Notify(key.value)]), Ok(Unit))
    case REQUEST =>
      var (rpc', r) := RequestOut(st.rpc, umsg, client);
      if r.Err? then (st.(rpc := rpc'), Err(r.error))
      else (st.(rpc := rpc', calls := st.calls + [SendMessage(r.value)]), Ok(Unit))
    case RESPONSE =>
      var (rpc', r) := ResponseOut(st.rpc, umsg);
      if r.Err? then (st.(rpc := rpc'), Err(r.error))
      else (st.(rpc := rpc', calls := st.calls + [SendMessage(r.value)]), Ok(Unit))
  }

  /** Exactly this event is notified, after being offered if it was not before. */
  ghost predicate Notified(st: EngineState, st': EngineState, source: UUri) {
    var key := Key(source.ueId % 0x1_0000, 1, source.resource % 0x1_0000);
    && st'.rpc == st.rpc
    && st'.caches == st.caches.(offeredEvents := st.caches.offeredEvents + {key})
    && st'.calls == st.calls
                    + (if key in st.caches.offeredEvents then []
                       else [OfferService(key.service, 1, 0xFF, 0xFFFF_FFFF), OfferEvent(key, key.item)])
                    + [Notify(key)]
  }

  /** A request goes out to its sink, and is filed under the client's next number to be answered at its source. */
  ghost predicate RequestSent(st: EngineState, st': EngineState, umsg: UMessage, client: U16) {
    && umsg.source.Some? && umsg.sink.Some? && umsg.id.Some?
    && st'.caches == st.caches && st'.rpc.me == st.rpc.me
    && st'.rpc.ue == st.rpc.ue[client * 0x1_0000 + NextSession(st.rpc, client)
                               := Pending(umsg.id.value, umsg.source.value)]
    && |st'.calls| == |st.calls| + 1 && st.calls <= st'.calls && st'.calls[|st.calls|].SendMessage?
    && var msg := st'.calls[|st.calls|].msg;
       msg.kind == MT_REQUEST && msg.instance == 1 && msg.returnCode == E_OK && Addresses(msg, umsg.sink.value)
  }

  /** A response goes out from its source, under the request id of the request it answers, which is then forgotten. */
  ghost predicate ResponseSent(st: EngineState, st': EngineState, umsg: UMessage) {
    && umsg.source.Some? && umsg.reqid.Some? && umsg.reqid.value in st.rpc.me
    && st'.caches == st.caches && st'.rpc == st.rpc.(me := st.rpc.me - {umsg.reqid.value})
    && |st'.calls| == |st.calls| + 1 && st.calls <= st'.calls && st'.calls[|st.calls|].SendMessage?
    && var msg := st'.calls[|st.calls|].msg;
       && msg.RequestId() == st.rpc.me[umsg.reqid.value]
       && msg.client * 0x1_0000 + msg.session == st.rpc.me[umsg.reqid.value]
       && msg.kind == (if umsg.commStatus.Some? then MT_ERROR else MT_RESPONSE)
       && msg.instance == 1 && Addresses(msg, umsg.source.value)
  }

  /** What an acknowledged send has done. */
  ghost predicate SentAsDue(st: EngineState, st': EngineState, umsg: UMessage, client: U16) {
    match umsg.kind
    case PUBLISH => umsg.source.Some? && Notified(st, st', umsg.source.value)
    case REQUEST => RequestSent(st, st', umsg, client)
    case RESPONSE => ResponseSent(st, st', umsg)
    case _ => false
  }

  /** What it takes for a send to be acknowledged. */
  ghost predicate Sendable(st: EngineState, umsg: UMessage, client: U16) {
    match umsg.kind
    case PUBLISH => umsg.source.Some?
    case REQUEST =>
      && umsg.source.Some? && umsg.sink.Some? && umsg.id.Some?
      && client * 0x1_0000 + NextSession(st.rpc, client) !in st.rpc.ue
    case RESPONSE => umsg.source.Some? && umsg.reqid.Some? && umsg.reqid.value in st.rpc.me
    case _ => false
  }

  /** A send is acknowledged exactly if the message can be sent, and then the message due goes out. */
  lemma SendsWhatIsDue(st: EngineState, umsg: UMessage, client: U16)
    ensures var (st', r) := SendInternal(st, umsg, client);
            && (r.Ok? <==> Sendable(st, umsg, client))
            && (r.Ok? ==> SentAsDue(st, st', umsg, client))
            && (r.Err? ==> st'.calls == st.calls && st'.caches == st.caches)
  {
    match umsg.kind
    case PUBLISH =>
    case REQUEST =>
    case RESPONSE =>
      if Sendable(st, umsg, client) {
        JoinSplitInverse(0, 0, st.rpc.me[umsg.reqid.value]);
      }
    case _ =>
  }

  /** One turn of the loop: the state after it and the one reply it gives. */
  function Handle(st: EngineState, command: Command, env: Env): (EngineState, Status) {
    match command
    case StartVsomeipApp => (st, env.startResult)
    case _ =>
      if !env.appFound then (st, Err(INTERNAL))
      else
        match command
        case RegisterListener(source, sink, kind, handler) => RegisterInternal(st, source, sink, kind, handler)
        case UnregisterListener(source, sink, kind) => UnregisterInternal(st, source, sink, kind)
        case Send(umsg, _) => SendInternal(st, umsg, env.client)
        case _ => (st.(calls := st.calls + [StopApp]), Ok(Unit))
  }

  function StateAfter(st: EngineState, commands: seq<(Command, Env)>): EngineState {
    if commands == [] then st
    else
      var n := |commands| - 1;
      Handle(StateAfter(st, commands[..n]), commands[n].0, commands[n].1).0
  }

  lemma OneMoreCommand(st: EngineState, commands: seq<(Command, Env)>, n: nat)
    requires n < |commands|
    ensures StateAfter(st, commands[..n + 1]) == Handle(StateAfter(st, commands[..n]), commands[n].0, commands[n].1).0
  {
    assert commands[..n + 1][..n] == commands[..n];
  }

  // ---------------------------------------------------------------- the queue

  type ChannelId = int

  /** A command in the queue: every kind of command carries the channel on which its sender waits. */
  datatype Posted = Posted(command: Command, env: Env, returnChannel: ChannelId)

  /** What was sent back: the channel used and the result put on it. */
  datatype Reply = Reply(channel: ChannelId, result: Status)

  function Commands(queue: seq<Posted>): (commands: seq<(Command, Env)>)
    ensures |commands| == |queue|
    ensures forall i | 0 <= i < |queue| :: commands[i] == (queue[i].command, queue[i].env)
  {
    seq(|queue|, i requires 0 <= i < |queue| => (queue[i].command, queue[i].env))
  }

  /** The answer to the i-th command, in the state that the commands before it left. */
  function AnswerTo(st: EngineState, queue: seq<Posted>, i: nat): Status
    requires i < |queue|
  {
    Handle(StateAfter(st, Commands(queue)[..i]), queue[i].command, queue[i].env).1
  }

  /** One result for each command, on its own channel and in the order of arrival. */
  function OneReplyPerCommand(st: EngineState, queue: seq<Posted>): (replies: seq<Reply>)
    ensures |replies| == |queue|
  {
    seq(|queue|, i requires 0 <= i < |queue| => Reply(queue[i].returnChannel, AnswerTo(st, queue, i)))
  }

  /** What handling the next command must come to. */
  lemma OneMoreDue(start: EngineState, queue: seq<Posted>, next: nat, st: EngineState)
    requires next < |queue| && st == StateAfter(start, Commands(queue)[..next])
    ensures var (st', r) := Handle(st, queue[next].command, queue[next].env);
            && StateAfter(start, Commands(queue)[..next + 1]) == st'
            && OneReplyPerCommand(start, queue)[..next + 1]
               == OneReplyPerCommand(start, queue)[..next] + [Reply(queue[next].returnChannel, r)]
  {
    OneMoreCommand(start, Commands(queue), next);
  }

  /** No two commands are waited for on the same channel. */
  predicate OwnChannels(queue: seq<Posted>) {
    forall i, j | 0 <= i < j < |queue| :: queue[i].returnChannel != queue[j].returnChannel
  }

  /** Whoever waits for a command receives one reply, its own, and nobody receives another's. */
  predicate EachSenderRepliedOnce(queue: seq<Posted>, log: seq<Reply>) {
    && |log| == |queue|
    && forall i, k | 0 <= i < |queue| && 0 <= k < |log| :: log[k].channel == queue[i].returnChannel <==> k == i
  }

  lemma OwnChannelsSuffice(st: EngineState, queue: seq<Posted>)
    ensures OwnChannels(queue) <==> EachSenderRepliedOnce(queue, OneReplyPerCommand(st, queue))
  {
    var log := OneReplyPerCommand(st, queue);
    if EachSenderRepliedOnce(queue, log) {
      forall i, j | 0 <= i < j < |queue|
        ensures queue[i].returnChannel != queue[j].returnChannel
      {
        assert log[j].channel == queue[j].returnChannel;
      }
    }
    if OwnChannels(queue) {
      forall i, k | 0 <= i < |queue| && 0 <= k < |log|
        ensures log[k].channel == queue[i].returnChannel <==> k == i
      {
        assert log[k].channel == queue[k].returnChannel;
      }
    }
  }

  // ---------------------------------------------------------------- the objects

  /** The vsomeip application: nothing is known of it but the calls it has received. */
  class VsomeipApplication {
    var calls: seq<VsomeipCall>

    constructor ()
      ensures calls == []
    {
      calls := [];
    }

    method Call(c: VsomeipCall)
      modifies this
      ensures calls == old(calls) + [c]
    {
      calls := calls + [c];
    }
  }

  class InMemoryVsomeipOfferedRequestedRegistry {
    var offeredServices: set<Key>
    var requestedServices: set<Key>
    var offeredEvents: set<Key>
    var requestedEvents: set<Key>

    ghost function View(): Caches
      reads this
    {
      Caches(offeredServices, requestedServices, offeredEvents, requestedEvents)
    }

    constructor ()
      ensures View() == Caches({}, {}, {}, {})
    {
      offeredServices, requestedServices, offeredEvents, requestedEvents := {}, {}, {}, {};
    }

    method InsertServiceOffered(key: Key) returns (isNew: bool)
      modifies this`offeredServices
      ensures isNew <==> key !in old(offeredServices)
      ensures offeredServices == old(offeredServices) + {key}
    {
      isNew := key !in offeredServices;
      offeredServices := offeredServices + {key};
    }

    method InsertServiceRequested(key: Key) returns (isNew: bool)
      modifies this`requestedServices
      ensures isNew <==> key !in old(requestedServices)
      ensures requestedServices == old(requestedServices) + {key}
    {
      isNew := key !in requestedServices;
      requestedServices := requestedServices + {key};
    }

    method InsertEventOffered(key: Key) returns (isNew: bool)
      modifies this`offeredEvents
      ensures isNew <==> key !in old(offeredEvents)
      ensures offeredEvents == old(offeredEvents) + {key}
    {
      isNew := key !in offeredEvents;
      offeredEvents := offeredEvents + {key};
    }

    method InsertEventRequested(key: Key) returns (isNew: bool)
      modifies this`requestedEvents
      ensures isNew <==> key !in old(requestedEvents)
      ensures requestedEvents == old(requestedEvents) + {key}
    {
      isNew := key !in requestedEvents;
      requestedEvents := requestedEvents + {key};
    }
  }

  class UPTransportVsomeipEngine {
    const offered: InMemoryVsomeipOfferedRequestedRegistry
    const rpc: InMemoryRpcCorrelationRegistry
    const app: VsomeipApplication
    /** Everything sent back over the return channels so far. */
    var replies: seq<Reply>

    ghost function View(): EngineState
      reads offered, rpc, app
    {
      EngineState(offered.View(), rpc.View(), app.calls)
    }

    constructor ()
      ensures View() == INITIAL_ENGINE && replies == []
      ensures fresh(offered) && fresh(rpc) && fresh(app)
    {
      offered := new InMemoryVsomeipOfferedRequestedRegistry();
      rpc := new InMemoryRpcCorrelationRegistry();
      app := new VsomeipApplication();
      replies := [];
    }

    method RegisterListenerInternal(source: UUri, sink: Option<UUri>, kind: RegistrationType, handler: HandlerId)
      returns (r: Status)
      modifies offered, app
      ensures (View(), r) == RegisterInternal(old(View()), source, sink, kind, handler)
    {
      match kind {
        case Publish =>
          var key := EventKey(source);
          if key !in offered.requestedEvents {
            app.Call(RequestService(key.service, key.instance, ANY_MAJOR, ANY_MINOR));
            app.Call(RequestEvent(key, key.item));
            app.Call(Subscribe(key, ANY_MAJOR, key.item));
            var isNew := offered.InsertEventRequested(key);
            assert app.calls == old(app.calls)
                + [RequestService(key.service, INSTANCE, ANY_MAJOR, ANY_MINOR), RequestEvent(key, key.item),
                    Subscribe(key, ANY_MAJOR, key.item)];
          } else {
            assert offered.requestedEvents + {key} == offered.requestedEvents && app.calls + [] == app.calls;
          }
          app.Call(RegisterHandler(key, handler));
          r := Ok(Unit);
        case Request =>
          if sink.None? {
            return Err(INVALID_ARGUMENT);
          }
          var key := EventKey(sink.value);
          if key !in offered.offeredServices {
            app.Call(OfferService(key.service, key.instance, VersionOf(sink.value), DEFAULT_MINOR));
            var isNew := offered.InsertServiceOffered(key);
            assert app.calls == old(app.calls)
                + [OfferService(key.service, INSTANCE, VersionOf(sink.value), DEFAULT_MINOR)];
          } else {
            assert offered.offeredServices + {key} == offered.offeredServices && app.calls + [] == app.calls;
          }
          app.Call(RegisterHandler(HandlerKey(sink.value), handler));
          r := Ok(Unit);
        case Response =>
          var key := HandlerKey(source);
          if key !in offered.requestedServices {
            app.Call(RequestService(key.service, key.instance, ANY_MAJOR, ANY_MINOR));
            var isNew := offered.InsertServiceRequested(key);
            assert app.calls == old(app.calls) + [RequestService(key.service, ANY_INSTANCE, ANY_MAJOR, ANY_MINOR)];
          } else {
            assert offered.requestedServices + {key} == offered.requestedServices && app.calls + [] == app.calls;
          }
          app.Call(RegisterHandler(key, handler));
          r := Ok(Unit);
        case AllPointToPoint =>
          r := Err(INTERNAL);
      }
    }

    method UnregisterListenerInternal(source: UUri, sink: Option<UUri>, kind: RegistrationType) returns (r: Status)
      modifies app
      ensures (View(), r) == UnregisterInternal(old(View()), source, sink, kind)
    {
      match kind {
        case Publish =>
          app.Call(UnregisterHandler(HandlerKey(source)));
          r := Ok(Unit);
        case Request =>
          if sink.None? {
            return Err(INVALID_ARGUMENT);
          }
          app.Call(UnregisterHandler(HandlerKey(sink.value)));
          r := Ok(Unit);
        case Response =>
          if sink.None? {
            return Err(INVALID_ARGUMENT);
          }
          app.Call(UnregisterHandler(HandlerKey(sink.value)));
          r := Ok(Unit);
        case AllPointToPoint =>
          r := Err(INTERNAL);
      }
    }

    method UmsgPublishToVsomeipNotification(umsg: UMessage) returns (r: Result<Key, UCode>)
      modifies offered, app
      ensures (View(), r) == PublishOut(old(View()), umsg)
      ensures r.Ok? <==> umsg.source.Some?
      ensures r.Ok? ==>
                r.value == Key(umsg.source.value.ueId % 0x1_0000, 1, umsg.source.value.resource % 0x1_0000)
      ensures r.Ok? ==> OfferEvent(r.value, r.value.item) in app.calls || r.value in old(offered.offeredEvents)
    {
      if umsg.source.None? {
        return Err(INVALID_ARGUMENT);
      }
      var key := EventKey(umsg.source.value);
      if key !in offered.offeredEvents {
        app.Call(OfferService(key.service, key.instance, ANY_MAJOR, ANY_MINOR));
        app.Call(OfferEvent(key, key.item));
        var isNew := offered.InsertEventOffered(key);
        assert app.calls == old(app.calls) + [OfferService(key.service, INSTANCE, ANY_MAJOR, ANY_MINOR),
            OfferEvent(key, key.item)];
      } else {
        assert offered.offeredEvents + {key} == offered.offeredEvents && app.calls + [] == app.calls;
      }
      r := Ok(key);
    }

    method SendInternalMessage(umsg: UMessage, client: U16) returns (r: Status)
      modifies offered, rpc, app
      ensures (View(), r) == SendInternal(old(View()), umsg, client)
      ensures r.Ok? <==> Sendable(old(View()), umsg, client)
      ensures if r.Ok? then SentAsDue(old(View()), View(), umsg, client) else app.calls == old(app.calls)
    {
      SendsWhatIsDue(View(), umsg, client);
      match umsg.kind {
        case UNSPECIFIED => r := Err(INVALID_ARGUMENT);
        case NOTIFICATION => r := Err(INVALID_ARGUMENT);
        case PUBLISH =>
          var key := UmsgPublishToVsomeipNotification(umsg);
          if key.Err? {
            return Err(key.error);
          }
          app.Call(Notify(key.value));
          r := Ok(Unit);
        case REQUEST =>
          var msg := UmsgRequestToVsomeipMessage(umsg, rpc, client);
          if msg.Err? {
            return Err(msg.error);
          }
          app.Call(SendMessage(msg.value));
          r := Ok(Unit);
        case RESPONSE =>
          var msg := UmsgResponseToVsomeipMessage(umsg, rpc);
          if msg.Err? {
            return Err(msg.error);
          }
          app.Call(SendMessage(msg.value));
          r := Ok(Unit);
      }
    }

    method ReturnOneshotResult(result: Status, returnChannel: ChannelId)
      modifies this`replies
      ensures replies == old(replies) + [Reply(returnChannel, result)]
    {
      replies := replies + [Reply(returnChannel, result)];
    }

    method StopVsomeipAppInternal(env: Env) returns (r: Status)
      modifies app
      ensures (View(), r) == Handle(old(View()), StopVsomeipApp, env)
    {
      if !env.appFound {
        return Err(INTERNAL);
      }
      app.Call(StopApp);
      r := Ok(Unit);
    }

    /**
     The command loop. However a command ends, be it on an early `continue` or at the bottom of its branch,
     exactly one result is sent back for it, on its own channel, in the order of arrival, and it is the answer
     of the command's handler in the state that the commands before it left.
     */
    method EventLoop(queue: seq<Posted>)
      modifies this`replies, offered, rpc, app
      ensures View() == StateAfter(old(View()), Commands(queue))
      ensures replies == old(replies) + OneReplyPerCommand(old(View()), queue)
      ensures OwnChannels(queue) <==> EachSenderRepliedOnce(queue, replies[|old(replies)|..])
    {
      ghost var start, sent, commands := View(), replies, Commands(queue);
      ghost var due := OneReplyPerCommand(start, queue);
      var next := 0;
      while next < |queue|
        invariant 0 <= next <= |queue|
        invariant View() == StateAfter(start, commands[..next])
        invariant replies == sent + due[..next]
      {
        var command, env, returnChannel := queue[next].command, queue[next].env, queue[next].returnChannel;
        OneMoreDue(start, queue, next, View());
        next := next + 1;
        match command {
          case RegisterListener(source, sink, kind, handler) =>
            if !env.appFound {
              ReturnOneshotResult(Err(INTERNAL), returnChannel);
              continue;
            }
            var res := RegisterListenerInternal(source, sink, kind, handler);
            ReturnOneshotResult(res, returnChannel);
          case UnregisterListener(source, sink, kind) =>
            if !env.appFound {
              ReturnOneshotResult(Err(INTERNAL), returnChannel);
              continue;
            }
            var res := UnregisterListenerInternal(source, sink, kind);
            ReturnOneshotResult(res, returnChannel);
          case Send(umsg, _) =>
            if !env.appFound {
              ReturnOneshotResult(Err(INTERNAL), returnChannel);
              continue;
            }
            var res := SendInternalMessage(umsg, env.client);
            ReturnOneshotResult(res, returnChannel);
          case StartVsomeipApp =>
            ReturnOneshotResult(env.startResult, returnChannel);
          case StopVsomeipApp =>
            var res := StopVsomeipAppInternal(env);
            ReturnOneshotResult(res, returnChannel);
        }
      }
      assert commands[..|commands|] == commands && due[..|due|] == due;
      assert replies[|sent|..] == due;
      OwnChannelsSuffice(start, queue);
    }
  }
}
