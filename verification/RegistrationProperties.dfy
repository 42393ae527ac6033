/** From a listener to vsomeip and back: what is registered for a URI is what messages to or from that URI reach. */
module RegistrationProperties {
  import opened Common
  import opened Uris
  import opened Messages
  import opened MessageType
  import opened HandlerTables
  import opened RpcCorrelation
  import opened MessageConversions
  import opened TransportEngine
  import opened EngineProperties
  import Transport

  /** vsomeip hands a message to the handlers of its service, instance and method; all bits set match anything. */
  predicate Routes(key: Key, msg: SomeIpMessage) {
    && key.service == msg.service
    && (key.instance == 0xFFFF || key.instance == msg.instance)
    && (key.item == 0xFFFF || key.item == msg.method_)
  }

  /** A command that was acknowledged, and whose last call on vsomeip registers the handler under the key. */
  ghost predicate Handles(commands: seq<(Command, Env)>, command: Command, env: Env, key: Key, handler: HandlerId) {
    var (st', r) := Handle(StateAfter(INITIAL_ENGINE, commands), command, env);
    r.Ok? && st'.calls != [] && st'.calls[|st'.calls| - 1] == RegisterHandler(key, handler)
  }

  /** What vsomeip was asked before the last call. */
  ghost function CallsBefore(commands: seq<(Command, Env)>, command: Command, env: Env): seq<VsomeipCall> {
    var calls := Handle(StateAfter(INITIAL_ENGINE, commands), command, env).0.calls;
    if calls == [] then [] else calls[..|calls| - 1]
  }

  /** The key under which a configured service is handled: any instance, any method. */
  lemma ServiceIsServed(commands: seq<(Command, Env)>, command: Command, env: Env, authority: string,
                        service: Transport.ServiceConfig, id: HandlerId)
    requires Transport.RegistersService(command, authority, service, id) && env.appFound
    ensures var key := Key(service.service, 0xFFFF, 0xFFFF);
            && Handles(commands, command, env, key, id)
            && ServiceWasOffered(CallsBefore(commands, command, env), service.service)
            && forall msg: SomeIpMessage :: Routes(key, msg) <==> msg.service == service.service
  {
    RegistrationsAreFed(commands, command.source, command.sink, command.kind, id, env);
  }

  /**
   A listener on a sink that is not where responses go leads to an offer of the sink's service, and its
   handler is reached by exactly the requests for the sink's entity and, unless it is the wildcard, resource,
   as far as SOME/IP transmits them.
   */
  lemma RequestReachesListener(commands: seq<(Command, Env)>, env: Env, source: UUri, sink: UUri, id: HandlerId,
                               c: Correlation, request: UMessage, client: U16)
    requires sink.resource != 0 && !(IsStreamer(source) && IsStreamer(sink)) && env.appFound
    requires RequestOut(c, request, client).1.Ok?
    ensures var kind := DetermineType(source, Some(sink));
            var command := RegisterListener(source, Some(sink), kind, id);
            var key := Key(sink.ueId % 0x1_0000, 0xFFFF, sink.resource % 0x1_0000);
            && kind == Request && Handles(commands, command, env, key, id)
            && ServiceWasOffered(CallsBefore(commands, command, env), sink.ueId % 0x1_0000)
    ensures var key := Key(sink.ueId % 0x1_0000, 0xFFFF, sink.resource % 0x1_0000);
            var asked := request.sink.value;
            Routes(key, RequestOut(c, request, client).1.value)
            <==> && asked.ueId % 0x1_0000 == sink.ueId % 0x1_0000
                 && (sink.resource % 0x1_0000 == 0xFFFF || asked.resource % 0x1_0000 == sink.resource % 0x1_0000)
  {
    RegistrationsAreFed(commands, source, Some(sink), Request, id, env);
  }

  /**
   The registration made for the response to a request asks for the service of the URI asked, and its handler
   is reached by exactly the responses from that URI, as far as SOME/IP transmits it. Filters so swapped
   classify as Response, as they are registered, exactly if the asker's resource is 0.
   */
  lemma AnswerReachesAsker(commands: seq<(Command, Env)>, env: Env, source: UUri, sink: UUri, id: HandlerId,
                           c: Correlation, answer: UMessage)
    requires DetermineType(source, Some(sink)) == Request && env.appFound
    requires ResponseOut(c, answer).1.Ok?
    ensures var command := RegisterListener(sink, Some(source), Response, id);
            var key := Key(sink.ueId % 0x1_0000, 0xFFFF, sink.resource % 0x1_0000);
            && Handles(commands, command, env, key, id)
            && RequestService(key.service, 0xFFFF, 0xFF, 0xFFFF_FFFF) in CallsBefore(commands, command, env)
    ensures var key := Key(sink.ueId % 0x1_0000, 0xFFFF, sink.resource % 0x1_0000);
            var from := answer.source.value;
            Routes(key, ResponseOut(c, answer).1.value)
            <==> && from.ueId % 0x1_0000 == sink.ueId % 0x1_0000
                 && (sink.resource % 0x1_0000 == 0xFFFF || from.resource % 0x1_0000 == sink.resource % 0x1_0000)
    ensures DetermineType(sink, Some(source)) == Response <==> source.resource == 0
  {
    RegistrationsAreFed(commands, sink, Some(source), Response, id, env);
    SwappedIsResponse(source, sink);
  }

  /** The engine has the event of a publication offered before it notifies it, and notifies nothing else. */
  lemma PublicationIsNotified(commands: seq<(Command, Env)>, env: Env, umsg: UMessage, kind: RegistrationType)
    requires umsg.kind == PUBLISH && umsg.source.Some? && env.appFound
    ensures var (st', r) := Handle(StateAfter(INITIAL_ENGINE, commands), Send(umsg, kind), env);
            var key := Key(umsg.source.value.ueId % 0x1_0000, 1, umsg.source.value.resource % 0x1_0000);
            && r.Ok? && st'.calls != [] && st'.calls[|st'.calls| - 1] == Notify(key)
            && OfferEvent(key, key.item) in CallsBefore(commands, Send(umsg, kind), env)
  {
    var st := StateAfter(INITIAL_ENGINE, commands);
    SendsWhatIsDue(st, umsg, env.client);
    AgreesAlways(commands + [(Send(umsg, kind), env)]);
    assert (commands + [(Send(umsg, kind), env)])[..|commands|] == commands;
  }

  /**
   A publication reaches exactly the handlers of listeners on its entity and resource, as far as SOME/IP
   transmits them, which have subscribed before; and they hear that URI, in version 1.
   */
  lemma PublicationReachesListener(commands: seq<(Command, Env)>, env: Env, filter: UUri, id: HandlerId,
                                   publisher: UUri, c: Correlation, self: Endpoint, b: Builder)
    requires env.appFound && b.uriOk && b.buildOk
    ensures var command := RegisterListener(filter, None, DetermineType(filter, None), id);
            var key := Key(filter.ueId % 0x1_0000, 1, filter.resource % 0x1_0000);
            && Handles(commands, command, env, key, id)
            && Subscribe(key, 0xFF, key.item) in CallsBefore(commands, command, env)
    ensures var (key, sent) := (Key(filter.ueId % 0x1_0000, 1, filter.resource % 0x1_0000),
                                NotificationOf(publisher.ueId % 0x1_0000, 1, publisher.resource % 0x1_0000));
            && (Routes(key, sent)
                <==> && publisher.ueId % 0x1_0000 == key.service
                     && (key.item == 0xFFFF || publisher.resource % 0x1_0000 == key.item))
            && MessageIn(c, sent, true, self, b).1.Ok?
            && MessageIn(c, sent, true, self, b).1.value.source
               == Some(UUri(self.remoteAuthority, publisher.ueId % 0x1_0000, 1, publisher.resource % 0x1_0000))
  {
    RegistrationsAreFed(commands, filter, None, Publish, id, env);
    NotificationHeard(c, publisher, self, b);
  }

  /** The key set that registrations of a kind look at. */
  function KeysFor(kind: RegistrationType, caches: Caches): set<Key> {
    match kind
    case Publish => caches.requestedEvents
    case Request => caches.offeredServices
    case Response => caches.requestedServices
    case AllPointToPoint => {}
  }

  /** What vsomeip is asked for the first registration of a kind for a URI. */
  function CallsFor(kind: RegistrationType, uri: UUri): seq<VsomeipCall> {
    var (s, m) := (uri.ueId % 0x1_0000, uri.resource % 0x1_0000);
    match kind
    case Publish =>
      [RequestService(s, 1, 0xFF, 0xFFFF_FFFF), RequestEvent(Key(s, 1, m), m), Subscribe(Key(s, 1, m), 0xFF, m)]
    case Request => [OfferService(s, 1, uri.version % 0x100, 0)]
    case Response => [RequestService(s, 0xFFFF, 0xFF, 0xFFFF_FFFF)]
    case AllPointToPoint => []
  }

  /**
   What a registration leaves in the key sets, and what it asks of vsomeip if the key is new: exactly the
   service, event and version of the URI it is for.
   */
  lemma RegistrationIsRemembered(st: EngineState, source: UUri, sink: Option<UUri>, kind: RegistrationType,
                                 handler: HandlerId)
    requires RegisterInternal(st, source, sink, kind, handler).1.Ok?
    ensures var st' := RegisterInternal(st, source, sink, kind, handler).0;
            var uri := if kind == Request then sink.value else source;
            var key := Key(uri.ueId % 0x1_0000, if kind == Response then 0xFFFF else 1, uri.resource % 0x1_0000);
            && st'.calls != [] && st'.rpc == st.rpc
            && KeysFor(kind, st'.caches) == KeysFor(kind, st.caches) + {key}
            && (forall other | other != kind :: KeysFor(other, st'.caches) == KeysFor(other, st.caches))
            && st'.caches.offeredEvents == st.caches.offeredEvents
            && st'.calls[..|st'.calls| - 1]
               == st.calls + (if key in KeysFor(kind, st.caches) then [] else CallsFor(kind, uri))
  {
  }
}
